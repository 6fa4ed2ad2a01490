/**
 * `ErrorHandler` (src/utils/errorHandler.ts): a log of the last 50 errors and the message
 * classifiers. The clock, the user agent and the page URL are parameters; console output and the
 * report request are left out, `LogError` only says whether the error would be reported.
 */
module ErrorHandling {
  import opened Wrappers
  import opened Strings

  const MaxErrors: nat := 50

  datatype ErrorInfo = ErrorInfo(
    message: string,
    stack: Option<string>,
    componentStack: Option<string>,
    timestamp: int,
    userAgent: string,
    url: string)

  /** The log after one `push`, and one `shift` if it then holds more than `MaxErrors` entries. */
  function Logged(log: seq<ErrorInfo>, e: ErrorInfo): seq<ErrorInfo> {
    var pushed := log + [e];
    if |pushed| > MaxErrors then pushed[1..] else pushed
  }

  /** The newest `MaxErrors` entries of a history, in order. */
  function Newest(history: seq<ErrorInfo>): (r: seq<ErrorInfo>)
    ensures |r| <= MaxErrors
    ensures |r| == if |history| <= MaxErrors then |history| else MaxErrors
  {
    if |history| <= MaxErrors then history else history[|history| - MaxErrors..]
  }

  /** Logging one by one, starting from `log`. */
  function LogAll(log: seq<ErrorInfo>, es: seq<ErrorInfo>): seq<ErrorInfo>
    decreases |es|
  {
    if es == [] then log else LogAll(Logged(log, es[0]), es[1..])
  }

  /** Dropping a prefix that leaves at least `MaxErrors` entries does not change the newest ones. */
  lemma NewestOfLongSuffix(x: seq<ErrorInfo>, d: nat)
    requires d + MaxErrors <= |x|
    ensures Newest(x[d..]) == Newest(x)
  {
    assert x[d..][|x| - d - MaxErrors..] == x[|x| - MaxErrors..];
  }

  /** Taking the newest entries first and then appending changes nothing about the newest entries. */
  lemma {:induction false} NewestAbsorbs(s: seq<ErrorInfo>, t: seq<ErrorInfo>)
    ensures Newest(Newest(s) + t) == Newest(s + t)
  {
    if |s| > MaxErrors {
      var d := |s| - MaxErrors;
      assert Newest(s) + t == (s + t)[d..];
      NewestOfLongSuffix(s + t, d);
    }
  }

  /** A log of at most `MaxErrors` entries after one more error is the newest part of the history. */
  lemma {:induction false} LoggedIsNewest(log: seq<ErrorInfo>, e: ErrorInfo)
    requires |log| <= MaxErrors
    ensures Logged(log, e) == Newest(log + [e])
    ensures |Logged(log, e)| <= MaxErrors && Logged(log, e)[|Logged(log, e)| - 1] == e
  {
  }

  /**
   * Whatever is logged, a bounded log always holds exactly the newest `MaxErrors` entries of
   * everything logged, in order, the latest last.
   */
  lemma {:induction false} LogKeepsNewest(log: seq<ErrorInfo>, es: seq<ErrorInfo>)
    requires |log| <= MaxErrors
    ensures LogAll(log, es) == Newest(log + es)
    decreases |es|
  {
    if es != [] {
      LoggedIsNewest(log, es[0]);
      LogKeepsNewest(Logged(log, es[0]), es[1..]);
      NewestAbsorbs(log + [es[0]], es[1..]);
      assert log + [es[0]] + es[1..] == log + es;
    }
  }

  /** `isUndefinedError`. */
  predicate IsUndefinedError(message: string) {
    Contains(message, "undefined") || Contains(message, "Cannot read") ||
    Contains(message, "null") || Contains(message, "is not defined")
  }

  /** `isNetworkError`. */
  predicate IsNetworkError(message: string) {
    Contains(message, "Network") || Contains(message, "fetch") ||
    Contains(message, "timeout") || Contains(message, "Failed to fetch")
  }

  /** `shouldReportToServer`: everything except messages mentioning `Network` or `fetch`. */
  predicate ShouldReportToServer(message: string) {
    !(Contains(message, "Network") || Contains(message, "fetch"))
  }

  /** The `Failed to fetch` test adds nothing: such a message already mentions `fetch`. */
  lemma {:induction false} FailedToFetchSubsumed(message: string)
    ensures IsNetworkError(message) <==>
              Contains(message, "Network") || Contains(message, "fetch") || Contains(message, "timeout")
  {
    if Contains(message, "Failed to fetch") {
      assert OccursAt("Failed to fetch", "fetch", 10);
      ContainsTransitive(message, "Failed to fetch", "fetch");
    }
  }

  /** A message that is not reported is a network error; the converse fails for timeouts. */
  lemma {:induction false} UnreportedMeansNetwork(message: string)
    ensures !ShouldReportToServer(message) ==> IsNetworkError(message)
  {
  }

  /** A timeout is a network error and is still reported; so is an error reading a property of nothing. */
  lemma TimeoutAndUndefinedStillReported()
    ensures IsNetworkError("timeout") && ShouldReportToServer("timeout")
    ensures IsUndefinedError("Cannot read") && ShouldReportToServer("Cannot read")
  {
    assert OccursAt("timeout", "timeout", 0);
    assert OccursAt("Cannot read", "Cannot read", 0);
    MissingFirstCharNotContained("timeout", "Network");
    MissingFirstCharNotContained("timeout", "fetch");
    MissingFirstCharNotContained("Cannot read", "Network");
    MissingFirstCharNotContained("Cannot read", "fetch");
  }

  class ErrorHandler {
    var errors: seq<ErrorInfo>

    ghost predicate Valid()
      reads this
    {
      |errors| <= MaxErrors
    }

    constructor()
      ensures Valid() && errors == []
    {
      errors := [];
    }

    /**
     * `logError`: records the error (the newest last, the oldest dropped beyond `MaxErrors`) and
     * says whether it would be reported to the server.
     */
    method LogError(message: string, stack: Option<string>, componentStack: Option<string>,
                    now: int, userAgent: string, url: string) returns (report: bool)
      requires Valid()
      modifies this
      ensures Valid()
      ensures var e := ErrorInfo(message, stack, componentStack, now, userAgent, url);
              errors == Logged(old(errors), e) && errors == Newest(old(errors) + [e])
      ensures errors[|errors| - 1].message == message
      ensures report == ShouldReportToServer(message)
    {
      var e := ErrorInfo(message, stack, componentStack, now, userAgent, url);
      LoggedIsNewest(errors, e);
      errors := errors + [e];
      if |errors| > MaxErrors {
        errors := errors[1..];
      }
      report := ShouldReportToServer(message);
    }

    /** `getErrors`: the entries in the order they were logged (a value; changing it leaves the log alone). */
    method GetErrors() returns (r: seq<ErrorInfo>)
      ensures r == errors
    {
      r := errors;
    }

    method ClearErrors()
      modifies this
      ensures Valid() && errors == []
    {
      errors := [];
    }

    /** `getLastError`: the newest entry, or `null` for an empty log. */
    method GetLastError() returns (r: Option<ErrorInfo>)
      ensures r.None? <==> errors == []
      ensures r.Some? ==> r.value == errors[|errors| - 1]
    {
      if errors == [] {
        return None;
      }
      return Some(errors[|errors| - 1]);
    }
  }
}
