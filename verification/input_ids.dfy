/**
 * The id rule of the `Input` component (src/components/ui/Input/Input.tsx): the input's id, its
 * helper text's id and the `aria-describedby` it announces.
 */
module InputIds {
  import opened Wrappers
  import opened Strings

  /** No character of `s` is white space. */
  predicate NoWhitespace(s: string) {
    forall i :: 0 <= i < |s| ==> !IsWhitespace(s[i])
  }

  /** `s.replace(/\s+/g, '-')`: every maximal run of white space becomes one `-`. */
  function CollapseWhitespace(s: string): (r: string)
    ensures NoWhitespace(r)
    ensures |r| <= |s|
    decreases |s|
  {
    if s == [] then []
    else if IsWhitespace(s[0]) then "-" + CollapseWhitespace(TrimStart(s))
    else [s[0]] + CollapseWhitespace(s[1..])
  }

  /** Text without white space is left alone, so collapsing twice is collapsing once. */
  lemma {:induction false} CollapseKeepsPlainText(s: string)
    requires NoWhitespace(s)
    ensures CollapseWhitespace(s) == s
    decreases |s|
  {
    if s != [] {
      CollapseKeepsPlainText(s[1..]);
    }
  }

  /** A run of white space between two words leaves exactly one `-` there. */
  lemma {:induction false} RunBecomesOneDash(w: string, run: string, rest: string)
    requires NoWhitespace(w) && run != [] && forall i :: 0 <= i < |run| ==> IsWhitespace(run[i])
    requires rest == [] || !IsWhitespace(rest[0])
    ensures CollapseWhitespace(w + run + rest) == w + "-" + CollapseWhitespace(rest)
    decreases |w| + |run|
  {
    if w == [] {
      assert w + run + rest == run + rest;
      DropRun(run, rest);
    } else {
      assert (w + run + rest)[0] == w[0];
      assert (w + run + rest)[1..] == w[1..] + run + rest;
      RunBecomesOneDash(w[1..], run, rest);
    }
  }

  lemma {:induction false} DropRun(run: string, rest: string)
    requires forall i :: 0 <= i < |run| ==> IsWhitespace(run[i])
    requires rest == [] || !IsWhitespace(rest[0])
    ensures TrimStart(run + rest) == rest
    decreases |run|
  {
    if run == [] {
      assert run + rest == rest;
    } else {
      assert (run + rest)[1..] == run[1..] + rest;
      DropRun(run[1..], rest);
    }
  }

  /** `input-` + the lowercased label with its white-space runs made dashes. */
  function DerivedId(labelText: string): (r: string)
    ensures StartsWith(r, "input-") && NoWhitespace(r)
  {
    var slug := CollapseWhitespace(ToLower(labelText));
    assert forall i :: 0 <= i < 6 ==> ("input-" + slug)[i] == "input-"[i];
    "input-" + slug
  }

  /** `id || derived id`: a non-empty explicit id is used unchanged. */
  function InputId(id: Option<string>, labelText: string): (r: string)
    ensures id.Some? && id.value != "" ==> r == id.value
    ensures !(id.Some? && id.value != "") ==> r == DerivedId(labelText) && StartsWith(r, "input-") && NoWhitespace(r)
  {
    if id.Some? && id.value != "" then id.value else DerivedId(labelText)
  }

  /** The helper text's id exists exactly when there is helper text. */
  function HelperTextId(inputId: string, helperText: Option<string>): (r: Option<string>)
    ensures r.Some? <==> helperText.Some? && helperText.value != ""
    ensures r.Some? ==> r.value == inputId + "-helper-text"
  {
    if helperText.Some? && helperText.value != "" then Some(inputId + "-helper-text") else None
  }

  /** `ariaDescribedBy || helperTextId`. */
  function AriaDescribedBy(explicit: Option<string>, helperTextId: Option<string>): (r: Option<string>)
    ensures explicit.Some? && explicit.value != "" ==> r == explicit
    ensures !(explicit.Some? && explicit.value != "") ==> r == helperTextId
  {
    if explicit.Some? && explicit.value != "" then explicit else helperTextId
  }

  /** Without an explicit value the input is described by its helper text exactly when it has one. */
  lemma {:induction false} DescribedByHelperText(id: Option<string>, labelText: string, helperText: Option<string>)
    ensures var inputId := InputId(id, labelText);
            var described := AriaDescribedBy(None, HelperTextId(inputId, helperText));
            (described.Some? <==> helperText.Some? && helperText.value != "") &&
            (described.Some? ==> described.value == inputId + "-helper-text")
  {
  }
}
