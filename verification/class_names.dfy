/**
 * `classNames` (src/utils/classNames.ts): keep the truthy arguments, turn each into its text (an
 * object into its keys with truthy values), drop the empty texts and join with single spaces.
 */
module ClassNames {
  import opened Strings

  /** The argument kinds `classNames` accepts; a record is its entries in order. */
  datatype ClassValue =
    | Text(text: string)
    | Number(n: int)
    | Flag(b: bool)
    | Undefined
    | Null
    | Record(entries: seq<(string, bool)>)

  /** `Boolean(cls)`: an object is always truthy. */
  predicate IsTruthy(c: ClassValue) {
    match c
    case Text(t) => t != ""
    case Number(n) => n != 0
    case Flag(b) => b
    case Undefined => false
    case Null => false
    case Record(_) => true
  }

  /** `.filter(Boolean)` on the arguments. */
  function KeepTruthy(cs: seq<ClassValue>): (r: seq<ClassValue>)
    ensures |r| <= |cs|
    ensures forall i :: 0 <= i < |r| ==> IsTruthy(r[i])
    ensures forall x :: x in r <==> x in cs && IsTruthy(x)
  {
    if cs == [] then []
    else if IsTruthy(cs[0]) then [cs[0]] + KeepTruthy(cs[1..])
    else KeepTruthy(cs[1..])
  }

  /** `Object.entries(cls).filter(([, value]) => Boolean(value)).map(([key]) => key)`. */
  function TrueKeys(entries: seq<(string, bool)>): (r: seq<string>)
    ensures |r| <= |entries|
    ensures forall k :: k in r <==> (k, true) in entries
  {
    if entries == [] then []
    else (if entries[0].1 then [entries[0].0] else []) + TrueKeys(entries[1..])
  }

  /** The `.map` step: a string as is, a number as its decimal text, an object as its joined keys, anything else empty. */
  function ToText(c: ClassValue): string {
    match c
    case Text(t) => t
    case Number(n) => IntToString(n)
    case Record(entries) => Join(" ", TrueKeys(entries))
    case _ => ""
  }

  function MapToText(cs: seq<ClassValue>): (r: seq<string>)
    ensures |r| == |cs|
    ensures forall i :: 0 <= i < |cs| ==> r[i] == ToText(cs[i])
  {
    if cs == [] then [] else [ToText(cs[0])] + MapToText(cs[1..])
  }

  /** `.filter(Boolean)` on the texts. */
  function DropEmpty(ss: seq<string>): (r: seq<string>)
    ensures forall i :: 0 <= i < |r| ==> r[i] != ""
    ensures forall x :: x in r <==> x in ss && x != ""
  {
    if ss == [] then []
    else if ss[0] != "" then [ss[0]] + DropEmpty(ss[1..])
    else DropEmpty(ss[1..])
  }

  /** `classNames(...classes)`: the segments of the arguments, in argument order, joined by single spaces. */
  function ClassNames(cs: seq<ClassValue>): (r: string)
    ensures r == Join(" ", Contributions(cs))
  {
    PipelineIsContributions(cs);
    Join(" ", DropEmpty(MapToText(KeepTruthy(cs))))
  }

  /**
   * What one argument adds, stated directly: a non-empty string as is, a non-zero number as its
   * text, an object its true keys unless that gives nothing; `true`, `false`, `null`, `undefined`,
   * `""` and `0` add nothing.
   */
  function Contribution(c: ClassValue): (r: seq<string>)
    ensures |r| <= 1
    ensures forall i :: 0 <= i < |r| ==> r[i] != ""
  {
    match c
    case Text(t) => if t == "" then [] else [t]
    case Number(n) => if n == 0 then [] else [IntToString(n)]
    case Record(entries) => var j := Join(" ", TrueKeys(entries)); if j == "" then [] else [j]
    case _ => []
  }

  /** Filtering works piece by piece, so the arguments kept stay in their order. */
  lemma {:induction false} KeepTruthyAppend(a: seq<ClassValue>, b: seq<ClassValue>)
    ensures KeepTruthy(a + b) == KeepTruthy(a) + KeepTruthy(b)
    decreases |a|
  {
    if a == [] {
      assert a + b == b;
    } else {
      assert (a + b)[0] == a[0];
      assert (a + b)[1..] == a[1..] + b;
      KeepTruthyAppend(a[1..], b);
    }
  }

  /** The true keys of two entry lists are those of the first followed by those of the second. */
  lemma {:induction false} TrueKeysAppend(a: seq<(string, bool)>, b: seq<(string, bool)>)
    ensures TrueKeys(a + b) == TrueKeys(a) + TrueKeys(b)
    decreases |a|
  {
    if a == [] {
      assert a + b == b;
    } else {
      assert (a + b)[0] == a[0];
      assert (a + b)[1..] == a[1..] + b;
      TrueKeysAppend(a[1..], b);
    }
  }

  /** Dropping empty texts works piece by piece, so the texts kept stay in their order. */
  lemma {:induction false} DropEmptyAppend(a: seq<string>, b: seq<string>)
    ensures DropEmpty(a + b) == DropEmpty(a) + DropEmpty(b)
    decreases |a|
  {
    if a == [] {
      assert a + b == b;
    } else {
      assert (a + b)[0] == a[0];
      assert (a + b)[1..] == a[1..] + b;
      DropEmptyAppend(a[1..], b);
    }
  }

  /** The segments of an argument list, argument by argument. */
  function Contributions(cs: seq<ClassValue>): (r: seq<string>)
    ensures forall i :: 0 <= i < |r| ==> r[i] != ""
  {
    if cs == [] then [] else Contribution(cs[0]) + Contributions(cs[1..])
  }

  /** One argument through the pipeline: a truthy one gives its text unless that is empty. */
  lemma ContributionOf(c: ClassValue)
    ensures Contribution(c) == if IsTruthy(c) && ToText(c) != "" then [ToText(c)] else []
  {
    if c.Number? {
      assert |NatToString(if c.n < 0 then -c.n else c.n)| >= 1;
    }
  }

  /** The filter/map/filter pipeline yields exactly the per-argument segments, in argument order. */
  lemma {:induction false} PipelineIsContributions(cs: seq<ClassValue>)
    ensures DropEmpty(MapToText(KeepTruthy(cs))) == Contributions(cs)
  {
    if cs != [] {
      PipelineIsContributions(cs[1..]);
      ContributionOf(cs[0]);
      if IsTruthy(cs[0]) {
        var texts := MapToText(KeepTruthy(cs[1..]));
        assert KeepTruthy(cs) == [cs[0]] + KeepTruthy(cs[1..]);
        assert MapToText(KeepTruthy(cs)) == [ToText(cs[0])] + texts;
        assert ([ToText(cs[0])] + texts)[1..] == texts;
      }
    }
  }

  lemma {:induction false} ContributionsAppend(a: seq<ClassValue>, b: seq<ClassValue>)
    ensures Contributions(a + b) == Contributions(a) + Contributions(b)
    decreases |a|
  {
    if a == [] {
      assert a + b == b;
    } else {
      assert (a + b)[0] == a[0];
      assert (a + b)[1..] == a[1..] + b;
      ContributionsAppend(a[1..], b);
    }
  }

  /** `x` and `y` joined by a space, where an empty side adds no space. */
  function Spaced(x: string, y: string): string {
    if x == "" then y else if y == "" then x else x + " " + y
  }

  /** `classNames(...a, ...b)` is the two results joined by one space, or whichever is non-empty. */
  lemma {:induction false} ClassNamesAppend(a: seq<ClassValue>, b: seq<ClassValue>)
    ensures ClassNames(a + b) == Spaced(ClassNames(a), ClassNames(b))
  {
    PipelineIsContributions(a);
    PipelineIsContributions(b);
    PipelineIsContributions(a + b);
    ContributionsAppend(a, b);
    JoinEmptyOnlyWhenNoParts(" ", Contributions(a));
    JoinEmptyOnlyWhenNoParts(" ", Contributions(b));
    if Contributions(a) == [] {
      assert Contributions(a) + Contributions(b) == Contributions(b);
    } else if Contributions(b) == [] {
      assert Contributions(a) + Contributions(b) == Contributions(a);
    } else {
      JoinAppend(" ", Contributions(a), Contributions(b));
    }
  }

  /** Falsy arguments, `true`, and objects with no truthy values add nothing on their own. */
  lemma {:induction false} SilentArgument(c: ClassValue)
    requires !IsTruthy(c) || c == Flag(true) || (c.Record? && TrueKeys(c.entries) == [])
    ensures ClassNames([c]) == ""
  {
    PipelineIsContributions([c]);
    assert [c][1..] == [];
    assert Contributions([c]) == [];
  }

  /** ... nor anywhere in a list of arguments; and no arguments give `""`. */
  lemma {:induction false} SilentArguments(c: ClassValue, a: seq<ClassValue>, b: seq<ClassValue>)
    requires !IsTruthy(c) || c == Flag(true) || (c.Record? && TrueKeys(c.entries) == [])
    ensures ClassNames(a + [c] + b) == ClassNames(a + b)
    ensures ClassNames([]) == ""
  {
    SilentArgument(c);
    ClassNamesAppend(a, [c]);
    ClassNamesAppend(a + [c], b);
    ClassNamesAppend(a, b);
  }

  /** Non-empty strings and non-zero numbers appear verbatim, each its own segment, in order. */
  lemma {:induction false} TextsAppearInOrder(cs: seq<ClassValue>)
    requires forall i :: 0 <= i < |cs| ==> cs[i].Text? && cs[i].text != ""
    ensures DropEmpty(MapToText(KeepTruthy(cs))) == seq(|cs|, i requires 0 <= i < |cs| => cs[i].text)
    decreases |cs|
  {
    PipelineIsContributions(cs);
    if cs != [] {
      TextsAppearInOrder(cs[1..]);
      PipelineIsContributions(cs[1..]);
    }
  }
}
