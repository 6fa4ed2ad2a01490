/**
 * `SecurityUtils` (src/utils/security.ts): HTML escaping, input sanitising, the hex encoding of the
 * CSRF token, and the fixed-window rate-limit check over `localStorage`.
 */
module Security {
  import opened Wrappers
  import opened Strings
  import opened LocalStorage

  // ---------------------------------------------------------------- escapeHtml

  /** The five characters `escapeHtml` rewrites. */
  predicate IsHtmlSpecial(c: char) {
    c == '&' || c == '<' || c == '>' || c == '"' || c == '\''
  }

  function EscapeChar(c: char): (r: string)
    ensures |r| >= 1
    ensures !IsHtmlSpecial(c) ==> r == [c]
    ensures IsHtmlSpecial(c) ==> r[0] == '&'
  {
    match c
    case '&' => "&amp;"
    case '<' => "&lt;"
    case '>' => "&gt;"
    case '"' => "&quot;"
    case '\'' => "&#039;"
    case _ => [c]
  }

  /** Markup-sensitive characters cannot survive escaping: the result holds no `<`, `>`, `"` or `'`. */
  function EscapeHtml(s: string): (r: string)
    ensures |r| >= |s|
    ensures forall i :: 0 <= i < |r| ==> r[i] != '<' && r[i] != '>' && r[i] != '"' && r[i] != '\''
  {
    if s == [] then "" else EscapeChar(s[0]) + EscapeHtml(s[1..])
  }

  /** The inverse of `EscapeHtml`: the five entities become their characters again. */
  function UnescapeHtml(s: string): string {
    if s == [] then ""
    else if StartsWith(s, "&amp;") then "&" + UnescapeHtml(s[5..])
    else if StartsWith(s, "&lt;") then "<" + UnescapeHtml(s[4..])
    else if StartsWith(s, "&gt;") then ">" + UnescapeHtml(s[4..])
    else if StartsWith(s, "&quot;") then "\"" + UnescapeHtml(s[6..])
    else if StartsWith(s, "&#039;") then "'" + UnescapeHtml(s[6..])
    else [s[0]] + UnescapeHtml(s[1..])
  }

  lemma UnescapeAfterEscapeChar(c: char, rest: string)
    ensures UnescapeHtml(EscapeChar(c) + rest) == [c] + UnescapeHtml(rest)
  {
    var e := EscapeChar(c);
    var t := e + rest;
    assert t[..|e|] == e && t[|e|..] == rest;
    if c == '&' {
      assert StartsWith(t, "&amp;");
    } else if c == '<' {
      assert t[1] == 'l';
      assert !StartsWith(t, "&amp;");
      assert StartsWith(t, "&lt;");
    } else if c == '>' {
      assert t[1] == 'g';
      assert !StartsWith(t, "&amp;") && !StartsWith(t, "&lt;");
      assert StartsWith(t, "&gt;");
    } else if c == '"' {
      assert t[1] == 'q';
      assert !StartsWith(t, "&amp;") && !StartsWith(t, "&lt;") && !StartsWith(t, "&gt;");
      assert StartsWith(t, "&quot;");
    } else if c == '\'' {
      assert t[1] == '#';
      assert !StartsWith(t, "&amp;") && !StartsWith(t, "&lt;") && !StartsWith(t, "&gt;") && !StartsWith(t, "&quot;");
      assert StartsWith(t, "&#039;");
    } else {
      assert t[0] == c && t[1..] == rest;
      assert !StartsWith(t, "&amp;") && !StartsWith(t, "&lt;") && !StartsWith(t, "&gt;") && !StartsWith(t, "&quot;") && !StartsWith(t, "&#039;");
    }
  }

  /** Escaping loses nothing: unescaping the result gives back the original text. */
  lemma {:induction false} EscapeHtmlRoundTrip(s: string)
    ensures UnescapeHtml(EscapeHtml(s)) == s
  {
    if s != [] {
      UnescapeAfterEscapeChar(s[0], EscapeHtml(s[1..]));
      EscapeHtmlRoundTrip(s[1..]);
    }
  }

  /** Text without special characters is left exactly as it was. */
  lemma {:induction false} EscapeHtmlKeepsPlainText(s: string)
    requires forall i :: 0 <= i < |s| ==> !IsHtmlSpecial(s[i])
    ensures EscapeHtml(s) == s
  {
    if s != [] {
      EscapeHtmlKeepsPlainText(s[1..]);
    }
  }

  // ---------------------------------------------------------------- sanitizeInput

  /** `s.trim()`: the piece of `s` left once the white space at both ends is gone. */
  function Trim(s: string): (r: string)
    ensures |r| <= |s|
    ensures exists i :: 0 <= i <= |s| - |r| && OccursAt(s, r, i)
    ensures r == [] || (!IsWhitespace(r[0]) && !IsWhitespace(r[|r| - 1]))
    ensures exists i :: TrimmedAt(s, r, i)
  {
    TrimEndsTrimmed(s);
    TrimEnd(TrimStart(s))
  }

  /** `s.replace(/[<>]/g, '')`: every other character kept, in order. */
  function RemoveAngleBrackets(s: string): (r: string)
    ensures |r| <= |s|
    ensures '<' !in r && '>' !in r
    ensures forall c :: c != '<' && c != '>' ==> multiset(r)[c] == multiset(s)[c]
  {
    if s == [] then ""
    else
      assert s == [s[0]] + s[1..];
      (if s[0] == '<' || s[0] == '>' then "" else [s[0]]) + RemoveAngleBrackets(s[1..])
  }

  /** Text without angle brackets is returned unchanged. */
  lemma {:induction false} RemoveAngleBracketsKeepsPlainText(s: string)
    requires '<' !in s && '>' !in s
    ensures RemoveAngleBrackets(s) == s
    decreases |s|
  {
    if s != [] {
      assert s[0] in s && s[1..] == s[1..];
      assert forall c :: c in s[1..] ==> c in s;
      RemoveAngleBracketsKeepsPlainText(s[1..]);
      assert [s[0]] + s[1..] == s;
    }
  }

  /** Removal works piece by piece, so the characters kept stay in their order. */
  lemma {:induction false} RemoveAngleBracketsAppend(a: string, b: string)
    ensures RemoveAngleBrackets(a + b) == RemoveAngleBrackets(a) + RemoveAngleBrackets(b)
    decreases |a|
  {
    if a == [] {
      assert a + b == b;
    } else {
      var head: string := if a[0] == '<' || a[0] == '>' then "" else [a[0]];
      assert (a + b)[0] == a[0];
      assert (a + b)[1..] == a[1..] + b;
      assert RemoveAngleBrackets(a + b) == head + RemoveAngleBrackets(a[1..] + b);
      assert RemoveAngleBrackets(a) == head + RemoveAngleBrackets(a[1..]);
      RemoveAngleBracketsAppend(a[1..], b);
      assert head + (RemoveAngleBrackets(a[1..]) + RemoveAngleBrackets(b))
          == (head + RemoveAngleBrackets(a[1..])) + RemoveAngleBrackets(b);
    }
  }

  /**
   * `input.trim().replace(/[<>]/g, '')`: no angle bracket left, never longer than the input, and
   * exactly the trimmed piece of the input with its angle brackets removed.
   */
  function SanitizeInput(input: string): (r: string)
    ensures |r| <= |input|
    ensures '<' !in r && '>' !in r
    ensures exists t, i :: TrimmedAt(input, t, i) && r == RemoveAngleBrackets(t)
  {
    RemoveAngleBrackets(Trim(input))
  }

  /** Sanitising is not idempotent: brackets removed after trimming can expose white space that a second call trims. */
  lemma SanitizeInputNotIdempotent()
    ensures SanitizeInput("< a") == " a"
    ensures SanitizeInput(SanitizeInput("< a")) == "a"
  {
    TrimSample();
    RemoveAngleBracketsSample();
  }

  /** `trim` on the sample inputs of `SanitizeInputNotIdempotent`. */
  lemma TrimSample()
    ensures Trim("< a") == "< a" && Trim(" a") == "a"
  {
    assert TrimStart("< a") == "< a" && TrimEnd("< a") == "< a";
    assert " a"[1..] == "a";
    assert TrimStart(" a") == "a" && TrimEnd("a") == "a";
  }

  /** Bracket removal on the sample inputs of `SanitizeInputNotIdempotent`. */
  lemma RemoveAngleBracketsSample()
    ensures RemoveAngleBrackets("< a") == " a" && RemoveAngleBrackets("a") == "a"
  {
    assert "< a"[1..] == " a" && " a"[1..] == "a" && "a"[1..] == "";
    assert RemoveAngleBrackets("a") == "a";
    assert RemoveAngleBrackets(" a") == " a";
  }

  // ---------------------------------------------------------------- CSRF token encoding

  type byte = x: int | 0 <= x < 256

  /** The lower-case hex digit of a value below 16. */
  function HexDigit(d: nat): (c: char)
    requires d < 16
    ensures IsLowerHex(c)
  {
    if d < 10 then ('0' as int + d) as char else ('a' as int + d - 10) as char
  }

  /** `n.toString(16)` for a non-negative integer: lower-case hex digits, no padding. */
  function ToHexString(n: nat): (r: string)
    ensures |r| >= 1
    ensures n < 16 ==> r == [HexDigit(n)]
    ensures 16 <= n < 256 ==> r == [HexDigit(n / 16), HexDigit(n % 16)]
    decreases n
  {
    if n < 16 then [HexDigit(n)] else ToHexString(n / 16) + [HexDigit(n % 16)]
  }

  /** `s.padStart(width, fill)`. */
  function PadStart(s: string, width: nat, fill: char): (r: string)
    ensures |r| == if |s| >= width then |s| else width
    ensures r == seq(|r| - |s|, _ => fill) + s
    decreases width - |s|
  {
    if |s| >= width then s else PadStart([fill] + s, width, fill)
  }

  /** `byte.toString(16).padStart(2, '0')`: exactly the high and the low hex digit of the byte. */
  function ByteToHex(b: byte): (r: string)
    ensures r == [HexDigit(b / 16), HexDigit(b % 16)]
  {
    var digits := ToHexString(b as nat);
    var r := PadStart(digits, 2, '0');
    assert b < 16 ==> r == "0" + digits;
    r
  }

  predicate IsLowerHex(c: char) {
    '0' <= c <= '9' || 'a' <= c <= 'f'
  }

  /** The bytes rendered two hex digits each, in order, joined without separator. */
  function EncodeHex(bytes: seq<byte>): (r: string)
    ensures |r| == 2 * |bytes|
    ensures forall i :: 0 <= i < |r| ==> IsLowerHex(r[i])
  {
    if bytes == [] then "" else ByteToHex(bytes[0]) + EncodeHex(bytes[1..])
  }

  /** Byte `i` is rendered at positions `2i` and `2i + 1`, high digit first. */
  lemma {:induction false} EncodeHexAt(bytes: seq<byte>, i: nat)
    requires i < |bytes|
    ensures EncodeHex(bytes)[2 * i..2 * i + 2] == ByteToHex(bytes[i])
  {
    var head := ByteToHex(bytes[0]);
    var rest := EncodeHex(bytes[1..]);
    assert EncodeHex(bytes) == head + rest;
    assert |head| == 2;
    if i == 0 {
      assert (head + rest)[..2] == head;
    } else {
      var k := 2 * (i - 1);
      assert |head| + k == 2 * i;
      assert bytes[1..][i - 1] == bytes[i];
      EncodeHexAt(bytes[1..], i - 1);
      PairAfterPrefix(head, rest, k);
    }
  }

  /** A two-character window past the prefix is a window of the suffix. */
  lemma PairAfterPrefix(a: string, b: string, k: nat)
    requires k + 2 <= |b|
    ensures (a + b)[|a| + k..|a| + k + 2] == b[k..k + 2]
  {
  }

  /** The value of a lower-case hex digit; any other character reads as 0. */
  function HexValue(c: char): (v: nat)
    ensures v < 16
  {
    if '0' <= c <= '9' then c as int - '0' as int
    else if 'a' <= c <= 'f' then c as int - 'a' as int + 10
    else 0
  }

  /** The partner of `EncodeHex`: reads two digits per byte (a trailing odd character is ignored). */
  function DecodeHex(s: string): seq<byte>
  {
    if |s| < 2 then [] else [16 * HexValue(s[0]) + HexValue(s[1])] + DecodeHex(s[2..])
  }

  /** Reading a printed digit back gives its value. */
  lemma HexValueOfDigit(d: nat)
    requires d < 16
    ensures HexValue(HexDigit(d)) == d
  {
  }

  /** Decoding reads the first two characters as one byte. */
  lemma DecodeHexFront(x: char, y: char, rest: string)
    ensures DecodeHex([x, y] + rest) == [16 * HexValue(x) + HexValue(y)] + DecodeHex(rest)
  {
    var s := [x, y] + rest;
    assert |s| >= 2 && s[0] == x && s[1] == y && s[2..] == rest;
    assert DecodeHex(s) == [16 * HexValue(s[0]) + HexValue(s[1])] + DecodeHex(s[2..]);
  }

  /** Decoding reads one rendered byte off the front. */
  lemma DecodeRenderedByte(b: byte, rest: string)
    ensures DecodeHex(ByteToHex(b) + rest) == [b] + DecodeHex(rest)
  {
    var hi, lo := b / 16, b % 16;
    assert ByteToHex(b) == [HexDigit(hi), HexDigit(lo)];
    HexValueOfDigit(hi);
    HexValueOfDigit(lo);
    DecodeHexFront(HexDigit(hi), HexDigit(lo), rest);
    assert 16 * hi + lo == b;
  }

  /** The encoding determines the bytes: decoding it gives them back. */
  lemma {:induction false} EncodeHexRoundTrip(bytes: seq<byte>)
    ensures DecodeHex(EncodeHex(bytes)) == bytes
  {
    if bytes != [] {
      assert EncodeHex(bytes) == ByteToHex(bytes[0]) + EncodeHex(bytes[1..]);
      DecodeRenderedByte(bytes[0], EncodeHex(bytes[1..]));
      EncodeHexRoundTrip(bytes[1..]);
      assert bytes == [bytes[0]] + bytes[1..];
    }
  }

  /** The number of random bytes behind a CSRF token. */
  const CsrfTokenBytes: nat := 32

  /** `generateCSRFToken` with the output of `crypto.getRandomValues` as input: 64 lower-case hex characters. */
  function GenerateCsrfToken(random: seq<byte>): (token: string)
    requires |random| == CsrfTokenBytes
    ensures |token| == 64
    ensures forall i :: 0 <= i < |token| ==> IsLowerHex(token[i])
    ensures DecodeHex(token) == random
  {
    var token := EncodeHex(random);
    EncodeHexRoundTrip(random);
    token
  }

  // ---------------------------------------------------------------- rateLimitCheck

  datatype RateLimitResult = RateLimitResult(allowed: bool, remaining: int)

  /** The `localStorage` key of a limiter key. */
  function RateStorageKey(key: string): string {
    "rate_limit_" + key
  }

  /**
   * One fixed-window check against the stored record (if any): the result and the record held
   * afterwards. A missing record or a window that closed strictly before `now` starts a new window.
   */
  function RateLimitDecision(stored: Option<RateRecord>, maxRequests: int, windowMs: int, now: int)
    : (out: (RateLimitResult, RateRecord))
    ensures out.0.allowed <==> stored.None? || now > stored.value.resetAt || stored.value.count < maxRequests
    ensures !out.0.allowed ==> out.1 == stored.value && out.0.remaining == 0
    ensures out.0.allowed ==> out.0.remaining == maxRequests - out.1.count
    ensures (stored.None? || now > stored.value.resetAt) ==> out.1 == RateRecord(1, now + windowMs)
    ensures stored.Some? && now <= stored.value.resetAt ==> out.1.resetAt == stored.value.resetAt
    ensures maxRequests >= 1 ==> out.0.remaining >= 0
  {
    if stored.None? then
      (RateLimitResult(true, maxRequests - 1), RateRecord(1, now + windowMs))
    else
      var data := stored.value;
      if now > data.resetAt then
        (RateLimitResult(true, maxRequests - 1), RateRecord(1, now + windowMs))
      else if data.count >= maxRequests then
        (RateLimitResult(false, 0), data)
      else
        var bumped := data.(count := data.count + 1);
        (RateLimitResult(true, maxRequests - bumped.count), bumped)
  }

  /** The allowed/denied answers for a run of calls on one key at the given instants. */
  function Decisions(stored: Option<RateRecord>, maxRequests: int, windowMs: int, times: seq<int>): (d: seq<bool>)
    ensures |d| == |times|
    decreases |times|
  {
    if times == [] then []
    else
      var step := RateLimitDecision(stored, maxRequests, windowMs, times[0]);
      [step.0.allowed] + Decisions(Some(step.1), maxRequests, windowMs, times[1..])
  }

  /** Inside an open window with `count` calls already counted, call `i` is allowed iff `count + i < max`. */
  lemma {:induction false} DecisionsInsideWindow(count: int, resetAt: int, maxRequests: int, windowMs: int, times: seq<int>)
    requires forall i :: 0 <= i < |times| ==> times[i] <= resetAt
    ensures forall i :: 0 <= i < |times| ==>
              (Decisions(Some(RateRecord(count, resetAt)), maxRequests, windowMs, times)[i] <==> count + i < maxRequests)
    decreases |times|
  {
    if times != [] {
      var step := RateLimitDecision(Some(RateRecord(count, resetAt)), maxRequests, windowMs, times[0]);
      var next := if count < maxRequests then count + 1 else count;
      assert step.1 == RateRecord(next, resetAt);
      DecisionsInsideWindow(next, resetAt, maxRequests, windowMs, times[1..]);
      var d := Decisions(Some(RateRecord(count, resetAt)), maxRequests, windowMs, times);
      var rest := Decisions(Some(RateRecord(next, resetAt)), maxRequests, windowMs, times[1..]);
      assert var d2 := Decisions(Some(RateRecord(next, resetAt)), maxRequests, windowMs, times[1..]);
             forall i :: 0 <= i < |times[1..]| ==> (d2[i] <==> next + i < maxRequests);
      forall i | 1 <= i < |times|
        ensures d[i] <==> count + i < maxRequests
      {
        assert d[i] == rest[i - 1];
        assert rest[i - 1] <==> next + (i - 1) < maxRequests;
      }
    }
  }

  /**
   * From a fresh key, calls made no later than `windowMs` after the first one form one window: the
   * n-th of them (counting from 1) is allowed exactly when n <= max, for any max >= 1.
   */
  lemma {:induction false} AtMostMaxPerWindow(maxRequests: int, windowMs: int, times: seq<int>)
    requires maxRequests >= 1 && |times| >= 1
    requires forall i :: 0 <= i < |times| ==> times[i] <= times[0] + windowMs
    ensures var d := Decisions(None, maxRequests, windowMs, times);
            forall i :: 0 <= i < |times| ==> (d[i] <==> i + 1 <= maxRequests)
  {
    var first := RateLimitDecision(None, maxRequests, windowMs, times[0]);
    assert first.0.allowed && first.1 == RateRecord(1, times[0] + windowMs);
    var rest := times[1..];
    forall i | 0 <= i < |rest|
      ensures rest[i] <= times[0] + windowMs
    {
      assert rest[i] == times[i + 1];
    }
    DecisionsInsideWindow(1, times[0] + windowMs, maxRequests, windowMs, rest);
    var tail := Decisions(Some(RateRecord(1, times[0] + windowMs)), maxRequests, windowMs, rest);
    assert forall j :: 0 <= j < |rest| ==> (tail[j] <==> 1 + j < maxRequests);
    var d := Decisions(None, maxRequests, windowMs, times);
    assert d == [first.0.allowed] + tail;
    forall i | 0 <= i < |times|
      ensures d[i] <==> i + 1 <= maxRequests
    {
      if i > 0 {
        assert d[i] == tail[i - 1];
      }
    }
  }

  /** Once a window has closed, the next call is allowed and opens a new window of one call. */
  lemma AllowedAfterWindowCloses(stored: RateRecord, maxRequests: int, windowMs: int, now: int)
    requires now > stored.resetAt
    ensures var out := RateLimitDecision(Some(stored), maxRequests, windowMs, now);
            out.0.allowed && out.1 == RateRecord(1, now + windowMs)
  {
  }

  /** `rateLimitCheck`: reads the record under `"rate_limit_" + key`, decides, and writes the record back except on rejection. */
  method RateLimitCheck(store: Storage, key: string, maxRequests: int, windowMs: int, now: int)
    returns (result: RateLimitResult)
    modifies store
    ensures var storageKey := RateStorageKey(key);
            var stored := if storageKey in old(store.rateRecords) then Some(old(store.rateRecords)[storageKey]) else None;
            var out := RateLimitDecision(stored, maxRequests, windowMs, now);
            result == out.0 && store.rateRecords == old(store.rateRecords)[storageKey := out.1]
    ensures store.text == old(store.text)
  {
    var storageKey := RateStorageKey(key);
    if storageKey !in store.rateRecords {
      store.SetRecord(storageKey, RateRecord(1, now + windowMs));
      return RateLimitResult(true, maxRequests - 1);
    }
    var data := store.rateRecords[storageKey];
    if now > data.resetAt {
      store.SetRecord(storageKey, RateRecord(1, now + windowMs));
      return RateLimitResult(true, maxRequests - 1);
    }
    if data.count >= maxRequests {
      return RateLimitResult(false, 0);
    }
    data := data.(count := data.count + 1);
    store.SetRecord(storageKey, data);
    return RateLimitResult(true, maxRequests - data.count);
  }
}
