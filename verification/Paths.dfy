/** The path rules of the HTTP gateway: iterated percent-decoding (section 2.1 of RFC 3986),
    joining a request suffix to the target's base path, and rewriting redirects back. */
module Paths {
  import opened Text
  import Names

  // ---- percent-decoding ----

  function HexValue(c: char): (r: Option<nat>)
    ensures r.Some? ==> r.value < 16
  {
    if '0' <= c <= '9' then Some(c as int - '0' as int)
    else if 'a' <= c <= 'f' then Some(c as int - 'a' as int + 10)
    else if 'A' <= c <= 'F' then Some(c as int - 'A' as int + 10)
    else None
  }

  /** url.PathUnescape: `%` and two hexadecimal digits become one byte, anything else stays. */
  function Unescape(s: string): (r: Option<string>)
  {
    if s == "" then Some("")
    else if s[0] != '%' then
      var rest := Unescape(s[1..]);
      if rest.None? then None else Some([s[0]] + rest.value)
    else if |s| < 3 || HexValue(s[1]).None? || HexValue(s[2]).None? then None
    else
      var rest := Unescape(s[3..]);
      if rest.None? then None
      else Some([(16 * HexValue(s[1]).value + HexValue(s[2]).value) as char] + rest.value)
  }

  lemma {:induction false} UnescapePlain(s: string)
    requires '%' !in s
    ensures Unescape(s) == Some(s)
  {
    if s != "" {
      UnescapePlain(s[1..]);
      assert s == [s[0]] + s[1..];
    }
  }

  // ---- what decoding means ----

  const LOWER_DIGITS := "0123456789abcdef"
  const UPPER_DIGITS := "0123456789ABCDEF"

  /** The hexadecimal digit for a value, in either case. */
  predicate DigitFor(c: char, value: int)
  {
    0 <= value < 16 && (c == LOWER_DIGITS[value] || c == UPPER_DIGITS[value])
  }

  /** `s` is a spelling of `d`: each byte stands for itself, unless it is `%`, or is written as `%` and its two digits. */
  predicate Spells(s: string, d: string)
  {
    if d == "" then s == ""
    else
      (s != "" && s[0] != '%' && s[0] == d[0] && Spells(s[1..], d[1..]))
      || (|s| >= 3 && s[0] == '%' && DigitFor(s[1], d[0] as int / 16) && DigitFor(s[2], d[0] as int % 16) && Spells(s[3..], d[1..]))
  }

  lemma HexValueExactly(c: char, value: int)
    ensures HexValue(c) == Some(value) <==> DigitFor(c, value)
  {
    if 0 <= value < 10 {
      assert LOWER_DIGITS[value] == ('0' as int + value) as char && UPPER_DIGITS[value] == ('0' as int + value) as char;
    } else if 10 <= value < 16 {
      assert LOWER_DIGITS[value] == ('a' as int + value - 10) as char && UPPER_DIGITS[value] == ('A' as int + value - 10) as char;
    }
  }

  /** Decoding inverts spelling, and a string that spells nothing does not decode. */
  lemma {:induction false} UnescapeExactly(s: string, d: string)
    ensures Unescape(s) == Some(d) <==> Spells(s, d)
  {
    if s != "" && d != "" {
      assert d == [d[0]] + d[1..];
      if s[0] != '%' {
        UnescapeExactly(s[1..], d[1..]);
      } else if |s| >= 3 {
        UnescapeExactly(s[3..], d[1..]);
        DigitsExactly(s[1], s[2], d[0] as int);
        assert HexPair(s[1], s[2], d[0] as int) <==> DigitFor(s[1], d[0] as int / 16) && DigitFor(s[2], d[0] as int % 16);
      }
    }
  }

  lemma DigitsExactly(high: char, low: char, b: int)
    ensures HexPair(high, low, b) <==> DigitFor(high, b / 16) && DigitFor(low, b % 16)
  {
    PairExactly(high, low, b);
    HexValueExactly(high, b / 16);
    HexValueExactly(low, b % 16);
  }

  predicate HexPair(high: char, low: char, b: int)
  {
    HexValue(high).Some? && HexValue(low).Some? && 16 * HexValue(high).value + HexValue(low).value == b
  }

  lemma PairExactly(high: char, low: char, b: int)
    ensures HexPair(high, low, b) <==> HexValue(high) == Some(b / 16) && HexValue(low) == Some(b % 16)
  {
    if HexValue(high).Some? && HexValue(low).Some? { Halves(HexValue(high).value, HexValue(low).value, b); }
  }

  lemma Halves(high: int, low: int, b: int)
    requires 0 <= low < 16
    ensures 16 * high + low == b <==> high == b / 16 && low == b % 16
  {
  }

  /** `%` and the two digits of a byte, in any case, in front of anything that decodes. */
  lemma EscapeDecodes(b: int, high: char, low: char, rest: string)
    requires 0 <= b < 256 && DigitFor(high, b / 16) && DigitFor(low, b % 16) && Unescape(rest).Some?
    ensures Unescape(['%', high, low] + rest) == Some([b as char] + Unescape(rest).value)
  {
    var s := ['%', high, low] + rest;
    assert s[3..] == rest;
    HexValueExactly(high, b / 16);
    HexValueExactly(low, b % 16);
  }

  /** Any other `%` fails to decode. */
  lemma EscapeFails(s: string)
    requires s != "" && s[0] == '%'
    requires |s| < 3 || (forall v :: !DigitFor(s[1], v)) || forall v :: !DigitFor(s[2], v)
    ensures Unescape(s).None?
  {
    if |s| >= 3 {
      if HexValue(s[1]).Some? { HexValueExactly(s[1], HexValue(s[1]).value); }
      if HexValue(s[2]).Some? { HexValueExactly(s[2], HexValue(s[2]).value); }
    }
  }

  /** A decode that meets a `%` makes the string strictly shorter, so a fixpoint has none. */
  lemma {:induction false} UnescapeShortens(s: string)
    requires Unescape(s).Some?
    ensures |Unescape(s).value| <= |s|
    ensures '%' in s ==> |Unescape(s).value| < |s|
  {
    if s == "" {
    } else if s[0] != '%' {
      UnescapeShortens(s[1..]);
    } else {
      UnescapeShortens(s[3..]);
    }
  }

  lemma ConsSlash(c: char, x: string, y: string)
    ensures [c] + x + "/" + y == [c] + (x + "/" + y)
  {
  }

  /** An escape never straddles a slash. */
  lemma {:induction false} UnescapeSlash(x: string, y: string)
    ensures Unescape(x + "/" + y) ==
      if Unescape(x).Some? && Unescape(y).Some?
      then Some(Unescape(x).value + "/" + Unescape(y).value) else None
  {
    var s := x + "/" + y;
    if x == "" {
      assert s[1..] == y && s[0] == '/';
      if Unescape(y).Some? { assert "" + "/" + Unescape(y).value == ['/'] + Unescape(y).value; }
    } else if x[0] != '%' {
      assert s[1..] == x[1..] + "/" + y;
      UnescapeSlash(x[1..], y);
      if Unescape(s).Some? { ConsSlash(x[0], Unescape(x[1..]).value, Unescape(y).value); }
    } else if |x| >= 3 {
      assert s[1] == x[1] && s[2] == x[2] && s[3..] == x[3..] + "/" + y;
      UnescapeSlash(x[3..], y);
      if Unescape(s).Some? { ConsSlash(Unescape(x).value[0], Unescape(x[3..]).value, Unescape(y).value); }
    } else {
      assert s[|x|] == '/' && HexValue('/').None?;
    }
  }

  /** The result of decoding `n` times. */
  function Decoded(s: string, n: nat): (r: Option<string>)
  {
    if n == 0 then Some(s)
    else
      var before := Decoded(s, n - 1);
      if before.None? then None else Unescape(before.value)
  }

  lemma {:induction false} DecodedSlash(x: string, y: string, n: nat)
    ensures Decoded(x + "/" + y, n) ==
      if Decoded(x, n).Some? && Decoded(y, n).Some?
      then Some(Decoded(x, n).value + "/" + Decoded(y, n).value) else None
  {
    if n > 0 {
      DecodedSlash(x, y, n - 1);
      if Decoded(x, n - 1).Some? && Decoded(y, n - 1).Some? {
        UnescapeSlash(Decoded(x, n - 1).value, Decoded(y, n - 1).value);
      }
    }
  }

  lemma {:induction false} DecodedPlain(s: string, n: nat)
    requires '%' !in s
    ensures Decoded(s, n) == Some(s)
  {
    if n > 0 {
      DecodedPlain(s, n - 1);
      UnescapePlain(s);
    }
  }

  lemma {:induction false} DecodedFixed(s: string, k: nat, n: nat)
    requires k <= n && Decoded(s, k).Some? && Decoded(s, k + 1) == Decoded(s, k)
    ensures Decoded(s, n) == Decoded(s, k)
  {
    if n > k { DecodedFixed(s, k, n - 1); }
  }

  // ---- unsafePath ----

  predicate DotFree(segments: seq<string>)
  {
    forall i :: 0 <= i < |segments| ==> segments[i] != "." && segments[i] != ".."
  }

  /** One round of checks: no backslash, no NUL, no `.` or `..` segment. */
  predicate CleanText(s: string)
  {
    '\\' !in s && '\0' !in s && DotFree(Split(s, '/'))
  }

  const ROUNDS: nat := 16

  /** `s` passes every round and stops changing within the given number of rounds. */
  predicate Settles(s: string, rounds: nat)
    decreases rounds
  {
    rounds > 0 && CleanText(s) && Unescape(s).Some?
    && (Unescape(s).value == s || Settles(Unescape(s).value, rounds - 1))
  }

  /** What the check is for: every further decoding by an upstream server is defined and clean. */
  ghost predicate AlwaysClean(s: string)
  {
    forall n: nat :: Decoded(s, n).Some? && CleanText(Decoded(s, n).value)
  }

  lemma {:induction false} DecodedShift(s: string, n: nat)
    requires Unescape(s).Some?
    ensures Decoded(s, n + 1) == Decoded(Unescape(s).value, n)
  {
    if n > 0 { DecodedShift(s, n - 1); }
  }

  /** The loop accepts exactly the strings that stay clean forever and settle within its rounds. */
  lemma {:induction false} SettlesExactly(s: string, rounds: nat)
    requires rounds > 0
    ensures Settles(s, rounds) <==> AlwaysClean(s) && Decoded(s, rounds) == Decoded(s, rounds - 1)
    decreases rounds
  {
    DecodedOnce(s);
    if Unescape(s).None? {
      assert Decoded(s, 1).None?;
    } else {
      var t := Unescape(s).value;
      AlwaysCleanStep(s);
      if t == s {
        SettledFixed(s, rounds);
      } else if rounds > 1 {
        SettlesExactly(t, rounds - 1);
        DecodedShift(s, rounds - 1);
        DecodedShift(s, rounds - 2);
      }
    }
  }

  lemma SettledFixed(s: string, rounds: nat)
    requires rounds > 0 && Unescape(s) == Some(s)
    ensures AlwaysClean(s) <==> CleanText(s)
    ensures Decoded(s, rounds) == Decoded(s, rounds - 1)
  {
    DecodedOnce(s);
    forall n: nat ensures Decoded(s, n) == Some(s) { DecodedFixed(s, 0, n); }
    assert AlwaysClean(s) ==> CleanText(Decoded(s, 0).value);
  }

  lemma AlwaysCleanStep(s: string)
    requires Unescape(s).Some?
    ensures AlwaysClean(s) <==> CleanText(s) && AlwaysClean(Unescape(s).value)
  {
    var t := Unescape(s).value;
    if AlwaysClean(s) {
      assert Decoded(s, 0) == Some(s);
      forall n: nat ensures Decoded(t, n).Some? && CleanText(Decoded(t, n).value) {
        DecodedShift(s, n);
        assert Decoded(s, n + 1).Some?;
      }
    }
    if CleanText(s) && AlwaysClean(t) {
      forall n: nat ensures Decoded(s, n).Some? && CleanText(Decoded(s, n).value) {
        if n > 0 {
          DecodedShift(s, n - 1);
          assert Decoded(t, n - 1).Some?;
        }
      }
    }
  }

  // ---- nothing hidden gets through ----

  /** `s` becomes `d` by decoding `n` times. */
  ghost predicate Hides(s: string, d: string, n: nat)
    decreases n
  {
    if n == 0 then s == d else exists t :: Spells(s, t) && Hides(t, d, n - 1)
  }

  lemma {:induction false} HidesDecoded(s: string, d: string, n: nat)
    requires Hides(s, d, n)
    ensures Decoded(s, n) == Some(d)
    decreases n
  {
    if n > 0 {
      var t :| Spells(s, t) && Hides(t, d, n - 1);
      UnescapeExactly(s, t);
      HidesDecoded(t, d, n - 1);
      DecodedShift(s, n - 1);
    }
  }

  /** A backslash, a NUL or a dot segment is refused however often it is percent-encoded, and in whatever case. */
  lemma HiddenRefused(s: string, d: string, n: nat)
    requires Hides(s, d, n) && ('\\' in d || '\0' in d || "." in Split(d, '/') || ".." in Split(d, '/'))
    ensures !Settles(s, ROUNDS)
  {
    HidesDecoded(s, d, n);
    Unclean(d);
    SettlesExactly(s, ROUNDS);
  }

  lemma Unclean(d: string)
    requires '\\' in d || '\0' in d || "." in Split(d, '/') || ".." in Split(d, '/')
    ensures !CleanText(d)
  {
    if '\\' !in d && '\0' !in d {
      var i :| 0 <= i < |Split(d, '/')| && (Split(d, '/')[i] == "." || Split(d, '/')[i] == "..");
    }
  }

  lemma {:induction false} SpellingKeepsSlash(s: string, d: string)
    requires Spells(s, d) && '/' in s
    ensures '/' in d
  {
    if s[0] == '%' {
      assert '/' in s[3..] by { NoSlashDigit(s[1], d[0] as int / 16); NoSlashDigit(s[2], d[0] as int % 16); }
      SpellingKeepsSlash(s[3..], d[1..]);
    } else if s[0] != '/' {
      SpellingKeepsSlash(s[1..], d[1..]);
    }
  }

  lemma NoSlashDigit(c: char, value: int)
    requires DigitFor(c, value)
    ensures c != '/'
  {
  }

  lemma {:induction false} HidingKeepsSlash(s: string, d: string, n: nat)
    requires Hides(s, d, n) && '/' in s
    ensures '/' in d
    decreases n
  {
    if n > 0 {
      var t :| Spells(s, t) && Hides(t, d, n - 1);
      SpellingKeepsSlash(s, t);
      HidingKeepsSlash(t, d, n - 1);
    }
  }

  /** A segment that decodes without growing a slash is a segment of the decoded path. */
  lemma {:induction false} SegmentDecodes(parts: seq<string>, i: nat, u: string)
    requires i < |parts| && Unescape(Join(parts, '/')).Some? && Unescape(parts[i]) == Some(u) && '/' !in u
    ensures u in Split(Unescape(Join(parts, '/')).value, '/')
  {
    if |parts| == 1 {
      SplitWhole(u, '/');
    } else {
      var rest := Join(parts[1..], '/');
      assert parts[0] + ['/'] + rest == parts[0] + "/" + rest;
      UnescapeSlash(parts[0], rest);
      var a, b := Unescape(parts[0]).value, Unescape(rest).value;
      assert a + "/" + b == a + ['/'] + b;
      SplitConcat(a, '/', b);
      if i == 0 { SplitWhole(u, '/'); } else { SegmentDecodes(parts[1..], i - 1, u); }
    }
  }

  /** Every percent spelling of a dot segment, nested to any depth, makes the path unsafe. */
  lemma {:induction false} HiddenDotsRefused(s: string, i: nat, dots: string, n: nat, rounds: nat)
    requires i < |Split(s, '/')| && Hides(Split(s, '/')[i], dots, n) && (dots == "." || dots == "..")
    ensures !Settles(s, rounds)
    decreases n
  {
    if n == 0 {
      assert !DotFree(Split(s, '/'));
    } else if rounds > 0 && Unescape(s).Some? {
      var t :| Spells(Split(s, '/')[i], t) && Hides(t, dots, n - 1);
      if '/' in t { HidingKeepsSlash(t, dots, n - 1); }
      var next := Unescape(s).value;
      var j := DecodedSegment(s, i, t);
      HiddenDotsRefused(next, j, dots, n - 1, rounds - 1);
      if next == s { HiddenDotsRefused(s, j, dots, n - 1, rounds); }
    }
  }

  lemma DecodedSegment(s: string, i: nat, t: string) returns (j: nat)
    requires i < |Split(s, '/')| && Unescape(s).Some? && Spells(Split(s, '/')[i], t) && '/' !in t
    ensures j < |Split(Unescape(s).value, '/')| && Split(Unescape(s).value, '/')[j] == t
  {
    UnescapeExactly(Split(s, '/')[i], t);
    JoinSplit(s, '/');
    SegmentDecodes(Split(s, '/'), i, t);
    var k :| 0 <= k < |Split(Unescape(s).value, '/')| && Split(Unescape(s).value, '/')[k] == t;
    j := k;
  }

  /** The `i`-th segment is a dot segment percent-encoded `n` times. */
  ghost predicate HidesDots(s: string, i: int, dots: string, n: nat)
  {
    0 <= i < |Split(s, '/')| && Hides(Split(s, '/')[i], dots, n) && (dots == "." || dots == "..")
  }

  /** unsafePath over both candidates. */
  method UnsafePath(suffix: string, rawPath: string) returns (unsafe: bool)
    ensures unsafe <==> !(Settles(suffix, ROUNDS) && Settles(rawPath, ROUNDS))
    ensures !unsafe ==> AlwaysClean(suffix) && AlwaysClean(rawPath)
    ensures (exists i, dots, n: nat :: HidesDots(suffix, i, dots, n) || HidesDots(rawPath, i, dots, n)) ==> unsafe
  {
    var candidates := [suffix, rawPath];
    for c := 0 to 2
      invariant forall i :: 0 <= i < c ==> Settles(candidates[i], ROUNDS)
    {
      unsafe := UnsafeCandidate(candidates[c], ROUNDS);
      if unsafe { return; }
    }
    assert Settles(candidates[0], ROUNDS) && Settles(candidates[1], ROUNDS);
    SettlesExactly(suffix, ROUNDS);
    SettlesExactly(rawPath, ROUNDS);
    forall i, dots, n: nat ensures !HidesDots(suffix, i, dots, n) && !HidesDots(rawPath, i, dots, n) {
      if HidesDots(suffix, i, dots, n) { HiddenDotsRefused(suffix, i, dots, n, ROUNDS); }
      if HidesDots(rawPath, i, dots, n) { HiddenDotsRefused(rawPath, i, dots, n, ROUNDS); }
    }
    unsafe := false;
  }

  method UnsafeCandidate(candidate: string, rounds: nat) returns (unsafe: bool)
    ensures unsafe <==> !Settles(candidate, rounds)
  {
    var decoded := candidate;
    for round := 0 to rounds
      invariant Settles(candidate, rounds) <==> Settles(decoded, rounds - round)
    {
      if '\\' in decoded || '\0' in decoded { return true; }
      var dots := HasDotSegment(decoded);
      if dots { return true; }
      var next := Unescape(decoded);
      if next.None? { return true; }
      if next.value == decoded { return false; }
      decoded := next.value;
    }
    unsafe := true;
  }

  method HasDotSegment(s: string) returns (found: bool)
    ensures found <==> !DotFree(Split(s, '/'))
  {
    var segments := Split(s, '/');
    for i := 0 to |segments|
      invariant DotFree(segments[..i])
    {
      if segments[i] == "." || segments[i] == ".." { return true; }
    }
    assert segments[..|segments|] == segments;
    found := false;
  }

  // ---- path.Clean on rooted paths, and JoinPath ----

  /** One segment meets the stack path.Clean keeps: empty and `.` are dropped, `..` pops. */
  function Push(stack: seq<string>, segment: string): (r: seq<string>)
  {
    if segment == "" || segment == "." then stack
    else if segment == ".." then (if stack == [] then [] else stack[..|stack| - 1])
    else stack + [segment]
  }

  function CleanSegments(segments: seq<string>): (stack: seq<string>)
  {
    if segments == [] then []
    else Push(CleanSegments(segments[..|segments| - 1]), segments[|segments| - 1])
  }

  lemma SlashAssoc(x: string, y: string)
    ensures "/" + (x + "/" + y) == "/" + x + "/" + y
    ensures "" + "/" + y == "/" + y
  {
  }

  lemma CleanSnoc(s: seq<string>, last: string)
    ensures CleanSegments(s + [last]) == Push(CleanSegments(s), last)
  {
    assert (s + [last])[..|s|] == s;
  }

  function Segments(p: string): (stack: seq<string>)
  {
    CleanSegments(Split(p, '/'))
  }

  function CleanPath(p: string): string
  {
    "/" + Join(Segments(p), '/')
  }

  function NonEmpty(segments: seq<string>): (r: seq<string>)
  {
    if segments == [] then []
    else
      var below := NonEmpty(segments[..|segments| - 1]);
      var last := segments[|segments| - 1];
      if last == "" then below else below + [last]
  }

  /** A proper path segment: not empty, not a dot segment, no slash. */
  predicate Proper(segment: string)
  {
    segment != "" && segment != "." && segment != ".." && '/' !in segment
  }

  predicate AllProper(segments: seq<string>)
  {
    forall i :: 0 <= i < |segments| ==> Proper(segments[i])
  }

  lemma {:induction false} CleanSegmentsProper(segments: seq<string>)
    requires forall i :: 0 <= i < |segments| ==> '/' !in segments[i]
    ensures AllProper(CleanSegments(segments))
  {
    if segments != [] { CleanSegmentsProper(segments[..|segments| - 1]); }
  }

  lemma SegmentsProper(p: string)
    ensures AllProper(Segments(p))
  {
    CleanSegmentsProper(Split(p, '/'));
  }

  /** Appending segments without dots only ever pushes. */
  lemma {:induction false} CleanAppend(x: seq<string>, y: seq<string>)
    requires DotFree(y)
    ensures CleanSegments(x + y) == CleanSegments(x) + NonEmpty(y)
  {
    if y == [] {
      assert x + y == x;
    } else {
      CleanAppend(x, y[..|y| - 1]);
      assert (x + y)[..|x + y| - 1] == x + y[..|y| - 1];
    }
  }

  lemma {:induction false} NonEmptyConcat(x: seq<string>, y: seq<string>)
    ensures NonEmpty(x + y) == NonEmpty(x) + NonEmpty(y)
  {
    if y == [] {
      assert x + y == x;
    } else {
      NonEmptyConcat(x, y[..|y| - 1]);
      assert (x + y)[..|x + y| - 1] == x + y[..|y| - 1];
    }
  }

  lemma {:induction false} NonEmptyOfProper(s: seq<string>)
    requires AllProper(s)
    ensures NonEmpty(s) == s && DotFree(s)
  {
    if s != [] {
      NonEmptyOfProper(s[..|s| - 1]);
      assert s == s[..|s| - 1] + [s[|s| - 1]];
    }
  }

  lemma {:induction false} NonEmptyOfDotFree(s: seq<string>)
    requires DotFree(s) && forall i :: 0 <= i < |s| ==> '/' !in s[i]
    ensures AllProper(NonEmpty(s))
  {
    if s != [] { NonEmptyOfDotFree(s[..|s| - 1]); }
  }

  /** A rooted text made of proper segments reads back as those segments. */
  lemma SegmentsOfRooted(segments: seq<string>)
    requires AllProper(segments)
    ensures Segments("/" + Join(segments, '/')) == segments
  {
    var text := Join(segments, '/');
    SegmentsOfSlash(text);
    NonEmptyOfProper(segments);
    SingleSegment("");
    if segments != [] {
      SplitJoin(segments, '/');
      CleanAppend([], segments);
      assert [] + segments == segments;
    }
  }

  /** Rooting a path with a slash changes none of its segments. */
  lemma SegmentsOfSlash(p: string)
    ensures Segments("/" + p) == Segments(p)
  {
    SplitConcat("", '/', p);
    assert "" + ['/'] + p == "/" + p;
    SkipEmpty(Split(p, '/'));
  }

  lemma {:induction false} SkipEmpty(s: seq<string>)
    ensures CleanSegments([""] + s) == CleanSegments(s)
  {
    if s == [] {
      assert [""] + s == [""] && [""][..0] == [];
    } else {
      SkipEmpty(s[..|s| - 1]);
      assert ([""] + s)[..|s|] == [""] + s[..|s| - 1];
    }
  }

  function Rooted(base: string): string
  {
    if "/" <= base then base else "/" + base
  }

  /** JoinPath drops the slash it added to a relative base and keeps one trailing slash;
      URL.String puts a slash between the host and a path that lacks one. */
  function Finish(joined: string, relative: bool, slash: bool): (p: string)
    requires "/" <= joined
  {
    var text := if relative then joined[1..] else joined;
    var kept := if slash && !HasSuffix(text, "/") then text + "/" else text;
    if kept != "" && kept[0] != '/' then "/" + kept else kept
  }

  /** The path of URL.JoinPath(suffix), as URL.String writes it for a URL with a host:
      `base` is the escaped base path, and `suffix` is taken as escaped text. */
  function JoinedPath(base: string, suffix: string): (p: string)
  {
    Finish(CleanPath(Rooted(base) + "/" + suffix), !("/" <= base), HasSuffix(suffix, "/"))
  }

  function Parts(s: string): (r: seq<string>) { NonEmpty(Split(s, '/')) }

  lemma PartsConcat(x: string, y: string)
    ensures Parts(x + "/" + y) == Parts(x) + Parts(y)
  {
    SplitConcat(x, '/', y);
    NonEmptyConcat(Split(x, '/'), Split(y, '/'));
  }

  lemma SegmentsConcat(x: string, y: string)
    requires DotFree(Split(y, '/'))
    ensures Segments(x + "/" + y) == Segments(x) + Parts(y)
  {
    SplitConcat(x, '/', y);
    CleanAppend(Split(x, '/'), Split(y, '/'));
  }

  lemma {:induction false} JoinConcat(x: seq<string>, y: seq<string>)
    requires x != [] && y != []
    ensures Join(x + y, '/') == Join(x, '/') + "/" + Join(y, '/')
  {
    if |x| == 1 {
      assert x + y == [x[0]] + y && (x + y)[1..] == y;
    } else {
      JoinConcat(x[1..], y);
      assert (x + y)[1..] == x[1..] + y;
    }
  }

  lemma {:induction false} JoinSnoc(front: seq<string>, last: string)
    ensures Join(front + [last], '/') == if front == [] then last else Join(front, '/') + "/" + last
  {
    if front != [] {
      JoinConcat(front, [last]);
    } else {
      assert front + [last] == [last];
    }
  }

  lemma PartsOfEmpty(n: nat)
    ensures Decoded("", n) == Some("") && Parts("") == []
  {
    DecodedPlain("", n);
    assert Split("", '/') == [""] && [""][..0] == [];
  }

  /** Dropping empty segments before decoding drops only empty segments after it. */
  lemma {:induction false} PartsDecoded(s: string, n: nat)
    requires Decoded(s, n).Some?
    ensures var y := Join(Parts(s), '/');
      Decoded(y, n).Some? && Parts(Decoded(y, n).value) == Parts(Decoded(s, n).value)
    decreases |Split(s, '/')|
  {
    var parts := Split(s, '/');
    JoinSplit(s, '/');
    PartsOfEmpty(n);
    if |parts| == 1 {
      assert parts[..0] == [] && s == parts[0];
    } else {
      var front, last := parts[..|parts| - 1], parts[|parts| - 1];
      assert parts == front + [last];
      JoinSnoc(front, last);
      var f := Join(front, '/');
      SplitJoin(front, '/');
      DecodedSlash(f, last, n);
      PartsDecoded(f, n);
      PartsConcat(Decoded(f, n).value, Decoded(last, n).value);
      if last != "" {
        var y := Join(Parts(f), '/');
        JoinSnoc(Parts(f), last);
        DecodedSlash(y, last, n);
        PartsConcat(Decoded(y, n).value, Decoded(last, n).value);
      }
    }
  }

  lemma JoinedShape(base: string, suffix: string)
    requires DotFree(Split(suffix, '/'))
    ensures var p, t := JoinedPath(base, suffix), "/" + Join(Segments(base) + Parts(suffix), '/');
      p == t || p == t + "/" || (p == "" && t == "/")
    ensures AllProper(Segments(base) + Parts(suffix))
  {
    SegmentsOfSlash(base);
    SegmentsConcat(Rooted(base), suffix);
    SegmentsProper(base);
    NonEmptyOfDotFree(Split(suffix, '/'));
    var all := Segments(base) + Parts(suffix);
    JoinStart(all);
    FinishShape(Join(all, '/'), !("/" <= base), HasSuffix(suffix, "/"));
  }

  lemma FinishShape(tail: string, relative: bool, slash: bool)
    requires tail == "" || tail[0] != '/'
    ensures var p, t := Finish("/" + tail, relative, slash), "/" + tail;
      p == t || p == t + "/" || (p == "" && t == "/")
  {
    assert ("/" + tail)[1..] == tail;
    if relative && tail != "" {
      assert "/" + (tail + "/") == ("/" + tail) + "/";
    }
  }

  lemma JoinStart(segments: seq<string>)
    requires AllProper(segments)
    ensures segments == [] <==> Join(segments, '/') == ""
    ensures segments != [] ==> Join(segments, '/')[0] != '/'
  {
    if segments != [] {
      assert segments[0][0] in segments[0];
      assert Join(segments, '/')[0] == segments[0][0];
    }
  }

  lemma SegmentsTrailing(t: string)
    ensures Segments(t + "/") == Segments(t)
  {
    PartsOfEmpty(0);
    assert t + "/" + "" == t + "/";
    SegmentsConcat(t, "");
  }

  /** However often the upstream decodes the joined path, it stays under the base path:
      its cleaned segments are those of the base followed by those of the suffix. */
  lemma UpstreamStaysUnderBase(base: string, suffix: string, n: nat)
    requires Settles(suffix, ROUNDS)
    requires Decoded(CleanPath(base), n).Some?
    ensures Decoded(suffix, n).Some? && Decoded(JoinedPath(base, suffix), n).Some?
    ensures Segments(Decoded(JoinedPath(base, suffix), n).value) ==
      Segments(Decoded(CleanPath(base), n).value) + Parts(Decoded(suffix, n).value)
  {
    SettlesExactly(suffix, ROUNDS);
    assert Decoded(suffix, 0).Some? && Decoded(suffix, n).Some?;
    JoinedShape(base, suffix);
    UnderBase(base, suffix, n);
    FinishKeepsSegments(JoinedPath(base, suffix), "/" + Join(Segments(base) + Parts(suffix), '/'), n);
  }

  lemma FinishKeepsSegments(p: string, t: string, n: nat)
    requires p == t || p == t + "/" || (p == "" && t == "/")
    requires Decoded(t, n).Some?
    ensures Decoded(p, n).Some? && Segments(Decoded(p, n).value) == Segments(Decoded(t, n).value)
  {
    if p == t + "/" {
      DecodedTrailing(t, n);
    } else if p != t {
      PartsOfEmpty(n);
      DecodedTrailing("", n);
      assert "" + "/" == "/";
    }
  }

  lemma DecodedTrailing(t: string, n: nat)
    requires Decoded(t, n).Some?
    ensures Decoded(t + "/", n) == Some(Decoded(t, n).value + "/")
    ensures Segments(Decoded(t, n).value + "/") == Segments(Decoded(t, n).value)
  {
    var d := Decoded(t, n).value;
    PartsOfEmpty(n);
    DecodedSlash(t, "", n);
    assert t + "/" + "" == t + "/" && d + "/" + "" == d + "/";
    SegmentsTrailing(d);
  }

  lemma UnderBase(base: string, suffix: string, n: nat)
    requires AlwaysClean(suffix)
    requires Decoded(CleanPath(base), n).Some? && Decoded(suffix, n).Some?
    ensures var t := "/" + Join(Segments(base) + Parts(suffix), '/');
      Decoded(t, n).Some? && Segments(Decoded(t, n).value) ==
        Segments(Decoded(CleanPath(base), n).value) + Parts(Decoded(suffix, n).value)
  {
    var head, tail := Segments(base), Parts(suffix);
    PartsDecoded(suffix, n);
    PartsOfEmpty(n);
    if tail == [] {
      assert head + tail == head;
    } else {
      var y := Join(tail, '/');
      var dy := Decoded(y, n).value;
      PartsDotFree(Decoded(suffix, n).value, dy);
      var x := if head == [] then "" else CleanPath(base);
      if head != [] {
        JoinConcat(head, tail);
        SlashAssoc(Join(head, '/'), y);
      } else {
        assert head + tail == tail && "/" + y == "" + "/" + y;
        DecodedPlain("/", n);
        SegmentsTrailing("");
        assert "" + "/" == "/";
      }
      DecodedSlash(x, y, n);
      SegmentsConcat(Decoded(x, n).value, dy);
    }
  }

  /** Freedom from dot segments depends on the non-empty segments only. */
  lemma PartsDotFree(a: string, b: string)
    requires DotFree(Split(a, '/')) && Parts(a) == Parts(b)
    ensures DotFree(Split(b, '/'))
  {
    NonEmptyDots(Split(a, '/'));
    NonEmptyDots(Split(b, '/'));
  }

  lemma {:induction false} NonEmptyDots(s: seq<string>)
    ensures DotFree(NonEmpty(s)) <==> DotFree(s)
  {
    if s != [] {
      NonEmptyDots(s[..|s| - 1]);
      assert s == s[..|s| - 1] + [s[|s| - 1]];
      DotFreeSnoc(s[..|s| - 1], s[|s| - 1]);
      DotFreeSnoc(NonEmpty(s[..|s| - 1]), s[|s| - 1]);
    }
  }

  lemma DotFreeSnoc(s: seq<string>, x: string)
    ensures DotFree(s + [x]) <==> DotFree(s) && x != "." && x != ".."
  {
    assert (s + [x])[|s|] == x;
    assert forall i :: 0 <= i < |s| ==> (s + [x])[i] == s[i];
  }

  // ---- routing and redirects ----

  /** A parsed URL: `path` is the decoding of `escapedPath`. */
  datatype Url = Url(scheme: string, host: string, path: string, escapedPath: string, rawQuery: string)

  const ROUTE_PREFIX := "/r/"

  function ParseRoutePath(path: string, rawPath: string): (r: Option<(string, string)>)
  {
    if !(ROUTE_PREFIX <= path) then None
    else
      var remainder := path[3..];
      var alias, suffix := Before(remainder, '/'), After(remainder, '/');
      if alias == "" || !Settles(suffix, ROUNDS) || !Settles(rawPath, ROUNDS) then None
      else Some((alias, suffix))
  }

  /** What a route path is: the prefix, an alias and a suffix, where suffix and raw path stay clean under every decoding and settle in
      time. Everything else is refused. */
  lemma ParseExactly(path: string, rawPath: string, alias: string, suffix: string)
    ensures ParseRoutePath(path, rawPath) == Some((alias, suffix)) <==>
      IsRoutePath(path, alias, suffix) && AlwaysClean(suffix) && SettlesInTime(suffix) && AlwaysClean(rawPath) && SettlesInTime(rawPath)
  {
    SettlesExactly(suffix, ROUNDS);
    SettlesExactly(rawPath, ROUNDS);
    if "/r/" <= path { CutExactly(path[3..], alias, suffix); }
  }

  predicate IsRoutePath(path: string, alias: string, suffix: string)
  {
    "/r/" <= path && alias != "" && '/' !in alias && (path[3..] == alias + "/" + suffix || (path[3..] == alias && suffix == ""))
  }

  predicate SettlesInTime(s: string) { Decoded(s, 16) == Decoded(s, 15) }

  lemma CutExactly(tail: string, alias: string, suffix: string)
    ensures '/' !in alias && (tail == alias + "/" + suffix || (tail == alias && suffix == "")) <==>
      Before(tail, '/') == alias && After(tail, '/') == suffix
  {
    assert alias + "/" + suffix == alias + ['/'] + suffix;
    if '/' in tail {
      assert tail == Before(tail, '/') + ['/'] + After(tail, '/');
      if '/' !in alias && tail == alias + "/" + suffix { CutAt(alias, '/', suffix); }
    } else {
      NoCut(tail, '/');
      assert (alias + "/" + suffix)[|alias|] == '/';
    }
  }

  function AbsolutePath(p: string): string
  {
    CleanPath("/" + TrimPrefix(p, "/"))
  }

  predicate RedirectAccepted(basePath: string, resolvedPath: string)
  {
    resolvedPath == basePath || basePath + "/" <= resolvedPath
  }

  function Relative(basePath: string, resolvedPath: string): string
  {
    TrimPrefix(TrimPrefix(resolvedPath, basePath), "/")
  }

  function LocalPath(alias: string, relative: string): string
  {
    if relative == "" then ROUTE_PREFIX + alias else ROUTE_PREFIX + alias + "/" + relative
  }

  function LocalLocation(base: Url, resolved: Url, alias: string): string
  {
    var path := LocalPath(alias, Relative(AbsolutePath(base.path), AbsolutePath(resolved.path)));
    if resolved.rawQuery == "" then path else path + "?" + resolved.rawQuery
  }

  predicate SameOrigin(a: Url, b: Url)
  {
    Lower(a.scheme) == Lower(b.scheme) && Lower(a.host) == Lower(b.host)
  }

  /** Containment segment by segment; under a root base only the root itself. */
  predicate PathAllowed(base: string, resolved: string)
  {
    if Segments(base) == [] then Segments(resolved) == [] else Segments(base) <= Segments(resolved)
  }

  class Response {
    var location: string

    /** `resolved` is the Location header resolved against the request, if it parses. */
    method RewriteLocation(resolved: Option<Url>, base: Url, alias: string) returns (ok: bool)
      modifies this
      ensures ok == (old(location) == "" || (resolved.Some? && SameOrigin(resolved.value, base)
                                             && PathAllowed(base.path, resolved.value.path)))
      ensures location == if ok && old(location) != "" then LocalLocation(base, resolved.value, alias) else old(location)
    {
      if location == "" { return true; }
      if resolved.None? { return false; }
      var target := resolved.value;
      if !SameOrigin(target, base) { return false; }
      var basePath := AbsolutePath(base.path);
      var resolvedPath := AbsolutePath(target.path);
      RedirectAcceptedExactly(base.path, target.path);
      if resolvedPath != basePath && !(basePath + "/" <= resolvedPath) { return false; }
      var relative := TrimPrefix(TrimPrefix(resolvedPath, basePath), "/");
      var local := ROUTE_PREFIX + alias;
      if relative != "" { local := local + "/" + relative; }
      if target.rawQuery != "" { local := local + "?" + target.rawQuery; }
      location := local;
      ok := true;
    }
  }

  /** A rewritten redirect carries the query it came with, and no other. */
  lemma RedirectKeepsQuery(base: Url, resolved: Url, alias: string)
    requires '?' !in AbsolutePath(resolved.path) && '?' !in alias
    ensures var location := LocalLocation(base, resolved, alias);
      if resolved.rawQuery == "" then '?' !in location else '?' in location && After(location, '?') == resolved.rawQuery
  {
    var relative := Relative(AbsolutePath(base.path), AbsolutePath(resolved.path));
    assert '?' !in relative;
    var path := LocalPath(alias, relative);
    assert '?' !in path;
    assert path + "?" + resolved.rawQuery == path + ['?'] + resolved.rawQuery;
    CutAt(path, '?', resolved.rawQuery);
  }

  lemma AbsoluteSegments(p: string)
    ensures AbsolutePath(p) == "/" + Join(Segments(p), '/')
  {
    if "/" <= p {
      assert "/" + p[1..] == p;
    } else {
      SegmentsOfSlash(p);
    }
  }

  /** The text test of the redirect check is segment containment, except for a root base,
      where the doubled slash leaves only the root itself. */
  lemma RedirectAcceptedExactly(base: string, resolved: string)
    ensures RedirectAccepted(AbsolutePath(base), AbsolutePath(resolved)) <==> PathAllowed(base, resolved)
  {
    AbsoluteSegments(base);
    AbsoluteSegments(resolved);
    SegmentsProper(base);
    SegmentsProper(resolved);
    JoinStart(Segments(resolved));
    if Segments(base) == [] {
      assert !("//" <= AbsolutePath(resolved)) by {
        if Segments(resolved) != [] { assert AbsolutePath(resolved)[1] != '/'; }
      }
    } else {
      ContainedExactly(Segments(base), Segments(resolved));
    }
  }

  lemma ContainedExactly(b: seq<string>, r: seq<string>)
    requires AllProper(b) && AllProper(r) && b != []
    ensures b <= r <==> RedirectAccepted("/" + Join(b, '/'), "/" + Join(r, '/'))
  {
    var bt, rt := "/" + Join(b, '/'), "/" + Join(r, '/');
    if b <= r {
      assert r == b + r[|b|..];
      RelativeText(b, r[|b|..]);
    } else if RedirectAccepted(bt, rt) {
      var tail := if rt == bt then "" else rt[|bt| + 1..];
      assert rt == bt || rt == bt + "/" + tail;
      TextContained(b, r, tail);
    }
  }

  /** What remains of a contained path after its base. */
  lemma RelativeText(b: seq<string>, rest: seq<string>)
    requires b != []
    ensures RedirectAccepted("/" + Join(b, '/'), "/" + Join(b + rest, '/'))
    ensures Relative("/" + Join(b, '/'), "/" + Join(b + rest, '/')) == Join(rest, '/')
  {
    RootedConcat(b, rest);
    RelativeOf("/" + Join(b, '/'), Join(rest, '/'));
  }

  lemma RootedConcat(b: seq<string>, rest: seq<string>)
    requires b != []
    ensures "/" + Join(b + rest, '/') ==
      if rest == [] then "/" + Join(b, '/') else "/" + Join(b, '/') + "/" + Join(rest, '/')
  {
    if rest == [] {
      assert b + rest == b;
    } else {
      JoinConcat(b, rest);
      SlashAssoc(Join(b, '/'), Join(rest, '/'));
    }
  }

  lemma RelativeOf(base: string, tail: string)
    ensures Relative(base, base) == "" && Relative(base, base + "/" + tail) == tail
    ensures RedirectAccepted(base, base) && RedirectAccepted(base, base + "/" + tail)
  {
    assert base[|base|..] == "";
    assert (base + "/" + tail)[|base|..] == "/" + tail;
    assert ("/" + tail)[1..] == tail;
  }

  lemma TextContained(b: seq<string>, r: seq<string>, tail: string)
    requires AllProper(b) && AllProper(r) && b != []
    requires var bt, rt := "/" + Join(b, '/'), "/" + Join(r, '/'); rt == bt || rt == bt + "/" + tail
    ensures b <= r
  {
    var bt, rt := "/" + Join(b, '/'), "/" + Join(r, '/');
    JoinStart(b);
    RootedSplit(b);
    RootedSplit(r);
    SplitConcat(bt, '/', tail);
    assert |rt| > 1;
    var more := if rt == bt then [] else Split(tail, '/');
    assert [""] + r == [""] + b + more;
    DropFirst("", r, b, more);
  }

  lemma DropFirst<T>(x: T, r: seq<T>, b: seq<T>, more: seq<T>)
    requires [x] + r == [x] + b + more
    ensures b <= r
  {
    assert ([x] + r)[1..] == r;
    assert ([x] + b + more)[1..] == b + more;
  }

  lemma RootedSplit(s: seq<string>)
    requires AllProper(s)
    ensures s != [] ==> Split("/" + Join(s, '/'), '/') == [""] + s
    ensures s == [] ==> "/" + Join(s, '/') == "/"
  {
    if s != [] {
      SplitJoin(s, '/');
      SplitConcat("", '/', Join(s, '/'));
      assert "" + ['/'] + Join(s, '/') == "/" + Join(s, '/');
    }
  }

  // ---- redirect rewriting undoes routing ----

  lemma {:induction false} CleanCongruence(x: seq<string>, y: seq<string>, z: seq<string>)
    requires CleanSegments(x) == CleanSegments(y)
    ensures CleanSegments(x + z) == CleanSegments(y + z)
  {
    if z == [] {
      assert x + z == x && y + z == y;
    } else {
      var front, last := z[..|z| - 1], z[|z| - 1];
      CleanCongruence(x, y, front);
      SnocAssoc(x, z);
      SnocAssoc(y, z);
      CleanSnoc(x + front, last);
      CleanSnoc(y + front, last);
    }
  }

  lemma SegmentsCongruence(x: string, y: string, z: string)
    requires Segments(x) == Segments(y)
    ensures Segments(x + "/" + z) == Segments(y + "/" + z)
  {
    SplitConcat(x, '/', z);
    SplitConcat(y, '/', z);
    CleanCongruence(Split(x, '/'), Split(y, '/'), Split(z, '/'));
  }

  /** Decoding commutes with cleaning when the escaped text pops nothing. */
  lemma {:induction false} DecodeOfClean(e: string)
    requires Unescape(e).Some? && ".." !in Split(e, '/')
    ensures Unescape(CleanPath(e)).Some?
    ensures Segments(Unescape(CleanPath(e)).value) == Segments(Unescape(e).value)
    decreases |Split(e, '/')|
  {
    var parts := Split(e, '/');
    JoinSplit(e, '/');
    var front, last := parts[..|parts| - 1], parts[|parts| - 1];
    assert parts == front + [last];
    JoinSnoc(front, last);
    if front == [] {
      DecodeOfSingle(e);
    } else {
      var f := Join(front, '/');
      SplitJoin(front, '/');
      UnescapeSlash(f, last);
      assert forall g :: g in front ==> g in parts;
      DecodeOfClean(f);
      DecodeStep(f, last);
    }
  }

  lemma DecodeStep(f: string, last: string)
    requires Unescape(f).Some? && Unescape(last).Some? && last != ".." && '/' !in last
    requires Unescape(CleanPath(f)).Some?
    requires Segments(Unescape(CleanPath(f)).value) == Segments(Unescape(f).value)
    ensures var e := f + "/" + last;
      Unescape(CleanPath(e)).Some?
      && Segments(Unescape(CleanPath(e)).value) == Segments(Unescape(f).value + "/" + Unescape(last).value)
  {
    if last == "" || last == "." {
      UnescapePlain(last);
      SegmentsDropLast(f, last);
      SegmentsDropLast(Unescape(f).value, last);
    } else {
      SegmentsCongruence(Unescape(f).value, Unescape(CleanPath(f)).value, Unescape(last).value);
      DecodeOfSnoc(f, last);
    }
  }

  lemma SingleSegment(x: string)
    ensures CleanSegments([x]) == if x == "" || x == "." || x == ".." then [] else [x]
    ensures NonEmpty([x]) == if x == "" then [] else [x]
  {
    assert [x][..0] == [];
  }

  lemma SegmentsDropLast(x: string, last: string)
    requires last == "" || last == "."
    ensures Segments(x + "/" + last) == Segments(x)
  {
    SplitConcat(x, '/', last);
    SplitWhole(last, '/');
    assert (Split(x, '/') + [last])[..|Split(x, '/')|] == Split(x, '/');
  }

  lemma DecodeOfSingle(e: string)
    requires Unescape(e).Some? && Split(e, '/') == [e] && e != ".."
    ensures Unescape(CleanPath(e)).Some?
    ensures Segments(Unescape(CleanPath(e)).value) == Segments(Unescape(e).value)
  {
    SingleSegment(e);
    if e == "" || e == "." {
      UnescapePlain(e);
      UnescapePlain("/");
      RootSegments();
    } else {
      var d := Unescape(e).value;
      UnescapeSlash("", e);
      assert CleanPath(e) == "/" + e && "" + "/" + e == "/" + e;
      assert "" + "/" + d == "/" + d;
      SegmentsOfSlash(d);
    }
  }

  lemma RootSegments()
    ensures Segments("/") == [] && Segments("") == [] && "/" + Join([], '/') == "/"
  {
    SegmentsOfSlash("");
    assert "/" + "" == "/";
    SingleSegment("");
  }

  lemma DecodeOfSnoc(f: string, last: string)
    requires last != "" && last != "." && last != ".." && '/' !in last
    requires Unescape(CleanPath(f)).Some? && Unescape(last).Some?
    ensures var e := f + "/" + last;
      Unescape(CleanPath(e)).Some?
      && Segments(Unescape(CleanPath(e)).value) == Segments(Unescape(CleanPath(f)).value + "/" + Unescape(last).value)
  {
    SnocText(f, last);
    var x, d := if Segments(f) == [] then "" else CleanPath(f), Unescape(last).value;
    UnescapeSlash(x, last);
    if Segments(f) == [] {
      UnescapePlain("/");
      SegmentsTrailing("");
      assert "" + "/" == "/";
      SegmentsCongruence("", "/", d);
    }
  }

  lemma SnocText(f: string, last: string)
    requires last != "" && last != "." && last != ".." && '/' !in last
    ensures CleanPath(f + "/" + last) == (if Segments(f) == [] then "" else CleanPath(f)) + "/" + last
  {
    SplitWhole(last, '/');
    SplitConcat(f, '/', last);
    CleanSnoc(Split(f, '/'), last);
    JoinSnoc(Segments(f), last);
    SlashAssoc(Join(Segments(f), '/'), last);
  }

  predicate PlainPath(p: string)
  {
    forall c | c in "%?#\\\0" :: c !in p
  }

  lemma SettlesPlain(s: string)
    requires '%' !in s && CleanText(s)
    ensures Settles(s, ROUNDS)
  {
    UnescapePlain(s);
  }

  /** Cleaning the escaped base path, as joining does, and cleaning the decoded one, as the
      redirect check does, name the same place. */
  predicate CleaningCommutes(base: Url)
  {
    Unescape(CleanPath(base.escapedPath)).Some?
    && Segments(Unescape(CleanPath(base.escapedPath)).value) == Segments(base.path)
  }

  /** That is so for every base path without a `..` segment ... */
  lemma NoPopCommutes(base: Url)
    requires Unescape(base.escapedPath) == Some(base.path) && ".." !in Split(base.escapedPath, '/')
    ensures CleaningCommutes(base)
  {
    DecodeOfClean(base.escapedPath);
  }

  /** ... and fails whenever a final `..` pops a segment holding an escaped slash. */
  lemma EscapedSlashPopped(base: Url, x: string, y: string)
    requires Proper(x) && Proper(y) && '%' !in x && '%' !in y
    requires base.escapedPath == "/" + (x + "%2F" + y) + "/.." && base.path == "/" + (x + "/" + y) + "/.."
    ensures Unescape(base.escapedPath) == Some(base.path) && !CleaningCommutes(base)
  {
    var e, d := x + "%2F" + y, x + "/" + y;
    assert base.escapedPath == "/" + e + "/" + ".." && base.path == "/" + d + "/" + "..";
    EscapedSlash(x, y);
    RootedParent(e, d);
    assert '/' !in "%2F";
    SplitWhole(e, '/');
    SingleSegment(e);
    ParentSegments(e);
    RootSegments();
    UnescapePlain("/");
    TwoSegments(x, y);
    ParentSegments(d);
  }

  lemma RootedParent(e: string, d: string)
    requires Unescape(e) == Some(d)
    ensures Unescape("/" + e + "/" + "..") == Some("/" + d + "/" + "..")
  {
    UnescapePlain("..");
    UnescapePlain("");
    UnescapeSlash("", e);
    SlashAssoc("", e);
    SlashAssoc("", d);
    UnescapeSlash("/" + e, "..");
  }

  lemma ParentSegments(p: string)
    ensures Segments("/" + p + "/" + "..") == Push(Segments(p), "..")
  {
    SegmentsPop("/" + p);
    SegmentsOfSlash(p);
  }

  lemma TwoSegments(x: string, y: string)
    requires Proper(x) && Proper(y)
    ensures Segments(x + "/" + y) == [x, y]
  {
    SplitWhole(x, '/');
    SplitWhole(y, '/');
    SingleSegment(x);
    SingleSegment(y);
    SegmentsConcat(x, y);
  }

  lemma SegmentsPop(p: string)
    ensures Segments(p + "/" + "..") == Push(Segments(p), "..")
  {
    SplitConcat(p, '/', "..");
    SplitWhole("..", '/');
    CleanSnoc(Split(p, '/'), "..");
  }

  lemma {:induction false} EscapedSlash(x: string, y: string)
    requires '%' !in x && '%' !in y
    ensures Unescape(x + "%2F" + y) == Some(x + "/" + y)
  {
    var s := x + "%2F" + y;
    if x == "" {
      assert s[0] == '%' && s[1] == '2' && s[2] == 'F' && s[3..] == y;
      assert HexValue('2') == Some(2) && HexValue('F') == Some(15) && 47 as char == '/';
      UnescapePlain(y);
      assert "" + "/" + y == ['/'] + y;
    } else {
      EscapedSlash(x[1..], y);
      assert s[1..] == x[1..] + "%2F" + y;
      assert x + "/" + y == [x[0]] + (x[1..] + "/" + y);
    }
  }

  /** Following a rewritten redirect through the gateway: the local path routes to the same alias,
      and joining its suffix to the base resolves to the path the upstream named exactly when
      cleaning the base commutes with decoding it. */
  lemma RedirectRoundTrip(base: Url, resolved: Url, alias: string, rawPath: string)
    requires Unescape(base.escapedPath) == Some(base.path)
    requires Segments(base.path) != []
    requires RedirectAccepted(AbsolutePath(base.path), AbsolutePath(resolved.path))
    requires PlainPath(AbsolutePath(resolved.path))
    requires Names.ValidAlias(alias)
    requires rawPath == "" || rawPath == Before(LocalLocation(base, resolved, alias), '?')
    ensures var path := Before(LocalLocation(base, resolved, alias), '?');
      var parsed := ParseRoutePath(path, rawPath);
      parsed.Some? && parsed.value.0 == alias
      && var upstream := Unescape(JoinedPath(base.escapedPath, parsed.value.1));
         upstream.Some?
         && (AbsolutePath(upstream.value) == AbsolutePath(resolved.path) <==> CleaningCommutes(base))
  {
    var b, r := Segments(base.path), Segments(resolved.path);
    AbsoluteSegments(base.path);
    AbsoluteSegments(resolved.path);
    SegmentsProper(base.path);
    SegmentsProper(resolved.path);
    ContainedExactly(b, r);
    assert b + r[|b|..] == r;
    RelativeText(b, r[|b|..]);
    RelativePlain(b, r);
    var relative := Join(r[|b|..], '/');
    LocalPathParses(base, resolved, alias, relative, rawPath);
    assert PlainPath(relative) ==> '%' !in relative by { assert '%' in "%?#\\\0"; }
    JoinedBack(base.escapedPath, r[|b|..]);
    var upstream := Unescape(JoinedPath(base.escapedPath, relative)).value;
    SamePath(upstream, resolved.path);
    var c := Segments(Unescape(CleanPath(base.escapedPath)).value);
    assert c + r[|b|..] == b + r[|b|..] <==> c == b by { SameHead(c, b, r[|b|..]); }
  }

  lemma SameHead<T>(x: seq<T>, y: seq<T>, z: seq<T>)
    ensures x + z == y + z <==> x == y
  {
    if x + z == y + z {
      assert |x + z| == |y + z|;
      assert x == (x + z)[..|x|] && y == (y + z)[..|x|];
    }
  }

  lemma SamePath(x: string, y: string)
    ensures AbsolutePath(x) == AbsolutePath(y) <==> Segments(x) == Segments(y)
  {
    AbsoluteSegments(x);
    AbsoluteSegments(y);
    SegmentsProper(x);
    SegmentsProper(y);
    SegmentsOfRooted(Segments(x));
    SegmentsOfRooted(Segments(y));
  }

  lemma JoinedBack(escapedBase: string, rest: seq<string>)
    requires Unescape(escapedBase).Some?
    requires AllProper(rest) && '%' !in Join(rest, '/') && CleanText(Join(rest, '/'))
    ensures var upstream := Unescape(JoinedPath(escapedBase, Join(rest, '/')));
      Unescape(CleanPath(escapedBase)).Some? && upstream.Some?
      && Segments(upstream.value) == Segments(Unescape(CleanPath(escapedBase)).value) + rest
  {
    var relative := Join(rest, '/');
    CleanDecodes(escapedBase);
    SettlesPlain(relative);
    DecodedOnce(CleanPath(escapedBase));
    UpstreamStaysUnderBase(escapedBase, relative, 1);
    DecodedPlain(relative, 1);
    PartsOfJoin(rest);
    DecodedOnce(JoinedPath(escapedBase, relative));
  }

  predicate AllDecode(segments: seq<string>)
  {
    forall i :: 0 <= i < |segments| ==> Unescape(segments[i]).Some?
  }

  lemma {:induction false} JoinDecodes(segments: seq<string>)
    requires segments != []
    ensures Unescape(Join(segments, '/')).Some? <==> AllDecode(segments)
  {
    if |segments| > 1 {
      var rest := segments[1..];
      JoinDecodes(rest);
      UnescapeSlash(segments[0], Join(rest, '/'));
      assert forall i :: 0 <= i < |rest| ==> rest[i] == segments[i + 1];
      assert forall i :: 0 < i < |segments| ==> segments[i] == rest[i - 1];
    }
  }

  lemma {:induction false} CleanKeepsDecodable(segments: seq<string>)
    requires AllDecode(segments)
    ensures AllDecode(CleanSegments(segments))
  {
    if segments != [] { CleanKeepsDecodable(segments[..|segments| - 1]); }
  }

  lemma CleanDecodes(e: string)
    requires Unescape(e).Some?
    ensures Unescape(CleanPath(e)).Some?
  {
    JoinSplit(e, '/');
    JoinDecodes(Split(e, '/'));
    CleanKeepsDecodable(Split(e, '/'));
    var text := Join(Segments(e), '/');
    UnescapePlain("");
    if Segments(e) != [] { JoinDecodes(Segments(e)); }
    UnescapeSlash("", text);
    SlashAssoc("", text);
  }

  lemma DecodedOnce(s: string)
    ensures Decoded(s, 1) == Unescape(s)
  {
    assert Decoded(s, 0) == Some(s);
  }

  lemma PartsOfJoin(s: seq<string>)
    requires AllProper(s)
    ensures Parts(Join(s, '/')) == s && DotFree(Split(Join(s, '/'), '/'))
  {
    PartsOfEmpty(0);
    NonEmptyOfProper(s);
    if s != [] { SplitJoin(s, '/'); }
  }

  lemma RelativePlain(b: seq<string>, r: seq<string>)
    requires AllProper(r) && b != [] && b <= r
    requires PlainPath("/" + Join(r, '/'))
    ensures PlainPath(Join(r[|b|..], '/')) && CleanText(Join(r[|b|..], '/'))
  {
    var rest := r[|b|..];
    PartsOfJoin(rest);
    var whole, tail := "/" + Join(r, '/'), Join(rest, '/');
    if rest != [] {
      assert r == b + rest;
      JoinConcat(b, rest);
    }
    assert forall c :: c in tail ==> c in whole;
    assert '\\' in "%?#\\\0" && '\0' in "%?#\\\0";
  }

  lemma LocalPathParses(base: Url, resolved: Url, alias: string, relative: string, rawPath: string)
    requires relative == Relative(AbsolutePath(base.path), AbsolutePath(resolved.path))
    requires PlainPath(relative) && CleanText(relative) && Names.ValidAlias(alias)
    requires rawPath == "" || rawPath == Before(LocalLocation(base, resolved, alias), '?')
    ensures Before(LocalLocation(base, resolved, alias), '?') == LocalPath(alias, relative)
    ensures ParseRoutePath(LocalPath(alias, relative), rawPath) == Some((alias, relative))
  {
    var path := LocalPath(alias, relative);
    LocalPathPlain(alias, relative);
    if resolved.rawQuery != "" {
      assert LocalLocation(base, resolved, alias) == path + ['?'] + resolved.rawQuery;
      CutAt(path, '?', resolved.rawQuery);
    } else {
      assert LocalLocation(base, resolved, alias) == path;
      var tail := After(path, '?');
    }
    LocalPathClean(alias, relative);
    SettlesPlain(path);
    SettlesPlain(relative);
    PartsOfEmpty(0);
    assert CleanText("");
    SettlesPlain("");
    LocalPathCut(alias, relative);
  }

  lemma LocalPathPlain(alias: string, relative: string)
    requires PlainPath(relative) && Names.ValidAlias(alias)
    ensures '?' !in LocalPath(alias, relative) && '%' !in LocalPath(alias, relative) && '%' !in relative
  {
    assert '?' in "%?#\\\0" && '%' in "%?#\\\0";
    assert forall c :: c in alias ==> Names.AliasChar(c);
    assert '?' !in alias && '%' !in alias;
  }

  lemma LocalPathCut(alias: string, relative: string)
    requires Names.ValidAlias(alias)
    ensures ROUTE_PREFIX <= LocalPath(alias, relative)
    ensures Before(LocalPath(alias, relative)[3..], '/') == alias
    ensures After(LocalPath(alias, relative)[3..], '/') == relative
  {
    var rest := LocalPath(alias, relative)[3..];
    assert forall c :: c in alias ==> Names.AliasChar(c);
    assert '/' !in alias;
    if relative == "" {
      assert rest == alias;
      var tail := After(alias, '/');
    } else {
      assert rest == alias + ['/'] + relative;
      CutAt(alias, '/', relative);
    }
  }

  lemma LocalPathClean(alias: string, relative: string)
    requires Names.ValidAlias(alias) && CleanText(relative)
    ensures CleanText(LocalPath(alias, relative))
  {
    var head := ROUTE_PREFIX + alias;
    RoutePrefixSplit(alias);
    if relative != "" {
      SplitConcat(head, '/', relative);
    }
  }

  lemma RoutePrefixSplit(alias: string)
    requires Names.ValidAlias(alias)
    ensures CleanText(ROUTE_PREFIX + alias)
  {
    assert forall c :: c in alias ==> Names.AliasChar(c);
    assert '/' !in alias && '\\' !in alias && '\0' !in alias && alias[0] != '.';
    ThreeParts(alias);
  }

  lemma ThreeParts(alias: string)
    requires '/' !in alias
    ensures Split(ROUTE_PREFIX + alias, '/') == ["", "r", alias]
  {
    assert ROUTE_PREFIX + alias == "/r" + ['/'] + alias;
    SplitConcat("/r", '/', alias);
    SplitWhole(alias, '/');
    assert "/r" == "" + ['/'] + "r";
    SplitConcat("", '/', "r");
    SplitWhole("r", '/');
  }
}
