/** Strings as the gateway uses them: splitting, joining, cutting and decimal numbers.
    A `char` stands for one byte of a Go string. */
module Text {

  datatype Option<+T> = None | Some(value: T)

  /** Putting one character in front of a string changes the first part only. */
  function Prepend(c: char, sep: char, parts: seq<string>): (r: seq<string>)
    requires |parts| >= 1
  {
    if c == sep then [""] + parts else [[c] + parts[0]] + parts[1..]
  }

  /** The parts of `s` between occurrences of `sep`; a string without `sep` is its own single part. */
  function Split(s: string, sep: char): (parts: seq<string>)
    ensures |parts| >= 1
    ensures forall i :: 0 <= i < |parts| ==> sep !in parts[i]
  {
    if s == "" then [""] else Prepend(s[0], sep, Split(s[1..], sep))
  }

  function Join(parts: seq<string>, sep: char): (s: string)
  {
    if parts == [] then ""
    else if |parts| == 1 then parts[0]
    else parts[0] + [sep] + Join(parts[1..], sep)
  }

  lemma {:induction false} JoinSplit(s: string, sep: char)
    ensures Join(Split(s, sep), sep) == s
  {
    if s != "" {
      JoinSplit(s[1..], sep);
      var rest := Split(s[1..], sep);
      assert s == [s[0]] + s[1..];
      if s[0] == sep {
        assert ([""] + rest)[1..] == rest;
      } else if |rest| == 1 {
      } else {
        var parts := [[s[0]] + rest[0]] + rest[1..];
        assert parts[1..] == rest[1..];
        assert Join(parts, sep) == [s[0]] + (rest[0] + [sep] + Join(rest[1..], sep));
      }
    }
  }

  lemma {:induction false} SplitWhole(s: string, sep: char)
    requires sep !in s
    ensures Split(s, sep) == [s]
  {
    if s != "" {
      SplitWhole(s[1..], sep);
      assert s == [s[0]] + s[1..];
    }
  }

  lemma SplitCons(c: char, s: string, sep: char)
    ensures Split([c] + s, sep) == Prepend(c, sep, Split(s, sep))
  {
    assert ([c] + s)[1..] == s;
  }

  /** Splitting commutes with putting a separator between two strings. */
  lemma {:induction false} SplitConcat(a: string, sep: char, b: string)
    ensures Split(a + [sep] + b, sep) == Split(a, sep) + Split(b, sep)
  {
    if a == "" {
      assert a + [sep] + b == [sep] + b;
      SplitCons(sep, b, sep);
    } else {
      SplitConcat(a[1..], sep, b);
      SplitCons(a[0], a[1..] + [sep] + b, sep);
      SplitCons(a[0], a[1..], sep);
      assert a + [sep] + b == [a[0]] + (a[1..] + [sep] + b);
      assert a == [a[0]] + a[1..];
      PrependConcat(a[0], sep, Split(a[1..], sep), Split(b, sep));
    }
  }

  lemma PrependConcat(c: char, sep: char, x: seq<string>, y: seq<string>)
    requires |x| >= 1
    ensures Prepend(c, sep, x + y) == Prepend(c, sep, x) + y
  {
    assert (x + y)[1..] == x[1..] + y;
  }

  lemma {:induction false} SplitJoin(parts: seq<string>, sep: char)
    requires parts != []
    requires forall i :: 0 <= i < |parts| ==> sep !in parts[i]
    ensures Split(Join(parts, sep), sep) == parts
  {
    SplitWhole(parts[0], sep);
    if |parts| > 1 {
      SplitJoin(parts[1..], sep);
      SplitConcat(parts[0], sep, Join(parts[1..], sep));
      assert parts == [parts[0]] + parts[1..];
    } else {
      assert parts == [parts[0]];
    }
  }

  /** What stands before the first `sep`, or everything when there is none. */
  function Before(s: string, sep: char): (head: string)
    ensures sep !in head && head <= s
  {
    if s == "" || s[0] == sep then "" else [s[0]] + Before(s[1..], sep)
  }

  /** What stands after the first `sep`, or nothing when there is none. */
  function After(s: string, sep: char): (tail: string)
    ensures sep in s ==> s == Before(s, sep) + [sep] + tail
    ensures sep !in s ==> tail == "" && Before(s, sep) == s
  {
    if s == "" then "" else if s[0] == sep then s[1..] else After(s[1..], sep)
  }

  lemma {:induction false} CutAt(head: string, sep: char, tail: string)
    requires sep !in head
    ensures Before(head + [sep] + tail, sep) == head
    ensures After(head + [sep] + tail, sep) == tail
  {
    if head != "" {
      CutAt(head[1..], sep, tail);
      assert (head + [sep] + tail)[1..] == head[1..] + [sep] + tail;
    }
  }

  lemma NoCut(s: string, sep: char)
    requires sep !in s
    ensures Before(s, sep) == s && After(s, sep) == ""
  {
    var tail := After(s, sep);
  }

  function TrimPrefix(s: string, prefix: string): (r: string)
    ensures prefix <= s ==> s == prefix + r
    ensures !(prefix <= s) ==> r == s
  {
    if prefix <= s then s[|prefix|..] else s
  }

  predicate HasSuffix(s: string, suffix: string)
  {
    |suffix| <= |s| && s[|s| - |suffix|..] == suffix
  }

  function LowerChar(c: char): char
  {
    if 'A' <= c <= 'Z' then (c as int + 32) as char else c
  }

  /** strings.ToLower, on ASCII letters. */
  function Lower(s: string): (r: string)
    ensures |r| == |s|
  {
    if s == "" then "" else [LowerChar(s[0])] + Lower(s[1..])
  }

  const LOWER_LETTERS := "abcdefghijklmnopqrstuvwxyz"
  const UPPER_LETTERS := "ABCDEFGHIJKLMNOPQRSTUVWXYZ"

  /** The same character, or the same letter in the other case. */
  predicate SameLetter(a: char, b: char)
  {
    a == b || exists i :: 0 <= i < 26 && ((a == LOWER_LETTERS[i] && b == UPPER_LETTERS[i]) || (a == UPPER_LETTERS[i] && b == LOWER_LETTERS[i]))
  }

  predicate SameLetters(a: string, b: string)
  {
    |a| == |b| && forall i :: 0 <= i < |a| ==> SameLetter(a[i], b[i])
  }

  lemma LetterAt(i: int)
    requires 0 <= i < 26
    ensures LOWER_LETTERS[i] == ('a' as int + i) as char && UPPER_LETTERS[i] == ('A' as int + i) as char
  {
  }

  lemma LowerCharSame(c: char)
    ensures SameLetter(LowerChar(c), c)
  {
    if 'A' <= c <= 'Z' { LetterAt(c as int - 'A' as int); }
  }

  lemma LowerCharLow(c: char)
    ensures LowerChar(c) !in UPPER_LETTERS
  {
    forall i | 0 <= i < 26 ensures UPPER_LETTERS[i] != LowerChar(c) { LetterAt(i); }
  }

  /** Lower-casing keeps every character but for the case of letters, and leaves no capital. */
  lemma {:induction false} LowerExactly(s: string)
    ensures SameLetters(Lower(s), s) && forall i :: 0 <= i < |s| ==> Lower(s)[i] !in UPPER_LETTERS
  {
    if s != "" {
      LowerExactly(s[1..]);
      LowerCharSame(s[0]);
      LowerCharLow(s[0]);
    }
  }

  lemma {:induction false} LowerIdempotent(s: string)
    ensures Lower(Lower(s)) == Lower(s)
  {
    if s != "" {
      LowerIdempotent(s[1..]);
      assert Lower(s)[1..] == Lower(s[1..]);
    }
  }

  /** White space, on ASCII characters. */
  predicate IsSpace(c: char) { c in " \t\n\r" || c as int in {0x0B, 0x0C} }

  function TrimLeft(s: string): (r: string)
  {
    if s != "" && IsSpace(s[0]) then TrimLeft(s[1..]) else s
  }

  function TrimRight(s: string): (r: string)
  {
    if s != "" && IsSpace(s[|s| - 1]) then TrimRight(s[..|s| - 1]) else s
  }

  /** strings.TrimSpace. */
  function TrimSpace(s: string): (r: string) { TrimRight(TrimLeft(s)) }

  lemma {:induction false} TrimLeftStart(s: string)
    ensures TrimLeft(s) == "" || !IsSpace(TrimLeft(s)[0])
  {
    if s != "" && IsSpace(s[0]) { TrimLeftStart(s[1..]); }
  }

  lemma {:induction false} TrimRightEnd(s: string)
    ensures TrimRight(s) <= s && (TrimRight(s) == "" || !IsSpace(TrimRight(s)[|TrimRight(s)| - 1]))
  {
    if s != "" && IsSpace(s[|s| - 1]) { TrimRightEnd(s[..|s| - 1]); }
  }

  predicate Blank(s: string) { forall c :: c in s ==> IsSpace(c) }

  lemma {:induction false} TrimLeftExactly(s: string) returns (cut: string)
    ensures Blank(cut) && s == cut + TrimLeft(s)
  {
    cut := "";
    if s != "" && IsSpace(s[0]) {
      var rest := TrimLeftExactly(s[1..]);
      cut := [s[0]] + rest;
      assert s == [s[0]] + s[1..];
    }
  }

  lemma {:induction false} TrimRightExactly(s: string) returns (cut: string)
    ensures Blank(cut) && s == TrimRight(s) + cut
  {
    cut := "";
    if s != "" && IsSpace(s[|s| - 1]) {
      var rest := TrimRightExactly(s[..|s| - 1]);
      cut := rest + [s[|s| - 1]];
      assert s == s[..|s| - 1] + [s[|s| - 1]];
    }
  }

  /** Trimming takes away white space at both ends, all of it and nothing else. */
  lemma TrimSpaceExactly(s: string) returns (left: string, right: string)
    ensures var t := TrimSpace(s);
      Blank(left) && Blank(right) && s == left + t + right && (t == "" || (!IsSpace(t[0]) && !IsSpace(t[|t| - 1])))
  {
    left := TrimLeftExactly(s);
    right := TrimRightExactly(TrimLeft(s));
    TrimLeftStart(s);
    TrimRightEnd(TrimLeft(s));
  }

  lemma TrimSpaceIdempotent(s: string)
    ensures TrimSpace(TrimSpace(s)) == TrimSpace(s)
  {
    TrimLeftStart(s);
    TrimRightEnd(TrimLeft(s));
  }

  lemma SnocAssoc<T>(x: seq<T>, z: seq<T>)
    requires z != []
    ensures x + z == (x + z[..|z| - 1]) + [z[|z| - 1]]
  {
  }

  function UpperChar(c: char): char
  {
    if 'a' <= c <= 'z' then (c as int - 32) as char else c
  }

  /** strings.ToUpper, on ASCII letters. */
  function Upper(s: string): (r: string)
    ensures |r| == |s|
  {
    if s == "" then "" else [UpperChar(s[0])] + Upper(s[1..])
  }

  lemma UpperCharSame(c: char)
    ensures SameLetter(UpperChar(c), c)
  {
    if 'a' <= c <= 'z' { LetterAt(c as int - 'a' as int); }
  }

  lemma UpperCharHigh(c: char)
    ensures UpperChar(c) !in LOWER_LETTERS
  {
    forall i | 0 <= i < 26 ensures LOWER_LETTERS[i] != UpperChar(c) { LetterAt(i); }
  }

  /** Upper-casing keeps every character but for the case of letters, and leaves no small letter. */
  lemma {:induction false} UpperExactly(s: string)
    ensures SameLetters(Upper(s), s) && forall i :: 0 <= i < |s| ==> Upper(s)[i] !in LOWER_LETTERS
  {
    if s != "" {
      UpperExactly(s[1..]);
      UpperCharSame(s[0]);
      UpperCharHigh(s[0]);
    }
  }

  lemma {:induction false} UpperIdempotent(s: string)
    ensures Upper(Upper(s)) == Upper(s)
  {
    if s != "" {
      UpperIdempotent(s[1..]);
      assert Upper(s)[1..] == Upper(s[1..]);
    }
  }

  // ---- decimal numbers (strconv.Itoa and strconv.Atoi) ----

  predicate IsDigit(c: char) { '0' <= c <= '9' }

  function Digit(n: nat): (c: char)
    requires n < 10
    ensures IsDigit(c)
  {
    ('0' as int + n) as char
  }

  function Itoa(n: nat): (s: string)
    ensures s != "" && forall i :: 0 <= i < |s| ==> IsDigit(s[i])
  {
    if n < 10 then [Digit(n)] else Itoa(n / 10) + [Digit(n % 10)]
  }

  /** The value of a string of digits, most significant first. */
  function DigitsValue(s: string): (r: Option<nat>)
  {
    if s == "" then Some(0)
    else
      var last := s[|s| - 1];
      var high := DigitsValue(s[..|s| - 1]);
      if IsDigit(last) && high.Some? then Some(10 * high.value + (last as int - '0' as int)) else None
  }

  function Atoi(s: string): (r: Option<int>)
  {
    var signed := s != "" && (s[0] == '-' || s[0] == '+');
    var digits := if signed then s[1..] else s;
    var value := DigitsValue(digits);
    if digits == "" || value.None? then None
    else
      var magnitude: int := value.value;
      Some(if signed && s[0] == '-' then -magnitude else magnitude)
  }

  lemma {:induction false} DigitsValueItoa(n: nat)
    ensures DigitsValue(Itoa(n)) == Some(n)
  {
    if n >= 10 {
      DigitsValueItoa(n / 10);
      var s := Itoa(n);
      assert s[..|s| - 1] == Itoa(n / 10);
    } else {
      assert Itoa(n)[..0] == "";
    }
  }

  lemma AtoiItoa(n: nat)
    ensures Atoi(Itoa(n)) == Some(n)
  {
    DigitsValueItoa(n);
    assert IsDigit(Itoa(n)[0]);
  }

  lemma ItoaInjective(a: nat, b: nat)
    requires Itoa(a) == Itoa(b)
    ensures a == b
  {
    DigitsValueItoa(a);
    DigitsValueItoa(b);
  }
}
