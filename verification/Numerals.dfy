/** Numbers as text, and text cut at a separator. */
module Numerals {
  import opened Prelude

  predicate IsDigit(c: char) { '0' <= c <= '9' }

  function DigitChar(d: nat): char
    requires d < 10
  {
    (d + '0' as int) as char
  }

  function DigitOf(c: char): nat
    requires IsDigit(c)
  {
    c as int - '0' as int
  }

  predicate AllDigits(s: string, base: nat) {
    forall c :: c in s ==> IsDigit(c) && DigitOf(c) < base
  }

  /** No leading zero, "0" for zero. */
  function Print(n: nat, base: nat): (s: string)
    requires 2 <= base <= 10
    ensures s != "" && AllDigits(s, base)
    decreases n
  {
    if n < base then [DigitChar(n)]
    else
      DivSmaller(n, base);
      Print(n / base, base) + [DigitChar(n % base)]
  }

  function Value(s: string, base: nat): nat
    requires AllDigits(s, base)
  {
    if s == "" then 0 else base * Value(s[..|s| - 1], base) + DigitOf(s[|s| - 1])
  }

  lemma ValueSnoc(s: string, c: char, base: nat)
    requires AllDigits(s, base) && IsDigit(c) && DigitOf(c) < base
    ensures AllDigits(s + [c], base) && Value(s + [c], base) == base * Value(s, base) + DigitOf(c)
  {
    assert (s + [c])[..|s|] == s;
  }

  lemma {:induction false} ValueOfPrint(n: nat, base: nat)
    requires 2 <= base <= 10
    ensures Value(Print(n, base), base) == n
    decreases n
  {
    if n < base {
      ValueSnoc("", DigitChar(n), base);
      assert Print(n, base) == "" + [DigitChar(n)];
      assert Value("", base) == 0;
      assert base * 0 == 0;
    } else {
      DivSmaller(n, base);
      ValueOfPrint(n / base, base);
      PrintSnoc(n, base);
      ValueSnoc(Print(n / base, base), DigitChar(n % base), base);
    }
  }

  lemma PrintSnoc(n: nat, base: nat)
    requires 2 <= base <= 10 && n >= base
    ensures Print(n, base) == Print(n / base, base) + [DigitChar(n % base)]
  {
  }

  lemma PrintInjective(n: nat, m: nat, base: nat)
    requires 2 <= base <= 10 && Print(n, base) == Print(m, base)
    ensures n == m
  {
    ValueOfPrint(n, base);
    ValueOfPrint(m, base);
  }

  /** Rust's `str::parse` for an unsigned type with the given largest value. */
  function ParseUnsigned(s: string, max: nat): Option<nat> {
    var digits := if s != "" && s[0] == '+' then s[1..] else s;
    if digits == "" || !AllDigits(digits, 10) || Value(digits, 10) > max then None
    else Some(Value(digits, 10))
  }

  lemma ParseInvertsPrint(n: nat, max: nat)
    ensures ParseUnsigned(Print(n, 10), max) == if n <= max then Some(n) else None
  {
    ValueOfPrint(n, 10);
    assert Print(n, 10)[0] in Print(n, 10);
  }

  // ---------------------------------------------------------------------
  // Separated text

  /** The pieces between separators, as Rust's `str::split`: always at least one. */
  function Split(s: string, sep: char): (pieces: seq<string>)
    ensures |pieces| >= 1
  {
    if s == "" then [""]
    else
      var rest := Split(s[1..], sep);
      if s[0] == sep then [""] + rest else [[s[0]] + rest[0]] + rest[1..]
  }

  lemma {:induction false} SplitWhole(s: string, sep: char)
    requires sep !in s
    ensures Split(s, sep) == [s]
  {
    if s != "" {
      assert s[0] in s && s == [s[0]] + s[1..];
      SplitWhole(s[1..], sep);
    }
  }

  lemma {:induction false} SplitAtSeparator(a: string, sep: char, b: string)
    ensures Split(a + [sep] + b, sep) == Split(a, sep) + Split(b, sep)
  {
    var s := a + [sep] + b;
    if a == "" {
      assert s[1..] == b;
    } else {
      assert s[0] == a[0] && s[1..] == a[1..] + [sep] + b;
      SplitAtSeparator(a[1..], sep, b);
    }
  }

  /** The last piece is what follows the last separator, and the pieces before it are those of what precedes it. */
  lemma {:induction false} LastPiece(s: string, sep: char) returns (before: string, last: string)
    requires |Split(s, sep)| >= 2
    ensures s == before + [sep] + last && sep !in last
    ensures Split(s, sep) == Split(before, sep) + [last]
  {
    var rest := s[1..];
    assert s == [s[0]] + rest;
    if |Split(rest, sep)| >= 2 {
      before, last := LastPiece(rest, sep);
      before := [s[0]] + before;
      assert before[1..] + [sep] + last == rest && s == before + [sep] + last;
    } else {
      OnePiece(rest, sep);
      before, last := "", rest;
      assert s == before + [sep] + last;
    }
  }

  /** A single piece is the whole text, with no separator in it. */
  lemma {:induction false} OnePiece(s: string, sep: char)
    requires |Split(s, sep)| == 1
    ensures sep !in s && Split(s, sep) == [s]
  {
    if s != "" {
      OnePiece(s[1..], sep);
      assert s == [s[0]] + s[1..];
    }
  }

  /** Text with no separator, put behind one, is the last piece. */
  lemma SplitSnoc(a: string, sep: char, b: string)
    requires sep !in b
    ensures Split(a + [sep] + b, sep) == Split(a, sep) + [b]
  {
    SplitAtSeparator(a, sep, b);
    SplitWhole(b, sep);
  }
}
