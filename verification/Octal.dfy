/** Bytes, and numbers in fixed-width octal text. */
module Octal {
  import opened Prelude
  import opened Numerals

  type Byte = b: nat | b < 256

  function Zeros(n: nat): (s: seq<Byte>)
    ensures |s| == n && forall i :: 0 <= i < n ==> s[i] == 0
  {
    seq(n, _ => 0)
  }

  predicate IsAscii(s: string) {
    forall c :: c in s ==> c < 128 as char
  }

  function CharByte(c: char): Byte
    requires c < 128 as char
  {
    c as int
  }

  function Ascii(s: string): (b: seq<Byte>)
    requires IsAscii(s)
    ensures |b| == |s|
  {
    seq(|s|, i requires 0 <= i < |s| => assert s[i] in s; CharByte(s[i]))
  }

  function Text(b: seq<Byte>): (s: string)
    ensures |s| == |b|
  {
    seq(|b|, i requires 0 <= i < |b| => b[i] as char)
  }

  lemma TextOfAscii(s: string)
    requires IsAscii(s)
    ensures Text(Ascii(s)) == s
  {
  }

  function Pow(base: nat, n: nat): nat {
    if n == 0 then 1 else base * Pow(base, n - 1)
  }

  /** At least width characters, '0' on the left. */
  function PadStart(s: string, width: nat): (t: string)
    ensures |t| >= width
  {
    if |s| >= width then s else seq(width - |s|, _ => '0') + s
  }

  /** The last width octal digits of n. */
  function OctalText(n: nat, width: nat): (s: string)
    ensures |s| == width && AllDigits(s, 8)
  {
    var t := PadStart(Print(n, 8), width);
    assert AllDigits(t, 8);
    t[|t| - width..]
  }

  lemma {:induction false} ValueAppend(a: string, b: string, base: nat)
    requires AllDigits(a, base) && AllDigits(b, base)
    ensures AllDigits(a + b, base) && Value(a + b, base) == Value(a, base) * Pow(base, |b|) + Value(b, base)
  {
    if b == "" {
      assert a + b == a;
    } else {
      var c, rest := b[|b| - 1], b[..|b| - 1];
      assert c in b && AllDigits(rest, base);
      ValueAppend(a, rest, base);
      assert Value(a + b, base) == base * Value(a + rest, base) + DigitOf(c) by {
        ValueSnoc(a + rest, c, base);
        assert a + b == a + rest + [c];
      }
      Distribute(base, Value(a, base), Pow(base, |rest|), Value(rest, base));
    }
  }

  lemma Distribute(b: nat, x: nat, p: nat, y: nat)
    ensures b * (x * p + y) == x * (b * p) + b * y
  {
  }

  lemma {:induction false} ValueBelowPow(s: string, base: nat)
    requires AllDigits(s, base) && base >= 1
    ensures Value(s, base) < Pow(base, |s|)
  {
    if s != "" {
      var c, rest := s[|s| - 1], s[..|s| - 1];
      assert c in s;
      ValueBelowPow(rest, base);
      Carry(base, Value(rest, base), Pow(base, |rest|), DigitOf(c));
    }
  }

  lemma Carry(b: nat, v: nat, p: nat, d: nat)
    requires v < p && d < b
    ensures b * v + d < b * p
  {
    assert b * (p - v) >= b by { MulAtLeast(b, p - v); }
  }

  lemma {:induction false} ZerosAreWorthless(k: nat, base: nat)
    requires base >= 1
    ensures AllDigits(seq(k, _ => '0'), base) && Value(seq(k, _ => '0'), base) == 0
  {
    if k > 0 {
      ZerosAreWorthless(k - 1, base);
      assert seq(k, _ => '0')[..k - 1] == seq(k - 1, _ => '0');
      assert base * 0 == 0;
    }
  }

  lemma ValueOfPadStart(n: nat, width: nat)
    ensures AllDigits(PadStart(Print(n, 8), width), 8) && Value(PadStart(Print(n, 8), width), 8) == n
  {
    var s := Print(n, 8);
    ValueOfPrint(n, 8);
    if |s| < width {
      ZerosAreWorthless(width - |s|, 8);
      ValueAppend(seq(width - |s|, _ => '0'), s, 8);
    }
  }

  /** The field holds the number modulo 8^width: exactly it when it fits, and a smaller one when it does not. */
  lemma ValueOfOctalText(n: nat, width: nat)
    ensures Pow(8, width) > 0 && Value(OctalText(n, width), 8) == n % Pow(8, width)
    ensures Value(OctalText(n, width), 8) == n <==> n < Pow(8, width)
  {
    var t := PadStart(Print(n, 8), width);
    var high, low := t[..|t| - width], t[|t| - width..];
    ValueOfPadStart(n, width);
    assert t == high + low;
    ValueAppend(high, low, 8);
    ValueBelowPow(low, 8);
    Residue(n, Pow(8, width), Value(high, 8), Value(low, 8));
  }

  lemma Residue(n: nat, p: nat, q: nat, r: nat)
    requires n == q * p + r && r < p
    ensures r == n % p && (r == n <==> n < p)
  {
    assert n == p * q + r;
    DivModUnique(n, p, q, r);
    if q > 0 {
      MulAtLeast(p, q);
    }
  }
}
