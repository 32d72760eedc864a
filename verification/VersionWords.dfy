/** Version numbers in the texts that dispatch and the binaries give. */
module VersionWords {
  import opened Prelude
  import opened Numerals
  import opened WhiteSpace

  datatype Triplet = Triplet(major: nat, minor: nat, patch: nat)

  /** Later in release order. */
  predicate Newer(a: Triplet, b: Triplet) {
    || a.major > b.major
    || (a.major == b.major && (a.minor > b.minor || (a.minor == b.minor && a.patch > b.patch)))
  }

  /** A version as one number, its parts the digits in some base. */
  function Rank(v: Triplet, base: nat): nat {
    (v.major * base + v.minor) * base + v.patch
  }

  predicate Below(v: Triplet, base: nat) {
    v.major < base && v.minor < base && v.patch < base
  }

  lemma LeadingDigit(high: nat, low: nat, high': nat, low': nat, base: nat)
    requires low < base && low' < base
    ensures high * base + low > high' * base + low' <==> high > high' || (high == high' && low > low')
    ensures high * base + low == high' * base + low' <==> high == high' && low == low'
  {
    if high > high' {
      MulAtLeast(base, high - high');
      assert high * base == high' * base + base * (high - high');
    } else if high < high' {
      MulAtLeast(base, high' - high);
      assert high' * base == high * base + base * (high' - high);
    }
  }

  /** Newer is greater, as numbers with the parts for digits: the major part counts most. */
  lemma NewerIsGreater(a: Triplet, b: Triplet, base: nat)
    requires Below(a, base) && Below(b, base)
    ensures Newer(a, b) <==> Rank(a, base) > Rank(b, base)
    ensures a == b <==> Rank(a, base) == Rank(b, base)
  {
    var front, front' := a.major * base + a.minor, b.major * base + b.minor;
    LeadingDigit(a.major, a.minor, b.major, b.minor, base);
    LeadingDigit(front, a.patch, front', b.patch, base);
  }

  /** Of two versions one is newer or they are the same, never both; and newer than newer is newer. */
  lemma NewerIsAnOrder(a: Triplet, b: Triplet, c: Triplet)
    ensures !(Newer(a, b) && Newer(b, a))
    ensures Newer(a, b) || Newer(b, a) || a == b
    ensures Newer(a, b) && Newer(b, c) ==> Newer(a, c)
  {
    var base := 1 + a.major + a.minor + a.patch + b.major + b.minor + b.patch + c.major + c.minor + c.patch;
    NewerIsGreater(a, b, base);
    NewerIsGreater(b, a, base);
    NewerIsGreater(b, c, base);
    NewerIsGreater(a, c, base);
  }

  /** Every leading copy of p taken off. */
  function TrimStart(s: string, p: string): string
    requires p != ""
    decreases |s|
  {
    if p <= s then TrimStart(s[|p|..], p) else s
  }

  function Trimmed(w: string): string {
    TrimStart(TrimStart(w, "rust-"), "v")
  }

  predicate IsNumber(s: string) {
    s != "" && AllDigits(s, 10)
  }

  /** Exactly three numbers between dots. */
  predicate IsVersion(w: string) {
    var parts := Split(w, '.');
    |parts| == 3 && IsNumber(parts[0]) && IsNumber(parts[1]) && IsNumber(parts[2])
  }

  predicate Digits(s: string) {
    s != "" && forall c :: c in s ==> '0' <= c <= '9'
  }

  /** A word is a version exactly when it is three runs of digits with a dot between each two. */
  lemma VersionShape(w: string)
    ensures IsVersion(w) <==>
      exists a, b, c :: Digits(a) && Digits(b) && Digits(c) && w == a + "." + b + "." + c
  {
    if IsVersion(w) {
      var parts := Split(w, '.');
      var front, c := LastPiece(w, '.');
      var a, b := LastPiece(front, '.');
      assert parts == Split(a, '.') + [b] + [c];
      OnePiece(a, '.');
      assert parts == [a, b, c] && w == a + "." + b + "." + c;
      assert Digits(a) && Digits(b) && Digits(c);
    }
    if a, b, c :| Digits(a) && Digits(b) && Digits(c) && w == a + "." + b + "." + c {
      assert '.' !in a && '.' !in b && '.' !in c;
      SplitWhole(a, '.');
      SplitSnoc(a, '.', b);
      SplitSnoc(a + "." + b, '.', c);
    }
  }

  function FirstVersion(ws: seq<string>): (w: Option<string>)
    ensures w.Some? ==> IsVersion(w.value)
    ensures w.None? <==> forall x :: x in ws ==> !IsVersion(Trimmed(x))
  {
    if ws == [] then None
    else if IsVersion(Trimmed(ws[0])) then
      assert ws[0] in ws;
      Some(Trimmed(ws[0]))
    else
      assert ws == [ws[0]] + ws[1..];
      FirstVersion(ws[1..])
  }

  /** The first word that is a version, or nothing; also nothing if one of its numbers is too large. */
  function VersionTriplet(text: string): Option<Triplet> {
    var word := FirstVersion(Words(text));
    if word.None? then None
    else
      var parts := Split(word.value, '.');
      var a, b := ParseUnsigned(parts[0], U64_MAX), ParseUnsigned(parts[1], U64_MAX);
      var c := ParseUnsigned(parts[2], U64_MAX);
      if a.Some? && b.Some? && c.Some? then Some(Triplet(a.value, b.value, c.value)) else None
  }

  /** The plain spelling of a version. */
  function Spell(v: Triplet): string {
    Print(v.major, 10) + "." + Print(v.minor, 10) + "." + Print(v.patch, 10)
  }

  function Copies(p: string, n: nat): string {
    if n == 0 then "" else p + Copies(p, n - 1)
  }

  lemma {:induction false} TrimCopies(p: string, n: nat, s: string)
    requires p != "" && !(p <= s)
    ensures TrimStart(Copies(p, n) + s, p) == s
  {
    var t := Copies(p, n) + s;
    if n == 0 {
      assert t == s;
    } else {
      assert t == p + (Copies(p, n - 1) + s) && t[|p|..] == Copies(p, n - 1) + s;
      TrimCopies(p, n - 1, s);
    }
  }

  lemma SpellingParts(v: Triplet)
    ensures Split(Spell(v), '.') == [Print(v.major, 10), Print(v.minor, 10), Print(v.patch, 10)]
    ensures IsVersion(Spell(v))
  {
    var a, b, c := Print(v.major, 10), Print(v.minor, 10), Print(v.patch, 10);
    assert '.' !in a && '.' !in b && '.' !in c;
    SplitWhole(a, '.');
    SplitSnoc(a, '.', b);
    SplitSnoc(a + "." + b, '.', c);
  }

  lemma SpellingIsWord(v: Triplet)
    ensures IsWord(Spell(v)) && IsDigit(Spell(v)[0])
  {
    var s := Spell(v);
    assert s[0] == Print(v.major, 10)[0] && s[0] in Print(v.major, 10);
    forall c | c in s
      ensures !IsSpace(c)
    {
      assert c in Print(v.major, 10) || c in Print(v.minor, 10) || c in Print(v.patch, 10) || c == '.';
    }
  }

  /** A spelling behind any number of "rust-" and then of "v". */
  function Decorated(rusts: nat, vs: nat, v: Triplet): string {
    Copies("rust-", rusts) + (Copies("v", vs) + Spell(v))
  }

  lemma {:induction false} CopiesHaveNoSpace(p: string, n: nat)
    requires forall c :: c in p ==> !IsSpace(c)
    ensures forall c :: c in Copies(p, n) ==> !IsSpace(c)
  {
    if n > 0 {
      CopiesHaveNoSpace(p, n - 1);
    }
  }

  lemma DecoratedIsWord(rusts: nat, vs: nat, v: Triplet)
    ensures IsWord(Decorated(rusts, vs, v))
  {
    SpellingIsWord(v);
    CopiesHaveNoSpace("rust-", rusts);
    CopiesHaveNoSpace("v", vs);
  }

  lemma DecoratedTrims(rusts: nat, vs: nat, v: Triplet)
    ensures Trimmed(Decorated(rusts, vs, v)) == Spell(v)
  {
    SpellingIsWord(v);
    var rest := Copies("v", vs) + Spell(v);
    assert rest[0] == if vs == 0 then Spell(v)[0] else 'v';
    assert !("rust-" <= rest) by {
      assert "rust-"[0] == 'r';
    }
    TrimCopies("rust-", rusts, rest);
    assert !("v" <= Spell(v)) by {
      assert "v"[0] == 'v';
    }
    TrimCopies("v", vs, Spell(v));
  }

  lemma {:induction false} FirstVersionAfter(noise: seq<string>, w: string, more: seq<string>)
    requires (forall n :: n in noise ==> !IsVersion(Trimmed(n))) && IsVersion(Trimmed(w))
    ensures FirstVersion(noise + [w] + more) == Some(Trimmed(w))
  {
    var all := noise + [w] + more;
    if noise == [] {
      assert all[0] == w;
    } else {
      assert all[0] == noise[0] && all[0] in noise && all[1..] == noise[1..] + [w] + more;
      FirstVersionAfter(noise[1..], w, more);
    }
  }

  /**
   A version is read back from any text that spells it: decorated, and after
   any words that are no version. Only a number beyond 64 bits is lost.
   */
  lemma SpellingReads(text: string, noise: seq<string>, rusts: nat, vs: nat, v: Triplet, more: seq<string>)
    requires Words(text) == noise + [Decorated(rusts, vs, v)] + more
    requires forall n :: n in noise ==> !IsVersion(Trimmed(n))
    ensures VersionTriplet(text)
         == if v.major <= U64_MAX && v.minor <= U64_MAX && v.patch <= U64_MAX then Some(v) else None
  {
    DecoratedTrims(rusts, vs, v);
    SpellingParts(v);
    FirstVersionAfter(noise, Decorated(rusts, vs, v), more);
    ParseInvertsPrint(v.major, U64_MAX);
    ParseInvertsPrint(v.minor, U64_MAX);
    ParseInvertsPrint(v.patch, U64_MAX);
  }

  lemma DecoratedReads(rusts: nat, vs: nat, v: Triplet)
    requires v.major <= U64_MAX && v.minor <= U64_MAX && v.patch <= U64_MAX
    ensures VersionTriplet(Decorated(rusts, vs, v)) == Some(v)
  {
    var text := Decorated(rusts, vs, v);
    DecoratedIsWord(rusts, vs, v);
    WordsCons(text, "");
    assert text + "" == text;
    assert Words(text) == [] + [text] + [];
    SpellingReads(text, [], rusts, vs, v, []);
  }
}
