/**
 The base64url decoder of the worker-token check, on a wrapping 32-bit buffer,
 and the unpadded encoder beside it. Section 5 of RFC 4648 reads symbols and
 bytes as one string of bits; here such a string is its length and its value
 as a big-endian number.
 */
module Base64Url {
  import opened Prelude

  type Byte = b: nat | b < 256

  type Sextet = v: nat | v < 64

  const WORD: nat := 0x1_0000_0000

  // ---------------------------------------------------------------------
  // The alphabet: A-Z, a-z, 0-9, '-', '_'

  function Symbol(v: Sextet): (c: char) {
    if v < 26 then (v + 'A' as int) as char
    else if v < 52 then (v - 26 + 'a' as int) as char
    else if v < 62 then (v - 52 + '0' as int) as char
    else if v == 62 then '-'
    else '_'
  }

  function Position(c: char): Option<Sextet> {
    if 'A' <= c <= 'Z' then Some(c as int - 'A' as int)
    else if 'a' <= c <= 'z' then Some(c as int - 'a' as int + 26)
    else if '0' <= c <= '9' then Some(c as int - '0' as int + 52)
    else if c == '-' then Some(62)
    else if c == '_' then Some(63)
    else None
  }

  lemma PositionInvertsSymbol(c: char, v: Sextet)
    ensures Position(c) == Some(v) <==> Symbol(v) == c
  {
  }

  /** The symbol values before the first '=', or nothing if one of them is not in the alphabet. */
  function Symbols(s: string): Option<seq<Sextet>> {
    if s == [] || s[0] == '=' then Some([])
    else
      var v, rest := Position(s[0]), Symbols(s[1..]);
      if v.Some? && rest.Some? then Some([v.value] + rest.value) else None
  }

  lemma {:induction false} SymbolsAppend(s: string, t: string)
    requires '=' !in s && Symbols(s).Some?
    ensures Symbols(t).Some? <==> Symbols(s + t).Some?
    ensures Symbols(t).Some? ==> Symbols(s + t) == Some(Symbols(s).value + Symbols(t).value)
  {
    if s == [] {
      assert s + t == t;
      assert forall rest: seq<Sextet> :: Symbols(s).value + rest == rest;
    } else {
      assert s[0] in s && (s + t)[1..] == s[1..] + t;
      SymbolsAppend(s[1..], t);
      assert forall v: Sextet, a: seq<Sextet>, b: seq<Sextet> :: ([v] + a) + b == [v] + (a + b);
    }
  }

  lemma SymbolsOfOne(v: Sextet)
    ensures Symbols([Symbol(v)]) == Some([v])
  {
    var s := [Symbol(v)];
    assert s[1..] == "" && Symbols("") == Some([]);
    PositionInvertsSymbol(s[0], v);
    assert [v] + [] == [v];
  }

  // ---------------------------------------------------------------------
  // Bit strings as numbers

  function SextetValue(vs: seq<Sextet>): nat {
    if vs == [] then 0 else 64 * SextetValue(vs[..|vs| - 1]) + vs[|vs| - 1]
  }

  function ByteValue(bs: seq<Byte>): nat {
    if bs == [] then 0 else 256 * ByteValue(bs[..|bs| - 1]) + bs[|bs| - 1]
  }

  /** 2 to the number of bits that symbols and whole bytes can differ by. */
  function Pow2(bits: nat): nat
    requires bits in {0, 2, 4, 6}
  {
    if bits == 0 then 1 else if bits == 2 then 4 else if bits == 4 then 16 else 64
  }

  lemma ExtendSextets(vs: seq<Sextet>, v: Sextet)
    ensures SextetValue(vs + [v]) == 64 * SextetValue(vs) + v
  {
    assert (vs + [v])[..|vs|] == vs;
  }

  lemma ExtendBytes(bs: seq<Byte>, b: Byte)
    ensures ByteValue(bs + [b]) == 256 * ByteValue(bs) + b
  {
    assert (bs + [b])[..|bs|] == bs;
  }

  /** Length and value determine the bytes. */
  lemma {:induction false} BytesFromValue(a: seq<Byte>, b: seq<Byte>)
    requires |a| == |b| && ByteValue(a) == ByteValue(b)
    ensures a == b
  {
    if a != [] {
      var n := |a| - 1;
      BytesFromValue(a[..n], b[..n]);
      assert a == a[..n] + [a[n]] && b == b[..n] + [b[n]];
    }
  }

  // ---------------------------------------------------------------------
  // The decoder

  /** out is the whole bytes of the symbols' bit string; the trailing bits are dropped. */
  predicate Decodes(vs: seq<Sextet>, out: seq<Byte>) {
    && |out| == 6 * |vs| / 8
    && ByteValue(out) == SextetValue(vs) / Pow2(6 * |vs| % 8)
  }

  /** A number split at its low bits. */
  lemma SplitAt(x: nat, bits: nat) returns (high: nat)
    requires bits in {0, 2, 4, 6}
    ensures x == high * Pow2(bits) + x % Pow2(bits) && high == x / Pow2(bits)
  {
    high := x / Pow2(bits);
  }

  /** The wrap-around of a shift never reaches the pending bits. */
  lemma ShiftIn(buf: nat, bits: nat, v: Sextet)
    requires buf < WORD && bits in {0, 2, 4, 6}
    ensures buf * 64 % WORD + v < WORD
    ensures (buf * 64 % WORD + v) % (64 * Pow2(bits)) == 64 * (buf % Pow2(bits)) + v
  {
    var r := buf % 0x400_0000;
    assert buf * 64 % WORD == 64 * r;
    LowBitsAgree(buf, bits);
    var high := SplitAt(r, bits);
    var low := r % Pow2(bits);
    assert 64 * r + v == (64 * Pow2(bits)) * high + (64 * low + v);
    DivModUnique(64 * r + v, 64 * Pow2(bits), high, 64 * low + v);
  }

  lemma LowBitsAgree(buf: nat, bits: nat)
    requires bits in {0, 2, 4, 6}
    ensures buf % 0x400_0000 % Pow2(bits) == buf % Pow2(bits)
  {
    if bits == 0 {
    } else if bits == 2 {
    } else if bits == 4 {
    } else {
    }
  }

  /** Taking the top byte off the pending bits leaves the rest pending. */
  lemma ShiftOut(buf: nat, bits: nat)
    requires bits in {2, 4, 6}
    ensures buf % (64 * Pow2(bits)) == (buf / Pow2(bits - 2) % 256) * Pow2(bits - 2) + buf % Pow2(bits - 2)
  {
    var p := Pow2(bits - 2);
    var high := SplitAt(buf, bits - 2);
    var q, b := high / 256, high % 256;
    assert high == 256 * q + b;
    assert buf == (256 * p) * q + (b * p + buf % p);
    DivModUnique(buf, 256 * p, q, b * p + buf % p);
  }

  /** A number of whole bytes followed by fewer than eight bits. */
  lemma WholeBytes(total: nat, whole: nat, bits: nat, rest: nat)
    requires bits in {0, 2, 4, 6} && rest < Pow2(bits) && total == whole * Pow2(bits) + rest
    ensures total / Pow2(bits) == whole
  {
    DivModUnique(total, Pow2(bits), whole, rest);
  }

  /** The bytes written and the buffer's low bits are exactly the symbols read. */
  ghost predicate Pending(seen: seq<Sextet>, bytes: seq<Byte>, buf: nat, bits: nat) {
    && buf < WORD && bits in {0, 2, 4, 6}
    && 8 * |bytes| + bits == 6 * |seen|
    && SextetValue(seen) == ByteValue(bytes) * Pow2(bits) + buf % Pow2(bits)
  }

  lemma FirstOfFour(seen: seq<Sextet>, bytes: seq<Byte>, buf: nat, v: Sextet)
    requires Pending(seen, bytes, buf, 0)
    ensures Pending(seen + [v], bytes, buf * 64 % WORD + v, 6)
  {
    ShiftIn(buf, 0, v);
    ExtendSextets(seen, v);
  }

  lemma OneMoreByte(seen: seq<Sextet>, bytes: seq<Byte>, buf: nat, bits: nat, v: Sextet)
    requires bits != 0 && Pending(seen, bytes, buf, bits)
    ensures var next := buf * 64 % WORD + v;
      Pending(seen + [v], bytes + [next / Pow2(bits - 2) % 256], next, bits - 2)
  {
    ShiftIn(buf, bits, v);
    ExtendSextets(seen, v);
    var next := buf * 64 % WORD + v;
    Regroup(ByteValue(bytes), Pow2(bits), buf % Pow2(bits), v);
    var p, b := Pow2(bits - 2), next / Pow2(bits - 2) % 256;
    ShiftOut(next, bits);
    ExtendBytes(bytes, b);
    RegroupByte(ByteValue(bytes), p, b, next % p);
  }

  lemma Regroup(whole: nat, p: nat, rest: nat, v: nat)
    ensures 64 * (whole * p + rest) + v == whole * (64 * p) + (64 * rest + v)
  {
  }

  lemma RegroupByte(whole: nat, p: nat, b: nat, rest: nat)
    ensures whole * (64 * (4 * p)) + (b * p + rest) == (256 * whole + b) * p + rest
  {
  }

  lemma PendingDecodes(seen: seq<Sextet>, bytes: seq<Byte>, buf: nat, bits: nat)
    requires Pending(seen, bytes, buf, bits)
    ensures Decodes(seen, bytes)
  {
    WholeBytes(SextetValue(seen), ByteValue(bytes), bits, buf % Pow2(bits));
  }

  /** seen is the symbols of the first i characters, none of them '='. */
  ghost predicate ReadUpTo(s: string, i: nat, seen: seq<Sextet>) {
    && i <= |s|
    && (Symbols(s).Some? <==> Symbols(s[i..]).Some?)
    && (Symbols(s).Some? ==> Symbols(s).value == seen + Symbols(s[i..]).value)
  }

  lemma ReadOne(s: string, i: nat, seen: seq<Sextet>)
    requires i < |s| && ReadUpTo(s, i, seen)
    ensures s[i] != '=' ==>
      match Position(s[i])
      case None => Symbols(s).None?
      case Some(v) => ReadUpTo(s, i + 1, seen + [v])
  {
    var rest := s[i..];
    assert rest[0] == s[i] && rest[1..] == s[i + 1..];
    if s[i] != '=' && Position(s[i]).Some? && Symbols(rest).Some? {
      var v := Position(s[i]).value;
      assert seen + ([v] + Symbols(s[i + 1..]).value) == (seen + [v]) + Symbols(s[i + 1..]).value;
    }
  }

  lemma ReadAll(s: string, i: nat, seen: seq<Sextet>)
    requires ReadUpTo(s, i, seen) && (i == |s| || s[i] == '=')
    ensures Symbols(s) == Some(seen)
  {
    assert seen + [] == seen;
  }

  method Decode(s: string) returns (out: Option<seq<Byte>>)
    ensures out.None? <==> Symbols(s).None?
    ensures out.Some? ==> Decodes(Symbols(s).value, out.value)
  {
    var bytes: seq<Byte> := [];
    var buf: nat, bits: nat := 0, 0;
    var i := 0;
    ghost var seen: seq<Sextet> := [];
    while i < |s|
      invariant ReadUpTo(s, i, seen) && Pending(seen, bytes, buf, bits)
    {
      ReadOne(s, i, seen);
      if s[i] == '=' {
        break;
      }
      var v := Position(s[i]);
      if v.None? {
        return None;
      }
      ghost var was := buf;
      buf := buf * 64 % WORD + v.value;
      bits := bits + 6;
      if bits >= 8 {
        OneMoreByte(seen, bytes, was, bits - 6, v.value);
        bits := bits - 8;
        bytes := bytes + [buf / Pow2(bits) % 256];
      } else {
        FirstOfFour(seen, bytes, was, v.value);
      }
      seen := seen + [v.value];
      i := i + 1;
    }
    ReadAll(s, i, seen);
    PendingDecodes(seen, bytes, buf, bits);
    return Some(bytes);
  }

  /** The decoder's contract leaves it one answer. */
  lemma DecodingIsUnique(vs: seq<Sextet>, a: seq<Byte>, b: seq<Byte>)
    requires Decodes(vs, a) && Decodes(vs, b)
    ensures a == b
  {
    BytesFromValue(a, b);
  }

  // ---------------------------------------------------------------------
  // The encoder: chunks of three bytes, no padding

  /** vs is the bytes' bit string, filled up with zero bits to a whole symbol. */
  predicate Encodes(b: seq<Byte>, vs: seq<Sextet>) {
    && |vs| == (8 * |b| + 5) / 6
    && SextetValue(vs) == ByteValue(b) * Pow2(6 * |vs| - 8 * |b|)
  }

  function Word24(b0: nat, b1: nat, b2: nat): nat {
    b0 * 65536 + b1 * 256 + b2
  }

  function ChunkWord(chunk: seq<Byte>): nat
    requires 1 <= |chunk| <= 3
  {
    Word24(chunk[0], if |chunk| > 1 then chunk[1] else 0, if |chunk| > 2 then chunk[2] else 0)
  }

  function Value4(v0: nat, v1: nat, v2: nat, v3: nat): nat {
    v0 * 262144 + v1 * 4096 + v2 * 64 + v3
  }

  /** Symbol i of a 24-bit word. */
  function WordSymbol(n: nat, i: nat): Sextet
    requires i < 4
  {
    n / (if i == 0 then 262144 else if i == 1 then 4096 else if i == 2 then 64 else 1) % 64
  }

  /** The text of some bytes: no padding, and its symbols are their encoding. */
  ghost predicate IsEncoding(s: string, b: seq<Byte>) {
    '=' !in s && Symbols(s).Some? && Encodes(b, Symbols(s).value)
  }

  /** Appends the symbols of one chunk. */
  method EncodeChunk(text: string, chunk: seq<Byte>, ghost before: seq<Byte>) returns (s: string)
    requires 1 <= |chunk| <= 3 && |before| % 3 == 0 && IsEncoding(text, before)
    ensures IsEncoding(s, before + chunk)
  {
    var n := ChunkWord(chunk);
    ghost var vs := Symbols(text).value;
    s := text;
    var i := 0;
    while i < |chunk| + 1
      invariant i <= |chunk| + 1
      invariant '=' !in s && Symbols(s).Some? && Symbols(s).value == vs + WordSymbols(n, i)
    {
      var c := Symbol(WordSymbol(n, i));
      SymbolsOfOne(WordSymbol(n, i));
      SymbolsAppend(s, [c]);
      s := s + [c];
      i := i + 1;
    }
    ChunkCount(|before|, |chunk|, |vs|);
    SpellsWord(chunk);
    AppendedValue(before, vs, chunk, WordSymbols(n, |chunk| + 1));
  }

  ghost function WordSymbols(n: nat, count: nat): (vs: seq<Sextet>)
    requires count <= 4
    ensures |vs| == count
  {
    seq(count, i requires 0 <= i < 4 => WordSymbol(n, i))
  }

  /** Some symbols, read as the leading ones of four, are a chunk's word. */
  predicate Spells(more: seq<Sextet>, chunk: seq<Byte>) {
    && 1 <= |chunk| <= 3 && |more| == |chunk| + 1
    && Value4(more[0], more[1], if |more| > 2 then more[2] else 0, if |more| > 3 then more[3] else 0)
       == ChunkWord(chunk)
  }

  lemma SpellsWord(chunk: seq<Byte>)
    requires 1 <= |chunk| <= 3
    ensures Spells(WordSymbols(ChunkWord(chunk), |chunk| + 1), chunk)
  {
    WordFromSymbols(ChunkWord(chunk));
    if |chunk| == 1 {
      LowSymbolsZero(chunk[0]);
    } else if |chunk| == 2 {
      var high: nat, low: nat := chunk[0], chunk[1];
      LowSymbolZero(256 * high + low);
    }
  }

  lemma AppendedValue(before: seq<Byte>, vs: seq<Sextet>, chunk: seq<Byte>, more: seq<Sextet>)
    requires SextetValue(vs) == ByteValue(before) && Spells(more, chunk)
    ensures SextetValue(vs + more) == ByteValue(before + chunk) * Pow2(6 - 2 * |chunk|)
  {
    BytesAppend(before, chunk);
    SextetsAppend(vs, more);
  }

  lemma ChunkCount(before: nat, chunk: nat, symbols: nat)
    requires 1 <= chunk <= 3 && before % 3 == 0 && symbols == (8 * before + 5) / 6
    ensures 6 * symbols == 8 * before
    ensures symbols + chunk + 1 == (8 * (before + chunk) + 5) / 6
    ensures 6 * (symbols + chunk + 1) - 8 * (before + chunk) == 6 - 2 * chunk
  {
    var k := before / 3;
    assert before == 3 * k;
    assert symbols == 4 * k;
  }

  /** The symbols past a short chunk's bits are zero: one past two bytes, two past one. */
  lemma LowSymbolZero(bytes: nat)
    ensures WordSymbol(bytes * 256, 3) == 0
  {
    WholeSymbols(4 * bytes);
  }

  lemma LowSymbolsZero(byte: nat)
    ensures WordSymbol(byte * 65536, 2) == 0 && WordSymbol(byte * 65536, 3) == 0
  {
    WholeSymbols(1024 * byte);
    WholeSymbols(16 * byte);
  }

  lemma WholeSymbols(q: nat)
    ensures (64 * q) / 64 == q && (64 * q) % 64 == 0
  {
  }

  lemma WordFromSymbols(n: nat)
    requires n < 0x100_0000
    ensures Value4(WordSymbol(n, 0), WordSymbol(n, 1), WordSymbol(n, 2), WordSymbol(n, 3)) == n
  {
    var a := n / 64;
    assert n == 64 * a + n % 64;
    assert a / 64 == n / 4096;
    var b := n / 4096;
    assert a == 64 * b + a % 64;
    assert b / 64 == n / 262144;
    var c := n / 262144;
    assert b == 64 * c + b % 64;
  }

  /** Appended bytes, scaled as if they were three. */
  lemma BytesAppend(a: seq<Byte>, b: seq<Byte>)
    requires 1 <= |b| <= 3
    ensures |b| == 1 ==> 65536 * ByteValue(a + b) == 0x100_0000 * ByteValue(a) + ChunkWord(b)
    ensures |b| == 2 ==> 256 * ByteValue(a + b) == 0x100_0000 * ByteValue(a) + ChunkWord(b)
    ensures |b| == 3 ==> ByteValue(a + b) == 0x100_0000 * ByteValue(a) + ChunkWord(b)
    decreases |b|
  {
    var n := |b| - 1;
    ExtendBytes(a + b[..n], b[n]);
    assert a + b == a + b[..n] + [b[n]];
    if n > 0 {
      BytesAppend(a, b[..n]);
    } else {
      assert a + b[..n] == a;
    }
  }

  /** Appended symbols, scaled as if they were four. */
  lemma SextetsAppend(a: seq<Sextet>, b: seq<Sextet>)
    requires 1 <= |b| <= 4
    ensures |b| == 1 ==> 0x4_0000 * SextetValue(a + b) == 0x100_0000 * SextetValue(a) + Value4(b[0], 0, 0, 0)
    ensures |b| == 2 ==> 4096 * SextetValue(a + b) == 0x100_0000 * SextetValue(a) + Value4(b[0], b[1], 0, 0)
    ensures |b| == 3 ==> 64 * SextetValue(a + b) == 0x100_0000 * SextetValue(a) + Value4(b[0], b[1], b[2], 0)
    ensures |b| == 4 ==> SextetValue(a + b) == 0x100_0000 * SextetValue(a) + Value4(b[0], b[1], b[2], b[3])
    decreases |b|
  {
    var n := |b| - 1;
    ExtendSextets(a + b[..n], b[n]);
    assert a + b == a + b[..n] + [b[n]];
    if n > 0 {
      SextetsAppend(a, b[..n]);
    } else {
      assert a + b[..n] == a;
    }
  }

  method Encode(b: seq<Byte>) returns (s: string)
    ensures IsEncoding(s, b)
  {
    s := "";
    var i := 0;
    while i < |b|
      invariant i <= |b| && (i % 3 == 0 || i == |b|)
      invariant IsEncoding(s, b[..i])
    {
      var end := if i + 3 <= |b| then i + 3 else |b|;
      s := EncodeChunk(s, b[i..end], b[..i]);
      assert b[..i] + b[i..end] == b[..end];
      i := end;
    }
    assert b[..i] == b;
  }

  lemma EncodingDecodes(b: seq<Byte>, vs: seq<Sextet>)
    requires Encodes(b, vs)
    ensures Decodes(vs, b)
  {
    SpareBits(|b|, |vs|);
    WholeBytes(SextetValue(vs), ByteValue(b), 6 * |vs| - 8 * |b|, 0);
  }

  lemma SpareBits(bytes: nat, symbols: nat)
    requires symbols == (8 * bytes + 5) / 6
    ensures 6 * symbols - 8 * bytes in {0, 2, 4}
    ensures 6 * symbols % 8 == 6 * symbols - 8 * bytes && 6 * symbols / 8 == bytes
  {
  }

  /** Decoding an encoding, '=' padding or not, gives back the bytes and nothing else. */
  lemma DecodeInvertsEncode(s: string, pad: string, b: seq<Byte>, out: seq<Byte>)
    requires IsEncoding(s, b) && (pad == "" || pad[0] == '=')
    ensures Symbols(s + pad) == Symbols(s)
    ensures Decodes(Symbols(s).value, out) <==> out == b
  {
    SymbolsAppend(s, pad);
    assert Symbols(s).value + [] == Symbols(s).value;
    EncodingDecodes(b, Symbols(s).value);
    if Decodes(Symbols(s).value, out) {
      BytesFromValue(out, b);
    }
  }

  method RoundTrip(b: seq<Byte>, pad: string) returns (out: Option<seq<Byte>>)
    requires pad == "" || pad[0] == '='
    ensures out == Some(b)
  {
    var s := Encode(b);
    out := Decode(s + pad);
    DecodeInvertsEncode(s, pad, b, b);
    DecodeInvertsEncode(s, pad, b, out.value);
  }
}
