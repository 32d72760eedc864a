/** The hand-written ustar writer: header fields filled in place, blocks pushed one after another. */
module Ustar {
  import opened Prelude
  import opened Octal

  datatype Kind = File | Dir

  /** A path is the bytes of its UTF-8 text. */
  datatype Entry = Entry(name: seq<Byte>, bytes: seq<Byte>, mode: nat, kind: Kind)

  datatype Names = Names(name: seq<Byte>, prefix: seq<Byte>)

  datatype TarError = PathTooLong(path: seq<Byte>)

  const SLASH: Byte := 47

  // ---------------------------------------------------------------------
  // Paths

  function LastIndexOf(s: seq<Byte>, b: Byte): (i: Option<nat>)
    ensures i.None? <==> b !in s
    ensures i.Some? ==> i.value < |s| && s[i.value] == b && b !in s[i.value + 1..]
  {
    if s == [] then None
    else if s[|s| - 1] == b then Some(|s| - 1)
    else
      assert s == s[..|s| - 1] + [s[|s| - 1]];
      LastIndexOf(s[..|s| - 1], b)
  }

  /** What the two name fields say: the prefix, when there is one, is joined by a slash. */
  function JoinNames(n: Names): seq<Byte> {
    if n.prefix == [] then n.name else n.prefix + [SLASH] + n.name
  }

  predicate Fits(n: Names) {
    |n.name| <= 100 && |n.prefix| <= 155
  }

  function SplitTarPath(path: seq<Byte>): (r: Result<Names, TarError>)
    ensures r.Ok? ==> Fits(r.value) && JoinNames(r.value) == path
  {
    if |path| <= 100 then Ok(Names(path, []))
    else
      var slash := LastIndexOf(path, SLASH);
      if slash.None? || slash.value == 0 then Err(PathTooLong(path))
      else
        var prefix, base := path[..slash.value], path[slash.value + 1..];
        if |prefix| > 155 || |base| > 100 then Err(PathTooLong(path)) else Ok(Names(base, prefix))
  }

  /** Directory names carry a trailing slash. */
  function TarPath(e: Entry): seq<Byte> {
    if e.kind.Dir? then e.name + [SLASH] else e.name
  }

  /** A long path is refused exactly when its last slash does not cut it into two fitting fields. */
  lemma RefusedPaths(path: seq<Byte>)
    ensures SplitTarPath(path).Err? <==>
      |path| > 100
      && forall i :: 0 < i < |path| && path[i] == SLASH && SLASH !in path[i + 1..] ==>
           i > 155 || |path| - i - 1 > 100
  {
    var slash := LastIndexOf(path, SLASH);
    if slash.Some? {
      forall i | 0 < i < |path| && path[i] == SLASH && SLASH !in path[i + 1..]
        ensures i == slash.value
      {
        LastIsUnique(path, SLASH, i, slash.value);
      }
    }
  }

  lemma LastIsUnique(s: seq<Byte>, b: Byte, i: nat, j: nat)
    requires i < |s| && s[i] == b && b !in s[i + 1..]
    requires j < |s| && s[j] == b && b !in s[j + 1..]
    ensures i == j
  {
    assert forall k :: i < k < |s| ==> s[i + 1..][k - i - 1] == s[k];
    assert forall k :: j < k < |s| ==> s[j + 1..][k - j - 1] == s[k];
  }

  // ---------------------------------------------------------------------
  // The header's layout

  const MAGIC: seq<Byte> := [117, 115, 116, 97, 114]

  const VERSION: seq<Byte> := [48, 48]

  const SPACES: seq<Byte> := [32, 32, 32, 32, 32, 32, 32, 32]

  const FIELDS: nat := 14

  /** The widths of the fields of a block, in order. */
  function Width(k: nat): nat
    requires k < FIELDS
  {
    if k == 0 then 100 // name
    else if k < 4 then 8 // mode, uid, gid
    else if k < 6 then 12 // size, mtime
    else if k == 6 then 8 // checksum
    else if k == 7 then 1 // type
    else if k == 8 then 100 // link name
    else if k == 9 then 6 // magic
    else if k == 10 then 2 // version
    else if k == 11 then 80 // owner names and devices
    else if k == 12 then 155 // prefix
    else 12
  }

  function Offset(k: nat): nat
    requires k <= FIELDS
  {
    if k == 0 then 0 else Offset(k - 1) + Width(k - 1)
  }

  lemma Offsets()
    ensures Offset(0) == 0 && Offset(1) == 100 && Offset(2) == 108 && Offset(3) == 116 && Offset(4) == 124
    ensures Offset(5) == 136 && Offset(6) == 148 && Offset(7) == 156 && Offset(8) == 157 && Offset(9) == 257
    ensures Offset(10) == 263 && Offset(11) == 265 && Offset(12) == 345 && Offset(13) == 500 && Offset(14) == 512
  {
  }

  lemma {:induction false} OffsetsGrow(j: nat, k: nat)
    requires j <= k <= FIELDS
    ensures Offset(j) <= Offset(k)
  {
    if j < k {
      OffsetsGrow(j, k - 1);
    }
  }

  function TypeFlag(k: Kind): Byte {
    if k.Dir? then 53 else 48
  }

  function Padded(b: seq<Byte>, width: nat): (f: seq<Byte>)
    requires |b| <= width
    ensures |f| == width
  {
    b + Zeros(width - |b|)
  }

  function OctalField(n: nat, width: nat): (f: seq<Byte>)
    requires width >= 1
    ensures |f| == width
  {
    OctalBytes(n, width) + [0]
  }

  function OctalBytes(n: nat, width: nat): (f: seq<Byte>)
    requires width >= 1
    ensures |f| == width - 1
  {
    assert IsAscii(OctalText(n, width - 1));
    Ascii(OctalText(n, width - 1))
  }

  /** The numeric fields of a header. */
  datatype Numbers = Numbers(mode: nat, uid: nat, gid: nat, size: nat, mtime: nat)

  /** Only permission bits and the size are kept; owner and time are zero, so the archive is reproducible. */
  function NumbersOf(e: Entry): Numbers {
    Numbers(e.mode % 512, 0, 0, |e.bytes|, 0)
  }

  function Field(n: Names, v: Numbers, kind: Kind, checksum: seq<Byte>, k: nat): (f: seq<Byte>)
    requires Fits(n) && |checksum| == 8 && k < FIELDS
    ensures |f| == Width(k)
  {
    if k == 0 then Padded(n.name, 100)
    else if k == 1 then OctalField(v.mode, 8)
    else if k == 2 then OctalField(v.uid, 8)
    else if k == 3 then OctalField(v.gid, 8)
    else if k == 4 then OctalField(v.size, 12)
    else if k == 5 then OctalField(v.mtime, 12)
    else if k == 6 then checksum
    else if k == 7 then [TypeFlag(kind)]
    else if k == 9 then Padded(MAGIC, 6)
    else if k == 10 then VERSION
    else if k == 12 then Padded(n.prefix, 155)
    else Zeros(Width(k))
  }

  function HeaderFields(n: Names, v: Numbers, kind: Kind, checksum: seq<Byte>): (fs: seq<seq<Byte>>)
    requires Fits(n) && |checksum| == 8
    ensures WellCut(fs)
  {
    seq(FIELDS, k requires 0 <= k < FIELDS => Field(n, v, kind, checksum, k))
  }

  predicate NumbersIn(fs: seq<seq<Byte>>, n: Names, v: Numbers)
    requires WellCut(fs) && Fits(n)
  {
    && fs[0] == Padded(n.name, 100) && fs[1] == OctalField(v.mode, 8)
    && fs[2] == OctalField(v.uid, 8) && fs[3] == OctalField(v.gid, 8)
    && fs[4] == OctalField(v.size, 12) && fs[5] == OctalField(v.mtime, 12)
  }

  predicate FormatIn(fs: seq<seq<Byte>>, n: Names, kind: Kind)
    requires WellCut(fs) && Fits(n)
  {
    && fs[7] == [TypeFlag(kind)] && fs[8] == Zeros(100) && fs[9] == Padded(MAGIC, 6) && fs[10] == VERSION
    && fs[11] == Zeros(80) && fs[12] == Padded(n.prefix, 155) && fs[13] == Zeros(12)
  }

  lemma FieldOf(n: Names, v: Numbers, kind: Kind, checksum: seq<Byte>, k: nat)
    requires Fits(n) && |checksum| == 8 && k < FIELDS
    ensures HeaderFields(n, v, kind, checksum)[k] == Field(n, v, kind, checksum, k)
  {
  }

  lemma NumberFields(n: Names, v: Numbers, kind: Kind, checksum: seq<Byte>)
    requires Fits(n) && |checksum| == 8
    ensures NumbersIn(HeaderFields(n, v, kind, checksum), n, v)
    ensures HeaderFields(n, v, kind, checksum)[6] == checksum
  {
    FieldOf(n, v, kind, checksum, 0);
    FieldOf(n, v, kind, checksum, 1);
    FieldOf(n, v, kind, checksum, 2);
    FieldOf(n, v, kind, checksum, 3);
    FieldOf(n, v, kind, checksum, 4);
    FieldOf(n, v, kind, checksum, 5);
    FieldOf(n, v, kind, checksum, 6);
  }

  lemma FormatFields(n: Names, v: Numbers, kind: Kind, checksum: seq<Byte>)
    requires Fits(n) && |checksum| == 8
    ensures FormatIn(HeaderFields(n, v, kind, checksum), n, kind)
  {
  }

  predicate WellCut(fs: seq<seq<Byte>>) {
    |fs| == FIELDS && forall k: nat :: k < FIELDS ==> |fs[k]| == Width(k)
  }

  function Flat(fs: seq<seq<Byte>>): seq<Byte> {
    if fs == [] then [] else Flat(fs[..|fs| - 1]) + fs[|fs| - 1]
  }

  function Sum(s: seq<Byte>): nat {
    if s == [] then 0 else Sum(s[..|s| - 1]) + s[|s| - 1]
  }

  /** The checksum is taken over the block with spaces in its own field. */
  function HeaderBytes(n: Names, v: Numbers, kind: Kind): seq<Byte>
    requires Fits(n)
  {
    var sum := Sum(Flat(HeaderFields(n, v, kind, SPACES)));
    Flat(HeaderFields(n, v, kind, OctalField(sum, 8)))
  }

  lemma {:induction false} FlatPrefix(fs: seq<seq<Byte>>, k: nat)
    requires WellCut(fs) && k <= FIELDS
    ensures |Flat(fs[..k])| == Offset(k)
  {
    if k > 0 {
      FlatPrefix(fs, k - 1);
      assert fs[..k][..k - 1] == fs[..k - 1];
    }
  }

  function Start(fs: seq<seq<Byte>>, k: nat): nat
    requires k <= |fs|
  {
    |Flat(fs[..k])|
  }

  lemma FlatSnoc(fs: seq<seq<Byte>>, k: nat)
    requires k < |fs|
    ensures Flat(fs[..k + 1]) == Flat(fs[..k]) + fs[k]
  {
    assert fs[..k + 1][..k] == fs[..k];
  }

  lemma {:induction false} FlatSlice(fs: seq<seq<Byte>>, k: nat, upTo: nat)
    requires k < upTo <= |fs|
    ensures Start(fs, k) + |fs[k]| <= Start(fs, upTo)
    ensures Flat(fs[..upTo])[Start(fs, k)..Start(fs, k) + |fs[k]|] == fs[k]
  {
    FlatSnoc(fs, upTo - 1);
    if k < upTo - 1 {
      FlatSlice(fs, k, upTo - 1);
    }
  }

  /** Each field of a block is at its offset. */
  lemma FieldAt(fs: seq<seq<Byte>>, k: nat)
    requires WellCut(fs) && k < FIELDS
    ensures Offset(k) <= Offset(k + 1) <= |Flat(fs)| == 512
    ensures Flat(fs)[Offset(k)..Offset(k + 1)] == fs[k]
  {
    Offsets();
    FlatPrefix(fs, k);
    FlatPrefix(fs, FIELDS);
    FlatSlice(fs, k, FIELDS);
    assert fs[..FIELDS] == fs;
  }

  function Overwrite(s: seq<Byte>, offset: nat, b: seq<Byte>): (t: seq<Byte>)
    requires offset + |b| <= |s|
    ensures |t| == |s|
  {
    s[..offset] + b + s[offset + |b|..]
  }

  lemma OverwriteFront(a: seq<Byte>, b: seq<Byte>, offset: nat, x: seq<Byte>)
    requires offset + |x| <= |a|
    ensures Overwrite(a + b, offset, x) == Overwrite(a, offset, x) + b
  {
  }

  lemma OverwriteEnd(a: seq<Byte>, b: seq<Byte>, x: seq<Byte>)
    requires |b| == |x|
    ensures Overwrite(a + b, |a|, x) == a + x
  {
  }

  lemma {:induction false} FlatUpdate(fs: seq<seq<Byte>>, k: nat, x: seq<Byte>, upTo: nat)
    requires k < upTo <= |fs| && |x| == |fs[k]|
    ensures Start(fs, k) + |x| <= Start(fs, upTo)
    ensures Flat(fs[k := x][..upTo]) == Overwrite(Flat(fs[..upTo]), Start(fs, k), x)
  {
    var gs := fs[k := x];
    FlatSnoc(fs, upTo - 1);
    FlatSnoc(gs, upTo - 1);
    if k < upTo - 1 {
      FlatUpdate(fs, k, x, upTo - 1);
      OverwriteFront(Flat(fs[..upTo - 1]), fs[upTo - 1], Start(fs, k), x);
    } else {
      assert gs[..k] == fs[..k];
      OverwriteEnd(Flat(fs[..k]), fs[k], x);
    }
  }

  // ---------------------------------------------------------------------
  // Filling a block in place

  /** The first k fields are written and the rest is still zero. */
  ghost predicate Filled(h: seq<Byte>, fs: seq<seq<Byte>>, k: nat) {
    && WellCut(fs) && k <= FIELDS && |h| == 512
    && Offset(k) <= 512
    && h == Flat(fs[..k]) + Zeros(512 - Offset(k))
  }

  lemma Refill(done: seq<Byte>, left: nat, b: seq<Byte>, field: seq<Byte>)
    requires |b| <= |field| <= left && field == b + Zeros(|field| - |b|)
    ensures Overwrite(done + Zeros(left), |done|, b) == done + field + Zeros(left - |field|)
  {
  }

  lemma FillNext(h: seq<Byte>, fs: seq<seq<Byte>>, k: nat, b: seq<Byte>)
    requires Filled(h, fs, k) && k < FIELDS
    requires |b| <= |fs[k]| && fs[k] == b + Zeros(|fs[k]| - |b|)
    ensures Offset(k) + |b| <= |h| && Filled(Overwrite(h, Offset(k), b), fs, k + 1)
  {
    Offsets();
    OffsetsGrow(k + 1, FIELDS);
    FlatPrefix(fs, k);
    FlatSnoc(fs, k);
    Refill(Flat(fs[..k]), 512 - Offset(k), b, fs[k]);
  }

  lemma FillGap(h: seq<Byte>, fs: seq<seq<Byte>>, k: nat)
    requires Filled(h, fs, k) && k < FIELDS && fs[k] == Zeros(|fs[k]|)
    ensures Filled(h, fs, k + 1)
  {
    assert fs[k] == [] + Zeros(|fs[k]|);
    FillNext(h, fs, k, []);
    assert Overwrite(h, Offset(k), []) == h;
  }

  method WriteText(target: array<Byte>, offset: nat, length: nat, value: seq<Byte>)
    requires offset + length <= target.Length
    modifies target
    ensures target[..] == Overwrite(old(target[..]), offset, if |value| <= length then value else value[..length])
  {
    var n := if |value| <= length then |value| else length;
    var i := 0;
    while i < n
      invariant i <= n
      invariant target[..] == Overwrite(old(target[..]), offset, value[..i])
    {
      target[offset + i] := value[i];
      i := i + 1;
    }
    assert value[..n] == if |value| <= length then value else value[..length];
  }

  method WriteOctal(target: array<Byte>, offset: nat, length: nat, value: nat)
    requires 1 <= length && offset + length <= target.Length
    modifies target
    ensures target[..] == Overwrite(old(target[..]), offset, OctalField(value, length))
  {
    WriteText(target, offset, length, OctalField(value, length));
  }

  method Checksum(header: array<Byte>) returns (sum: nat)
    ensures sum == Sum(header[..])
  {
    sum := 0;
    var i := 0;
    while i < header.Length
      invariant i <= header.Length && sum == Sum(header[..i])
    {
      assert header[..i + 1][..i] == header[..i];
      sum := sum + header[i];
      i := i + 1;
    }
    assert header[..i] == header[..];
  }

  method FillName(header: array<Byte>, names: Names, ghost v: Numbers, ghost fs: seq<seq<Byte>>)
    requires header.Length == 512 && Filled(header[..], fs, 0) && Fits(names)
    requires NumbersIn(fs, names, v)
    modifies header
    ensures Filled(header[..], fs, 1)
  {
    Offsets();
    FillNext(header[..], fs, 0, names.name);
    WriteText(header, 0, 100, names.name);
  }

  method FillOwner(header: array<Byte>, names: Names, v: Numbers, ghost fs: seq<seq<Byte>>)
    requires header.Length == 512 && Filled(header[..], fs, 0) && Fits(names)
    requires NumbersIn(fs, names, v)
    modifies header
    ensures Filled(header[..], fs, 4)
  {
    FillName(header, names, v, fs);
    Offsets();
    FillNext(header[..], fs, 1, fs[1]);
    WriteOctal(header, 100, 8, v.mode);
    FillNext(header[..], fs, 2, fs[2]);
    WriteOctal(header, 108, 8, v.uid);
    FillNext(header[..], fs, 3, fs[3]);
    WriteOctal(header, 116, 8, v.gid);
  }

  method FillSizes(header: array<Byte>, ghost names: Names, v: Numbers, kind: Kind, ghost fs: seq<seq<Byte>>)
    requires header.Length == 512 && Filled(header[..], fs, 4)
    requires Fits(names) && NumbersIn(fs, names, v) && fs[6] == SPACES && FormatIn(fs, names, kind)
    modifies header
    ensures Filled(header[..], fs, 9)
  {
    Offsets();
    FillNext(header[..], fs, 4, fs[4]);
    WriteOctal(header, 124, 12, v.size);
    FillNext(header[..], fs, 5, fs[5]);
    WriteOctal(header, 136, 12, v.mtime);
    FillNext(header[..], fs, 6, fs[6]);
    WriteText(header, 148, 8, SPACES);
    FillNext(header[..], fs, 7, fs[7]);
    WriteText(header, 156, 1, [TypeFlag(kind)]);
    FillGap(header[..], fs, 8);
  }

  method FillFormat(header: array<Byte>, names: Names, ghost kind: Kind, ghost fs: seq<seq<Byte>>)
    requires header.Length == 512 && Filled(header[..], fs, 9) && Fits(names)
    requires FormatIn(fs, names, kind)
    modifies header
    ensures header[..] == Flat(fs)
  {
    Offsets();
    FillNext(header[..], fs, 9, MAGIC);
    WriteText(header, 257, 6, MAGIC);
    FillNext(header[..], fs, 10, fs[10]);
    WriteText(header, 263, 2, VERSION);
    FillGap(header[..], fs, 11);
    FillNext(header[..], fs, 12, names.prefix);
    WriteText(header, 345, 155, names.prefix);
    FillGap(header[..], fs, 13);
    assert fs[..FIELDS] == fs;
  }

  /** The block with spaces for its checksum, then the checksum written over them. */
  method TarHeader(e: Entry) returns (r: Result<seq<Byte>, TarError>)
    ensures r == match SplitTarPath(TarPath(e))
                 case Err(error) => Err(error)
                 case Ok(names) => Ok(HeaderBytes(names, NumbersOf(e), e.kind))
  {
    var names := SplitTarPath(TarPath(e));
    if names.Err? {
      return Err(names.error);
    }
    var block := FillHeader(names.value, NumbersOf(e), e.kind);
    return Ok(block);
  }

  method FillHeader(names: Names, v: Numbers, kind: Kind) returns (block: seq<Byte>)
    requires Fits(names)
    ensures block == HeaderBytes(names, v, kind)
  {
    var header := new Byte[512](_ => 0);
    ghost var fs := HeaderFields(names, v, kind, SPACES);
    StartBlank(header[..], fs);
    NumberFields(names, v, kind, SPACES);
    FormatFields(names, v, kind, SPACES);
    FillOwner(header, names, v, fs);
    FillSizes(header, names, v, kind, fs);
    FillFormat(header, names, kind, fs);
    var checksum := Checksum(header);
    CheckedBlock(names, v, kind, header[..]);
    WriteOctal(header, 148, 8, checksum);
    block := header[..];
  }

  lemma StartBlank(h: seq<Byte>, fs: seq<seq<Byte>>)
    requires WellCut(fs) && |h| == 512 && forall i :: 0 <= i < 512 ==> h[i] == 0
    ensures Filled(h, fs, 0)
  {
    assert fs[..0] == [];
    assert h == Flat(fs[..0]) + Zeros(512);
  }

  lemma ChecksumIsOneField(n: Names, v: Numbers, kind: Kind, checksum: seq<Byte>)
    requires Fits(n) && |checksum| == 8
    ensures HeaderFields(n, v, kind, checksum) == HeaderFields(n, v, kind, SPACES)[6 := checksum]
  {
  }

  /** The final block is the filled one with the checksum over its spaces. */
  lemma CheckedBlock(n: Names, v: Numbers, kind: Kind, h: seq<Byte>)
    requires Fits(n) && h == Flat(HeaderFields(n, v, kind, SPACES))
    ensures |h| == 512 && h[148..156] == SPACES
    ensures HeaderBytes(n, v, kind) == Overwrite(h, 148, OctalField(Sum(h), 8))
  {
    ChecksumIsOneField(n, v, kind, OctalField(Sum(h), 8));
    ReplaceChecksum(HeaderFields(n, v, kind, SPACES), OctalField(Sum(h), 8));
    NumberFields(n, v, kind, SPACES);
  }

  lemma ReplaceChecksum(fs: seq<seq<Byte>>, checksum: seq<Byte>)
    requires WellCut(fs) && |checksum| == 8
    ensures |Flat(fs)| == 512 && Flat(fs)[148..156] == fs[6]
    ensures Flat(fs[6 := checksum]) == Overwrite(Flat(fs), 148, checksum)
  {
    Offsets();
    FlatPrefix(fs, 6);
    FieldAt(fs, 6);
    FlatUpdate(fs, 6, checksum, FIELDS);
    assert fs[..FIELDS] == fs && fs[6 := checksum][..FIELDS] == fs[6 := checksum];
  }

  lemma OverwriteBack(h: seq<Byte>, offset: nat, a: seq<Byte>, b: seq<Byte>)
    requires offset + |a| <= |h| && |a| == |b| && h[offset..offset + |a|] == a
    ensures Overwrite(Overwrite(h, offset, b), offset, a) == h
  {
    assert h == h[..offset] + a + h[offset + |a|..];
  }
}
