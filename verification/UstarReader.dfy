/**
 A reader of the ustar Interchange Format (the pax utility, IEEE Std 1003.1),
 and the archive as a whole: what the writer pushes, the reader gets back.
 */
module UstarReader {
  import opened Prelude
  import opened Numerals
  import opened Octal
  import opened Ustar

  // ---------------------------------------------------------------------
  // The writer's archive

  function Padding(size: nat): nat {
    (512 - size % 512) % 512
  }

  function MemberBytes(e: Entry, n: Names): seq<Byte>
    requires Fits(n)
  {
    HeaderBytes(n, NumbersOf(e), e.kind) + e.bytes + Zeros(Padding(|e.bytes|))
  }

  /** The members one after another, or the error of the first path that cannot be split. */
  function Members(entries: seq<Entry>): Result<seq<Byte>, TarError> {
    if entries == [] then Ok([])
    else
      match SplitTarPath(TarPath(entries[0]))
      case Err(error) => Err(error)
      case Ok(names) =>
        match Members(entries[1..])
        case Err(error) => Err(error)
        case Ok(rest) => Ok(MemberBytes(entries[0], names) + rest)
  }

  /** The two zero blocks that end an archive. */
  function Archive(entries: seq<Entry>): Result<seq<Byte>, TarError> {
    match Members(entries)
    case Err(error) => Err(error)
    case Ok(bytes) => Ok(bytes + Zeros(1024))
  }

  ghost predicate Pushed(entries: seq<Entry>, i: nat, chunks: seq<Byte>) {
    && i <= |entries|
    && Members(entries) ==
      match Members(entries[i..])
      case Err(error) => Err(error)
      case Ok(rest) => Ok(chunks + rest)
  }

  lemma PushMember(entries: seq<Entry>, i: nat, chunks: seq<Byte>)
    requires i < |entries| && Pushed(entries, i, chunks)
    ensures match SplitTarPath(TarPath(entries[i]))
            case Err(error) => Members(entries) == Err(error)
            case Ok(names) => Pushed(entries, i + 1, chunks + MemberBytes(entries[i], names))
  {
    var rest := entries[i..];
    assert rest[0] == entries[i] && rest[1..] == entries[i + 1..];
    var names, after := SplitTarPath(TarPath(entries[i])), Members(entries[i + 1..]);
    if names.Ok? && after.Ok? {
      assert chunks + (MemberBytes(entries[i], names.value) + after.value)
          == chunks + MemberBytes(entries[i], names.value) + after.value;
    }
  }

  method CreateTar(entries: seq<Entry>) returns (r: Result<seq<Byte>, TarError>)
    ensures r == Archive(entries)
  {
    var chunks: seq<Byte> := [];
    var i := 0;
    assert entries[0..] == entries;
    assert Members(entries).Ok? ==> [] + Members(entries).value == Members(entries).value;
    while i < |entries|
      invariant Pushed(entries, i, chunks)
    {
      var e := entries[i];
      PushMember(entries, i, chunks);
      var header := TarHeader(e);
      if header.Err? {
        return Err(header.error);
      }
      var member := header.value + e.bytes;
      var padding := Padding(|e.bytes|);
      member := member + Zeros(padding);
      chunks := chunks + member;
      i := i + 1;
    }
    assert chunks + [] == chunks;
    return Ok(chunks + Zeros(1024));
  }

  // ---------------------------------------------------------------------
  // The reader

  /** The bytes before the first one that ends a field. */
  function UpTo(field: seq<Byte>, ends: set<Byte>): (s: seq<Byte>)
    ensures |s| <= |field|
  {
    if field == [] || field[0] in ends then [] else [field[0]] + UpTo(field[1..], ends)
  }

  /** Octal digits ended by a space or a NUL. */
  function OctalValue(field: seq<Byte>): Option<nat> {
    var s := Text(UpTo(field, {0, 32}));
    if s == "" || !AllDigits(s, 8) then None else Some(Value(s, 8))
  }

  datatype Header = Header(path: seq<Byte>, mode: nat, size: nat, kind: Kind)

  function KindOf(flag: Byte): Option<Kind> {
    if flag == 48 || flag == 0 then Some(File) else if flag == 53 then Some(Dir) else None
  }

  /** The sum of the block's bytes, with spaces in place of the checksum. */
  function BlockSum(h: seq<Byte>): nat
    requires |h| == 512
  {
    Sum(h[..148] + SPACES + h[156..])
  }

  predicate HasMagic(h: seq<Byte>)
    requires |h| == 512
  {
    h[257..263] == MAGIC + [0] && h[263..265] == VERSION
  }

  function PathIn(h: seq<Byte>): seq<Byte>
    requires |h| == 512
  {
    JoinNames(Names(UpTo(h[0..100], {0}), UpTo(h[345..500], {0})))
  }

  function ReadHeader(h: seq<Byte>): Option<Header>
    requires |h| == 512
  {
    var mode, size, kind := OctalValue(h[100..108]), OctalValue(h[124..136]), KindOf(h[156]);
    if HasMagic(h) && OctalValue(h[148..156]) == Some(BlockSum(h)) && mode.Some? && size.Some? && kind.Some? then
      Some(Header(PathIn(h), mode.value, size.value, kind.value))
    else
      None
  }

  /** A directory's trailing slash is not part of its name. */
  function NameOf(h: Header): seq<Byte> {
    if h.kind.Dir? && h.path != [] && h.path[|h.path| - 1] == SLASH then h.path[..|h.path| - 1] else h.path
  }

  function Read(b: seq<Byte>): Option<seq<Entry>>
    decreases |b|
  {
    if |b| >= 1024 && b[..1024] == Zeros(1024) then Some([])
    else if |b| < 512 || ReadHeader(b[..512]).None? then None
    else
      var h := ReadHeader(b[..512]).value;
      var end := 512 + h.size + Padding(h.size);
      if |b| < end then None
      else
        var rest := Read(b[end..]);
        if rest.None? then None
        else Some([Entry(NameOf(h), b[512..512 + h.size], h.mode, h.kind)] + rest.value)
  }

  // ---------------------------------------------------------------------
  // Fields read back

  lemma {:induction false} UpToEnd(s: seq<Byte>, ends: set<Byte>, tail: seq<Byte>)
    requires forall b :: b in s ==> b !in ends
    requires tail == [] || tail[0] in ends
    ensures UpTo(s + tail, ends) == s
  {
    if s == [] {
      assert s + tail == tail;
    } else {
      assert s[0] in s && (s + tail)[0] == s[0] && (s + tail)[1..] == s[1..] + tail;
      UpToEnd(s[1..], ends, tail);
    }
  }

  lemma PaddedReads(s: seq<Byte>, width: nat)
    requires |s| <= width && 0 !in s
    ensures UpTo(Padded(s, width), {0}) == s
  {
    UpToEnd(s, {0}, Zeros(width - |s|));
  }

  lemma OctalFieldReads(n: nat, width: nat)
    requires width >= 2
    ensures Pow(8, width - 1) > 0 && OctalValue(OctalField(n, width)) == Some(n % Pow(8, width - 1))
  {
    var t := OctalText(n, width - 1);
    assert IsAscii(t);
    forall b | b in Ascii(t)
      ensures b !in {0, 32}
    {
      var i :| 0 <= i < |t| && Ascii(t)[i] == b;
      assert t[i] in t;
    }
    UpToEnd(Ascii(t), {0, 32}, [0]);
    TextOfAscii(t);
    ValueOfOctalText(n, width - 1);
  }

  lemma {:induction false} SumBound(s: seq<Byte>)
    ensures Sum(s) <= 255 * |s|
  {
    if s != [] {
      SumBound(s[..|s| - 1]);
    }
  }

  lemma Powers()
    ensures Pow(8, 7) == 0x20_0000 && Pow(8, 11) == 0x2_0000_0000
  {
    assert Pow(8, 2) == 64 && Pow(8, 4) == 4096;
  }

  // ---------------------------------------------------------------------
  // Headers read back

  lemma NumbersAt(fs: seq<seq<Byte>>)
    requires WellCut(fs)
    ensures var h := Flat(fs);
      |h| == 512 && h[0..100] == fs[0] && h[100..108] == fs[1] && h[124..136] == fs[4] && h[148..156] == fs[6]
  {
    Offsets();
    FieldAt(fs, 0);
    FieldAt(fs, 1);
    FieldAt(fs, 4);
    FieldAt(fs, 6);
  }

  lemma FormatAt(fs: seq<seq<Byte>>)
    requires WellCut(fs)
    ensures var h := Flat(fs);
      |h| == 512 && h[156..157] == fs[7] && h[257..263] == fs[9] && h[263..265] == fs[10] && h[345..500] == fs[12]
  {
    Offsets();
    FieldAt(fs, 7);
    FieldAt(fs, 9);
    FieldAt(fs, 10);
    FieldAt(fs, 12);
  }

  lemma FormatReads(n: Names, v: Numbers, kind: Kind, checksum: seq<Byte>)
    requires Fits(n) && |checksum| == 8 && 0 !in n.prefix
    ensures var h := Flat(HeaderFields(n, v, kind, checksum));
      |h| == 512 && HasMagic(h) && KindOf(h[156]) == Some(kind) && UpTo(h[345..500], {0}) == n.prefix
  {
    var fs := HeaderFields(n, v, kind, checksum);
    FormatAt(fs);
    FormatFields(n, v, kind, checksum);
    assert Flat(fs)[156] == Flat(fs)[156..157][0];
    PaddedReads(n.prefix, 155);
    assert Zeros(1) == [0];
  }

  lemma NumbersRead(n: Names, v: Numbers, kind: Kind, checksum: seq<Byte>)
    requires Fits(n) && |checksum| == 8 && 0 !in n.name
    ensures var h := Flat(HeaderFields(n, v, kind, checksum));
      && |h| == 512 && UpTo(h[0..100], {0}) == n.name && h[148..156] == checksum
      && OctalValue(h[100..108]) == Some(v.mode % 0x20_0000) && OctalValue(h[124..136]) == Some(v.size % 0x2_0000_0000)
  {
    var fs := HeaderFields(n, v, kind, checksum);
    NumbersAt(fs);
    NumberFields(n, v, kind, checksum);
    PaddedReads(n.name, 100);
    Powers();
    OctalFieldReads(v.mode, 8);
    OctalFieldReads(v.size, 12);
  }

  /** A block whose checksum was taken over spaces in its field. */
  lemma SumReads(blank: seq<Byte>)
    requires |blank| == 512 && blank[148..156] == SPACES
    ensures var h := Overwrite(blank, 148, OctalField(Sum(blank), 8));
      OctalValue(h[148..156]) == Some(BlockSum(h))
  {
    var field := OctalField(Sum(blank), 8);
    SumIgnoresChecksum(blank, field);
    SumBound(blank);
    SmallFieldReads(Sum(blank));
  }

  lemma SmallFieldReads(n: nat)
    requires n < 0x20_0000
    ensures OctalValue(OctalField(n, 8)) == Some(n)
  {
    Powers();
    OctalFieldReads(n, 8);
  }

  /** The reader's sum takes the checksum for spaces. */
  lemma SumIgnoresChecksum(blank: seq<Byte>, field: seq<Byte>)
    requires |blank| == 512 && blank[148..156] == SPACES && |field| == 8
    ensures var h := Overwrite(blank, 148, field);
      h[148..156] == field && BlockSum(h) == Sum(blank)
  {
    var h := Overwrite(blank, 148, field);
    assert h[148..156] == field;
    assert h[..148] + SPACES + h[156..] == blank by {
      OverwriteBack(blank, 148, SPACES, field);
    }
  }

  /** The checksum in the block is the sum the reader computes. */
  lemma ChecksumReads(n: Names, v: Numbers, kind: Kind)
    requires Fits(n)
    ensures |HeaderBytes(n, v, kind)| == 512
    ensures OctalValue(HeaderBytes(n, v, kind)[148..156]) == Some(BlockSum(HeaderBytes(n, v, kind)))
  {
    var blank := Flat(HeaderFields(n, v, kind, SPACES));
    CheckedBlock(n, v, kind, blank);
    SumReads(blank);
  }

  lemma Assemble(h: seq<Byte>, n: Names, mode: nat, size: nat, kind: Kind)
    requires |h| == 512 && HasMagic(h) && KindOf(h[156]) == Some(kind)
    requires UpTo(h[0..100], {0}) == n.name && UpTo(h[345..500], {0}) == n.prefix
    requires OctalValue(h[100..108]) == Some(mode) && OctalValue(h[124..136]) == Some(size)
    requires OctalValue(h[148..156]) == Some(BlockSum(h))
    ensures ReadHeader(h) == Some(Header(JoinNames(n), mode, size, kind))
  {
  }

  lemma HeaderReads(n: Names, v: Numbers, kind: Kind)
    requires Fits(n) && 0 !in n.name && 0 !in n.prefix && v.mode < 0x20_0000
    ensures |HeaderBytes(n, v, kind)| == 512
    ensures ReadHeader(HeaderBytes(n, v, kind)) == Some(Header(JoinNames(n), v.mode, v.size % 0x2_0000_0000, kind))
  {
    ChecksumReads(n, v, kind);
    PartsRead(n, v, kind, HeaderBytes(n, v, kind));
    Assemble(HeaderBytes(n, v, kind), n, v.mode, v.size % 0x2_0000_0000, kind);
  }

  /** Every part of a written header but its checksum. */
  lemma PartsRead(n: Names, v: Numbers, kind: Kind, h: seq<Byte>)
    requires Fits(n) && 0 !in n.name && 0 !in n.prefix && v.mode < 0x20_0000
    requires h == HeaderBytes(n, v, kind)
    ensures |h| == 512 && HasMagic(h) && KindOf(h[156]) == Some(kind)
    ensures UpTo(h[0..100], {0}) == n.name && UpTo(h[345..500], {0}) == n.prefix
    ensures OctalValue(h[100..108]) == Some(v.mode) && OctalValue(h[124..136]) == Some(v.size % 0x2_0000_0000)
  {
    var checksum := OctalField(Sum(Flat(HeaderFields(n, v, kind, SPACES))), 8);
    FormatReads(n, v, kind, checksum);
    NumbersRead(n, v, kind, checksum);
  }

  lemma FixedAt(fs: seq<seq<Byte>>)
    requires WellCut(fs)
    ensures var h := Flat(fs);
      |h| == 512 && h[108..116] == fs[2] && h[116..124] == fs[3] && h[136..148] == fs[5]
    ensures var h := Flat(fs); h[157..257] == fs[8] && h[265..345] == fs[11] && h[500..512] == fs[13]
  {
    Offsets();
    FieldAt(fs, 2);
    FieldAt(fs, 3);
    FieldAt(fs, 5);
    FieldAt(fs, 8);
    FieldAt(fs, 11);
    FieldAt(fs, 13);
  }

  lemma ZeroReads(width: nat)
    requires width >= 2
    ensures OctalValue(OctalField(0, width)) == Some(0)
  {
    OctalFieldReads(0, width);
  }

  /**
   Nothing of the machine is in a header: whoever owns an entry and whenever it
   was changed, its owner, group and time read as 0, and the rest is zero bytes.
   */
  lemma HeaderIsReproducible(e: Entry, n: Names)
    requires Fits(n)
    ensures var h := HeaderBytes(n, NumbersOf(e), e.kind);
      && |h| == 512
      && OctalValue(h[108..116]) == Some(0) && OctalValue(h[116..124]) == Some(0) && OctalValue(h[136..148]) == Some(0)
      && (forall i :: 157 <= i < 257 || 265 <= i < 345 || 500 <= i < 512 ==> h[i] == 0)
  {
    var checksum := OctalField(Sum(Flat(HeaderFields(n, NumbersOf(e), e.kind, SPACES))), 8);
    FixedFields(n, e, checksum);
    FixedReads(HeaderFields(n, NumbersOf(e), e.kind, checksum));
  }

  /** The fields that are the same in every header. */
  predicate HasFixedFields(fs: seq<seq<Byte>>)
    requires WellCut(fs)
  {
    && fs[2] == OctalField(0, 8) && fs[3] == OctalField(0, 8) && fs[5] == OctalField(0, 12)
    && fs[8] == Zeros(100) && fs[11] == Zeros(80) && fs[13] == Zeros(12)
  }

  lemma FixedFields(n: Names, e: Entry, checksum: seq<Byte>)
    requires Fits(n) && |checksum| == 8
    ensures HasFixedFields(HeaderFields(n, NumbersOf(e), e.kind, checksum))
  {
    NumberFields(n, NumbersOf(e), e.kind, checksum);
    FormatFields(n, NumbersOf(e), e.kind, checksum);
  }

  lemma FixedReads(fs: seq<seq<Byte>>)
    requires WellCut(fs) && HasFixedFields(fs)
    ensures var h := Flat(fs);
      && |h| == 512
      && OctalValue(h[108..116]) == Some(0) && OctalValue(h[116..124]) == Some(0) && OctalValue(h[136..148]) == Some(0)
      && (forall i :: 157 <= i < 257 || 265 <= i < 345 || 500 <= i < 512 ==> h[i] == 0)
  {
    FixedAt(fs);
    ZeroReads(8);
    ZeroReads(12);
    ZeroFields(Flat(fs));
  }

  lemma ZeroFields(h: seq<Byte>)
    requires |h| == 512 && h[157..257] == Zeros(100) && h[265..345] == Zeros(80) && h[500..512] == Zeros(12)
    ensures forall i :: 157 <= i < 257 || 265 <= i < 345 || 500 <= i < 512 ==> h[i] == 0
  {
    assert forall i :: 157 <= i < 257 ==> h[i] == h[157..257][i - 157];
    assert forall i :: 265 <= i < 345 ==> h[i] == h[265..345][i - 265];
    assert forall i :: 500 <= i < 512 ==> h[i] == h[500..512][i - 500];
  }

  // ---------------------------------------------------------------------
  // Archives read back

  const SIZE_LIMIT: nat := 0x2_0000_0000

  /** A path has no NUL in it. */
  predicate Nameable(e: Entry) {
    0 !in e.name
  }

  /** Only the permission bits of the mode travel. */
  function Normal(e: Entry): Entry {
    e.(mode := e.mode % 512)
  }

  function Normals(entries: seq<Entry>): (out: seq<Entry>)
    ensures |out| == |entries|
  {
    if entries == [] then [] else [Normal(entries[0])] + Normals(entries[1..])
  }

  lemma SplitHasNoNul(e: Entry)
    requires Nameable(e) && SplitTarPath(TarPath(e)).Ok?
    ensures var n := SplitTarPath(TarPath(e)).value;
      0 !in n.name && 0 !in n.prefix
  {
    assert 0 !in TarPath(e);
  }

  lemma NameReads(e: Entry, n: Names, mode: nat, size: nat)
    requires SplitTarPath(TarPath(e)) == Ok(n)
    ensures NameOf(Header(JoinNames(n), mode, size, e.kind)) == e.name
  {
    assert e.kind.Dir? ==> TarPath(e)[..|TarPath(e)| - 1] == e.name;
  }

  /** A member in front of the rest of an archive, cut back into its parts. */
  lemma MemberParts(h: seq<Byte>, bytes: seq<Byte>, pad: nat, rest: seq<Byte>)
    requires |h| == 512
    ensures var b := h + bytes + Zeros(pad) + rest;
      && |b| == 512 + |bytes| + pad + |rest|
      && b[..512] == h
      && b[512..512 + |bytes|] == bytes
      && b[512 + |bytes| + pad..] == rest
  {
  }

  lemma NotTheEnd(b: seq<Byte>)
    requires |b| >= 512 && HasMagic(b[..512])
    ensures !(|b| >= 1024 && b[..1024] == Zeros(1024))
  {
    assert b[..512][257..263][0] == b[257];
    if |b| >= 1024 {
      assert b[..1024][257] == b[257];
    }
  }

  /** Reading gives this entry and then what the rest gives. */
  predicate ReadsFirst(b: seq<Byte>, e: Entry, rest: seq<Byte>) {
    Read(b) == match Read(rest)
               case None => None
               case Some(entries) => Some([e] + entries)
  }

  /** Reading does not give an entry with these bytes first. */
  predicate Misreads(b: seq<Byte>, bytes: seq<Byte>) {
    Read(b).Some? ==> Read(b).value != [] && Read(b).value[0].bytes != bytes
  }

  /** Reading a header block, some bytes, their padding and more. */
  lemma ReadBlock(h: seq<Byte>, head: Header, bytes: seq<Byte>, rest: seq<Byte>)
    requires |h| == 512 && ReadHeader(h) == Some(head)
    ensures var b := h + bytes + Zeros(Padding(|bytes|)) + rest;
      if head.size == |bytes| then ReadsFirst(b, Entry(NameOf(head), bytes, head.mode, head.kind), rest)
      else Misreads(b, bytes)
  {
    var b := h + bytes + Zeros(Padding(|bytes|)) + rest;
    MemberParts(h, bytes, Padding(|bytes|), rest);
    NotTheEnd(b);
  }

  lemma MemberHead(e: Entry, n: Names) returns (head: Header)
    requires Nameable(e) && SplitTarPath(TarPath(e)) == Ok(n)
    ensures |HeaderBytes(n, NumbersOf(e), e.kind)| == 512
    ensures ReadHeader(HeaderBytes(n, NumbersOf(e), e.kind)) == Some(head)
    ensures head.size == |e.bytes| % SIZE_LIMIT
    ensures Entry(NameOf(head), e.bytes, head.mode, head.kind) == Normal(e)
  {
    head := Header(JoinNames(n), e.mode % 512, |e.bytes| % SIZE_LIMIT, e.kind);
    SplitHasNoNul(e);
    HeaderReads(n, NumbersOf(e), e.kind);
    NameReads(e, n, e.mode % 512, |e.bytes| % SIZE_LIMIT);
  }

  /** A block that reads as an entry's header, its size taken modulo the field's limit. */
  predicate Heads(h: seq<Byte>, head: Header, e: Entry) {
    && |h| == 512 && ReadHeader(h) == Some(head)
    && head.size == |e.bytes| % SIZE_LIMIT
    && Entry(NameOf(head), e.bytes, head.mode, head.kind) == Normal(e)
  }

  predicate Leads(e: Entry, b: seq<Byte>, h: seq<Byte>, head: Header, rest: seq<Byte>) {
    Heads(h, head, e) && b == h + e.bytes + Zeros(Padding(|e.bytes|)) + rest
  }

  predicate AllFit(entries: seq<Entry>) {
    forall e :: e in entries ==> |e.bytes| < SIZE_LIMIT
  }

  /** Reading gives these entries exactly when they all fit. */
  predicate ReadsBack(b: seq<Byte>, entries: seq<Entry>) {
    Read(b) == Some(Normals(entries)) <==> AllFit(entries)
  }

  lemma EndReads(b: seq<Byte>)
    requires b == Zeros(1024)
    ensures ReadsBack(b, [])
  {
    assert b[..1024] == b;
  }

  lemma StepBack(b: seq<Byte>, h: seq<Byte>, head: Header, rest: seq<Byte>, e: Entry, es: seq<Entry>)
    requires Leads(e, b, h, head, rest) && ReadsBack(rest, es)
    ensures ReadsBack(b, [e] + es)
  {
    ReadBlock(h, head, e.bytes, rest);
    assert head.size == |e.bytes| <==> |e.bytes| < SIZE_LIMIT;
    FirstThenRest(b, rest, e, es);
  }

  lemma FirstThenRest(b: seq<Byte>, rest: seq<Byte>, e: Entry, es: seq<Entry>)
    requires if |e.bytes| < SIZE_LIMIT then ReadsFirst(b, Normal(e), rest) else Misreads(b, e.bytes)
    requires ReadsBack(rest, es)
    ensures ReadsBack(b, [e] + es)
  {
    ConsReads(Read(b), Read(rest), e, es);
  }

  lemma MemberLeads(e: Entry, n: Names, rest: seq<Byte>) returns (h: seq<Byte>, head: Header)
    requires Nameable(e) && SplitTarPath(TarPath(e)) == Ok(n)
    ensures Leads(e, MemberBytes(e, n) + rest, h, head, rest)
  {
    h := HeaderBytes(n, NumbersOf(e), e.kind);
    head := MemberHead(e, n);
  }

  lemma FirstReadsBack(e: Entry, n: Names, b: seq<Byte>, rest: seq<Byte>, es: seq<Entry>)
    requires Nameable(e) && SplitTarPath(TarPath(e)) == Ok(n)
    requires b == MemberBytes(e, n) + rest && ReadsBack(rest, es)
    ensures ReadsBack(b, [e] + es)
  {
    var h, head := MemberLeads(e, n, rest);
    StepBack(b, h, head, rest, e, es);
  }

  lemma {:induction false} MembersReadBack(entries: seq<Entry>, b: seq<Byte>)
    requires (forall e :: e in entries ==> Nameable(e)) && Members(entries).Ok?
    requires b == Members(entries).value + Zeros(1024)
    ensures ReadsBack(b, entries)
  {
    if entries == [] {
      EndReads(b);
    } else {
      assert entries[0] in entries;
      var rest := Members(entries[1..]).value + Zeros(1024);
      MembersReadBack(entries[1..], rest);
      FirstMember(entries, Zeros(1024));
      FirstReadsBack(entries[0], SplitTarPath(TarPath(entries[0])).value, b, rest, entries[1..]);
      assert entries == [entries[0]] + entries[1..];
    }
  }

  /** One entry more: the answer for the rest, extended. */
  lemma ConsReads(all: Option<seq<Entry>>, tail: Option<seq<Entry>>, e: Entry, es: seq<Entry>)
    requires |e.bytes| < SIZE_LIMIT ==> all == if tail.None? then None else Some([Normal(e)] + tail.value)
    requires |e.bytes| >= SIZE_LIMIT ==> (all.Some? ==> all.value != [] && all.value[0].bytes != e.bytes)
    requires tail == Some(Normals(es)) <==> AllFit(es)
    ensures Normals([e] + es) == [Normal(e)] + Normals(es)
    ensures all == Some(Normals([e] + es)) <==> AllFit([e] + es)
  {
    assert ([e] + es)[1..] == es;
    if tail.Some? {
      ConsInjective(Normal(e), tail.value, Normals(es));
    }
    assert AllFit([e] + es) <==> |e.bytes| < SIZE_LIMIT && AllFit(es) by {
      assert e in [e] + es && forall x :: x in es ==> x in [e] + es;
    }
  }

  lemma FirstMember(entries: seq<Entry>, tail: seq<Byte>)
    requires entries != [] && Members(entries).Ok?
    ensures SplitTarPath(TarPath(entries[0])).Ok? && Members(entries[1..]).Ok?
    ensures Members(entries).value + tail
         == MemberBytes(entries[0], SplitTarPath(TarPath(entries[0])).value) + (Members(entries[1..]).value + tail)
  {
    var first, rest := MemberBytes(entries[0], SplitTarPath(TarPath(entries[0])).value), Members(entries[1..]).value;
    Associate(first, rest, tail);
  }

  lemma Associate(a: seq<Byte>, b: seq<Byte>, c: seq<Byte>)
    ensures (a + b) + c == a + (b + c)
  {
  }

  lemma ConsInjective(e: Entry, a: seq<Entry>, b: seq<Entry>)
    ensures [e] + a == [e] + b <==> a == b
  {
    assert ([e] + a)[1..] == a && ([e] + b)[1..] == b;
  }

  /**
   The archive's round trip: path, permission bits, kind and bytes of every
   entry, in order, come back exactly when every size fits its eleven octal digits.
   */
  lemma ArchiveRoundTrip(entries: seq<Entry>)
    requires (forall e :: e in entries ==> Nameable(e)) && Archive(entries).Ok?
    ensures Read(Archive(entries).value) == Some(Normals(entries)) <==> AllFit(entries)
  {
    MembersReadBack(entries, Archive(entries).value);
  }

  /** Creating an archive fails exactly when some path cannot be split, and reports the first of those. */
  lemma {:induction false} ArchiveFails(entries: seq<Entry>)
    ensures Archive(entries).Err? <==> exists i :: 0 <= i < |entries| && SplitTarPath(TarPath(entries[i])).Err?
    ensures Archive(entries).Err? ==>
      exists i :: 0 <= i < |entries| && SplitTarPath(TarPath(entries[i])) == Err(Archive(entries).error)
        && forall j :: 0 <= j < i ==> SplitTarPath(TarPath(entries[j])).Ok?
  {
    if entries != [] && SplitTarPath(TarPath(entries[0])).Ok? {
      var rest := entries[1..];
      ArchiveFails(rest);
      assert forall j :: 0 < j < |entries| ==> entries[j] == rest[j - 1];
      if Archive(rest).Err? {
        var i :| 0 <= i < |rest| && SplitTarPath(TarPath(rest[i])) == Err(Archive(rest).error)
          && forall j :: 0 <= j < i ==> SplitTarPath(TarPath(rest[j])).Ok?;
        assert entries[i + 1] == rest[i];
      }
    }
  }

  lemma MemberLength(e: Entry, n: Names)
    requires Fits(n)
    ensures |MemberBytes(e, n)| % 512 == 0
  {
    ChecksumReads(n, NumbersOf(e), e.kind);
    BlocksOf(|e.bytes|);
  }

  lemma SumOfBlocks(a: nat, b: nat)
    requires a % 512 == 0 && b % 512 == 0
    ensures (a + b) % 512 == 0
  {
  }

  lemma BlocksOf(size: nat)
    ensures (512 + size + Padding(size)) % 512 == 0
  {
  }

  /** Every archive is whole blocks. */
  lemma {:induction false} MembersAreBlocks(entries: seq<Entry>)
    requires Members(entries).Ok?
    ensures |Members(entries).value| % 512 == 0
  {
    if entries != [] {
      MembersAreBlocks(entries[1..]);
      var e := entries[0];
      var n := SplitTarPath(TarPath(e)).value;
      MemberLength(e, n);
      SumOfBlocks(|MemberBytes(e, n)|, |Members(entries[1..]).value|);
      assert |Members(entries).value| == |MemberBytes(e, n)| + |Members(entries[1..]).value|;
    }
  }
}
