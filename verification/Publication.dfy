/**
 One cache entry, published by download, verification, extraction and rename,
 evicted file by file, with a crash possible between any two steps. One writer
 per entry; within a supervisor an eviction and a download never overlap.
 */
module Publication {
  import opened Prelude

  type Data = seq<nat>

  type Files = map<string, Data>

  const TAR: string := "artifact.tar.gz"

  const LAST_USE: string := ".last-use"

  /** The hash and the unpacking of archives, and what this entry is to be. */
  datatype Kind = Kind(hash: Data -> nat, unpack: Data -> Files, sha: nat, marker: string)

  /** Where the download is. */
  datatype Pc =
    | Idle
    | Missed // the marker was not there
    | Cleared // an earlier attempt's directory has been dealt with
    | Ready // the temporary directory exists
    | Downloaded(bytes: Data)
    | Extracting(bytes: Data)
    | Extracted(bytes: Data)
    | Stripped(bytes: Data)
    | Replacing(bytes: Data) // removing what is at the final path

  /**
   dir is the final path and tmp the hidden download beside it. source, torn
   and verified are history: the archive last published, the files of the entry
   evicted since, and every archive whose hash was checked.
   */
  datatype State = State(
    dir: Option<Files>,
    tmp: Option<Files>,
    pc: Pc,
    evicting: bool,
    source: Data,
    torn: set<string>,
    verified: set<Data>)

  datatype Event =
    | Look // the cache check; a hit records its time of use
    | ClearTmp(left: Option<Files>)
    | MakeTmp
    | Chunk(partial: Data)
    | FinishDownload(bytes: Data)
    | Verify(left: Option<Files>)
    | WriteFile(name: string, partial: Data)
    | FinishExtract
    | RemoveTar(removed: bool)
    | CheckMarker(left: Option<Files>)
    | ClearDirFile(name: string)
    | ClearDirEmpty
    | Rename
    | Fail // any error return
    | BeginEviction
    | EvictFile(name: string)
    | EndEviction
    | Crash

  predicate Has(d: Option<Files>, name: string) {
    d.Some? && name in d.value
  }

  /** The remains of a removal that may have stopped early. */
  predicate RemainsOf(left: Option<Files>, d: Option<Files>) {
    left.Some? ==>
      d.Some? && left.value.Keys <= d.value.Keys && forall f :: f in left.value ==> left.value[f] == d.value[f]
  }

  /** Every file of the archive is written out in full. */
  predicate Unpacked(k: Kind, bytes: Data, d: Option<Files>) {
    d.Some? && forall f :: f in k.unpack(bytes) ==> f in d.value && d.value[f] == k.unpack(bytes)[f]
  }

  predicate Possible(k: Kind, s: State, e: Event) {
    match e
    case Look => s.pc.Idle? && !s.evicting
    case ClearTmp(left) => s.pc.Missed? && RemainsOf(left, s.tmp)
    case MakeTmp => s.pc.Cleared?
    case Chunk(_) => s.pc.Ready? && s.tmp.Some?
    case FinishDownload(_) => s.pc.Ready? && s.tmp.Some?
    case Verify(left) => s.pc.Downloaded? && RemainsOf(left, s.tmp)
    case WriteFile(name, _) => s.pc.Extracting? && s.tmp.Some? && name in k.unpack(s.pc.bytes)
    case FinishExtract => s.pc.Extracting? && Unpacked(k, s.pc.bytes, s.tmp)
    case RemoveTar(_) => s.pc.Extracted? && s.tmp.Some?
    case CheckMarker(left) => s.pc.Stripped? && RemainsOf(left, s.tmp)
    case ClearDirFile(name) => s.pc.Replacing? && Has(s.dir, name)
    case ClearDirEmpty => s.pc.Replacing? && s.dir == Some(map[])
    case Rename => s.pc.Replacing? && (s.dir.None? || s.dir == Some(map[])) && s.tmp.Some?
    case Fail => !s.pc.Idle?
    case BeginEviction => s.pc.Idle? && !s.evicting && Has(s.dir, k.marker)
    case EvictFile(name) => s.evicting && Has(s.dir, name)
    case EndEviction => s.evicting
    case Crash => true
  }

  function Without(d: Files, name: string): Files {
    d - {name}
  }

  function Apply(k: Kind, s: State, e: Event): State
    requires Possible(k, s, e)
  {
    match e
    case Look =>
      if Has(s.dir, k.marker) then s.(dir := Some(s.dir.value[LAST_USE := []])) else s.(pc := Missed)
    case ClearTmp(left) => s.(tmp := left, pc := Cleared)
    case MakeTmp => s.(tmp := if s.tmp.Some? then s.tmp else Some(map[]), pc := Ready)
    case Chunk(partial) => s.(tmp := Some(s.tmp.value[TAR := partial]))
    case FinishDownload(bytes) => s.(tmp := Some(s.tmp.value[TAR := bytes]), pc := Downloaded(bytes))
    case Verify(left) =>
      if k.hash(s.pc.bytes) == k.sha then s.(pc := Extracting(s.pc.bytes), verified := s.verified + {s.pc.bytes})
      else s.(tmp := left, pc := Idle)
    case WriteFile(name, partial) => s.(tmp := Some(s.tmp.value[name := partial]))
    case FinishExtract => s.(pc := Extracted(s.pc.bytes))
    case RemoveTar(removed) =>
      s.(tmp := if removed then Some(Without(s.tmp.value, TAR)) else s.tmp, pc := Stripped(s.pc.bytes))
    case CheckMarker(left) =>
      if Has(s.tmp, k.marker) then s.(pc := Replacing(s.pc.bytes)) else s.(tmp := left, pc := Idle)
    case ClearDirFile(name) => s.(dir := Some(Without(s.dir.value, name)))
    case ClearDirEmpty => s.(dir := None)
    case Rename => s.(dir := s.tmp, tmp := None, pc := Idle, source := s.pc.bytes, torn := {})
    case Fail => s.(pc := Idle)
    case BeginEviction => s.(evicting := true)
    case EvictFile(name) => s.(dir := Some(Without(s.dir.value, name)), torn := s.torn + {name})
    case EndEviction => s.(dir := if s.dir == Some(map[]) then None else s.dir, evicting := false)
    case Crash => s.(pc := Idle, evicting := false)
  }

  const EMPTY: State := State(None, None, Idle, false, [], {}, {})

  function Run(k: Kind, events: seq<Event>): Option<State> {
    if events == [] then Some(EMPTY)
    else
      var before, e := Run(k, events[..|events| - 1]), events[|events| - 1];
      if before.Some? && Possible(k, before.value, e) then Some(Apply(k, before.value, e)) else None
  }

  // ---------------------------------------------------------------------
  // The invariant

  /** The files the archive has and the supervisor does not write itself. */
  predicate OwnFile(k: Kind, bytes: Data, f: string) {
    f in k.unpack(bytes) && f != TAR && f != LAST_USE
  }

  predicate Whole(k: Kind, bytes: Data, d: Files, f: string) {
    OwnFile(k, bytes, f) ==> f in d && d[f] == k.unpack(bytes)[f]
  }

  /** A directory that is the full extraction of an archive with the entry's hash. */
  ghost predicate Complete(k: Kind, bytes: Data, d: Files) {
    k.hash(bytes) == k.sha && forall f :: Whole(k, bytes, d, f)
  }

  /** Full but for the evicted files. */
  ghost predicate CompleteBut(k: Kind, bytes: Data, d: Files, torn: set<string>) {
    && k.hash(bytes) == k.sha
    && forall f :: if f in torn then f == LAST_USE || f !in d else Whole(k, bytes, d, f)
  }

  predicate FromVerified(k: Kind, verified: set<Data>, f: string) {
    f == TAR || f == LAST_USE || exists b :: b in verified && f in k.unpack(b)
  }

  /** Nothing in a directory comes from an archive whose hash was not checked. */
  predicate Clean(k: Kind, verified: set<Data>, d: Option<Files>) {
    d.Some? ==> forall f :: f in d.value ==> FromVerified(k, verified, f)
  }

  predicate HasBytes(pc: Pc) {
    pc.Extracting? || pc.Extracted? || pc.Stripped? || pc.Replacing?
  }

  ghost predicate Extraction(k: Kind, s: State) {
    && (HasBytes(s.pc) ==> s.pc.bytes in s.verified)
    && (s.pc.Extracted? || s.pc.Stripped? || s.pc.Replacing? ==>
          s.tmp.Some? && forall f :: Whole(k, s.pc.bytes, s.tmp.value, f))
    && (s.pc.Replacing? ==> Has(s.tmp, k.marker))
  }

  ghost predicate Inv(k: Kind, s: State) {
    && (forall b :: b in s.verified ==> k.hash(b) == k.sha)
    && Clean(k, s.verified, s.dir) && Clean(k, s.verified, s.tmp)
    && Extraction(k, s)
    && (!s.pc.Idle? ==> !Has(s.dir, k.marker) && !s.evicting)
    && (Has(s.dir, k.marker) ==> s.source in s.verified && CompleteBut(k, s.source, s.dir.value, s.torn))
  }

  predicate SensibleMarker(k: Kind) {
    k.marker != TAR && k.marker != LAST_USE
  }

  lemma GrowVerified(k: Kind, verified: set<Data>, b: Data, d: Option<Files>)
    requires Clean(k, verified, d)
    ensures Clean(k, verified + {b}, d)
  {
    if d.Some? {
      forall f | f in d.value
        ensures FromVerified(k, verified + {b}, f)
      {
        if f != TAR && f != LAST_USE {
          var b' :| b' in verified && f in k.unpack(b');
          assert b' in verified + {b};
        }
      }
    }
  }

  lemma DownloadStepKeeps(k: Kind, s: State, e: Event)
    requires SensibleMarker(k) && Inv(k, s) && Possible(k, s, e)
    requires e.Look? || e.ClearTmp? || e.MakeTmp? || e.Chunk? || e.FinishDownload?
    ensures Inv(k, Apply(k, s, e))
  {
    if e.Look? && Has(s.dir, k.marker) {
      var d := s.dir.value[LAST_USE := []];
      forall f
        ensures if f in s.torn then f == LAST_USE || f !in d else Whole(k, s.source, d, f)
      {
        assert f !in s.torn ==> Whole(k, s.source, s.dir.value, f);
      }
    }
  }

  lemma VerifyKeeps(k: Kind, s: State, left: Option<Files>)
    requires SensibleMarker(k) && Inv(k, s) && Possible(k, s, Verify(left))
    ensures Inv(k, Apply(k, s, Verify(left)))
  {
    if k.hash(s.pc.bytes) == k.sha {
      GrowVerified(k, s.verified, s.pc.bytes, s.dir);
      GrowVerified(k, s.verified, s.pc.bytes, s.tmp);
    }
  }

  lemma ExtractStepKeeps(k: Kind, s: State, e: Event)
    requires SensibleMarker(k) && Inv(k, s) && Possible(k, s, e)
    requires e.WriteFile? || e.FinishExtract? || e.RemoveTar? || e.CheckMarker?
    ensures Inv(k, Apply(k, s, e))
  {
    if e.RemoveTar? && e.removed {
      var d := Without(s.tmp.value, TAR);
      forall f
        ensures Whole(k, s.pc.bytes, d, f)
      {
        assert Whole(k, s.pc.bytes, s.tmp.value, f);
      }
    }
  }

  lemma PublishStepKeeps(k: Kind, s: State, e: Event)
    requires SensibleMarker(k) && Inv(k, s) && Possible(k, s, e)
    requires e.ClearDirFile? || e.ClearDirEmpty? || e.Rename? || e.Fail? || e.Crash?
    ensures Inv(k, Apply(k, s, e))
  {
  }

  lemma EvictStepKeeps(k: Kind, s: State, e: Event)
    requires SensibleMarker(k) && Inv(k, s) && Possible(k, s, e)
    requires e.BeginEviction? || e.EvictFile? || e.EndEviction?
    ensures Inv(k, Apply(k, s, e))
  {
    if e.EvictFile? && Has(s.dir, k.marker) {
      var d := Without(s.dir.value, e.name);
      forall f
        ensures if f in s.torn + {e.name} then f == LAST_USE || f !in d else Whole(k, s.source, d, f)
      {
        assert f !in s.torn ==> Whole(k, s.source, s.dir.value, f);
      }
    }
  }

  lemma StepKeeps(k: Kind, s: State, e: Event)
    requires SensibleMarker(k) && Inv(k, s) && Possible(k, s, e)
    ensures Inv(k, Apply(k, s, e))
  {
    match e
    case Look | ClearTmp(_) | MakeTmp | Chunk(_) | FinishDownload(_) => DownloadStepKeeps(k, s, e);
    case Verify(left) => VerifyKeeps(k, s, left);
    case WriteFile(_, _) | FinishExtract | RemoveTar(_) | CheckMarker(_) => ExtractStepKeeps(k, s, e);
    case ClearDirFile(_) | ClearDirEmpty | Rename | Fail | Crash => PublishStepKeeps(k, s, e);
    case BeginEviction | EvictFile(_) | EndEviction => EvictStepKeeps(k, s, e);
  }

  lemma {:induction false} InvariantAlongRuns(k: Kind, events: seq<Event>)
    requires SensibleMarker(k) && Run(k, events).Some?
    ensures Inv(k, Run(k, events).value)
  {
    if events != [] {
      InvariantAlongRuns(k, events[..|events| - 1]);
      StepKeeps(k, Run(k, events[..|events| - 1]).value, events[|events| - 1]);
    }
  }

  /**
   Whatever crashed and wherever: an entry with its marker is the full
   extraction of an archive with its hash, exactly when no file of that archive
   has been evicted since it was published.
   */
  lemma MarkerMeansComplete(k: Kind, events: seq<Event>)
    requires SensibleMarker(k) && Run(k, events).Some? && Has(Run(k, events).value.dir, k.marker)
    ensures var s := Run(k, events).value;
      Complete(k, s.source, s.dir.value) <==> forall f :: f in s.torn ==> !OwnFile(k, s.source, f)
  {
    InvariantAlongRuns(k, events);
    var s := Run(k, events).value;
    forall f | f in s.torn && OwnFile(k, s.source, f)
      ensures !Whole(k, s.source, s.dir.value, f)
    {
    }
    if forall f :: f in s.torn ==> !OwnFile(k, s.source, f) {
      forall f
        ensures Whole(k, s.source, s.dir.value, f)
      {
        assert f in s.torn ==> !OwnFile(k, s.source, f);
      }
    }
  }

  // ---------------------------------------------------------------------
  // Publishing

  lemma Extend(k: Kind, events: seq<Event>, e: Event)
    requires Run(k, events).Some? && Possible(k, Run(k, events).value, e)
    ensures Run(k, events + [e]) == Some(Apply(k, Run(k, events).value, e))
  {
    assert (events + [e])[..|events|] == events;
  }

  /** At the final path is the whole, untouched extraction of these bytes, marker and all. */
  ghost predicate Published(k: Kind, s: State, bytes: Data) {
    && s.pc.Idle? && !s.evicting && Has(s.dir, k.marker) && Complete(k, bytes, s.dir.value)
    && s.source == bytes && bytes in s.verified && s.torn == {}
  }

  /** Every rename in every run publishes the archive just verified, and the next cache check finds it. */
  lemma RenamePublishes(k: Kind, events: seq<Event>)
    requires SensibleMarker(k) && Run(k, events + [Rename]).Some?
    ensures Run(k, events).Some? && Run(k, events).value.pc.Replacing?
    ensures Published(k, Run(k, events + [Rename]).value, Run(k, events).value.pc.bytes)
    ensures IsHit(k, events + [Rename])
  {
    assert (events + [Rename])[..|events|] == events;
    InvariantAlongRuns(k, events);
    var s := Run(k, events).value;
    assert Run(k, events + [Rename]).value == Apply(k, s, Rename);
    NextLookHits(k, events + [Rename]);
  }

  /** The cache check may come next, and takes the entry as it is. */
  ghost predicate IsHit(k: Kind, events: seq<Event>)
    requires Run(k, events).Some?
  {
    && Run(k, events + [Look]).Some?
    && var s, t := Run(k, events).value, Run(k, events + [Look]).value;
       && t.pc.Idle? && t.tmp == s.tmp && Has(t.dir, k.marker)
       && forall f :: f != LAST_USE ==>
            (Has(t.dir, f) <==> Has(s.dir, f)) && (Has(s.dir, f) ==> t.dir.value[f] == s.dir.value[f])
  }

  lemma NextLookHits(k: Kind, events: seq<Event>)
    requires Run(k, events).Some?
    requires var s := Run(k, events).value; s.pc.Idle? && !s.evicting && Has(s.dir, k.marker)
    ensures IsHit(k, events)
  {
    Extend(k, events, Look);
  }

  /** Every file of the archive but those still to do is written out. */
  predicate UnpackedBut(k: Kind, bytes: Data, d: Files, todo: set<string>) {
    forall f :: f in k.unpack(bytes) && f !in todo ==> f in d && d[f] == k.unpack(bytes)[f]
  }

  lemma {:induction false} ExtractAll(k: Kind, events: seq<Event>, todo: set<string>) returns (out: seq<Event>)
    requires Run(k, events).Some? && todo <= k.unpack(Bytes(Run(k, events).value.pc)).Keys
    requires var s := Run(k, events).value;
      s.pc.Extracting? && s.tmp.Some? && UnpackedBut(k, s.pc.bytes, s.tmp.value, todo)
    ensures Run(k, out).Some?
    ensures var s, t := Run(k, events).value, Run(k, out).value;
      t == s.(tmp := t.tmp) && Unpacked(k, s.pc.bytes, t.tmp)
    decreases |todo|
  {
    if f :| f in todo {
      var s := Run(k, events).value;
      var write := WriteFile(f, k.unpack(s.pc.bytes)[f]);
      Extend(k, events, write);
      out := ExtractAll(k, events + [write], todo - {f});
    } else {
      out := events;
    }
  }

  function Bytes(pc: Pc): Data {
    if pc.Downloaded? || HasBytes(pc) then pc.bytes else []
  }

  /** What is at the final path goes, file by file. */
  lemma {:induction false} ClearAll(k: Kind, events: seq<Event>, names: set<string>) returns (out: seq<Event>)
    requires Run(k, events).Some? && Run(k, events).value.pc.Replacing?
    requires var s := Run(k, events).value; names == if s.dir.Some? then s.dir.value.Keys else {}
    ensures Run(k, out) == Some(Run(k, events).value.(dir := None))
    decreases |names|
  {
    var s := Run(k, events).value;
    if f :| f in names {
      Extend(k, events, ClearDirFile(f));
      assert Without(s.dir.value, f).Keys == names - {f};
      out := ClearAll(k, events + [ClearDirFile(f)], names - {f});
    } else if s.dir.Some? {
      assert s.dir.value == map[];
      Extend(k, events, ClearDirEmpty);
      out := events + [ClearDirEmpty];
    } else {
      out := events;
    }
  }

  /** From a miss to a verified download. */
  lemma Download(k: Kind, events: seq<Event>, bytes: Data) returns (out: seq<Event>)
    requires Run(k, events).Some? && k.hash(bytes) == k.sha
    requires var s := Run(k, events).value; s.pc.Idle? && !s.evicting && !Has(s.dir, k.marker)
    ensures Run(k, out).Some?
    ensures var s, t := Run(k, events).value, Run(k, out).value;
      && t.pc == Extracting(bytes) && t.tmp.Some? && t.dir == s.dir && !t.evicting && bytes in t.verified
  {
    Extend(k, events, Look);
    out := events + [Look];
    Extend(k, out, ClearTmp(None));
    out := out + [ClearTmp(None)];
    Extend(k, out, MakeTmp);
    out := out + [MakeTmp];
    Extend(k, out, FinishDownload(bytes));
    out := out + [FinishDownload(bytes)];
    Extend(k, out, Verify(None));
    out := out + [Verify(None)];
  }

  /**
   Publication is always within reach: wherever a run has come, however it was
   cut short, if the cache check misses then a download of any archive with the
   entry's hash and the marker in it can run through, and is published whole.
   */
  lemma PublicationPossible(k: Kind, events: seq<Event>, bytes: Data) returns (out: seq<Event>)
    requires SensibleMarker(k) && Run(k, events).Some? && k.hash(bytes) == k.sha && k.marker in k.unpack(bytes)
    requires var s := Run(k, events).value; s.pc.Idle? && !s.evicting && !Has(s.dir, k.marker)
    ensures Run(k, out).Some? && Published(k, Run(k, out).value, bytes) && IsHit(k, out)
  {
    out := Download(k, events, bytes);
    out := ExtractAll(k, out, k.unpack(bytes).Keys);
    Extend(k, out, FinishExtract);
    out := out + [FinishExtract];
    Extend(k, out, RemoveTar(true));
    out := out + [RemoveTar(true)];
    Extend(k, out, CheckMarker(None));
    out := out + [CheckMarker(None)];
    var s := Run(k, out).value;
    out := ClearAll(k, out, if s.dir.Some? then s.dir.value.Keys else {});
    Extend(k, out, Rename);
    RenamePublishes(k, out);
    out := out + [Rename];
  }

  /** A fresh cache in particular: every such archive can be published in it. */
  lemma FreshCachePublishes(k: Kind, bytes: Data) returns (events: seq<Event>)
    requires SensibleMarker(k) && k.hash(bytes) == k.sha && k.marker in k.unpack(bytes)
    ensures Run(k, events).Some? && Published(k, Run(k, events).value, bytes) && IsHit(k, events)
  {
    events := PublicationPossible(k, [], bytes);
  }

  /** At no point is a file visible, at either path, that an unverified archive brought. */
  lemma OnlyVerifiedFiles(k: Kind, events: seq<Event>, f: string)
    requires SensibleMarker(k) && Run(k, events).Some?
    requires Has(Run(k, events).value.dir, f) || Has(Run(k, events).value.tmp, f)
    ensures f == TAR || f == LAST_USE || exists b :: k.hash(b) == k.sha && f in k.unpack(b)
  {
    InvariantAlongRuns(k, events);
    var s := Run(k, events).value;
    assert FromVerified(k, s.verified, f);
    if f != TAR && f != LAST_USE {
      var b :| b in s.verified && f in k.unpack(b);
      assert k.hash(b) == k.sha;
    }
  }

  // ---------------------------------------------------------------------
  // Which evictions keep the marker honest

  /** The step removes a file of an entry only once its marker is gone. */
  predicate MarkerFirstStep(k: Kind, s: State, e: Event) {
    e.EvictFile? && e.name != k.marker ==> !Has(s.dir, k.marker)
  }

  /** Every eviction removes the marker before anything else. */
  predicate MarkerFirst(k: Kind, events: seq<Event>)
    requires Run(k, events).Some?
  {
    events == []
    || (MarkerFirst(k, events[..|events| - 1])
        && MarkerFirstStep(k, Run(k, events[..|events| - 1]).value, events[|events| - 1]))
  }

  lemma {:induction false} MarkerFirstLeavesNothingTorn(k: Kind, events: seq<Event>)
    requires SensibleMarker(k) && Run(k, events).Some? && MarkerFirst(k, events)
    ensures Has(Run(k, events).value.dir, k.marker) ==> Run(k, events).value.torn == {}
  {
    if events != [] {
      InvariantAlongRuns(k, events[..|events| - 1]);
      MarkerFirstLeavesNothingTorn(k, events[..|events| - 1]);
    }
  }

  /** If evictions remove the marker first, the marker can be trusted at every moment, crashes or not. */
  lemma MarkerFirstIsSafe(k: Kind, events: seq<Event>)
    requires SensibleMarker(k) && Run(k, events).Some? && MarkerFirst(k, events)
    requires Has(Run(k, events).value.dir, k.marker)
    ensures Complete(k, Run(k, events).value.source, Run(k, events).value.dir.value)
  {
    MarkerFirstLeavesNothingTorn(k, events);
    MarkerMeansComplete(k, events);
  }

  /** Evictions run to their end: no crash inside one, and none gives up half-way. */
  predicate Finishes(k: Kind, events: seq<Event>)
    requires Run(k, events).Some?
  {
    events == []
    || (var s, e := Run(k, events[..|events| - 1]).value, events[|events| - 1];
        && Finishes(k, events[..|events| - 1])
        && (e.Crash? ==> !s.evicting)
        && (e.EndEviction? ==> !Has(s.dir, k.marker)))
  }

  lemma {:induction false} FinishedLeavesNothingTorn(k: Kind, events: seq<Event>)
    requires SensibleMarker(k) && Run(k, events).Some? && Finishes(k, events)
    ensures var s := Run(k, events).value;
      Has(s.dir, k.marker) && !s.evicting ==> s.torn == {}
  {
    if events != [] {
      InvariantAlongRuns(k, events[..|events| - 1]);
      FinishedLeavesNothingTorn(k, events[..|events| - 1]);
    }
  }

  /** If evictions always finish, in whatever order they remove, the marker is right whenever none is under way. */
  lemma FinishedEvictionsAreSafe(k: Kind, events: seq<Event>)
    requires SensibleMarker(k) && Run(k, events).Some? && Finishes(k, events)
    requires Has(Run(k, events).value.dir, k.marker) && !Run(k, events).value.evicting
    ensures Complete(k, Run(k, events).value.source, Run(k, events).value.dir.value)
  {
    FinishedLeavesNothingTorn(k, events);
    MarkerMeansComplete(k, events);
  }

  /**
   Otherwise it can not: from any published entry with a file besides the
   marker, an eviction cut short by a crash leaves a marker without that file,
   and the next cache check takes it for a hit.
   */
  lemma InterruptedEvictionTears(k: Kind, events: seq<Event>, f: string)
    requires SensibleMarker(k) && Run(k, events).Some?
    requires var s := Run(k, events).value;
      && s.pc.Idle? && !s.evicting && Has(s.dir, k.marker) && Has(s.dir, f)
      && f != k.marker && OwnFile(k, s.source, f)
    ensures var torn := events + [BeginEviction] + [EvictFile(f)] + [Crash];
      && Run(k, torn).Some?
      && Has(Run(k, torn).value.dir, k.marker)
      && !Complete(k, Run(k, torn).value.source, Run(k, torn).value.dir.value)
      && Run(k, torn + [Look]).Some? && Run(k, torn + [Look]).value.pc.Idle?
  {
    var begun := events + [BeginEviction];
    Extend(k, events, BeginEviction);
    Extend(k, begun, EvictFile(f));
    Extend(k, begun + [EvictFile(f)], Crash);
    var torn := begun + [EvictFile(f)] + [Crash];
    Extend(k, torn, Look);
    assert !Whole(k, Run(k, torn).value.source, Run(k, torn).value.dir.value, f);
  }
}
