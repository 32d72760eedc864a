/** The daemon's status file: written line by line, read by another process, possibly while torn. */
module StatusSnapshot {
  import opened Prelude
  import opened Numerals
  import opened KeyValueText

  const FRESH_WINDOW_MS: nat := 15_000

  datatype KeepAwake = Held | FailedToAcquire | Unavailable

  function Token(k: KeepAwake): string {
    match k
    case Held => "held"
    case FailedToAcquire => "failed"
    case Unavailable => "unavailable"
  }

  function FromToken(s: string): Option<KeepAwake> {
    if s == "held" then Some(Held)
    else if s == "failed" then Some(FailedToAcquire)
    else if s == "unavailable" then Some(Unavailable)
    else None
  }

  /** Progress is carried as its text. */
  datatype Job = Job(id: string, phase: string, progress: string)

  datatype Status = Status(
    connection: string,
    dispatchUrl: Option<string>,
    job: Option<Job>,
    keepAwake: Option<KeepAwake>,
    completed: nat,
    failed: nat,
    canceled: nat,
    allowRealJobs: bool,
    autoUpgrade: bool,
    updateAvailable: Option<string>,
    version: string,
    now: nat)

  datatype Snapshot = Snapshot(
    connection: string,
    job: Option<Job>,
    keepAwake: Option<KeepAwake>,
    completed: nat,
    failed: nat,
    canceled: nat,
    autoUpgrade: bool,
    updateAvailable: Option<string>,
    supervisorVersion: Option<string>,
    updatedAt: nat)

  // ---------------------------------------------------------------------
  // Writing

  function OrEmpty(s: Option<string>): string {
    if s.None? then "" else s.value
  }

  function BoolText(b: bool): string {
    if b then "true" else "false"
  }

  function JobPairs(s: Status): seq<Pair> {
    var job := if s.job.None? then Job("", "", "") else s.job.value;
    [Pair("connection", s.connection),
     Pair("dispatch_url", OrEmpty(s.dispatchUrl)),
     Pair("current_job_id", job.id),
     Pair("current_job_phase", job.phase),
     Pair("current_job_progress", job.progress),
     Pair("keep_awake", if s.keepAwake.None? then "" else Token(s.keepAwake.value))]
  }

  function CountPairs(s: Status): seq<Pair> {
    [Pair("jobs_completed", Print(s.completed, 10)),
     Pair("jobs_failed", Print(s.failed, 10)),
     Pair("jobs_canceled", Print(s.canceled, 10)),
     Pair("allow_real_jobs", BoolText(s.allowRealJobs)),
     Pair("auto_upgrade_enabled", BoolText(s.autoUpgrade)),
     Pair("update_available", OrEmpty(s.updateAvailable)),
     Pair("supervisor_version", s.version),
     Pair("updated_at_ms", Print(s.now, 10))]
  }

  function PairsOf(s: Status): (ps: seq<Pair>)
    ensures |ps| == 14
  {
    JobPairs(s) + CountPairs(s)
  }

  /** The file a running daemon writes; the time goes last. */
  method WriteSnapshot(s: Status) returns (snap: string)
    ensures snap == TextOf(PairsOf(s))
  {
    var pairs := PairsOf(s);
    snap := "";
    var i := 0;
    while i < |pairs|
      invariant i <= |pairs| && snap == TextOf(pairs[..i])
    {
      assert pairs[..i + 1][..i] == pairs[..i] && pairs[..i + 1][i] == pairs[i];
      snap := snap + (pairs[i].key + "=" + pairs[i].value);
      snap := snap + "\n";
      i := i + 1;
    }
    assert pairs[..i] == pairs;
  }

  // ---------------------------------------------------------------------
  // Reading

  function Val(kv: map<string, string>, k: string): string {
    if k in kv then kv[k] else ""
  }

  function CountOf(s: string): nat {
    var n := ParseUnsigned(s, U64_MAX);
    if n.None? then 0 else n.value
  }

  function NonEmpty(s: string): Option<string> {
    if s == "" then None else Some(s)
  }

  /** Nothing without a time that parses. */
  function SnapshotOf(kv: map<string, string>): Option<Snapshot> {
    var at := ParseUnsigned(Val(kv, "updated_at_ms"), U64_MAX);
    if at.None? then None
    else
      var id := Val(kv, "current_job_id");
      Some(Snapshot(
             Val(kv, "connection"),
             if id == "" then None else Some(Job(id, Val(kv, "current_job_phase"), Val(kv, "current_job_progress"))),
             FromToken(Val(kv, "keep_awake")),
             CountOf(Val(kv, "jobs_completed")),
             CountOf(Val(kv, "jobs_failed")),
             CountOf(Val(kv, "jobs_canceled")),
             Val(kv, "auto_upgrade_enabled") == "true",
             NonEmpty(Val(kv, "update_available")),
             NonEmpty(Val(kv, "supervisor_version")),
             at.value))
  }

  function Read(content: string): Option<Snapshot> {
    SnapshotOf(Parsed(Lines(content)))
  }

  method ReadSnapshot(content: string) returns (s: Option<Snapshot>)
    ensures s == Read(content)
  {
    var kv := ReadText(content);
    s := SnapshotOf(kv);
  }

  predicate IsFreshAt(s: Snapshot, now: nat) {
    SatSub(now, s.updatedAt) <= FRESH_WINDOW_MS
  }

  // ---------------------------------------------------------------------
  // What comes back

  /** Text that a line can carry. */
  predicate OneLine(s: string) {
    '\n' !in s
  }

  predicate CountersFit(s: Status) {
    s.completed <= U64_MAX && s.failed <= U64_MAX && s.canceled <= U64_MAX && s.now <= U64_MAX
  }

  predicate Writable(s: Status) {
    && OneLine(s.connection) && OneLine(OrEmpty(s.dispatchUrl))
    && OneLine(OrEmpty(s.updateAvailable)) && OneLine(s.version)
    && (s.job.Some? ==> OneLine(s.job.value.id) && OneLine(s.job.value.phase) && OneLine(s.job.value.progress))
    && CountersFit(s)
  }

  function StripJob(j: Job): Job {
    Job(StripReturn(j.id), StripReturn(j.phase), StripReturn(j.progress))
  }

  function StripSome(s: Option<string>): Option<string> {
    if s.None? then None else Some(StripReturn(s.value))
  }

  /** A status as its lines carry it: no text ends in a carriage return any more. */
  function AsRead(s: Status): Status {
    s.(connection := StripReturn(s.connection), dispatchUrl := StripSome(s.dispatchUrl),
       job := if s.job.None? then None else Some(StripJob(s.job.value)),
       updateAvailable := StripSome(s.updateAvailable), version := StripReturn(s.version))
  }

  /** What a reader can know of a status: an empty id, version or target reads as none. */
  function Seen(s: Status): Snapshot {
    Snapshot(s.connection, if s.job.Some? && s.job.value.id != "" then s.job else None, s.keepAwake,
             s.completed, s.failed, s.canceled, s.autoUpgrade,
             NonEmpty(OrEmpty(s.updateAvailable)), NonEmpty(s.version), s.now)
  }

  lemma PrintedIsOneLine(n: nat)
    ensures OneLine(Print(n, 10)) && StripReturn(Print(n, 10)) == Print(n, 10)
  {
    var s := Print(n, 10);
    assert s[|s| - 1] in s;
  }

  predicate PlainKey(k: string) {
    '=' !in k && '\n' !in k
  }

  lemma PlainConnectionKeys()
    ensures PlainKey("connection")
    ensures PlainKey("dispatch_url")
    ensures PlainKey("current_job_id")
  {
  }

  lemma PlainJobKeys()
    ensures PlainKey("current_job_phase")
    ensures PlainKey("current_job_progress")
    ensures PlainKey("keep_awake")
  {
  }

  lemma PlainCountKeys()
    ensures PlainKey("jobs_completed")
    ensures PlainKey("jobs_failed")
    ensures PlainKey("jobs_canceled")
    ensures PlainKey("allow_real_jobs")
  {
  }

  lemma PlainUpgradeKeys()
    ensures PlainKey("auto_upgrade_enabled")
    ensures PlainKey("update_available")
  {
  }

  lemma PlainVersionKeys()
    ensures PlainKey("supervisor_version")
    ensures PlainKey("updated_at_ms")
  {
  }

  lemma CleanAppend(a: seq<Pair>, p: Pair)
    requires Clean(a) && PlainKey(p.key) && OneLine(p.value)
    ensures Clean(a + [p])
  {
  }

  lemma JobPairsAreClean(s: Status)
    requires Writable(s)
    ensures Clean(JobPairs(s))
  {
    PlainConnectionKeys();
    PlainJobKeys();
    var ps := JobPairs(s);
    CleanAppend([], ps[0]);
    CleanAppend([] + [ps[0]], ps[1]);
    CleanAppend([] + [ps[0]] + [ps[1]], ps[2]);
    CleanAppend([] + [ps[0]] + [ps[1]] + [ps[2]], ps[3]);
    CleanAppend([] + [ps[0]] + [ps[1]] + [ps[2]] + [ps[3]], ps[4]);
    CleanAppend([] + [ps[0]] + [ps[1]] + [ps[2]] + [ps[3]] + [ps[4]], ps[5]);
    assert ps == [] + [ps[0]] + [ps[1]] + [ps[2]] + [ps[3]] + [ps[4]] + [ps[5]];
  }

  lemma CountPairsAreClean(s: Status)
    requires Writable(s)
    ensures Clean(CountPairs(s))
  {
    PlainCountKeys();
    PlainUpgradeKeys();
    PlainVersionKeys();
    PrintedIsOneLine(s.completed);
    PrintedIsOneLine(s.failed);
    PrintedIsOneLine(s.canceled);
    PrintedIsOneLine(s.now);
    var ps := CountPairs(s);
    CleanAppend([], ps[0]);
    CleanAppend([] + [ps[0]], ps[1]);
    CleanAppend([] + [ps[0]] + [ps[1]], ps[2]);
    CleanAppend([] + [ps[0]] + [ps[1]] + [ps[2]], ps[3]);
    var half := [] + [ps[0]] + [ps[1]] + [ps[2]] + [ps[3]];
    CleanAppend(half, ps[4]);
    CleanAppend(half + [ps[4]], ps[5]);
    CleanAppend(half + [ps[4]] + [ps[5]], ps[6]);
    CleanAppend(half + [ps[4]] + [ps[5]] + [ps[6]], ps[7]);
    assert ps == half + [ps[4]] + [ps[5]] + [ps[6]] + [ps[7]];
  }

  lemma PairsAreClean(s: Status)
    requires Writable(s)
    ensures Clean(PairsOf(s))
  {
    JobPairsAreClean(s);
    CountPairsAreClean(s);
  }

  lemma JobPairsCarried(s: Status)
    ensures Carried(JobPairs(s)) == JobPairs(AsRead(s))
  {
    var ps, rs := JobPairs(s), JobPairs(AsRead(s));
    forall i | 0 <= i < 6
      ensures Carried(ps)[i] == rs[i]
    {
    }
  }

  lemma CountPairsCarried(s: Status)
    ensures Carried(CountPairs(s)) == CountPairs(AsRead(s))
  {
    PrintedIsOneLine(s.completed);
    PrintedIsOneLine(s.failed);
    PrintedIsOneLine(s.canceled);
    PrintedIsOneLine(s.now);
    var ps, rs := CountPairs(s), CountPairs(AsRead(s));
    forall i | 0 <= i < 8
      ensures Carried(ps)[i] == rs[i]
    {
    }
  }

  /** The lines of a status carry what the lines of its `AsRead` say. */
  lemma PairsCarried(s: Status)
    ensures Carried(PairsOf(s)) == PairsOf(AsRead(s))
  {
    JobPairsCarried(s);
    CountPairsCarried(s);
  }

  lemma PrefixCarried(ps: seq<Pair>, i: nat)
    requires i <= |ps|
    ensures Carried(ps[..i]) == Carried(ps)[..i]
  {
  }

  /** Tells the keys apart. */
  function Mark(k: string): nat {
    if k == "" then 0 else 1000 * |k| + k[0] as int
  }

  /** A key's place among the lines. */
  function Place(k: string): nat {
    var m := Mark(k);
    if m == 10099 then 0
    else if m == 12100 then 1
    else if m == 14099 then 2
    else if m == 17099 then 3
    else if m == 20099 then 4
    else if m == 10107 then 5
    else if m == 14106 then 6
    else if m == 11106 then 7
    else if m == 13106 then 8
    else if m == 15097 then 9
    else if m == 20097 then 10
    else if m == 16117 then 11
    else if m == 18115 then 12
    else if m == 13117 then 13
    else 14
  }

  lemma JobKeyPlaces(s: Status)
    ensures forall i :: 0 <= i < 6 ==> Place(JobPairs(s)[i].key) == i
  {
    var ps := JobPairs(s);
    assert Mark(ps[0].key) == 10099 && Mark(ps[1].key) == 12100 && Mark(ps[2].key) == 14099 && Mark(ps[3].key) == 17099;
    assert Mark(ps[4].key) == 20099 && Mark(ps[5].key) == 10107;
  }

  lemma CountKeyPlaces(s: Status)
    ensures forall i :: 0 <= i < 8 ==> Place(CountPairs(s)[i].key) == 6 + i
  {
    var ps := CountPairs(s);
    assert Mark(ps[0].key) == 14106 && Mark(ps[1].key) == 11106 && Mark(ps[2].key) == 13106 && Mark(ps[3].key) == 15097;
    assert Mark(ps[4].key) == 20097 && Mark(ps[5].key) == 16117 && Mark(ps[6].key) == 18115 && Mark(ps[7].key) == 13117;
  }

  lemma KeysAreDistinct(s: Status)
    ensures DistinctKeys(PairsOf(s))
  {
    JobKeyPlaces(s);
    CountKeyPlaces(s);
    var ps := PairsOf(s);
    assert forall i :: 0 <= i < 14 ==> Place(ps[i].key) == i;
  }

  lemma ValAt(s: Status, i: nat)
    requires i < 14
    ensures Val(MapOf(PairsOf(s)), PairsOf(s)[i].key) == PairsOf(s)[i].value
  {
    KeysAreDistinct(s);
    MapAt(PairsOf(s), i);
  }

  predicate JobValues(kv: map<string, string>, s: Status) {
    var job := if s.job.None? then Job("", "", "") else s.job.value;
    && Val(kv, "connection") == s.connection
    && Val(kv, "current_job_id") == job.id
    && Val(kv, "current_job_phase") == job.phase
    && Val(kv, "current_job_progress") == job.progress
    && Val(kv, "keep_awake") == if s.keepAwake.None? then "" else Token(s.keepAwake.value)
  }

  predicate CountValues(kv: map<string, string>, s: Status) {
    && Val(kv, "jobs_completed") == Print(s.completed, 10)
    && Val(kv, "jobs_failed") == Print(s.failed, 10)
    && Val(kv, "jobs_canceled") == Print(s.canceled, 10)
    && Val(kv, "auto_upgrade_enabled") == BoolText(s.autoUpgrade)
    && Val(kv, "update_available") == OrEmpty(s.updateAvailable)
    && Val(kv, "supervisor_version") == s.version
  }

  lemma JobValuesSeen(s: Status)
    ensures JobValues(MapOf(PairsOf(s)), s)
  {
    assert PairsOf(s)[..6] == JobPairs(s);
    ValAt(s, 0);
    ValAt(s, 2);
    ValAt(s, 3);
    ValAt(s, 4);
    ValAt(s, 5);
  }

  lemma CountValuesSeen(s: Status)
    ensures CountValues(MapOf(PairsOf(s)), s) && Val(MapOf(PairsOf(s)), "updated_at_ms") == Print(s.now, 10)
  {
    assert PairsOf(s)[6..] == CountPairs(s);
    ValAt(s, 6);
    ValAt(s, 7);
    ValAt(s, 8);
    ValAt(s, 10);
    ValAt(s, 11);
    ValAt(s, 12);
    ValAt(s, 13);
  }

  lemma TokensReadBack(k: Option<KeepAwake>)
    ensures FromToken(if k.None? then "" else Token(k.value)) == k
  {
  }

  /** The values of a status, with some time, make up what can be seen of it, at that time. */
  lemma ValuesMakeSnapshot(kv: map<string, string>, s: Status, at: nat)
    requires CountersFit(s) && JobValues(kv, s) && CountValues(kv, s)
    requires ParseUnsigned(Val(kv, "updated_at_ms"), U64_MAX) == Some(at)
    ensures SnapshotOf(kv) == Some(Seen(s).(updatedAt := at))
  {
    TokensReadBack(s.keepAwake);
    ParseInvertsPrint(s.completed, U64_MAX);
    ParseInvertsPrint(s.failed, U64_MAX);
    ParseInvertsPrint(s.canceled, U64_MAX);
  }

  lemma ValuesSeen(s: Status)
    requires CountersFit(s)
    ensures SnapshotOf(MapOf(PairsOf(s))) == Some(Seen(s))
  {
    JobValuesSeen(s);
    CountValuesSeen(s);
    ParseInvertsPrint(s.now, U64_MAX);
    ValuesMakeSnapshot(MapOf(PairsOf(s)), s, s.now);
  }

  /** A whole file reads as the status it was written from, but for carriage returns that end its texts. */
  lemma SnapshotRoundTrip(s: Status)
    requires Writable(s)
    ensures Read(TextOf(PairsOf(s))) == Some(Seen(AsRead(s)))
  {
    PairsAreClean(s);
    TextRoundTrip(PairsOf(s));
    PairsCarried(s);
    ValuesSeen(AsRead(s));
  }

  predicate EndsInReturn(s: string) {
    s != "" && s[|s| - 1] == '\r'
  }

  /** Whether a text that a reader is shown ends in a carriage return. */
  predicate ShowsReturn(s: Status) {
    || EndsInReturn(s.connection) || EndsInReturn(OrEmpty(s.updateAvailable)) || EndsInReturn(s.version)
    || (s.job.Some? && (EndsInReturn(s.job.value.id)
                        || (s.job.value.id != "" && (EndsInReturn(s.job.value.phase)
                                                     || EndsInReturn(s.job.value.progress)))))
  }

  lemma StripChanges(s: string)
    ensures StripReturn(s) == s <==> !EndsInReturn(s)
  {
  }

  lemma JobStripChanges(j: Job)
    ensures StripJob(j) == j <==> !EndsInReturn(j.id) && !EndsInReturn(j.phase) && !EndsInReturn(j.progress)
  {
  }

  /** Exactly when a whole file reads as the status itself. */
  lemma SnapshotRoundTripIff(s: Status)
    requires Writable(s)
    ensures Read(TextOf(PairsOf(s))) == Some(Seen(s)) <==> !ShowsReturn(s)
  {
    SnapshotRoundTrip(s);
    StripChanges(s.connection);
    StripChanges(OrEmpty(s.updateAvailable));
    StripChanges(s.version);
    if s.job.Some? {
      JobStripChanges(s.job.value);
    }
  }

  // ---------------------------------------------------------------------
  // Torn files

  const TIME: string := "updated_at_ms"

  /** The map of a file cut inside its last value. */
  function CutTime(s: Status, digits: string): map<string, string> {
    MapOf(PairsOf(s)[..13])[TIME := digits]
  }

  lemma TimeIsLast(s: Status)
    ensures PairsOf(s)[13] == Pair(TIME, Print(s.now, 10))
    ensures TIME !in MapOf(PairsOf(s)[..13])
    ensures MapOf(PairsOf(s)) == CutTime(s, Print(s.now, 10))
  {
    var ps := PairsOf(s);
    assert ps[13] == CountPairs(s)[7];
    KeysAreDistinct(s);
    MapKeys(ps[..13], TIME);
  }

  lemma JobValuesElsewhere(kv: map<string, string>, s: Status, v: string)
    requires JobValues(kv, s)
    ensures JobValues(kv[TIME := v], s)
  {
    assert Mark(TIME) == 13117 && Mark("connection") == 10099 && Mark("current_job_id") == 14099;
    assert Mark("current_job_phase") == 17099 && Mark("current_job_progress") == 20099 && Mark("keep_awake") == 10107;
  }

  lemma CountValuesElsewhere(kv: map<string, string>, s: Status, v: string)
    requires CountValues(kv, s)
    ensures CountValues(kv[TIME := v], s)
  {
    assert Mark(TIME) == 13117 && Mark("jobs_completed") == 14106 && Mark("jobs_failed") == 11106;
    assert Mark("jobs_canceled") == 13106;
    assert Mark("auto_upgrade_enabled") == 20097 && Mark("update_available") == 16117;
    assert Mark("supervisor_version") == 18115;
  }

  /** Digits cut short: a number at most a tenth of the real one. */
  lemma {:induction false} PrefixValue(digits: string, d: nat)
    requires AllDigits(digits, 10) && d <= |digits|
    ensures AllDigits(digits[..d], 10)
    ensures d < |digits| ==> Value(digits[..d], 10) <= Value(digits, 10) / 10
    ensures d == |digits| - 1 ==> Value(digits[..d], 10) == Value(digits, 10) / 10
  {
    if d < |digits| {
      var n := |digits| - 1;
      PrefixValue(digits[..n], d);
      assert digits[..n][..d] == digits[..d];
      assert digits[n] in digits;
    } else {
      assert digits[..d] == digits;
    }
  }

  lemma CutDigitsParse(n: nat, d: nat)
    requires n <= U64_MAX && d <= |Print(n, 10)|
    ensures AllDigits(Print(n, 10)[..d], 10)
    ensures ParseUnsigned(Print(n, 10)[..d], U64_MAX) == if d == 0 then None else Some(Value(Print(n, 10)[..d], 10))
  {
    var full := Print(n, 10);
    var digits := full[..d];
    ValueOfPrint(n, 10);
    PrefixValue(full, d);
    if d > 0 {
      assert digits[0] in digits;
      assert d == |full| ==> digits == full;
      assert Value(digits, 10) <= n;
    }
  }

  /** A time cut to its first d digits. */
  lemma CutTimeReads(s: Status, d: nat)
    requires CountersFit(s) && d <= |Print(s.now, 10)|
    ensures AllDigits(Print(s.now, 10)[..d], 10)
    ensures SnapshotOf(CutTime(s, Print(s.now, 10)[..d]))
         == if d == 0 then None else Some(Seen(s).(updatedAt := Value(Print(s.now, 10)[..d], 10)))
  {
    var digits := Print(s.now, 10)[..d];
    var kv := CutTime(s, digits);
    CutDigitsParse(s.now, d);
    if d > 0 {
      TimeIsLast(s);
      assert kv == MapOf(PairsOf(s))[TIME := digits];
      JobValuesSeen(s);
      CountValuesSeen(s);
      JobValuesElsewhere(MapOf(PairsOf(s)), s, digits);
      CountValuesElsewhere(MapOf(PairsOf(s)), s, digits);
      ValuesMakeSnapshot(kv, s, Value(digits, 10));
    }
  }

  /** The map of a file cut before its last line has no time in it. */
  lemma NoTimeYet(s: Status, i: nat, v: string)
    requires i < 13
    ensures TIME !in MapOf(PairsOf(s)[..i]) && TIME !in MapOf(PairsOf(s)[..i])[PairsOf(s)[i].key := v]
  {
    var ps := PairsOf(s);
    TimeIsLast(s);
    KeysAreDistinct(s);
    MapKeys(ps[..i], TIME);
    assert ps[i].key != ps[13].key;
  }

  /** Every strict prefix of a written file reads as nothing, or as the whole status with its time cut to d digits. */
  lemma CutSnapshot(s: Status, cut: string) returns (d: nat)
    requires Writable(s) && cut < TextOf(PairsOf(s))
    ensures d <= |Print(s.now, 10)|
    ensures Read(cut) == SnapshotOf(CutTime(AsRead(s), Print(s.now, 10)[..d]))
  {
    PairsAreClean(s);
    PairsCarried(s);
    var i, tail := CutText(PairsOf(s), cut);
    CutParses(PairsOf(s), i, tail);
    PrefixCarried(PairsOf(s), i);
    if i < 13 {
      d := 0;
      CutEarly(s, i, tail);
    } else {
      d := CutLate(s, tail);
    }
  }

  lemma CutEarly(s: Status, i: nat, tail: string)
    requires Writable(s) && i < 13 && tail <= Row(PairsOf(s)[i])
    ensures SnapshotOf(CutMap(PairsOf(s), i, tail)) == SnapshotOf(CutTime(AsRead(s), Print(s.now, 10)[..0]))
  {
    var p := PairsOf(s)[i];
    PairsCarried(s);
    PrefixCarried(PairsOf(s), i);
    assert PairsOf(AsRead(s))[i].key == p.key;
    NoTimeYet(AsRead(s), i, if |tail| <= |p.key| then "" else p.value[..|tail| - |p.key| - 1]);
    CutTimeReads(AsRead(s), 0);
  }

  lemma CutLate(s: Status, tail: string) returns (d: nat)
    requires Writable(s) && tail <= Row(PairsOf(s)[13])
    ensures d <= |Print(s.now, 10)|
    ensures SnapshotOf(CutMap(PairsOf(s), 13, tail)) == SnapshotOf(CutTime(AsRead(s), Print(s.now, 10)[..d]))
  {
    TimeIsLast(s);
    TimeIsLast(AsRead(s));
    PairsCarried(s);
    PrefixCarried(PairsOf(s), 13);
    if |tail| <= |TIME| {
      d := 0;
      CutTimeReads(AsRead(s), 0);
    } else {
      d := |tail| - |TIME| - 1;
    }
  }

  /** Nothing, stale, or everything: what a reader may take a file for at some moment. */
  predicate Harmless(s: Status, r: Option<Snapshot>, at: nat) {
    r.None? || r == Some(Seen(AsRead(s))) || !IsFreshAt(r.value, at)
  }

  lemma CutTimeIsHarmless(s: Status, d: nat, at: nat)
    requires CountersFit(s) && d <= |Print(s.now, 10)|
    requires at >= s.now >= 16_667 || s.now < 10
    ensures Harmless(s, SnapshotOf(CutTime(AsRead(s), Print(s.now, 10)[..d])), at)
  {
    var full := Print(s.now, 10);
    CutTimeReads(AsRead(s), d);
    ValueOfPrint(s.now, 10);
    PrefixValue(full, d);
    if d == |full| {
      assert full[..d] == full;
    }
  }

  /** A torn file is never taken for a fresh status it is not, from 16,667 ms after the epoch on. */
  lemma TornFilesAreHarmless(s: Status, cut: string, at: nat)
    requires Writable(s) && cut < TextOf(PairsOf(s)) && at >= s.now
    requires s.now < 10 || s.now >= 16_667
    ensures Harmless(s, Read(cut), at)
  {
    var d := CutSnapshot(s, cut);
    CutTimeIsHarmless(s, d, at);
  }

  lemma CutInTime(s: Status, d: nat) returns (cut: string)
    requires Writable(s) && d <= |Print(s.now, 10)|
    ensures cut < TextOf(PairsOf(s)) && Read(cut) == SnapshotOf(CutTime(AsRead(s), Print(s.now, 10)[..d]))
  {
    TimeIsLast(s);
    PairsAreClean(s);
    PairsCarried(s);
    PrefixCarried(PairsOf(s), 13);
    cut := CutLastValue(PairsOf(s), d);
  }

  /** Before that the time cut by one digit is fresh and wrong, unless it has only one. */
  lemma EarlyTornFileMisleads(s: Status) returns (cut: string)
    requires Writable(s) && 10 <= s.now < 16_667
    ensures cut < TextOf(PairsOf(s)) && !Harmless(s, Read(cut), s.now)
  {
    var d := AllButOneDigit(s.now);
    cut := CutInTime(s, d);
    CutTimeReads(AsRead(s), d);
  }

  lemma AllButOneDigit(n: nat) returns (d: nat)
    requires n >= 10
    ensures 1 <= d < |Print(n, 10)|
    ensures AllDigits(Print(n, 10)[..d], 10) && Value(Print(n, 10)[..d], 10) == n / 10
  {
    d := |Print(n, 10)| - 1;
    PrintSnoc(n, 10);
    ValueOfPrint(n, 10);
    PrefixValue(Print(n, 10), d);
  }

  /** Exactly when torn files can be trusted not to mislead. */
  lemma TornFilesHarmlessIff(s: Status)
    requires Writable(s)
    ensures (forall cut, at :: cut < TextOf(PairsOf(s)) && at >= s.now ==> Harmless(s, Read(cut), at))
       <==> s.now < 10 || s.now >= 16_667
  {
    if 10 <= s.now < 16_667 {
      var cut := EarlyTornFileMisleads(s);
    } else {
      forall cut, at | cut < TextOf(PairsOf(s)) && at >= s.now
        ensures Harmless(s, Read(cut), at)
      {
        TornFilesAreHarmless(s, cut, at);
      }
    }
  }
}
