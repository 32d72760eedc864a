/** The size-capped LRU sweep over the node's content-addressed caches. */
module CacheSweep {
  import opened Prelude

  datatype Kind = Payloads | Browsers | Bundles

  datatype CacheKey = CacheKey(kind: Kind, sha: string)

  /** What one `read_dir` entry of a cache root shows. */
  datatype DirEntry = DirEntry(name: string, isDir: bool, hasMarker: bool, bytes: nat, lastUse: nat)

  datatype Entry = Entry(key: CacheKey, bytes: nat, lastUse: nat)

  datatype SweepOutcome = SweepOutcome(entries: nat, bytesBefore: nat, bytesAfter: nat, evicted: nat)

  predicate Hidden(name: string) {
    name != [] && name[0] == '.'
  }

  /** A completed entry: not a download in progress, and carrying its completion marker. */
  predicate Complete(d: DirEntry) {
    !Hidden(d.name) && d.isDir && d.hasMarker
  }

  function EntriesOf(kind: Kind, ds: seq<DirEntry>): seq<Entry> {
    if ds == [] then []
    else
      var rest := EntriesOf(kind, ds[..|ds| - 1]);
      var d := ds[|ds| - 1];
      if Complete(d) then rest + [Entry(CacheKey(kind, d.name), d.bytes, d.lastUse)] else rest
  }

  /** The listings of the three roots, in the order they are walked. */
  datatype Listing = Listing(payloads: seq<DirEntry>, browsers: seq<DirEntry>, bundles: seq<DirEntry>)

  function AllEntries(l: Listing): seq<Entry> {
    EntriesOf(Payloads, l.payloads) + EntriesOf(Browsers, l.browsers) + EntriesOf(Bundles, l.bundles)
  }

  /** What the walk shows of a kind's root. */
  function RootOf(l: Listing, kind: Kind): seq<DirEntry> {
    match kind
    case Payloads => l.payloads
    case Browsers => l.browsers
    case Bundles => l.bundles
  }

  /** A directory whose name does not begin with a dot, with its marker in it. */
  predicate Evictable(d: DirEntry) {
    d.isDir && d.hasMarker && (d.name == "" || d.name[0] != '.')
  }

  /** at lists, in order, exactly the places of the evictable directories. */
  ghost predicate ListsEvictable(at: seq<nat>, ds: seq<DirEntry>) {
    && (forall j :: 0 <= j < |at| ==> at[j] < |ds| && Evictable(ds[at[j]]))
    && (forall j, k :: 0 <= j < k < |at| ==> at[j] < at[k])
    && (forall i :: 0 <= i < |ds| && Evictable(ds[i]) ==> i in at)
  }

  /** A root's entries are its evictable directories, each once, in the order they are walked. */
  lemma {:induction false} EveryEvictableIsListed(kind: Kind, ds: seq<DirEntry>) returns (at: seq<nat>)
    ensures ListsEvictable(at, ds) && |EntriesOf(kind, ds)| == |at|
    ensures forall j :: 0 <= j < |at| ==>
      EntriesOf(kind, ds)[j] == Entry(CacheKey(kind, ds[at[j]].name), ds[at[j]].bytes, ds[at[j]].lastUse)
  {
    at := [];
    if ds != [] {
      var n := |ds| - 1;
      at := EveryEvictableIsListed(kind, ds[..n]);
      assert forall i :: 0 <= i < n ==> ds[..n][i] == ds[i];
      if Evictable(ds[n]) {
        at := at + [n];
      }
    }
  }

  /** The entry is that of an evictable directory of a kind's root. */
  ghost predicate StandsIn(kind: Kind, ds: seq<DirEntry>, e: Entry) {
    exists i :: 0 <= i < |ds| && Evictable(ds[i]) && e == Entry(CacheKey(kind, ds[i].name), ds[i].bytes, ds[i].lastUse)
  }

  lemma ListedInRoot(kind: Kind, ds: seq<DirEntry>, e: Entry)
    ensures e in EntriesOf(kind, ds) <==> StandsIn(kind, ds, e)
  {
    var at := EveryEvictableIsListed(kind, ds);
    var es := EntriesOf(kind, ds);
    if e in es {
      var j :| 0 <= j < |es| && es[j] == e;
      assert Evictable(ds[at[j]]);
    }
    if i: nat :| i < |ds| && Evictable(ds[i]) && e == Entry(CacheKey(kind, ds[i].name), ds[i].bytes, ds[i].lastUse) {
      var j :| 0 <= j < |at| && at[j] == i;
      assert es[j] == e;
    }
  }

  /** The sweep considers exactly the evictable directories of the three roots. */
  lemma ListedIff(l: Listing, e: Entry)
    ensures e in AllEntries(l) <==> StandsIn(e.key.kind, RootOf(l, e.key.kind), e)
  {
    ListedInRoot(Payloads, l.payloads, e);
    ListedInRoot(Browsers, l.browsers, e);
    ListedInRoot(Bundles, l.bundles, e);
  }

  function Bytes(es: seq<Entry>): nat {
    if es == [] then 0 else Bytes(es[..|es| - 1]) + es[|es| - 1].bytes
  }

  // ---------------------------------------------------------------------
  // Stable sort by last use

  predicate SortedByUse(es: seq<Entry>) {
    forall i, k :: 0 <= i < k < |es| ==> es[i].lastUse <= es[k].lastUse
  }

  /** Insert after every entry used no later: equal stamps keep their order. */
  function Insert(es: seq<Entry>, e: Entry): (r: seq<Entry>)
    requires SortedByUse(es)
    ensures SortedByUse(r) && |r| == |es| + 1
    ensures forall i :: 0 <= i < |r| ==> r[i] in es || r[i] == e
  {
    if es == [] || es[|es| - 1].lastUse <= e.lastUse then
      es + [e]
    else
      Insert(es[..|es| - 1], e) + [es[|es| - 1]]
  }

  function SortByLastUse(es: seq<Entry>): (r: seq<Entry>)
    ensures SortedByUse(r) && |r| == |es|
  {
    if es == [] then [] else Insert(SortByLastUse(es[..|es| - 1]), es[|es| - 1])
  }

  lemma {:induction false} InsertKeepsEntries(es: seq<Entry>, e: Entry)
    requires SortedByUse(es)
    ensures multiset(Insert(es, e)) == multiset(es) + multiset{e}
  {
    if es != [] && es[|es| - 1].lastUse > e.lastUse {
      InsertKeepsEntries(es[..|es| - 1], e);
      assert es == es[..|es| - 1] + [es[|es| - 1]];
    }
  }

  lemma {:induction false} SortKeepsEntries(es: seq<Entry>)
    ensures multiset(SortByLastUse(es)) == multiset(es)
  {
    if es != [] {
      SortKeepsEntries(es[..|es| - 1]);
      InsertKeepsEntries(SortByLastUse(es[..|es| - 1]), es[|es| - 1]);
      assert es == es[..|es| - 1] + [es[|es| - 1]];
    }
  }

  /** The entries last used at one moment. */
  function UsedAt(es: seq<Entry>, t: nat): seq<Entry> {
    if es == [] then []
    else UsedAt(es[..|es| - 1], t) + (if es[|es| - 1].lastUse == t then [es[|es| - 1]] else [])
  }

  lemma UsedAtSnoc(es: seq<Entry>, e: Entry, t: nat)
    ensures UsedAt(es + [e], t) == UsedAt(es, t) + (if e.lastUse == t then [e] else [])
  {
    assert (es + [e])[..|es|] == es;
  }

  lemma OneOfTwo(before: seq<Entry>, x: Entry, y: Entry, t: nat)
    requires x.lastUse != y.lastUse
    ensures before + (if x.lastUse == t then [x] else []) + (if y.lastUse == t then [y] else [])
         == before + (if y.lastUse == t then [y] else []) + (if x.lastUse == t then [x] else [])
  {
  }

  lemma {:induction false} InsertIsStable(es: seq<Entry>, e: Entry, t: nat)
    requires SortedByUse(es)
    ensures UsedAt(Insert(es, e), t) == UsedAt(es, t) + (if e.lastUse == t then [e] else [])
  {
    if es == [] || es[|es| - 1].lastUse <= e.lastUse {
      UsedAtSnoc(es, e, t);
    } else {
      var n := |es| - 1;
      InsertIsStable(es[..n], e, t);
      UsedAtSnoc(Insert(es[..n], e), es[n], t);
      OneOfTwo(UsedAt(es[..n], t), e, es[n], t);
    }
  }

  /** Entries used at the same moment keep the order they were walked in. */
  lemma {:induction false} SortIsStable(es: seq<Entry>, t: nat)
    ensures UsedAt(SortByLastUse(es), t) == UsedAt(es, t)
  {
    if es != [] {
      SortIsStable(es[..|es| - 1], t);
      InsertIsStable(SortByLastUse(es[..|es| - 1]), es[|es| - 1], t);
    }
  }

  lemma BytesAppend(a: seq<Entry>, b: seq<Entry>)
    ensures Bytes(a + b) == Bytes(a) + Bytes(b)
  {
    if b == [] {
      assert a + b == a;
    } else {
      var n := |b| - 1;
      assert (a + b)[..|a| + n] == a + b[..n];
      BytesAppend(a, b[..n]);
    }
  }

  lemma {:induction false} InsertBytes(es: seq<Entry>, e: Entry)
    requires SortedByUse(es)
    ensures Bytes(Insert(es, e)) == Bytes(es) + e.bytes
  {
    if es == [] || es[|es| - 1].lastUse <= e.lastUse {
      BytesAppend(es, [e]);
    } else {
      var n := |es| - 1;
      InsertBytes(es[..n], e);
      BytesAppend(Insert(es[..n], e), [es[n]]);
    }
  }

  lemma {:induction false} SortKeepsBytes(es: seq<Entry>)
    ensures Bytes(SortByLastUse(es)) == Bytes(es)
  {
    if es != [] {
      SortKeepsBytes(es[..|es| - 1]);
      InsertBytes(SortByLastUse(es[..|es| - 1]), es[|es| - 1]);
    }
  }

  // ---------------------------------------------------------------------
  // The sweep

  /** The entries of a sequence that the sweep may take and that the disk lets go of. */
  function Takeable(es: seq<Entry>, inUse: set<CacheKey>, stuck: set<CacheKey>): seq<Entry> {
    if es == [] then []
    else
      var rest, e := Takeable(es[..|es| - 1], inUse, stuck), es[|es| - 1];
      if e.key !in inUse && e.key !in stuck then rest + [e] else rest
  }

  lemma TakeableSnoc(es: seq<Entry>, k: nat, inUse: set<CacheKey>, stuck: set<CacheKey>)
    requires k < |es|
    ensures var before, now := Takeable(es[..k], inUse, stuck), Takeable(es[..k + 1], inUse, stuck);
            if es[k].key !in inUse && es[k].key !in stuck
            then now == before + [es[k]] && Bytes(now) == Bytes(before) + es[k].bytes
            else now == before
  {
    assert es[..k + 1][..k] == es[..k];
    BytesAppend(Takeable(es[..k], inUse, stuck), [es[k]]);
  }

  lemma TakeableWithinBytes(es: seq<Entry>, inUse: set<CacheKey>, stuck: set<CacheKey>)
    ensures Bytes(Takeable(es, inUse, stuck)) <= Bytes(es)
  {
    if es != [] {
      var n := |es| - 1;
      TakeableWithinBytes(es[..n], inUse, stuck);
      BytesAppend(Takeable(es[..n], inUse, stuck), [es[n]]);
    }
  }

  lemma BytesPrefix(es: seq<Entry>, k: nat)
    requires k <= |es|
    ensures Bytes(es[..k]) <= Bytes(es)
  {
    assert es == es[..k] + es[k..];
    BytesAppend(es[..k], es[k..]);
  }

  /** The cap is still exceeded after everything takeable before index i is gone. */
  ghost predicate StillOver(es: seq<Entry>, cap: nat, inUse: set<CacheKey>, stuck: set<CacheKey>, i: nat)
    requires i <= |es|
  {
    Bytes(es) - Bytes(Takeable(es[..i], inUse, stuck)) > cap
  }

  /** Where the scan stops: the first index at which the cap is met, or the end. */
  ghost predicate StopsAt(es: seq<Entry>, cap: nat, inUse: set<CacheKey>, stuck: set<CacheKey>, k: nat) {
    && k <= |es|
    && (k < |es| ==> !StillOver(es, cap, inUse, stuck, k))
    && forall i: nat :: i < k ==> StillOver(es, cap, inUse, stuck, i)
  }

  /** The eviction scan over entries in LRU order. Removing a key in `stuck` fails; the scan goes on past it. */
  method Evict(es: seq<Entry>, total: nat, cap: nat, inUse: set<CacheKey>, stuck: set<CacheKey>)
    returns (running: nat, evicted: seq<Entry>, evictAt: nat)
    requires total == Bytes(es)
    ensures StopsAt(es, cap, inUse, stuck, evictAt) && evicted == Takeable(es[..evictAt], inUse, stuck)
    ensures running + Bytes(evicted) == total
  {
    running, evicted, evictAt := total, [], 0;
    while running > cap && evictAt < |es|
      invariant evictAt <= |es|
      invariant evicted == Takeable(es[..evictAt], inUse, stuck)
      invariant running + Bytes(evicted) == total
      invariant forall i: nat :: i < evictAt ==> StillOver(es, cap, inUse, stuck, i)
    {
      var candidate := es[evictAt];
      TakeableSnoc(es, evictAt, inUse, stuck);
      if candidate.key !in inUse && candidate.key !in stuck {
        NeverSaturates(es, evictAt, inUse, stuck);
        running := SatSub(running, candidate.bytes);
        evicted := evicted + [candidate];
      }
      evictAt := evictAt + 1;
    }
  }

  /** Sweep the caches down to `cap` bytes, never touching a key in `inUse`. */
  method SweepCaches(l: Listing, cap: nat, inUse: set<CacheKey>, stuck: set<CacheKey>)
    returns (out: SweepOutcome, evicted: seq<Entry>)
    ensures var es := SortByLastUse(AllEntries(l));
            && out.entries == |es| && out.bytesBefore == Bytes(es) && out.evicted == |evicted|
            && out.bytesAfter + Bytes(evicted) == Bytes(es)
            && exists k: nat :: StopsAt(es, cap, inUse, stuck, k) && evicted == Takeable(es[..k], inUse, stuck)
  {
    var payloads := Collect(Payloads, l.payloads);
    var browsers := Collect(Browsers, l.browsers);
    var bundles := Collect(Bundles, l.bundles);
    var entries := payloads + browsers + bundles;
    var bytesBefore := TotalBytes(entries);
    SortKeepsBytes(entries);
    entries := SortByLastUse(entries);
    var running, evictAt;
    running, evicted, evictAt := Evict(entries, bytesBefore, cap, inUse, stuck);
    out := SweepOutcome(|entries|, bytesBefore, running, |evicted|);
  }

  /** The running total always still contains the candidate's bytes, so the subtraction is exact. */
  lemma NeverSaturates(es: seq<Entry>, k: nat, inUse: set<CacheKey>, stuck: set<CacheKey>)
    requires k < |es|
    ensures Bytes(Takeable(es[..k], inUse, stuck)) + es[k].bytes <= Bytes(es)
  {
    TakeableWithinBytes(es[..k], inUse, stuck);
    assert es[..k + 1] == es[..k] + [es[k]];
    BytesAppend(es[..k], [es[k]]);
    BytesPrefix(es, k + 1);
  }

  method Collect(kind: Kind, ds: seq<DirEntry>) returns (es: seq<Entry>)
    ensures es == EntriesOf(kind, ds)
  {
    es := [];
    for i := 0 to |ds|
      invariant es == EntriesOf(kind, ds[..i])
    {
      assert ds[..i + 1][..i] == ds[..i];
      if Hidden(ds[i].name) || !ds[i].isDir || !ds[i].hasMarker {
        continue;
      }
      es := es + [Entry(CacheKey(kind, ds[i].name), ds[i].bytes, ds[i].lastUse)];
    }
    assert ds[..|ds|] == ds;
  }

  method TotalBytes(es: seq<Entry>) returns (n: nat)
    ensures n == Bytes(es)
  {
    n := 0;
    for i := 0 to |es|
      invariant n == Bytes(es[..i])
    {
      assert es[..i + 1][..i] == es[..i];
      n := n + es[i].bytes;
    }
    assert es[..|es|] == es;
  }

  // ---------------------------------------------------------------------
  // What the sweep means

  lemma {:induction false} TakeableFacts(es: seq<Entry>, inUse: set<CacheKey>, stuck: set<CacheKey>)
    ensures forall e :: e in Takeable(es, inUse, stuck) ==> e in es && e.key !in inUse && e.key !in stuck
    ensures forall e :: e in es && e.key !in inUse && e.key !in stuck ==> e in Takeable(es, inUse, stuck)
  {
    if es != [] {
      var n := |es| - 1;
      TakeableFacts(es[..n], inUse, stuck);
      assert es == es[..n] + [es[n]];
    }
  }

  lemma {:induction false} TakeablePrefix(es: seq<Entry>, k: nat, inUse: set<CacheKey>, stuck: set<CacheKey>)
    requires k <= |es|
    ensures Takeable(es[..k], inUse, stuck) <= Takeable(es, inUse, stuck)
  {
    if k < |es| {
      TakeablePrefix(es[..|es| - 1], k, inUse, stuck);
      assert es[..|es| - 1][..k] == es[..k];
    } else {
      assert es[..k] == es;
    }
  }

  /** Every shorter prefix of the takeable entries is what the scan had taken at some earlier index. */
  lemma {:induction false} PrefixComesFromIndex(
    es: seq<Entry>, k: nat, m: nat, inUse: set<CacheKey>, stuck: set<CacheKey>)
    returns (i: nat)
    requires k <= |es| && m < |Takeable(es[..k], inUse, stuck)|
    ensures i < k && Takeable(es[..i], inUse, stuck) == Takeable(es[..k], inUse, stuck)[..m]
  {
    var n := k - 1;
    assert es[..k][..n] == es[..n];
    if m < |Takeable(es[..n], inUse, stuck)| {
      i := PrefixComesFromIndex(es, n, m, inUse, stuck);
    } else {
      i := n;
    }
  }

  /** a is the shortest prefix of `all` whose removal meets the cap, or all of it. */
  ghost predicate ShortestPrefix(total: nat, cap: nat, all: seq<Entry>, a: seq<Entry>) {
    && a <= all
    && (total - Bytes(a) <= cap || a == all)
    && forall m :: 0 <= m < |a| ==> total - Bytes(a[..m]) > cap
  }

  /**
   The sweep is exact: it evicts a prefix, oldest first, of the entries it may
   remove, and that prefix is the shortest that meets the cap, or all of them
   when none does. Protected entries survive, downloads in progress and
   unmarked directories are not even entries, and the reported total is that
   of the survivors.
   */
  lemma SweepIsShortestOldestPrefix(
    es: seq<Entry>, cap: nat, inUse: set<CacheKey>, stuck: set<CacheKey>, k: nat, evicted: seq<Entry>)
    requires SortedByUse(es) && StopsAt(es, cap, inUse, stuck, k) && evicted == Takeable(es[..k], inUse, stuck)
    ensures ShortestPrefix(Bytes(es), cap, Takeable(es, inUse, stuck), evicted)
    ensures forall e :: e in evicted ==> e.key !in inUse
    ensures forall e, f :: e in evicted && f in es[k..] ==> e.lastUse <= f.lastUse
  {
    TakeablePrefix(es, k, inUse, stuck);
    TakeableFacts(es[..k], inUse, stuck);
    assert es[..|es|] == es;
    forall m | 0 <= m < |evicted| ensures Bytes(es) - Bytes(evicted[..m]) > cap {
      var i := PrefixComesFromIndex(es, k, m, inUse, stuck);
      assert StillOver(es, cap, inUse, stuck, i);
    }
    forall e, f | e in evicted && f in es[k..] ensures e.lastUse <= f.lastUse {
      var i :| 0 <= i < k && es[..k][i] == e;
      var n :| 0 <= n < |es| - k && es[k..][n] == f;
      assert es[i].lastUse <= es[k + n].lastUse;
    }
  }

  /** What is left on disk after the scan took its entries from the first k. */
  function Survivors(es: seq<Entry>, k: nat, inUse: set<CacheKey>, stuck: set<CacheKey>): seq<Entry>
    requires k <= |es|
  {
    Untaken(es[..k], inUse, stuck) + es[k..]
  }

  function Untaken(es: seq<Entry>, inUse: set<CacheKey>, stuck: set<CacheKey>): seq<Entry> {
    if es == [] then []
    else
      var rest, e := Untaken(es[..|es| - 1], inUse, stuck), es[|es| - 1];
      if e.key in inUse || e.key in stuck then rest + [e] else rest
  }

  /** The total reported after the sweep is the survivors' size, and every protected entry is among them. */
  lemma ReportedTotalIsSurvivors(es: seq<Entry>, k: nat, inUse: set<CacheKey>, stuck: set<CacheKey>)
    requires k <= |es|
    ensures Bytes(Takeable(es[..k], inUse, stuck)) + Bytes(Survivors(es, k, inUse, stuck)) == Bytes(es)
    ensures forall e :: e in es && e.key in inUse ==> e in Survivors(es, k, inUse, stuck)
  {
    UntakenFacts(es[..k], inUse, stuck);
    BytesAppend(Untaken(es[..k], inUse, stuck), es[k..]);
    BytesAppend(es[..k], es[k..]);
    assert es == es[..k] + es[k..];
  }

  lemma {:induction false} UntakenFacts(es: seq<Entry>, inUse: set<CacheKey>, stuck: set<CacheKey>)
    ensures Bytes(Takeable(es, inUse, stuck)) + Bytes(Untaken(es, inUse, stuck)) == Bytes(es)
    ensures forall e :: e in es && e.key in inUse ==> e in Untaken(es, inUse, stuck)
  {
    if es != [] {
      var n := |es| - 1;
      UntakenFacts(es[..n], inUse, stuck);
      BytesAppend(Takeable(es[..n], inUse, stuck), [es[n]]);
      BytesAppend(Untaken(es[..n], inUse, stuck), [es[n]]);
      assert es == es[..n] + [es[n]];
    }
  }

  /** Only one prefix fits that description: the outcome is determined by the listing and the cap. */
  lemma ShortestPrefixIsUnique(total: nat, cap: nat, all: seq<Entry>, a: seq<Entry>, b: seq<Entry>)
    requires ShortestPrefix(total, cap, all, a) && ShortestPrefix(total, cap, all, b)
    ensures a == b
  {
    if |a| < |b| {
      ShorterMissesCap(total, cap, all, a, b);
    } else if |b| < |a| {
      ShorterMissesCap(total, cap, all, b, a);
    }
  }

  lemma ShorterMissesCap(total: nat, cap: nat, all: seq<Entry>, a: seq<Entry>, b: seq<Entry>)
    requires a <= all && ShortestPrefix(total, cap, all, b) && |a| < |b|
    ensures total - Bytes(a) > cap && a != all
  {
    assert b[..|a|] == a;
  }

  /** Nothing in progress is ever swept: an entry comes from a visible directory that has its marker. */
  lemma {:induction false} OnlyCompleteEntries(kind: Kind, ds: seq<DirEntry>, e: Entry)
    requires e in EntriesOf(kind, ds)
    ensures exists d :: d in ds && Complete(d) && e == Entry(CacheKey(kind, d.name), d.bytes, d.lastUse)
  {
    var n := |ds| - 1;
    if Complete(ds[n]) && e == Entry(CacheKey(kind, ds[n].name), ds[n].bytes, ds[n].lastUse) {
      assert ds[n] in ds;
    } else {
      OnlyCompleteEntries(kind, ds[..n], e);
    }
  }
}
