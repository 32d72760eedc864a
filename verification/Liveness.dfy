/**
 The runner's liveness timer: how long the lines it writes can be apart,
 whatever the progress. Times are in milliseconds.
 */
module Liveness {

  /** What the event loop runs: the interval's callback, or a progress report. */
  datatype Event = Tick(at: nat) | Report(at: nat)

  /** lastTick and lines are history: the last callback, and when lines were written, the start counting as both. */
  datatype View = View(sawActivity: bool, lastTick: nat, lines: seq<nat>) {

    function OnTick(at: nat): View {
      View(false, at, if sawActivity then lines else lines + [at])
    }

    function OnReport(at: nat): View {
      View(true, lastTick, lines + [at])
    }

    function On(e: Event): View {
      match e
      case Tick(at) => OnTick(at)
      case Report(at) => OnReport(at)
    }
  }

  const START: View := View(true, 0, [0])

  class Timer {
    var sawActivity: bool
    ghost var lastTick: nat
    ghost var lines: seq<nat>

    ghost function State(): View
      reads this
    {
      View(sawActivity, lastTick, lines)
    }

    constructor ()
      ensures State() == START
    {
      sawActivity := true;
      lastTick := 0;
      lines := [0];
    }

    /** The interval's callback: says whether it writes a heartbeat line. */
    method Tick(at: nat) returns (wrote: bool)
      modifies this
      ensures wrote == !old(sawActivity)
      ensures State() == old(State()).OnTick(at)
    {
      wrote := !sawActivity;
      if wrote {
        lines := lines + [at];
      }
      sawActivity := false;
      lastTick := at;
    }

    /** A progress report always writes its line. */
    method Report(at: nat)
      modifies this
      ensures State() == old(State()).OnReport(at)
    {
      sawActivity := true;
      lines := lines + [at];
    }
  }

  function Replay(events: seq<Event>): View {
    if events == [] then START else Replay(events[..|events| - 1]).On(events[|events| - 1])
  }

  /**
   The interval is re-armed when its callback runs, so a late callback delays
   every later one: each runs at least one interval after the one before, and at
   most the longest block of the event loop later than that.
   */
  predicate OnTime(lastTick: nat, at: nat, interval: nat, block: nat) {
    lastTick + interval <= at <= lastTick + interval + block
  }

  /** Nothing happens after the time by which the next callback must have run. */
  predicate NotOverdue(lastTick: nat, at: nat, interval: nat, block: nat) {
    at <= lastTick + interval + block
  }

  /** Events in order, with callbacks on time and none skipped. */
  predicate Timely(events: seq<Event>, interval: nat, block: nat) {
    events == []
    || (var n := |events| - 1;
        var lastTick := Replay(events[..n]).lastTick;
        && Timely(events[..n], interval, block)
        && lastTick <= events[n].at && (n > 0 ==> events[n - 1].at <= events[n].at)
        && NotOverdue(lastTick, events[n].at, interval, block)
        && (events[n].Tick? ==> OnTime(lastTick, events[n].at, interval, block)))
  }

  predicate GapsWithin(lines: seq<nat>, gap: nat) {
    forall i :: 0 < i < |lines| ==> lines[i] <= lines[i - 1] + gap
  }

  function Last(lines: seq<nat>): nat
    requires lines != []
  {
    lines[|lines| - 1]
  }

  /** The last line came after the last callback if there has been activity since, after the one before it if not. */
  predicate Recent(v: View, interval: nat, block: nat) {
    && v.lines != []
    && (v.sawActivity ==> Last(v.lines) >= v.lastTick)
    && (!v.sawActivity ==> Last(v.lines) + interval + block >= v.lastTick)
  }

  lemma {:induction false} LinesStayClose(events: seq<Event>, interval: nat, block: nat)
    requires Timely(events, interval, block)
    ensures Recent(Replay(events), interval, block) && GapsWithin(Replay(events).lines, 2 * interval + 2 * block)
  {
    if events != [] {
      LinesStayClose(events[..|events| - 1], interval, block);
    }
  }

  /**
   In every timely run consecutive lines are at most two intervals and two
   blocks apart, and so is the end of the run from the last of them.
   */
  lemma SilenceIsBounded(events: seq<Event>, interval: nat, block: nat, end: nat)
    requires Timely(events, interval, block)
    requires NotOverdue(Replay(events).lastTick, end, interval, block)
    ensures GapsWithin(Replay(events).lines + [end], 2 * interval + 2 * block)
  {
    LinesStayClose(events, interval, block);
  }

  /** A report at the start, and two callbacks each as late as it can be. */
  function SlowestRun(interval: nat, block: nat): seq<Event> {
    [Report(0), Tick(interval + block), Tick(2 * interval + 2 * block)]
  }

  lemma SlowestRunIsTimely(interval: nat, block: nat)
    ensures Timely(SlowestRun(interval, block), interval, block)
    ensures Replay(SlowestRun(interval, block)).lines == [0, 0, 2 * interval + 2 * block]
  {
    var a, b, c := Report(0), Tick(interval + block), Tick(2 * interval + 2 * block);
    OneMore([], a, interval, block);
    OneMore([] + [a], b, interval, block);
    OneMore([] + [a] + [b], c, interval, block);
    assert SlowestRun(interval, block) == [] + [a] + [b] + [c];
  }

  lemma OneMore(events: seq<Event>, e: Event, interval: nat, block: nat)
    requires Timely(events, interval, block)
    requires Replay(events).lastTick <= e.at && (events != [] ==> events[|events| - 1].at <= e.at)
    requires NotOverdue(Replay(events).lastTick, e.at, interval, block)
    requires e.Tick? ==> OnTime(Replay(events).lastTick, e.at, interval, block)
    ensures Timely(events + [e], interval, block) && Replay(events + [e]) == Replay(events).On(e)
  {
    assert (events + [e])[..|events|] == events;
  }

  /** No smaller bound holds of every run: a late callback and the next late one add up. */
  lemma SilenceBoundIsExact(interval: nat, block: nat, gap: nat)
    ensures (forall events :: Timely(events, interval, block) ==> GapsWithin(Replay(events).lines, gap))
       <==> 2 * interval + 2 * block <= gap
  {
    SlowestRunIsTimely(interval, block);
    var slow := Replay(SlowestRun(interval, block)).lines;
    assert slow[2] == 2 * interval + 2 * block && slow[1] == 0;
    if 2 * interval + 2 * block <= gap {
      forall events | Timely(events, interval, block)
        ensures GapsWithin(Replay(events).lines, gap)
      {
        LinesStayClose(events, interval, block);
      }
    } else {
      assert !GapsWithin(slow, gap);
    }
  }

  const INTERVAL: nat := 30_000

  const SILENCE_TIMEOUT: nat := 120_000

  /** A run whose lines never leave the supervisor waiting for its timeout. */
  predicate NeverSilent(events: seq<Event>) {
    GapsWithin(Replay(events).lines, SILENCE_TIMEOUT - 1)
  }

  /** At the production interval, no timely run is silent for 120 s exactly when no block reaches 30 s. */
  lemma NeverSilentIff(block: nat)
    ensures (forall events :: Timely(events, INTERVAL, block) ==> NeverSilent(events)) <==> block < 30_000
  {
    SilenceBoundIsExact(INTERVAL, block, SILENCE_TIMEOUT - 1);
  }
}
