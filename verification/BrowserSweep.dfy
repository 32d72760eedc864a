/**
 The record of browser pids that a job's wrapper writes, and the sweep that
 signals the browsers still alive, telling them from recycled pids by their
 start times as far as those were recorded.
 */
module BrowserSweep {
  import opened Prelude
  import opened Numerals
  import opened WhiteSpace
  import opened WorkDirNames

  // ---------------------------------------------------------------------
  // Lines of the record

  datatype PidLine = PidLine(pid: nat, identity: Option<string>)

  /** A pid, and the start time that came with it if any did. */
  function ParsePidLine(line: string): Option<PidLine> {
    var ws := Words(line);
    if ws == [] || ParseUnsigned(ws[0], U32_MAX).None? then None
    else
      var identity := Join(ws[1..]);
      Some(PidLine(ParseUnsigned(ws[0], U32_MAX).value, if identity == "" then None else Some(identity)))
  }

  /** What the wrapper writes for a pid: the pid and what the process listing printed, blank if it failed. */
  function WrapperLine(pid: nat, listed: string): string {
    Print(pid, 10) + " " + listed
  }

  /** The wrapper's line is read back as its pid and its normalized start time, whatever the padding. */
  lemma WrapperLineParses(pid: nat, listed: string)
    requires pid <= U32_MAX
    ensures ParsePidLine(WrapperLine(pid, listed))
         == Some(PidLine(pid, if Words(listed) == [] then None else Some(Normalized(listed))))
  {
    var digits := Print(pid, 10);
    assert IsWord(digits);
    WordsCons(digits, " " + listed);
    assert WrapperLine(pid, listed) == digits + (" " + listed) && (" " + listed)[1..] == listed;
    ParseInvertsPrint(pid, U32_MAX);
    var ws := Words(listed);
    assert ([digits] + ws)[1..] == ws;
    if ws != [] {
      assert ws[0] in ws && IsWord(ws[0]);
    }
  }

  // ---------------------------------------------------------------------
  // The sweep

  /** The normalized start time of each live process that can be listed, and the live pids that can be signalled. */
  datatype Processes = Processes(startTimes: map<nat, string>, existing: set<nat>)

  predicate SafeTarget(pid: nat, me: nat) {
    pid != 0 && pid != me
  }

  /** The live process with that pid is the one the line was written for, as far as the line can tell. */
  predicate Verified(line: PidLine, ps: Processes) {
    match line.identity
    case Some(recorded) => line.pid in ps.startTimes && ps.startTimes[line.pid] == recorded
    case None => line.pid in ps.existing
  }

  predicate Signalled(line: string, me: nat, ps: Processes) {
    var p := ParsePidLine(line);
    p.Some? && SafeTarget(p.value.pid, me) && Verified(p.value, ps)
  }

  /** The pids of the lines to signal, in order. */
  function Targets(lines: seq<string>, me: nat, ps: Processes): (pids: seq<nat>)
    ensures |pids| <= |lines|
    ensures forall pid :: pid in pids ==> SafeTarget(pid, me)
  {
    if lines == [] then []
    else
      var n := |lines| - 1;
      Targets(lines[..n], me, ps)
      + (if Signalled(lines[n], me, ps) then [ParsePidLine(lines[n]).value.pid] else [])
  }

  method KillRecordedBrowsers(pidfile: Option<seq<string>>, me: nat, ps: Processes) returns (killed: seq<nat>)
    ensures killed == if pidfile.None? then [] else Targets(pidfile.value, me, ps)
  {
    killed := [];
    if pidfile.None? {
      return;
    }
    var lines := pidfile.value;
    var i := 0;
    while i < |lines|
      invariant i <= |lines| && killed == Targets(lines[..i], me, ps)
    {
      assert lines[..i + 1][..i] == lines[..i] && lines[..i + 1][i] == lines[i];
      var line := ParsePidLine(lines[i]);
      i := i + 1;
      if line.None? || line.value.pid == 0 || line.value.pid == me {
        continue;
      }
      match line.value.identity {
        case Some(recorded) =>
          if line.value.pid !in ps.startTimes || ps.startTimes[line.value.pid] != recorded {
            continue;
          }
        case None =>
          if line.value.pid !in ps.existing {
            continue;
          }
      }
      killed := killed + [line.value.pid];
    }
    assert lines[..i] == lines;
  }

  /** The lines a wrapper wrote, one for each browser it started. */
  function Recorded(started: seq<(nat, string)>): (lines: seq<string>)
    ensures |lines| == |started|
    ensures forall i :: 0 <= i < |lines| ==> lines[i] == WrapperLine(started[i].0, started[i].1)
  {
    seq(|started|, i requires 0 <= i < |started| => WrapperLine(started[i].0, started[i].1))
  }

  /** A recorded browser may be the live process of its pid: it started then, or no start time was recorded. */
  predicate MayBe(started: (nat, string), ps: Processes) {
    if Words(started.1) == [] then started.0 in ps.existing
    else started.0 in ps.startTimes && ps.startTimes[started.0] == Normalized(started.1)
  }

  /**
   The sweep signals a pid exactly when some browser was recorded under it that
   started when the process that has it now started, to the second that a
   listing shows, or that has no recorded start time while the pid is in use.
   */
  lemma PidsSignalledExactlyWhen(started: seq<(nat, string)>, me: nat, ps: Processes, pid: nat)
    requires forall i :: 0 <= i < |started| ==> started[i].0 <= U32_MAX
    ensures pid in Targets(Recorded(started), me, ps) <==>
      SafeTarget(pid, me) && exists i :: 0 <= i < |started| && started[i].0 == pid && MayBe(started[i], ps)
  {
    TargetsAreSignalled(Recorded(started), me, ps, pid);
    forall i | 0 <= i < |started|
      ensures SignalledAs(Recorded(started)[i], me, ps, pid)
         <==> SafeTarget(pid, me) && started[i].0 == pid && MayBe(started[i], ps)
    {
      WrapperLineParses(started[i].0, started[i].1);
    }
  }

  /**
   What any line at all makes the sweep signal: the number its first word
   spells, if the words after it are the start time of the process that has it,
   or if there are none and the process exists. Any other line is passed over.
   */
  lemma LinesSignal(lines: seq<string>, me: nat, ps: Processes, pid: nat)
    ensures pid in Targets(lines, me, ps) <==>
      pid != 0 && pid != me && exists i :: 0 <= i < |lines| && Names(Words(lines[i]), pid, ps)
  {
    TargetsAreSignalled(lines, me, ps, pid);
    forall i | 0 <= i < |lines|
      ensures SignalledAs(lines[i], me, ps, pid) <==> pid != 0 && pid != me && Names(Words(lines[i]), pid, ps)
    {
      OneLineSignals(lines[i], me, ps, pid);
    }
  }

  predicate Names(words: seq<string>, pid: nat, ps: Processes) {
    && words != [] && ParseUnsigned(words[0], U32_MAX) == Some(pid)
    && if |words| == 1 then pid in ps.existing
       else pid in ps.startTimes && ps.startTimes[pid] == Join(words[1..])
  }

  lemma OneLineSignals(line: string, me: nat, ps: Processes, pid: nat)
    ensures SignalledAs(line, me, ps, pid) <==> pid != 0 && pid != me && Names(Words(line), pid, ps)
  {
    var words := Words(line);
    if |words| > 1 {
      assert words[1] in words && words[1..][0] == words[1];
    }
  }

  predicate SignalledAs(line: string, me: nat, ps: Processes, pid: nat) {
    Signalled(line, me, ps) && ParsePidLine(line).value.pid == pid
  }

  lemma TargetsStep(lines: seq<string>, me: nat, ps: Processes, pid: nat)
    requires lines != []
    ensures pid in Targets(lines, me, ps) <==>
      pid in Targets(lines[..|lines| - 1], me, ps) || SignalledAs(lines[|lines| - 1], me, ps, pid)
  {
    var n := |lines| - 1;
    var last := if Signalled(lines[n], me, ps) then [ParsePidLine(lines[n]).value.pid] else [];
    assert Targets(lines, me, ps) == Targets(lines[..n], me, ps) + last;
  }

  lemma {:induction false} TargetsAreSignalled(lines: seq<string>, me: nat, ps: Processes, pid: nat)
    ensures pid in Targets(lines, me, ps) <==>
      exists i :: 0 <= i < |lines| && SignalledAs(lines[i], me, ps, pid)
  {
    if lines != [] {
      var n := |lines| - 1;
      TargetsStep(lines, me, ps, pid);
      TargetsAreSignalled(lines[..n], me, ps, pid);
      assert forall i :: 0 <= i < n ==> lines[..n][i] == lines[i];
    }
  }
}
