/** Text of `key=value` lines: what a writer emits, and what a reader makes of it or of any cut of it. */
module KeyValueText {
  import opened Prelude
  import opened Numerals

  datatype Pair = Pair(key: string, value: string)

  function Row(p: Pair): string {
    p.key + "=" + p.value
  }

  function TextOf(ps: seq<Pair>): string {
    if ps == [] then "" else TextOf(ps[..|ps| - 1]) + Row(ps[|ps| - 1]) + "\n"
  }

  // ---------------------------------------------------------------------
  // The reader

  function StripReturn(s: string): string {
    if s != "" && s[|s| - 1] == '\r' then s[..|s| - 1] else s
  }

  function StripReturns(ls: seq<string>): (out: seq<string>)
    ensures |out| == |ls|
    ensures forall i :: 0 <= i < |ls| ==> out[i] == StripReturn(ls[i])
  {
    seq(|ls|, i requires 0 <= i < |ls| => StripReturn(ls[i]))
  }

  /** As Rust's `str::lines`: a carriage return goes with the newline after it, and a last line needs neither. */
  function Lines(s: string): seq<string> {
    var pieces := Split(s, '\n');
    var n := |pieces| - 1;
    StripReturns(pieces[..n]) + (if pieces[n] == "" then [] else [pieces[n]])
  }

  function IndexOf(s: string, c: char): (i: Option<nat>)
    ensures i.None? <==> c !in s
    ensures i.Some? ==> i.value < |s| && s[i.value] == c && c !in s[..i.value]
  {
    if s == "" then None
    else if s[0] == c then Some(0)
    else
      var rest := IndexOf(s[1..], c);
      assert s == [s[0]] + s[1..];
      if rest.None? then None
      else
        assert s[..rest.value + 1] == [s[0]] + s[1..][..rest.value];
        Some(rest.value + 1)
  }

  /** Lines without an equals sign say nothing; the later of two lines with one key counts. */
  function Parsed(ls: seq<string>): map<string, string> {
    if ls == [] then map[]
    else
      var line, before := ls[|ls| - 1], Parsed(ls[..|ls| - 1]);
      var at := IndexOf(line, '=');
      if at.None? then before else before[line[..at.value] := line[at.value + 1..]]
  }

  method ReadText(content: string) returns (kv: map<string, string>)
    ensures kv == Parsed(Lines(content))
  {
    var lines := Lines(content);
    kv := map[];
    var i := 0;
    while i < |lines|
      invariant i <= |lines| && kv == Parsed(lines[..i])
    {
      assert lines[..i + 1][..i] == lines[..i] && lines[..i + 1][i] == lines[i];
      var at := IndexOf(lines[i], '=');
      if at.Some? {
        kv := kv[lines[i][..at.value] := lines[i][at.value + 1..]];
      }
      i := i + 1;
    }
    assert lines[..i] == lines;
  }

  // ---------------------------------------------------------------------
  // Pairs that a line can carry

  predicate CleanPair(p: Pair) {
    '=' !in p.key && '\n' !in p.key && '\n' !in p.value
  }

  predicate Clean(ps: seq<Pair>) {
    forall p :: p in ps ==> CleanPair(p)
  }

  /** What a whole line carries of its pair: a carriage return that ends the value goes with the newline. */
  function Carried(ps: seq<Pair>): (out: seq<Pair>)
    ensures |out| == |ps|
    ensures forall i :: 0 <= i < |ps| ==> out[i] == Pair(ps[i].key, StripReturn(ps[i].value))
  {
    seq(|ps|, i requires 0 <= i < |ps| => Pair(ps[i].key, StripReturn(ps[i].value)))
  }

  /** The pairs as a map, the later of two with one key counting. */
  function MapOf(ps: seq<Pair>): map<string, string> {
    if ps == [] then map[] else MapOf(ps[..|ps| - 1])[ps[|ps| - 1].key := ps[|ps| - 1].value]
  }

  function Rows(ps: seq<Pair>): (rows: seq<string>)
    ensures |rows| == |ps|
    ensures forall i :: 0 <= i < |ps| ==> rows[i] == Row(ps[i])
  {
    seq(|ps|, i requires 0 <= i < |ps| => Row(ps[i]))
  }

  lemma {:induction false} SplitText(ps: seq<Pair>, tail: string)
    requires Clean(ps) && '\n' !in tail
    ensures Split(TextOf(ps) + tail, '\n') == Rows(ps) + [tail]
  {
    if ps == [] {
      assert "" + tail == tail;
      SplitWhole(tail, '\n');
    } else {
      var n := |ps| - 1;
      var row := Row(ps[n]);
      assert ps[n] in ps && '\n' !in row;
      SplitText(ps[..n], row);
      SplitSnoc(TextOf(ps[..n]) + row, '\n', tail);
      assert TextOf(ps) + tail == TextOf(ps[..n]) + row + "\n" + tail;
      assert Rows(ps) == Rows(ps[..n]) + [row];
    }
  }

  lemma RowsAreStripped(ps: seq<Pair>)
    ensures StripReturns(Rows(ps)) == Rows(Carried(ps))
  {
    forall i | 0 <= i < |ps|
      ensures StripReturn(Rows(ps)[i]) == Rows(Carried(ps))[i]
    {
      var row := Row(ps[i]);
      assert row[|row| - 1] == if ps[i].value == "" then '=' else ps[i].value[|ps[i].value| - 1];
      assert ps[i].value != "" ==> row[..|row| - 1] == ps[i].key + "=" + ps[i].value[..|ps[i].value| - 1];
    }
  }

  /** The lines of some whole rows and a last unfinished one. */
  lemma LinesOfText(ps: seq<Pair>, tail: string)
    requires Clean(ps) && '\n' !in tail
    ensures Lines(TextOf(ps) + tail) == Rows(Carried(ps)) + (if tail == "" then [] else [tail])
  {
    SplitText(ps, tail);
    RowsAreStripped(ps);
    assert (Rows(ps) + [tail])[..|ps|] == Rows(ps);
  }

  lemma RowParses(p: Pair)
    requires '=' !in p.key
    ensures IndexOf(Row(p), '=') == Some(|p.key|)
    ensures Row(p)[..|p.key|] == p.key && Row(p)[|p.key| + 1..] == p.value
  {
    var row, at := Row(p), IndexOf(Row(p), '=');
    assert row[|p.key|] == '=' && row[..|p.key|] == p.key;
    assert at.Some?;
    assert forall k :: 0 <= k < |p.key| ==> row[k] == p.key[k];
    assert forall k :: 0 <= k < at.value ==> row[..at.value][k] == row[k];
  }

  lemma {:induction false} RowsParse(ps: seq<Pair>)
    requires forall i :: 0 <= i < |ps| ==> '=' !in ps[i].key
    ensures Parsed(Rows(ps)) == MapOf(ps)
  {
    if ps != [] {
      var n := |ps| - 1;
      assert Rows(ps)[..n] == Rows(ps[..n]);
      RowsParse(ps[..n]);
      RowParses(ps[n]);
    }
  }

  lemma CarriedParses(ps: seq<Pair>)
    requires Clean(ps)
    ensures Parsed(Rows(Carried(ps))) == MapOf(Carried(ps))
  {
    forall i | 0 <= i < |ps|
      ensures '=' !in Carried(ps)[i].key
    {
      assert CleanPair(ps[i]);
    }
    RowsParse(Carried(ps));
  }

  /** Clean pairs come back from their text, without the carriage returns that ended their values. */
  lemma TextRoundTrip(ps: seq<Pair>)
    requires Clean(ps)
    ensures Parsed(Lines(TextOf(ps))) == MapOf(Carried(ps))
  {
    LinesOfText(ps, "");
    assert TextOf(ps) + "" == TextOf(ps);
    assert Rows(Carried(ps)) + [] == Rows(Carried(ps));
    CarriedParses(ps);
  }

  // ---------------------------------------------------------------------
  // Cut text

  /** A strict prefix of a text is some whole rows and a strict prefix of the next, its newline counted. */
  lemma {:induction false} CutText(ps: seq<Pair>, cut: string) returns (i: nat, tail: string)
    requires cut < TextOf(ps)
    ensures i < |ps| && cut == TextOf(ps[..i]) + tail && tail <= Row(ps[i])
  {
    var n := |ps| - 1;
    var before := TextOf(ps[..n]);
    assert TextOf(ps) == before + (Row(ps[n]) + "\n");
    if |cut| < |before| {
      assert cut < before;
      i, tail := CutText(ps[..n], cut);
      assert ps[..n][..i] == ps[..i];
    } else {
      i, tail := n, cut[|before|..];
      assert cut == cut[..|before|] + tail && cut[..|before|] == before;
    }
  }

  function CutMap(ps: seq<Pair>, i: nat, tail: string): map<string, string>
    requires i < |ps| && tail <= Row(ps[i])
  {
    if |tail| <= |ps[i].key| then MapOf(Carried(ps[..i]))
    else MapOf(Carried(ps[..i]))[ps[i].key := ps[i].value[..|tail| - |ps[i].key| - 1]]
  }

  /** One more line without an equals sign, or none. */
  lemma ParsedBareTail(rows: seq<string>, tail: string)
    requires '=' !in tail
    ensures Parsed(rows + (if tail == "" then [] else [tail])) == Parsed(rows)
  {
    if tail == "" {
      assert rows + [] == rows;
    } else {
      assert (rows + [tail])[..|rows|] == rows;
    }
  }

  lemma ParsedRow(rows: seq<string>, p: Pair)
    requires '=' !in p.key
    ensures Parsed(rows + [Row(p)]) == Parsed(rows)[p.key := p.value]
  {
    assert (rows + [Row(p)])[..|rows|] == rows;
    RowParses(p);
  }

  /** What a reader makes of whole rows and an unfinished one: the unfinished value is a prefix of the real one. */
  lemma CutParses(ps: seq<Pair>, i: nat, tail: string)
    requires Clean(ps) && i < |ps| && tail <= Row(ps[i])
    ensures Parsed(Lines(TextOf(ps[..i]) + tail)) == CutMap(ps, i, tail)
  {
    var p := ps[i];
    var rows := Rows(Carried(ps[..i]));
    assert CleanPair(p) && '\n' !in Row(p);
    assert Clean(ps[..i]);
    assert tail == Row(p)[..|tail|] && '\n' !in tail;
    LinesOfText(ps[..i], tail);
    CarriedParses(ps[..i]);
    if |tail| <= |p.key| {
      assert tail == p.key[..|tail|] && '=' !in tail;
      ParsedBareTail(rows, tail);
    } else {
      var value := p.value[..|tail| - |p.key| - 1];
      assert tail == Row(Pair(p.key, value));
      ParsedRow(rows, Pair(p.key, value));
    }
  }

  lemma {:induction false} MapKeys(ps: seq<Pair>, k: string)
    ensures k in MapOf(ps) <==> exists i :: 0 <= i < |ps| && ps[i].key == k
  {
    if ps != [] {
      var n := |ps| - 1;
      MapKeys(ps[..n], k);
      assert forall i :: 0 <= i < n ==> ps[..n][i] == ps[i];
    }
  }

  predicate DistinctKeys(ps: seq<Pair>) {
    forall i, j :: 0 <= i < j < |ps| ==> ps[i].key != ps[j].key
  }

  lemma {:induction false} MapAt(ps: seq<Pair>, i: nat)
    requires DistinctKeys(ps) && i < |ps|
    ensures ps[i].key in MapOf(ps) && MapOf(ps)[ps[i].key] == ps[i].value
  {
    var n := |ps| - 1;
    if i < n {
      MapAt(ps[..n], i);
      assert ps[..n][i] == ps[i];
    }
  }

  lemma PrefixOfJoined(a: string, b: string, c: string, d: string)
    requires d != ""
    ensures a + b < a + (b + c) + d
  {
    assert a + (b + c) + d == (a + b) + (c + d);
  }

  /** Cutting a text inside its last row. */
  lemma RowCut(ps: seq<Pair>, tail: string, rest: string)
    requires ps != [] && Row(ps[|ps| - 1]) == tail + rest
    ensures TextOf(ps[..|ps| - 1]) + tail < TextOf(ps)
  {
    PrefixOfJoined(TextOf(ps[..|ps| - 1]), tail, rest, "\n");
  }

  /** A text cut inside its last value reads as the carried pairs with that value cut. */
  lemma CutLastValue(ps: seq<Pair>, d: nat) returns (cut: string)
    requires Clean(ps) && ps != [] && d <= |ps[|ps| - 1].value|
    ensures cut < TextOf(ps)
    ensures Parsed(Lines(cut))
         == MapOf(Carried(ps[..|ps| - 1]))[ps[|ps| - 1].key := ps[|ps| - 1].value[..d]]
  {
    var n, p := |ps| - 1, ps[|ps| - 1];
    var tail := Row(Pair(p.key, p.value[..d]));
    assert Row(p) == tail + p.value[d..];
    RowCut(ps, tail, p.value[d..]);
    CutParses(ps, n, tail);
    cut := TextOf(ps[..n]) + tail;
  }
}
