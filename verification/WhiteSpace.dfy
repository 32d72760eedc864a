/** Text cut at white space, as Rust's `split_whitespace` cuts it. */
module WhiteSpace {
  /** The White_Space characters of Unicode. */
  predicate IsSpace(c: char) {
    || '\U{0009}' <= c <= '\U{000D}' || c == ' ' || c == '\U{0085}' || c == '\U{00A0}'
    || c == '\U{1680}' || '\U{2000}' <= c <= '\U{200A}' || c == '\U{2028}' || c == '\U{2029}'
    || c == '\U{202F}' || c == '\U{205F}' || c == '\U{3000}'
  }

  predicate IsWord(w: string) {
    w != "" && forall c :: c in w ==> !IsSpace(c)
  }

  /** The longest run of non-space characters at the front. */
  function FirstWord(s: string): (w: string)
    ensures |w| <= |s| && s[..|w|] == w
    ensures forall c :: c in w ==> !IsSpace(c)
    ensures |w| < |s| ==> IsSpace(s[|w|])
  {
    if s == "" || IsSpace(s[0]) then ""
    else
      var w := FirstWord(s[1..]);
      assert s[..|w| + 1] == [s[0]] + s[1..][..|w|];
      [s[0]] + w
  }

  /** The words of a text, as Rust's `split_whitespace`. */
  function Words(s: string): (ws: seq<string>)
    ensures forall w :: w in ws ==> IsWord(w)
    decreases |s|
  {
    if s == "" then []
    else if IsSpace(s[0]) then Words(s[1..])
    else
      var w := FirstWord(s);
      assert s[0] == w[0] && w != "";
      [w] + Words(s[|w|..])
  }

  function Join(ws: seq<string>): string {
    if ws == [] then "" else if |ws| == 1 then ws[0] else ws[0] + " " + Join(ws[1..])
  }

  /** Runs of white space made single, none at the ends. */
  function Normalized(s: string): string {
    Join(Words(s))
  }

  lemma {:induction false} FirstWordStops(w: string, rest: string)
    requires IsWord(w) && (rest == "" || IsSpace(rest[0]))
    ensures FirstWord(w + rest) == w
  {
    assert w[0] in w && (w + rest)[1..] == w[1..] + rest;
    if |w| == 1 {
      assert w[1..] + rest == rest;
      assert FirstWord(rest) == "";
    } else {
      FirstWordStops(w[1..], rest);
    }
  }

  lemma WordsCons(w: string, rest: string)
    requires IsWord(w) && (rest == "" || IsSpace(rest[0]))
    ensures Words(w + rest) == [w] + Words(rest)
  {
    FirstWordStops(w, rest);
    assert w[0] in w && (w + rest)[0] == w[0] && (w + rest)[|w|..] == rest;
  }

  lemma {:induction false} WordsOfJoin(ws: seq<string>)
    requires forall w :: w in ws ==> IsWord(w)
    ensures Words(Join(ws)) == ws
  {
    if ws == [] {
    } else if |ws| == 1 {
      WordsCons(ws[0], "");
      assert ws[0] + "" == ws[0];
    } else {
      var rest := " " + Join(ws[1..]);
      WordsOfJoin(ws[1..]);
      WordsCons(ws[0], rest);
      assert rest[1..] == Join(ws[1..]);
      assert ws[0] + " " + Join(ws[1..]) == ws[0] + rest;
    }
  }

  /** Two texts normalize alike exactly when they have the same words. */
  lemma NormalizedSameWords(s: string, t: string)
    ensures Normalized(s) == Normalized(t) <==> Words(s) == Words(t)
  {
    WordsOfJoin(Words(s));
    WordsOfJoin(Words(t));
  }
}
