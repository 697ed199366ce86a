/**
 * `_nearest_series` of src/pdsp/extract.py: the series label ("713",
 * "763" or "713 · 763") nearest to a position of the text. The three
 * regular expressions are written out as scanners over the window.
 */
module Series {
  import opened Strings
  import opened Wrappers

  // ---------------------------------------------------------------------
  // The window
  // ---------------------------------------------------------------------

  /** `max(0, idx - window)`. */
  function WindowStart(idx: nat, window: nat): nat
  {
    if idx >= window then idx - window else 0
  }

  /** `min(len(text), idx + window)`. */
  function WindowEnd(text: string, idx: nat, window: nat): nat
  {
    if idx + window <= |text| then idx + window else |text|
  }

  /** `text[start:end]`; empty when the start lies beyond the end. */
  function Segment(text: string, idx: nat, window: nat): (seg: string)
    ensures var s := WindowStart(idx, window); var e := WindowEnd(text, idx, window);
      (s <= e ==> seg == text[s..e]) && (s > e ==> seg == [])
    ensures |seg| <= 2 * window
  {
    var s := WindowStart(idx, window);
    var e := WindowEnd(text, idx, window);
    if s <= e then text[s..e] else []
  }

  // ---------------------------------------------------------------------
  // Tokens
  // ---------------------------------------------------------------------

  /** `\b<tok>\b` matches at index `i`, for a token made of word characters. */
  predicate TokenAt(seg: string, tok: string, i: nat)
  {
    i + |tok| <= |seg| && seg[i..i + |tok|] == tok && WordStarts(seg, i) && WordEnds(seg, i + |tok|)
  }

  /**
   * `re.finditer(r"\b<tok>\b", seg)` from index `from`: the start of every
   * match, left to right, resuming after each match.
   */
  function Occurrences(seg: string, tok: string, from: nat): (ps: seq<nat>)
    requires |tok| > 0
    ensures forall k :: 0 <= k < |ps| ==> from <= ps[k] && TokenAt(seg, tok, ps[k])
    ensures forall k, l :: 0 <= k < l < |ps| ==> ps[k] < ps[l]
    decreases |seg| + 1 - from
  {
    if from > |seg| then []
    else if TokenAt(seg, tok, from) then [from] + Occurrences(seg, tok, from + |tok|)
    else Occurrences(seg, tok, from + 1)
  }

  /** A match of a token made of word characters ends with a word character, so the next match cannot start inside it. */
  lemma {:induction false} OccurrencesComplete(seg: string, tok: string, from: nat, i: nat)
    requires |tok| > 0 && forall c :: 0 <= c < |tok| ==> IsWord(tok[c])
    requires from <= i && TokenAt(seg, tok, i)
    ensures i in Occurrences(seg, tok, from)
    decreases |seg| + 1 - from
  {
    if from < i {
      if TokenAt(seg, tok, from) {
        assert forall c :: from <= c < from + |tok| ==> IsWord(seg[c]) by {
          forall c | from <= c < from + |tok| ensures IsWord(seg[c]) {
            assert seg[c] == seg[from..from + |tok|][c - from];
          }
        }
        assert !IsWord(seg[i - 1]);
        assert from + |tok| <= i;
        OccurrencesComplete(seg, tok, from + |tok|, i);
        assert Occurrences(seg, tok, from) == [from] + Occurrences(seg, tok, from + |tok|);
      } else {
        OccurrencesComplete(seg, tok, from + 1, i);
        assert Occurrences(seg, tok, from) == Occurrences(seg, tok, from + 1);
      }
    }
  }

  /** The combined form `\b713\s*[·\-/]\s*763\b` starts at index `i`. */
  predicate CombinedAt(seg: string, i: nat)
  {
    TokenStart713(seg, i) &&
    var k := i + 3 + SpaceRun(seg, i + 3);
    k < |seg| && (seg[k] == '\U{B7}' || seg[k] == '-' || seg[k] == '/') &&
    var k2 := k + 1 + SpaceRun(seg, k + 1);
    k2 + 3 <= |seg| && seg[k2..k2 + 3] == "763" && WordEnds(seg, k2 + 3)
  }

  /** `\b713` at index `i`. */
  predicate TokenStart713(seg: string, i: nat)
  {
    i + 3 <= |seg| && seg[i..i + 3] == "713" && WordStarts(seg, i)
  }

  /** `re.search(combined_pat, seg)` from index `from` on succeeds. */
  function FindCombined(seg: string, from: nat): (found: bool)
    ensures found <==> exists i :: from <= i <= |seg| && CombinedAt(seg, i)
    decreases |seg| + 1 - from
  {
    if from > |seg| then false
    else if CombinedAt(seg, from) then true
    else
      var r := FindCombined(seg, from + 1);
      assert (exists i :: from <= i <= |seg| && CombinedAt(seg, i)) ==> r by {
        if exists i :: from <= i <= |seg| && CombinedAt(seg, i) {
          var i :| from <= i <= |seg| && CombinedAt(seg, i);
          assert i != from;
        }
      }
      r
  }

  // ---------------------------------------------------------------------
  // Choosing the nearest token
  // ---------------------------------------------------------------------

  /** One entry of `choices`: a series and its distance to `idx`. */
  datatype Choice = Choice(series: string, dist: nat)

  /** Distance from the centre of the three-character token at `i` of the window to `idx`. */
  function Dist(start: nat, i: nat, idx: nat): nat
  {
    var pos := start + i + 3 / 2;
    if pos >= idx then pos - idx else idx - pos
  }

  /** The choices contributed by the token starts `ps`, in order. */
  function ChoicesFor(series: string, start: nat, idx: nat, ps: seq<nat>): (cs: seq<Choice>)
    ensures |cs| == |ps|
    ensures forall k :: 0 <= k < |ps| ==> cs[k] == Choice(series, Dist(start, ps[k], idx))
  {
    seq(|ps|, k requires 0 <= k < |ps| => Choice(series, Dist(start, ps[k], idx)))
  }

  /**
   * Index of `sorted(cs, key=dist)[0]`: a stable sort puts first the
   * leftmost choice of least distance.
   */
  function FirstNearest(cs: seq<Choice>): (i: nat)
    requires cs != []
    ensures i < |cs|
    ensures forall j :: 0 <= j < |cs| ==> cs[i].dist <= cs[j].dist
    ensures forall j :: 0 <= j < i ==> cs[j].dist > cs[i].dist
  {
    if |cs| == 1 then 0
    else
      var r := 1 + FirstNearest(cs[1..]);
      assert forall j :: 1 <= j < |cs| ==> cs[j] == cs[1..][j - 1];
      if cs[r].dist < cs[0].dist then r else 0
  }

  const Combined: string := "713 \U{B7} 763"

  /** All choices in window `seg` starting at `start`, the 713 tokens first, as the two loops of the source append them. */
  function AllChoices(seg: string, start: nat, idx: nat): seq<Choice>
  {
    ChoicesFor("713", start, idx, Occurrences(seg, "713", 0)) + ChoicesFor("763", start, idx, Occurrences(seg, "763", 0))
  }

  /** The nearest token's series, when there is no combined token. */
  function NearestToken(seg: string, start: nat, idx: nat): Option<string>
  {
    var cs := AllChoices(seg, start, idx);
    if cs == [] then None else Some(cs[FirstNearest(cs)].series)
  }

  /** The label `_nearest_series` returns. */
  function NearestSeriesOf(text: string, idx: nat, window: nat): Option<string>
  {
    var seg := Segment(text, idx, window);
    if FindCombined(seg, 0) then Some(Combined)
    else NearestToken(seg, WindowStart(idx, window), idx)
  }

  /** One more token start adds its choice at the end. */
  lemma ChoicesForSnoc(series: string, start: nat, idx: nat, ps: seq<nat>, k: nat)
    requires k < |ps|
    ensures ChoicesFor(series, start, idx, ps[..k + 1]) ==
      ChoicesFor(series, start, idx, ps[..k]) + [Choice(series, Dist(start, ps[k], idx))]
  {
    assert ps[..k + 1] == ps[..k] + [ps[k]];
  }

  /** `_nearest_series`: builds `choices` with two appending loops, then takes the first of the stable sort. */
  method NearestSeries(text: string, idx: nat, window: nat) returns (r: Option<string>)
    ensures r == NearestSeriesOf(text, idx, window)
  {
    var start := WindowStart(idx, window);
    var seg := Segment(text, idx, window);
    if FindCombined(seg, 0) {
      return Some(Combined);
    }
    var choices: seq<Choice> := [];
    var p713 := Occurrences(seg, "713", 0);
    for k := 0 to |p713|
      invariant choices == ChoicesFor("713", start, idx, p713[..k])
    {
      ChoicesForSnoc("713", start, idx, p713, k);
      choices := choices + [Choice("713", Dist(start, p713[k], idx))];
    }
    assert p713[..|p713|] == p713;
    var c713 := choices;
    var p763 := Occurrences(seg, "763", 0);
    for k := 0 to |p763|
      invariant choices == c713 + ChoicesFor("763", start, idx, p763[..k])
    {
      ChoicesForSnoc("763", start, idx, p763, k);
      choices := choices + [Choice("763", Dist(start, p763[k], idx))];
    }
    assert p763[..|p763|] == p763;
    assert choices == AllChoices(seg, start, idx);
    if |choices| == 0 {
      return None;
    }
    r := Some(choices[FirstNearest(choices)].series);
  }

  // ---------------------------------------------------------------------
  // What the selection promises
  // ---------------------------------------------------------------------

  /** A combined token anywhere in the window wins. */
  lemma CombinedWins(text: string, idx: nat, window: nat, i: nat)
    requires i <= |Segment(text, idx, window)| && CombinedAt(Segment(text, idx, window), i)
    ensures NearestSeriesOf(text, idx, window) == Some(Combined)
  {
  }

  /** The result is one of the three labels, or `None`. */
  lemma LabelSet(text: string, idx: nat, window: nat)
    ensures NearestSeriesOf(text, idx, window) in {None, Some("713"), Some("763"), Some(Combined)}
  {
    var seg := Segment(text, idx, window);
    var cs := AllChoices(seg, WindowStart(idx, window), idx);
    if cs != [] {
      var i := FirstNearest(cs);
      var n := |Occurrences(seg, "713", 0)|;
      assert i < n ==> cs[i].series == "713";
      assert i >= n ==> cs[i].series == "763";
    }
  }

  lemma TokenLabels()
    ensures |"713"| == 3 && forall c :: 0 <= c < 3 ==> IsWord("713"[c])
    ensures |"763"| == 3 && forall c :: 0 <= c < 3 ==> IsWord("763"[c])
  {
  }

  /** `None` exactly when the window holds neither a combined token nor a 713 or 763 token. */
  lemma NoneIffNoToken(text: string, idx: nat, window: nat)
    ensures var seg := Segment(text, idx, window);
      NearestSeriesOf(text, idx, window).None? <==>
        !FindCombined(seg, 0) && (forall i :: !TokenAt(seg, "713", i)) && (forall i :: !TokenAt(seg, "763", i))
  {
    var seg := Segment(text, idx, window);
    TokenLabels();
    forall i | TokenAt(seg, "713", i)
      ensures Occurrences(seg, "713", 0) != []
    {
      OccurrencesComplete(seg, "713", 0, i);
    }
    forall i | TokenAt(seg, "763", i)
      ensures Occurrences(seg, "763", 0) != []
    {
      OccurrencesComplete(seg, "763", 0, i);
    }
  }

  /** No token of the window is closer to `idx` than the one at `p`, and a 763 token at `p` is strictly closer than every 713 token. */
  ghost predicate IsNearest(seg: string, start: nat, idx: nat, series: string, p: nat)
  {
    TokenAt(seg, series, p) &&
    (forall q :: TokenAt(seg, "713", q) ==> Dist(start, p, idx) <= Dist(start, q, idx)) &&
    (forall q :: TokenAt(seg, "763", q) ==> Dist(start, p, idx) <= Dist(start, q, idx)) &&
    (series == "763" ==> forall q :: TokenAt(seg, "713", q) ==> Dist(start, p, idx) < Dist(start, q, idx))
  }

  /**
   * The first nearest of two runs of choices is no farther than any token
   * of either run, and strictly nearer than every token of the first run
   * when it comes from the second.
   */
  lemma FirstOfTwo(a: string, b: string, start: nat, idx: nat, ps1: seq<nat>, ps2: seq<nat>)
    requires ChoicesFor(a, start, idx, ps1) + ChoicesFor(b, start, idx, ps2) != []
    ensures var cs := ChoicesFor(a, start, idx, ps1) + ChoicesFor(b, start, idx, ps2);
      var i := FirstNearest(cs);
      (forall q :: q in ps1 ==> cs[i].dist <= Dist(start, q, idx)) &&
      (i >= |ps1| ==> forall q :: q in ps1 ==> cs[i].dist < Dist(start, q, idx)) &&
      (forall q :: q in ps2 ==> cs[i].dist <= Dist(start, q, idx))
  {
    var c1 := ChoicesFor(a, start, idx, ps1);
    var c2 := ChoicesFor(b, start, idx, ps2);
    var cs := c1 + c2;
    var i := FirstNearest(cs);
    forall q | q in ps1
      ensures cs[i].dist <= Dist(start, q, idx)
      ensures i >= |ps1| ==> cs[i].dist < Dist(start, q, idx)
    {
      var k :| 0 <= k < |ps1| && ps1[k] == q;
      assert cs[k] == c1[k];
    }
    forall q | q in ps2
      ensures cs[i].dist <= Dist(start, q, idx)
    {
      var k :| 0 <= k < |ps2| && ps2[k] == q;
      assert cs[|ps1| + k] == c2[k];
    }
  }

  lemma NearestTokenWins(seg: string, start: nat, idx: nat)
    ensures NearestToken(seg, start, idx).Some? ==>
      exists p :: IsNearest(seg, start, idx, NearestToken(seg, start, idx).value, p)
  {
    var o713 := Occurrences(seg, "713", 0);
    var o763 := Occurrences(seg, "763", 0);
    var c713 := ChoicesFor("713", start, idx, o713);
    var c763 := ChoicesFor("763", start, idx, o763);
    var cs := AllChoices(seg, start, idx);
    assert cs == c713 + c763;
    if cs != [] {
      FirstOfTwo("713", "763", start, idx, o713, o763);
      var i := FirstNearest(cs);
      var p := if i < |o713| then o713[i] else o763[i - |o713|];
      assert i < |o713| ==> cs[i] == c713[i];
      assert i >= |o713| ==> cs[i] == c763[i - |o713|];
      assert cs[i].dist == Dist(start, p, idx);
      assert TokenAt(seg, cs[i].series, p);
      assert "713"[1] == '1' && "763"[1] == '6';
      assert cs[i].series == "763" ==> i >= |o713|;
      TokenLabels();
      forall q | TokenAt(seg, "713", q) ensures q in o713 {
        OccurrencesComplete(seg, "713", 0, q);
      }
      forall q | TokenAt(seg, "763", q) ensures q in o763 {
        OccurrencesComplete(seg, "763", 0, q);
      }
      assert IsNearest(seg, start, idx, cs[i].series, p);
    }
  }

  /**
   * Without a combined token, the label is that of a token no other token
   * is closer than; a 763 token wins only when it is strictly closer than
   * every 713 token.
   */
  lemma NearestWins(text: string, idx: nat, window: nat)
    requires !FindCombined(Segment(text, idx, window), 0)
    ensures NearestSeriesOf(text, idx, window).Some? ==>
      exists p :: IsNearest(Segment(text, idx, window), WindowStart(idx, window), idx, NearestSeriesOf(text, idx, window).value, p)
  {
    NearestTokenWins(Segment(text, idx, window), WindowStart(idx, window), idx);
  }

  /** A 713 token that no 763 token is closer than (a tie included) keeps the answer from being 763. */
  lemma TieGoesTo713(text: string, idx: nat, window: nat, p: nat)
    requires var seg := Segment(text, idx, window); var start := WindowStart(idx, window);
      !FindCombined(seg, 0) && TokenAt(seg, "713", p) &&
      forall q :: TokenAt(seg, "763", q) ==> Dist(start, p, idx) <= Dist(start, q, idx)
    ensures NearestSeriesOf(text, idx, window) != Some("763")
  {
    NearestWins(text, idx, window);
  }
}
