/**
 * The document classifier of src/pdsp/extract.py: keyword scores
 * (`_keyword_score`) and the selection rule of
 * `_classify_pdf_by_text_and_name`. The number of ordering codes in the
 * text is an input (`oc`); the regular expression that counts them is not
 * part of this model.
 */
module Classify {
  import opened Strings
  import opened Wrappers

  // ---------------------------------------------------------------------
  // Keyword scores
  // ---------------------------------------------------------------------

  /** `k.lower() in t`. */
  predicate Present(t: string, k: string)
  {
    Contains(t, Lower(k))
  }

  /** How many entries of `ks` (with repetitions) occur in `t`, case-insensitively on the keyword side. */
  function Count(t: string, ks: seq<string>): (n: nat)
    ensures n <= |ks|
  {
    if ks == [] then 0
    else Count(t, ks[..|ks| - 1]) + (if Present(t, ks[|ks| - 1]) then 1 else 0)
  }

  /** The value `_keyword_score` computes: present positives minus present negatives; `None` and an empty negative list are the same. */
  function Score(text: string, positives: seq<string>, negatives: Option<seq<string>>): int
  {
    var t := Lower(text);
    Count(t, positives) - (if negatives.Some? && negatives.value != [] then Count(t, negatives.value) else 0)
  }

  /** `_keyword_score`: the two accumulating loops of the source. */
  method KeywordScore(text: string, positives: seq<string>, negatives: Option<seq<string>>) returns (score: int)
    ensures score == Score(text, positives, negatives)
  {
    var t := Lower(text);
    score := 0;
    for i := 0 to |positives|
      invariant score == Count(t, positives[..i])
    {
      assert positives[..i + 1][..i] == positives[..i];
      if Contains(t, Lower(positives[i])) {
        score := score + 1;
      }
    }
    assert positives[..|positives|] == positives;
    if negatives.Some? && negatives.value != [] {
      var negs := negatives.value;
      for i := 0 to |negs|
        invariant score == Count(t, positives) - Count(t, negs[..i])
      {
        assert negs[..i + 1][..i] == negs[..i];
        if Contains(t, Lower(negs[i])) {
          score := score - 1;
        }
      }
      assert negs[..|negs|] == negs;
    }
  }

  /** Every keyword is present exactly when the count is the length of the list. */
  lemma {:induction false} CountAll(t: string, ks: seq<string>)
    ensures Count(t, ks) == |ks| <==> forall i :: 0 <= i < |ks| ==> Present(t, ks[i])
  {
    if ks != [] {
      var init := ks[..|ks| - 1];
      CountAll(t, init);
      assert forall i :: 0 <= i < |init| ==> init[i] == ks[i];
    }
  }

  /** No keyword is present exactly when the count is zero. */
  lemma {:induction false} CountNone(t: string, ks: seq<string>)
    ensures Count(t, ks) == 0 <==> forall i :: 0 <= i < |ks| ==> !Present(t, ks[i])
  {
    if ks != [] {
      var init := ks[..|ks| - 1];
      CountNone(t, init);
      assert forall i :: 0 <= i < |init| ==> init[i] == ks[i];
    }
  }

  /** The count of a concatenation is the sum of the counts. */
  lemma {:induction false} CountAppend(t: string, xs: seq<string>, ys: seq<string>)
    ensures Count(t, xs + ys) == Count(t, xs) + Count(t, ys)
  {
    if ys == [] {
      assert xs + ys == xs;
    } else {
      var init := ys[..|ys| - 1];
      CountAppend(t, xs, init);
      assert (xs + ys)[..|xs + ys| - 1] == xs + init;
    }
  }

  /** The score lies between minus the number of negatives and the number of positives, and is never negative without negatives. */
  lemma ScoreBounds(text: string, positives: seq<string>, negatives: Option<seq<string>>)
    ensures -(if negatives.Some? then |negatives.value| else 0) <= Score(text, positives, negatives) <= |positives|
    ensures negatives.None? || negatives.value == [] ==> Score(text, positives, negatives) >= 0
  {
  }

  // ---------------------------------------------------------------------
  // The three kind scores
  // ---------------------------------------------------------------------

  datatype Kind = Binder | M12 | TechInfo | Unknown

  /** The scores of the three real kinds, after the ordering-code and file-name adjustments. */
  datatype Scores = Scores(binder: int, m12: int, techinfo: int)

  const BinderPositives: seq<string> := ["binder", "cb-s", "co2", "co\U{2082}", "incubator", "model cb-s"]
  const M12Positives: seq<string> := ["m12", "sensorik", "aktorik", "serie 713", "serie 763",
    "ordering-no", "ordering code", "bestell-nr.", "steckverbinder", "kabelstecker"]
  const M12Negatives: seq<string> := ["technische information", "technische informationen", "allgemeine hinweise"]
  const TechInfoPositives: seq<string> := ["technische information", "technische informationen", "allgemeine hinweise", "awg"]
  const TechInfoNegatives: seq<string> := ["serie 713", "serie 763", "ordering-no", "ordering code", "bestell-nr.", "m12"]

  function Min(a: int, b: int): int
  {
    if a <= b then a else b
  }

  /** `s_m12` gets the +5 file-name bonus. */
  predicate M12Name(filename: string)
  {
    var name := Lower(filename);
    Contains(name, "serie_713_763") || Contains(name, "m12")
  }

  /** `s_ti` gets the +5 file-name bonus. */
  predicate TechInfoName(filename: string)
  {
    var name := Lower(filename);
    Contains(name, "technische_infos") || Contains(name, "technische_info")
  }

  /** The three scores `_classify_pdf_by_text_and_name` computes from the text, the file name and the ordering-code count. */
  function KindScores(text: string, filename: string, oc: nat): (s: Scores)
    ensures 0 <= s.binder <= |BinderPositives|
  {
    var binder := Score(text, BinderPositives, Some([]));
    var m12 := Score(text, M12Positives, Some(M12Negatives));
    var ti := Score(text, TechInfoPositives, Some(TechInfoNegatives));
    var m12 := m12 + Min(oc, 100);
    var ti := ti - Min(oc, 100);
    var m12 := if M12Name(filename) then m12 + 5 else m12;
    var ti := if TechInfoName(filename) then ti + 5 else ti;
    Scores(binder, m12, ti)
  }

  // ---------------------------------------------------------------------
  // Selection: the first element of a stable reverse sort
  // ---------------------------------------------------------------------

  /** One item of the `scores` dictionary. */
  datatype Entry = Entry(kind: Kind, score: int)

  predicate IsReal(k: Kind)
  {
    k != Unknown
  }

  /** The sort key `(score, kind in [binder, m12, techinfo])` of `a` is smaller than that of `b`. */
  predicate KeyLess(a: Entry, b: Entry)
  {
    a.score < b.score || (a.score == b.score && !IsReal(a.kind) && IsReal(b.kind))
  }

  /**
   * Index of `sorted(es, key, reverse=True)[0]`: a stable sort in reverse
   * puts first the leftmost entry whose key no other entry exceeds.
   */
  function TopIndex(es: seq<Entry>): (i: nat)
    requires es != []
    ensures i < |es|
    ensures forall j :: 0 <= j < |es| ==> !KeyLess(es[i], es[j])
    ensures forall j :: 0 <= j < i ==> KeyLess(es[j], es[i])
  {
    if |es| == 1 then 0
    else
      var r := 1 + TopIndex(es[1..]);
      assert forall j :: 1 <= j < |es| ==> es[j] == es[1..][j - 1];
      if KeyLess(es[0], es[r]) then r else 0
  }

  /** The dictionary `{"binder": …, "m12": …, "techinfo": …, "unknown": 0}` in insertion order. */
  function Entries(s: Scores): seq<Entry>
  {
    [Entry(Binder, s.binder), Entry(M12, s.m12), Entry(TechInfo, s.techinfo), Entry(Unknown, 0)]
  }

  /** The returned kind: the top entry when its score is positive, `unknown` otherwise. */
  function Select(s: Scores): Kind
  {
    var es := Entries(s);
    var top := es[TopIndex(es)];
    if top.score > 0 then top.kind else Unknown
  }

  /** `_classify_pdf_by_text_and_name`. */
  function ClassifyPdf(text: string, filename: string, oc: nat): (k: Kind)
    ensures var s := KindScores(text, filename, oc);
      (k == Unknown <==> s.binder <= 0 && s.m12 <= 0 && s.techinfo <= 0) &&
      (k == Binder ==> s.binder > 0 && s.binder >= s.m12 && s.binder >= s.techinfo) &&
      (k == M12 ==> s.m12 > 0 && s.m12 > s.binder && s.m12 >= s.techinfo) &&
      (k == TechInfo ==> s.techinfo > 0 && s.techinfo > s.binder && s.techinfo > s.m12)
  {
    var s := KindScores(text, filename, oc);
    WinnerIsPositiveMaximum(s);
    UnknownIffNoPositive(s);
    Select(s)
  }

  // ---------------------------------------------------------------------
  // Properties of the selection rule
  // ---------------------------------------------------------------------

  function Max3(a: int, b: int, c: int): int
  {
    if a >= b && a >= c then a else if b >= c then b else c
  }

  /**
   * The sort-based rule is the same as the plain rule: no positive score
   * gives `unknown`; otherwise the first of binder, m12, techinfo whose
   * score is the largest.
   */
  lemma SelectIsFirstMaximum(s: Scores)
    ensures var m := Max3(s.binder, s.m12, s.techinfo);
      Select(s) ==
        if m <= 0 then Unknown
        else if s.binder == m then Binder
        else if s.m12 == m then M12
        else TechInfo
  {
    var es := Entries(s);
    var i := TopIndex(es);
    assert !KeyLess(es[i], es[0]) && !KeyLess(es[i], es[1]) && !KeyLess(es[i], es[2]) && !KeyLess(es[i], es[3]);
  }

  /** A kind other than `unknown` is returned only when its score is positive and no other score is larger. */
  lemma WinnerIsPositiveMaximum(s: Scores)
    ensures Select(s) == Binder ==> s.binder > 0 && s.binder >= s.m12 && s.binder >= s.techinfo
    ensures Select(s) == M12 ==> s.m12 > 0 && s.m12 > s.binder && s.m12 >= s.techinfo
    ensures Select(s) == TechInfo ==> s.techinfo > 0 && s.techinfo > s.binder && s.techinfo > s.m12
  {
    SelectIsFirstMaximum(s);
  }

  /** `unknown` exactly when no score is positive. */
  lemma UnknownIffNoPositive(s: Scores)
    ensures Select(s) == Unknown <==> s.binder <= 0 && s.m12 <= 0 && s.techinfo <= 0
  {
    SelectIsFirstMaximum(s);
  }

  /** Ties on the top score go to binder, then m12, then techinfo. */
  lemma TieBreak(s: Scores)
    ensures s.binder > 0 && s.binder == s.m12 && s.m12 >= s.techinfo ==> Select(s) == Binder
    ensures s.binder > 0 && s.binder == s.techinfo && s.techinfo >= s.m12 ==> Select(s) == Binder
    ensures s.m12 > 0 && s.m12 == s.techinfo && s.m12 > s.binder ==> Select(s) == M12
  {
    SelectIsFirstMaximum(s);
  }

  // ---------------------------------------------------------------------
  // Properties of the score adjustments
  // ---------------------------------------------------------------------

  /** The ordering-code count adds exactly `min(oc, 100)` to m12, takes the same from techinfo, and leaves binder alone. */
  lemma OrderingCodeEffect(text: string, filename: string, oc: nat)
    ensures KindScores(text, filename, oc).binder == KindScores(text, filename, 0).binder
    ensures KindScores(text, filename, oc).m12 == KindScores(text, filename, 0).m12 + Min(oc, 100)
    ensures KindScores(text, filename, oc).techinfo == KindScores(text, filename, 0).techinfo - Min(oc, 100)
  {
  }

  /** A file-name keyword adds exactly 5, compared with an empty file name. */
  lemma FileNameBonus(text: string, filename: string, oc: nat)
    ensures KindScores(text, filename, oc).binder == KindScores(text, "", oc).binder
    ensures KindScores(text, filename, oc).m12 == KindScores(text, "", oc).m12 + (if M12Name(filename) then 5 else 0)
    ensures KindScores(text, filename, oc).techinfo == KindScores(text, "", oc).techinfo + (if TechInfoName(filename) then 5 else 0)
  {
    assert !M12Name("") && !TechInfoName("");
  }

  /** Ten or more ordering codes make any document an M12 catalogue, whatever its words and name. */
  lemma ManyCodesMeanM12(text: string, filename: string, oc: nat)
    requires oc >= 10
    ensures ClassifyPdf(text, filename, oc) == M12
  {
    var s := KindScores(text, filename, oc);
    ScoreBounds(text, M12Positives, Some(M12Negatives));
    ScoreBounds(text, TechInfoPositives, Some(TechInfoNegatives));
    assert s.binder <= 6;
    assert s.m12 >= oc - 3 || s.m12 >= 97;
    assert s.techinfo <= 9 - 10;
    SelectIsFirstMaximum(s);
  }

  /** Without any ordering code, a text with none of the keywords and a neutral name is `unknown`. */
  lemma NoEvidenceIsUnknown(text: string, filename: string)
    requires forall i :: 0 <= i < |BinderPositives| ==> !Present(Lower(text), BinderPositives[i])
    requires forall i :: 0 <= i < |M12Positives| ==> !Present(Lower(text), M12Positives[i])
    requires forall i :: 0 <= i < |TechInfoPositives| ==> !Present(Lower(text), TechInfoPositives[i])
    requires !M12Name(filename) && !TechInfoName(filename)
    ensures ClassifyPdf(text, filename, 0) == Unknown
  {
    var t := Lower(text);
    CountNone(t, BinderPositives);
    CountNone(t, M12Positives);
    CountNone(t, TechInfoPositives);
    UnknownIffNoPositive(KindScores(text, filename, 0));
  }
}
