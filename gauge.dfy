/**
 * `normalize_awg_or_mm2` of src/pdsp/normalize.py: a wire-gauge fragment
 * becomes (mm² value, unit, raw). The two regular expressions are written
 * out as scanners: `Mm2At` and `AwgAt` say whether the pattern matches at
 * one position (both patterns are deterministic once the start is fixed:
 * no backtracking can turn a failure into a success), and `Search` is
 * `re.search`, the leftmost such position.
 */
module Gauge {
  import opened Strings
  import opened Wrappers

  predicate IsM(c: char)
  {
    c == 'm' || c == 'M'
  }

  /**
   * `([0-9]+(?:[.,][0-9]+)?)\s*mm(?:2|²)\b`, ignoring case, tried at index
   * `i`: the captured number when it matches.
   */
  function Mm2At(t: string, i: nat): (r: Option<string>)
    requires i <= |t|
    ensures r.Some? ==> |r.value| > 0 && IsDigit(r.value[0])
  {
    var d := DigitRun(t, i);
    if d == 0 then None
    else
      var j := i + d;
      var j2 := if j < |t| && (t[j] == '.' || t[j] == ',') && DigitRun(t, j + 1) > 0
                then j + 1 + DigitRun(t, j + 1) else j;
      var k := j2 + SpaceRun(t, j2);
      if k + 3 <= |t| && IsM(t[k]) && IsM(t[k + 1]) && (t[k + 2] == '2' || t[k + 2] == '\U{B2}') && WordEnds(t, k + 3)
      then Some(t[i..j2])
      else None
  }

  /**
   * `\bawg\s*([0-9]{1,2})\b`, ignoring case, tried at index `i`: the captured
   * digits when it matches.
   */
  function AwgAt(t: string, i: nat): (r: Option<string>)
    requires i <= |t|
    ensures r.Some? ==> 1 <= |r.value| <= 2 && AllDigits(r.value)
  {
    if i + 3 <= |t| && (i == 0 || !IsWord(t[i - 1]))
       && LowerChar(t[i]) == 'a' && LowerChar(t[i + 1]) == 'w' && LowerChar(t[i + 2]) == 'g'
    then
      var k := i + 3 + SpaceRun(t, i + 3);
      var d := DigitRun(t, k);
      if 1 <= d <= 2 && WordEnds(t, k + d) then Some(t[k..k + d]) else None
    else None
  }

  datatype Pattern = Mm2Pattern | AwgPattern

  function MatchAt(p: Pattern, t: string, i: nat): Option<string>
    requires i <= |t|
  {
    match p
    case Mm2Pattern => Mm2At(t, i)
    case AwgPattern => AwgAt(t, i)
  }

  /** The leftmost index from `from` on that holds `true`. */
  function FirstTrue(bs: seq<bool>, from: nat): (r: Option<nat>)
    requires from <= |bs|
    ensures r.Some? ==> from <= r.value < |bs| && bs[r.value]
    ensures r.Some? ==> forall j :: from <= j < r.value ==> !bs[j]
    ensures r.None? ==> forall j :: from <= j < |bs| ==> !bs[j]
    decreases |bs| - from
  {
    if from == |bs| then None
    else if bs[from] then Some(from)
    else FirstTrue(bs, from + 1)
  }

  /** For every index `0 <= j <= |t|`, whether the pattern matches there. */
  function Hits(p: Pattern, t: string): (bs: seq<bool>)
    ensures |bs| == |t| + 1
    ensures forall j :: 0 <= j <= |t| ==> bs[j] == MatchAt(p, t, j).Some?
  {
    seq(|t| + 1, j requires 0 <= j <= |t| => MatchAt(p, t, j).Some?)
  }

  /** `re.search`: the leftmost index from `from` on where the pattern matches. */
  function Search(p: Pattern, t: string, from: nat): (r: Option<nat>)
    requires from <= |t|
    ensures r.Some? ==> from <= r.value <= |t| && MatchAt(p, t, r.value).Some?
    ensures r.Some? ==> forall j :: from <= j < r.value ==> MatchAt(p, t, j).None?
    ensures r.None? ==> forall j :: from <= j <= |t| ==> MatchAt(p, t, j).None?
  {
    FirstTrue(Hits(p, t), from)
  }

  /** The first capture group of the leftmost match, if any. */
  function Captured(p: Pattern, t: string): Option<string>
  {
    match Search(p, t, 0)
    case Some(i) => MatchAt(p, t, i)
    case None => None
  }

  /** The fixed AWG to mm² table of the source (only AWG 18 to 24). */
  const AwgToMm2: map<nat, real> :=
    map[24 := 0.205, 23 := 0.258, 22 := 0.326, 21 := 0.410, 20 := 0.519, 19 := 0.653, 18 := 0.823]

  /** The triple `(mm2_value or None, unit or None, raw)` of the source. */
  datatype GaugeReading = GaugeReading(mm2: Option<real>, unit: Option<string>, raw: Option<string>)

  /** The text the source scans: `(raw or "").strip()`. */
  function ScannedText(raw: Option<string>): string
  {
    Strip(raw.GetOr(""))
  }

  /** `normalize_awg_or_mm2`. */
  function NormalizeAwgOrMm2(raw: Option<string>): (r: GaugeReading)
    ensures r.raw == raw
    ensures r.unit in {None, Some("mm2"), Some("mm2_est"), Some("awg")}
    ensures r.mm2.Some? <==> r.unit == Some("mm2") || r.unit == Some("mm2_est")
    ensures r.mm2.Some? ==> r.mm2.value >= 0.0
    ensures r.unit == Some("mm2_est") ==> r.mm2.value in AwgToMm2.Values
  {
    var text := ScannedText(raw);
    match Captured(Mm2Pattern, text)
    case Some(num) => GaugeReading(Some(CommaDecimalValue(num)), Some("mm2"), raw)
    case None =>
      match Captured(AwgPattern, text)
      case Some(ds) =>
        var n := NatOf(ds);
        if n in AwgToMm2 then GaugeReading(Some(AwgToMm2[n]), Some("mm2_est"), raw)
        else GaugeReading(None, Some("awg"), raw)
      case None => GaugeReading(None, None, raw)
  }

  // ---------------------------------------------------------------------
  // The three outcomes, stated over match positions
  // ---------------------------------------------------------------------

  /** The pattern matches nowhere in `t`. */
  predicate NoMatch(p: Pattern, t: string)
  {
    forall j :: 0 <= j <= |t| ==> MatchAt(p, t, j).None?
  }

  /** `i` is the leftmost index where the pattern matches. */
  predicate FirstMatchAt(p: Pattern, t: string, i: nat)
  {
    i <= |t| && MatchAt(p, t, i).Some? && forall j :: 0 <= j < i ==> MatchAt(p, t, j).None?
  }

  lemma SearchFindsFirst(p: Pattern, t: string, i: nat)
    requires FirstMatchAt(p, t, i)
    ensures Search(p, t, 0) == Some(i)
  {
  }

  lemma SearchFindsNothing(p: Pattern, t: string)
    requires NoMatch(p, t)
    ensures Search(p, t, 0).None?
  {
  }

  /** A direct mm² reading wins, whatever else (an AWG token included) the text holds; a comma is a decimal point. */
  lemma Mm2ReadingWins(raw: Option<string>, i: nat)
    requires FirstMatchAt(Mm2Pattern, ScannedText(raw), i)
    ensures NormalizeAwgOrMm2(raw) ==
      GaugeReading(Some(CommaDecimalValue(Mm2At(ScannedText(raw), i).value)), Some("mm2"), raw)
  {
    SearchFindsFirst(Mm2Pattern, ScannedText(raw), i);
  }

  /** Without an mm² reading, the leftmost AWG number is looked up in the table; an unknown one gives no value and unit `awg`. */
  lemma AwgLookup(raw: Option<string>, i: nat)
    requires NoMatch(Mm2Pattern, ScannedText(raw))
    requires FirstMatchAt(AwgPattern, ScannedText(raw), i)
    ensures var n := NatOf(AwgAt(ScannedText(raw), i).value);
      NormalizeAwgOrMm2(raw) ==
        if n in AwgToMm2 then GaugeReading(Some(AwgToMm2[n]), Some("mm2_est"), raw)
        else GaugeReading(None, Some("awg"), raw)
  {
    SearchFindsNothing(Mm2Pattern, ScannedText(raw));
    SearchFindsFirst(AwgPattern, ScannedText(raw), i);
  }

  /** With neither pattern present (`None` and the empty string included) the result is `(None, None, raw)`. */
  lemma NoGauge(raw: Option<string>)
    requires NoMatch(Mm2Pattern, ScannedText(raw)) && NoMatch(AwgPattern, ScannedText(raw))
    ensures NormalizeAwgOrMm2(raw) == GaugeReading(None, None, raw)
  {
    SearchFindsNothing(Mm2Pattern, ScannedText(raw));
    SearchFindsNothing(AwgPattern, ScannedText(raw));
  }

  /** Missing and empty input are handled without error. */
  lemma EmptyInput()
    ensures NormalizeAwgOrMm2(None) == GaugeReading(None, None, None)
    ensures NormalizeAwgOrMm2(Some("")) == GaugeReading(None, None, Some(""))
  {
    assert ScannedText(None) == [];
    assert ScannedText(Some("")) == [];
    NoGauge(None);
    NoGauge(Some(""));
  }

  /** A thinner wire has a larger AWG number: the table decreases strictly. */
  lemma AwgTableDecreasing(a: nat, b: nat)
    requires a in AwgToMm2 && b in AwgToMm2 && a < b
    ensures AwgToMm2[a] > AwgToMm2[b]
  {
  }

  // ---------------------------------------------------------------------
  // Worked examples
  // ---------------------------------------------------------------------

  /** Text without an `m` holds no mm² reading. */
  lemma NoMNoMm2(t: string)
    requires forall i :: 0 <= i < |t| ==> !IsM(t[i])
    ensures NoMatch(Mm2Pattern, t)
  {
  }

  lemma ReadAwgAtStart(t: string, digits: string)
    requires |t| == 6 && LowerChar(t[0]) == 'a' && LowerChar(t[1]) == 'w' && LowerChar(t[2]) == 'g'
    requires t[3] == ' ' && IsDigit(t[4]) && IsDigit(t[5]) && digits == t[4..]
    ensures FirstMatchAt(AwgPattern, t, 0) && AwgAt(t, 0) == Some(digits)
  {
    assert SpaceRun(t, 5) == 0;
    assert SpaceRun(t, 4) == 0;
    assert SpaceRun(t, 3) == 1;
    assert DigitRun(t, 6) == 0;
    assert DigitRun(t, 5) == 1;
    assert DigitRun(t, 4) == 2;
    assert WordEnds(t, 6);
    assert t[4..6] == digits;
    assert LowerChar(t[0]) == 'a' && LowerChar(t[1]) == 'w' && LowerChar(t[2]) == 'g';
    assert AwgAt(t, 0) == Some(t[4..6]);
  }

  /** Text with no whitespace at either end is scanned as it is. */
  lemma ScannedAsIs(t: string)
    requires t != [] && !IsSpace(t[0]) && !IsSpace(t[|t| - 1])
    ensures ScannedText(Some(t)) == t
  {
    assert LeadingSpaces(t) == 0;
    assert TrailingSpaces(t[0..]) == 0 by { assert t[0..] == t; }
  }

  lemma ReadTwoDigits(ds: string, n: nat)
    requires |ds| == 2 && AllDigits(ds) && n == 10 * DigitValue(ds[0]) + DigitValue(ds[1])
    ensures NatOf(ds) == n
  {
    assert ds[..1][..0] == [];
    assert NatOf(ds[..1]) == DigitValue(ds[0]);
    assert ds[..|ds| - 1] == ds[..1];
  }

  /** `AWG nn` with nothing around it reads as AWG `nn`. */
  lemma ReadAwgText(t: string, n: nat)
    requires |t| == 6 && t[..4] == "AWG " && IsDigit(t[4]) && IsDigit(t[5])
    requires n == 10 * DigitValue(t[4]) + DigitValue(t[5])
    ensures NormalizeAwgOrMm2(Some(t)) ==
      if n in AwgToMm2 then GaugeReading(Some(AwgToMm2[n]), Some("mm2_est"), Some(t))
      else GaugeReading(None, Some("awg"), Some(t))
  {
    assert t[0] == 'A' && t[1] == 'W' && t[2] == 'G' && t[3] == ' ';
    ScannedAsIs(t);
    NoMNoMm2(t);
    ReadAwgAtStart(t, t[4..]);
    ReadTwoDigits(t[4..], n);
    AwgLookup(Some(t), 0);
  }

  /** `"AWG 24"` reads as 0.205 mm², estimated from the table. */
  lemma ExampleAwg24(t: string)
    requires t == "AWG 24"
    ensures NormalizeAwgOrMm2(Some(t)) == GaugeReading(Some(0.205), Some("mm2_est"), Some(t))
  {
    assert t[..4] == "AWG " && t[4] == '2' && t[5] == '4';
    ReadAwgText(t, 24);
  }

  /** `"AWG 30"` is outside the table: no value, unit `awg`. */
  lemma ExampleUnknownAwg(t: string)
    requires t == "AWG 30"
    ensures NormalizeAwgOrMm2(Some(t)) == GaugeReading(None, Some("awg"), Some(t))
  {
    assert t[..4] == "AWG " && t[4] == '3' && t[5] == '0';
    ReadAwgText(t, 30);
  }

  lemma ReadCommaNumber(t: string)
    requires t == "0,75 mm\U{B2}"
    ensures FirstMatchAt(Mm2Pattern, t, 0) && Mm2At(t, 0) == Some("0,75")
  {
    assert DigitRun(t, 1) == 0;
    assert DigitRun(t, 0) == 1;
    assert DigitRun(t, 4) == 0;
    assert DigitRun(t, 3) == 1;
    assert DigitRun(t, 2) == 2;
    assert SpaceRun(t, 5) == 0;
    assert SpaceRun(t, 4) == 1;
    assert t[0..4] == "0,75";
  }

  lemma CommaValue()
    ensures CommaDecimalValue("0,75") == 0.75
  {
    var dotted := ReplaceChar("0,75", ',', '.');
    assert dotted == "0.75";
    assert DotIndex(dotted) == 1;
    assert dotted[2..] == "75";
    ReadTwoDigits("75", 75);
    assert NatOf(dotted[..1]) == 0;
    assert Pow10(2) == 100;
  }

  /** `"0,75 mm²"` reads as 0.75 mm², the comma being the decimal point. */
  lemma ExampleCommaMm2(t: string)
    requires t == "0,75 mm\U{B2}"
    ensures NormalizeAwgOrMm2(Some(t)) == GaugeReading(Some(0.75), Some("mm2"), Some(t))
  {
    assert t[0] == '0' && t[|t| - 1] == '\U{B2}';
    ScannedAsIs(t);
    ReadCommaNumber(t);
    Mm2ReadingWins(Some(t), 0);
    CommaValue();
  }
}
