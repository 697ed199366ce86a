/**
 * `_parse_binder_cb_s_260` of src/pdsp/extract.py and its field parsers:
 * the single product of a BINDER CB-S 260 data sheet, with the specs that
 * could be found in the text and none of the others.
 *
 * Each parser is one `re.search` (or `re.findall`); what the pattern
 * captures is an input, so the model starts from the captured strings.
 */
module Binder {
  import opened Strings
  import opened Wrappers
  import opened Records

  /** What the data-sheet patterns capture in the text. */
  datatype BinderMatches = BinderMatches(
    tempRange: Option<(string, string)>,  // `Temperature range: A °C … B °C`
    tempFrom: Option<(string, string)>,   // `from A °C to B °C`
    co2Max: Option<string>,               // the `N` of `CO2 … 0 to N %`
    power: Option<string>,                // the number in front of `kW`
    mmNumbers: seq<string>)               // every `NNN mm`, in text order

  const Celsius: string := "\U{B0}C"
  const EnDash: char := '\U{2013}'

  /** The temperature range as `(pretty, min, max)`; the first pattern is tried first. */
  function TemperatureRange(m: BinderMatches): (r: (Option<string>, Option<real>, Option<real>))
    ensures r.0.Some? == r.1.Some? == r.2.Some?
    ensures r.0.Some? <==> m.tempRange.Some? || m.tempFrom.Some?
    ensures r.0.Some? ==> r.0.value != [] && EnDash in r.0.value
    ensures m.tempRange.Some? ==> r.0 == Some(m.tempRange.value.0 + [EnDash] + m.tempRange.value.1)
    ensures m.tempRange.None? && m.tempFrom.Some? ==> r.0 == Some(m.tempFrom.value.0 + [EnDash] + m.tempFrom.value.1)
    ensures m.tempRange.Some? ==>
      r.1 == Some(NatOf(m.tempRange.value.0) as real) && r.2 == Some(NatOf(m.tempRange.value.1) as real)
    ensures m.tempRange.None? && m.tempFrom.Some? ==>
      r.1 == Some(NatOf(m.tempFrom.value.0) as real) && r.2 == Some(NatOf(m.tempFrom.value.1) as real)
  {
    var c := if m.tempRange.Some? then m.tempRange else m.tempFrom;
    if c.None? then (None, None, None)
    else
      var pretty := c.value.0 + [EnDash] + c.value.1;
      assert pretty[|c.value.0|] == EnDash;
      (Some(pretty), Some(NatOf(c.value.0) as real), Some(NatOf(c.value.1) as real))
  }

  /** `_parse_co2_range`: `"0–N"`. */
  function Co2Range(m: BinderMatches): (r: Option<string>)
    ensures r.Some? <==> m.co2Max.Some?
    ensures r.Some? ==> r.value == "0" + [EnDash] + m.co2Max.value
  {
    if m.co2Max.Some? then Some("0" + [EnDash] + m.co2Max.value) else None
  }

  /** `_parse_nominal_power_kw`: the captured number, a comma read as the decimal point. */
  function NominalPowerKw(m: BinderMatches): (r: Option<real>)
    ensures r.Some? <==> m.power.Some?
    ensures r.Some? ==> r.value == CommaDecimalValue(m.power.value) && r.value >= 0.0
  {
    if m.power.Some? then Some(CommaDecimalValue(m.power.value)) else None
  }

  const DimensionKeys: seq<string> := ["width_mm", "height_mm", "depth_mm"]

  /** `_parse_dimensions_mm`: the first three numbers as width, height and depth, or nothing. */
  function DimensionsMm(nums: seq<string>): (out: seq<(string, real)>)
    ensures out != [] <==> |nums| >= 3
    ensures out != [] ==> |out| == 3
    ensures forall k :: 0 <= k < |out| ==> out[k] == (DimensionKeys[k], NatOf(nums[k]) as real)
  {
    if |nums| >= 3 then
      [("width_mm", NatOf(nums[0]) as real), ("height_mm", NatOf(nums[1]) as real), ("depth_mm", NatOf(nums[2]) as real)]
    else []
  }

  /** The specs of the temperature range, in append order. */
  function TemperatureSpecs(m: BinderMatches): seq<Spec>
  {
    var t := TemperatureRange(m);
    (if t.0.Some? && t.0.value != [] then [Spec("temp_range_c", None, t.0, Some(Celsius), Literal(t.0.value))] else [])
    + (if t.1.Some? then [Spec("temp_min_c", t.1, None, Some(Celsius), Printed(FloatVal(t.1.value), " " + Celsius))] else [])
    + (if t.2.Some? then [Spec("temp_max_c", t.2, None, Some(Celsius), Printed(FloatVal(t.2.value), " " + Celsius))] else [])
  }

  function Co2Specs(m: BinderMatches): seq<Spec>
  {
    var c := Co2Range(m);
    if c.Some? && c.value != [] then
      [Spec("co2_range_percent", None, c, Some("%"), Literal(ReplaceCharBy(c.value, EnDash, " to ")))]
    else []
  }

  function PowerSpecs(m: BinderMatches): seq<Spec>
  {
    var p := NominalPowerKw(m);
    if p.Some? then [Spec("nominal_power_kw", p, None, Some("kW"), Printed(FloatVal(p.value), " kW"))] else []
  }

  /** One spec per dimension pair, in order. */
  function DimensionSpecs(dims: seq<(string, real)>): (specs: seq<Spec>)
    ensures |specs| == |dims|
    decreases |dims|
  {
    if dims == [] then []
    else
      var d := dims[|dims| - 1];
      DimensionSpecs(dims[..|dims| - 1]) + [Spec(d.0, Some(d.1), None, Some("mm"), Printed(FloatVal(d.1), " mm"))]
  }

  function BinderSpecs(m: BinderMatches): seq<Spec>
  {
    TemperatureSpecs(m) + Co2Specs(m) + PowerSpecs(m) + DimensionSpecs(DimensionsMm(m.mmNumbers))
  }

  /** What `_parse_binder_cb_s_260` returns for the data sheet `pdf`. */
  function BinderProducts(pdf: string, m: BinderMatches): seq<Product>
  {
    [Product(Some("BINDER"), Some("CB-S"), Some("CBS260-230V"), None, None, "Model CB-S 260 | CO2 incubator",
      None, None, pdf, [],
      Provenance("binder_cb_s_260_text", Some(["regex across full document; skip missing fields safely"])),
      BinderSpecs(m))]
  }

  /** The loop over the dimension pairs: one `mm` spec each. */
  method AppendDimensions(before: seq<Spec>, dims: seq<(string, real)>) returns (specs: seq<Spec>)
    ensures specs == before + DimensionSpecs(dims)
  {
    specs := before;
    var k := 0;
    while k < |dims|
      invariant 0 <= k <= |dims|
      invariant specs == before + DimensionSpecs(dims[..k])
    {
      var d := dims[k];
      assert dims[..k + 1][..k] == dims[..k];
      specs := specs + [Spec(d.0, Some(d.1), None, Some("mm"), Printed(FloatVal(d.1), " mm"))];
      k := k + 1;
    }
    assert dims[..k] == dims;
  }

  /** `_parse_binder_cb_s_260`: appends each spec that was found, then wraps them in the one product. */
  method ParseBinderCbS260(pdf: string, m: BinderMatches) returns (products: seq<Product>)
    ensures products == BinderProducts(pdf, m)
  {
    var specs: seq<Spec> := [];
    var t := TemperatureRange(m);
    var pretty, tmin, tmax := t.0, t.1, t.2;
    if pretty.Some? && pretty.value != [] {
      specs := specs + [Spec("temp_range_c", None, pretty, Some(Celsius), Literal(pretty.value))];
    }
    if tmin.Some? {
      specs := specs + [Spec("temp_min_c", tmin, None, Some(Celsius), Printed(FloatVal(tmin.value), " " + Celsius))];
    }
    if tmax.Some? {
      specs := specs + [Spec("temp_max_c", tmax, None, Some(Celsius), Printed(FloatVal(tmax.value), " " + Celsius))];
    }
    assert specs == TemperatureSpecs(m);
    var co2 := Co2Range(m);
    if co2.Some? && co2.value != [] {
      specs := specs + [Spec("co2_range_percent", None, co2, Some("%"), Literal(ReplaceCharBy(co2.value, EnDash, " to ")))];
    }
    assert specs == TemperatureSpecs(m) + Co2Specs(m);
    var pkw := NominalPowerKw(m);
    if pkw.Some? {
      specs := specs + [Spec("nominal_power_kw", pkw, None, Some("kW"), Printed(FloatVal(pkw.value), " kW"))];
    }
    assert specs == TemperatureSpecs(m) + Co2Specs(m) + PowerSpecs(m);
    specs := AppendDimensions(specs, DimensionsMm(m.mmNumbers));
    products := [Product(Some("BINDER"), Some("CB-S"), Some("CBS260-230V"), None, None, "Model CB-S 260 | CO2 incubator",
      None, None, pdf, [],
      Provenance("binder_cb_s_260_text", Some(["regex across full document; skip missing fields safely"])),
      specs)];
  }

  // ---------------------------------------------------------------------
  // Properties
  // ---------------------------------------------------------------------

  const TemperatureKeys: seq<string> := ["temp_range_c", "temp_min_c", "temp_max_c"]

  /** The full key order of the data-sheet specs. */
  const BinderKeyOrder: seq<string> := TemperatureKeys + ["co2_range_percent", "nominal_power_kw"] + DimensionKeys

  lemma {:induction false} DimensionSpecsKeys(dims: seq<(string, real)>)
    ensures Keys(DimensionSpecs(dims)) == seq(|dims|, k requires 0 <= k < |dims| => dims[k].0)
    ensures forall s :: s in DimensionSpecs(dims) ==> WellFormedSpec(s)
    decreases |dims|
  {
    if dims != [] {
      DimensionSpecsKeys(dims[..|dims| - 1]);
    }
  }

  /** Which specs a data sheet gets: the whole temperature triple or none of it, the CO2 range, the power, and all three dimensions or none. */
  lemma BinderKeys(m: BinderMatches)
    ensures Keys(BinderSpecs(m)) ==
      (if m.tempRange.Some? || m.tempFrom.Some? then TemperatureKeys else [])
      + (if m.co2Max.Some? then ["co2_range_percent"] else [])
      + (if m.power.Some? then ["nominal_power_kw"] else [])
      + (if |m.mmNumbers| >= 3 then DimensionKeys else [])
  {
    var dims := DimensionsMm(m.mmNumbers);
    DimensionSpecsKeys(dims);
    assert Keys(DimensionSpecs(dims)) == (if |m.mmNumbers| >= 3 then DimensionKeys else []);
    TemperatureSpecsKeys(m);
    assert Keys(Co2Specs(m)) == (if m.co2Max.Some? then ["co2_range_percent"] else []);
    assert Keys(PowerSpecs(m)) == (if m.power.Some? then ["nominal_power_kw"] else []);
    KeysAppend(TemperatureSpecs(m) + Co2Specs(m) + PowerSpecs(m), DimensionSpecs(dims));
    KeysAppend(TemperatureSpecs(m) + Co2Specs(m), PowerSpecs(m));
    KeysAppend(TemperatureSpecs(m), Co2Specs(m));
  }

  /** The specs always come in the key order of the data sheet, each key at most once. */
  lemma BinderKeysInOrder(m: BinderMatches)
    ensures IsSubsequence(Keys(BinderSpecs(m)), BinderKeyOrder)
  {
    BinderKeys(m);
    var t := if m.tempRange.Some? || m.tempFrom.Some? then TemperatureKeys else [];
    var c := if m.co2Max.Some? then ["co2_range_percent"] else [];
    var p := if m.power.Some? then ["nominal_power_kw"] else [];
    var d := if |m.mmNumbers| >= 3 then DimensionKeys else [];
    SubsequenceOfAllOrNone(t, TemperatureKeys);
    SubsequenceOfAllOrNone(c, ["co2_range_percent"]);
    SubsequenceOfAllOrNone(p, ["nominal_power_kw"]);
    SubsequenceOfAllOrNone(d, DimensionKeys);
    SubsequenceConcat(t, TemperatureKeys, c, ["co2_range_percent"]);
    SubsequenceConcat(t + c, TemperatureKeys + ["co2_range_percent"], p, ["nominal_power_kw"]);
    SubsequenceConcat(t + c + p, TemperatureKeys + ["co2_range_percent"] + ["nominal_power_kw"], d, DimensionKeys);
    assert TemperatureKeys + ["co2_range_percent"] + ["nominal_power_kw"] + DimensionKeys == BinderKeyOrder;
  }

  lemma SectionsWellFormed(m: BinderMatches)
    ensures WellFormedSpecs(TemperatureSpecs(m))
    ensures WellFormedSpecs(Co2Specs(m))
    ensures WellFormedSpecs(PowerSpecs(m))
  {
  }

  /** Every data-sheet spec carries exactly one of a number and a text. */
  lemma BinderWellFormed(pdf: string, m: BinderMatches)
    ensures |BinderProducts(pdf, m)| == 1
    ensures WellFormedProducts(BinderProducts(pdf, m))
  {
    DimensionSpecsKeys(DimensionsMm(m.mmNumbers));
    var b := DimensionSpecs(DimensionsMm(m.mmNumbers));
    assert WellFormedSpecs(b) by {
      forall i | 0 <= i < |b|
        ensures WellFormedSpec(b[i])
      {
        assert b[i] in b;
      }
    }
    SectionsWellFormed(m);
    WellFormedAppend(TemperatureSpecs(m), Co2Specs(m));
    WellFormedAppend(TemperatureSpecs(m) + Co2Specs(m), PowerSpecs(m));
    WellFormedAppend(TemperatureSpecs(m) + Co2Specs(m) + PowerSpecs(m), b);
    assert BinderProducts(pdf, m)[0].specs == BinderSpecs(m);
  }

  /** The `raw` text of the CO2 spec reads `0 to N`. */
  lemma Co2Raw(m: BinderMatches)
    requires m.co2Max.Some? && AllDigits(m.co2Max.value)
    ensures Co2Specs(m) != [] && Co2Specs(m)[0].raw == Literal("0 to " + m.co2Max.value)
  {
    var n := m.co2Max.value;
    var s := "0" + [EnDash] + n;
    assert Co2Range(m) == Some(s);
    assert forall j :: 0 <= j < |n| ==> n[j] != EnDash;
    assert ReplaceCharBy(n, EnDash, " to ") == n;
    assert s[1..][1..] == n;
    assert ReplaceCharBy(s[1..], EnDash, " to ") == " to " + n;
    assert s[0] == '0' && s[0] != EnDash;
    assert ReplaceCharBy(s, EnDash, " to ") == "0" + ReplaceCharBy(s[1..], EnDash, " to ");
    assert "0" + (" to " + n) == "0 to " + n;
  }

  /** The range text splits back, at its only en dash, into the two captured numbers. */
  lemma TemperatureTextSplits(a: string, b: string)
    requires AllDigits(a) && AllDigits(b)
    ensures var t := a + [EnDash] + b;
      t[..|a|] == a && t[|a|] == EnDash && t[|a| + 1..] == b &&
      forall j :: 0 <= j < |t| && j != |a| ==> t[j] != EnDash
  {
    var t := a + [EnDash] + b;
    assert forall j :: 0 <= j < |a| ==> t[j] == a[j];
    assert forall j :: |a| < j < |t| ==> t[j] == b[j - |a| - 1];
  }

  /** A power written `w,f` or `w.f` is read as the same decimal number. */
  lemma PowerDecimal(m: BinderMatches, w: string, f: string)
    requires AllDigits(w) && AllDigits(f)
    requires m.power == Some(w + "," + f) || m.power == Some(w + "." + f)
    ensures NominalPowerKw(m) == Some(NatOf(w) as real + Fraction(f))
  {
    CommaDecimalSplit(w, f);
    DecimalSplit(w, f);
    var t := w + "." + f;
    assert forall i :: 0 <= i < |t| ==> t[i] != ',' by {
      forall i | 0 <= i < |t| ensures t[i] != ',' {
        if i < |w| { assert t[i] == w[i]; } else if i > |w| { assert t[i] == f[i - |w| - 1]; }
      }
    }
  }

  /** A whole-number power reads as its integer value. */
  lemma PowerWhole(m: BinderMatches)
    requires m.power.Some? && AllDigits(m.power.value)
    ensures NominalPowerKw(m) == Some(NatOf(m.power.value) as real)
  {
    DigitsAreWhole(m.power.value);
  }

  /** The capture the temperature text comes from: the first pattern's, else the second's. */
  function TempCapture(m: BinderMatches): Option<(string, string)>
  {
    if m.tempRange.Some? then m.tempRange else m.tempFrom
  }

  /** What a spec of the data sheet holds, by its key, in terms of the captures. */
  ghost predicate BinderValueOk(m: BinderMatches, s: Spec)
  {
    var c := TempCapture(m);
    (s.key == "temp_range_c" ==> c.Some? && s.text == Some(c.value.0 + [EnDash] + c.value.1) && s.unit == Some(Celsius)) &&
    (s.key == "temp_min_c" ==> c.Some? && s.num == Some(NatOf(c.value.0) as real) && s.unit == Some(Celsius)) &&
    (s.key == "temp_max_c" ==> c.Some? && s.num == Some(NatOf(c.value.1) as real) && s.unit == Some(Celsius)) &&
    (s.key == "co2_range_percent" ==> m.co2Max.Some? && s.text == Some("0" + [EnDash] + m.co2Max.value) && s.unit == Some("%")) &&
    (s.key == "nominal_power_kw" ==> m.power.Some? && s.num == Some(CommaDecimalValue(m.power.value)) && s.unit == Some("kW")) &&
    (s.key == "width_mm" ==> |m.mmNumbers| >= 3 && s.num == Some(NatOf(m.mmNumbers[0]) as real) && s.unit == Some("mm")) &&
    (s.key == "height_mm" ==> |m.mmNumbers| >= 3 && s.num == Some(NatOf(m.mmNumbers[1]) as real) && s.unit == Some("mm")) &&
    (s.key == "depth_mm" ==> |m.mmNumbers| >= 3 && s.num == Some(NatOf(m.mmNumbers[2]) as real) && s.unit == Some("mm"))
  }

  lemma TemperatureValues(m: BinderMatches)
    ensures forall s :: s in TemperatureSpecs(m) ==> BinderValueOk(m, s)
  {
  }

  lemma Co2PowerValues(m: BinderMatches)
    ensures forall s :: s in Co2Specs(m) + PowerSpecs(m) ==> BinderValueOk(m, s)
  {
  }

  lemma DimensionValues(m: BinderMatches)
    ensures forall s :: s in DimensionSpecs(DimensionsMm(m.mmNumbers)) ==> BinderValueOk(m, s)
  {
    var dims := DimensionsMm(m.mmNumbers);
    var d := DimensionSpecs(dims);
    forall s | s in d
      ensures BinderValueOk(m, s)
    {
      var k :| 0 <= k < |d| && d[k] == s;
      DimensionSpecsAt(dims, k);
      assert dims[k] == (DimensionKeys[k], NatOf(m.mmNumbers[k]) as real);
    }
  }

  /** The `k`-th dimension spec is built from the `k`-th pair. */
  lemma {:induction false} DimensionSpecsAt(dims: seq<(string, real)>, k: nat)
    requires k < |dims|
    ensures DimensionSpecs(dims)[k] == Spec(dims[k].0, Some(dims[k].1), None, Some("mm"), Printed(FloatVal(dims[k].1), " mm"))
    decreases |dims|
  {
    var front := dims[..|dims| - 1];
    if k < |dims| - 1 {
      DimensionSpecsAt(front, k);
    }
  }

  /** Every spec of the product holds the value the source derives for its key from the captures. */
  lemma BinderSpecValues(pdf: string, m: BinderMatches)
    ensures forall s :: s in BinderProducts(pdf, m)[0].specs ==> BinderValueOk(m, s)
  {
    var t, c, p, d := TemperatureSpecs(m), Co2Specs(m), PowerSpecs(m), DimensionSpecs(DimensionsMm(m.mmNumbers));
    TemperatureValues(m);
    Co2PowerValues(m);
    DimensionValues(m);
    assert BinderProducts(pdf, m)[0].specs == t + c + p + d;
    forall s | s in t + c + p + d
      ensures BinderValueOk(m, s)
    {
      if s in t {
      } else if s in c + p {
      } else {
        assert s in d;
      }
    }
  }

  lemma TemperatureSpecsKeys(m: BinderMatches)
    ensures Keys(TemperatureSpecs(m)) == if m.tempRange.Some? || m.tempFrom.Some? then TemperatureKeys else []
  {
  }

  lemma KeysAppend(a: seq<Spec>, b: seq<Spec>)
    ensures Keys(a + b) == Keys(a) + Keys(b)
  {
  }

  lemma SubsequenceOfAllOrNone(xs: seq<string>, ys: seq<string>)
    requires xs == [] || xs == ys
    ensures IsSubsequence(xs, ys)
  {
    if xs == ys {
      SubsequenceReflexive(ys);
    }
  }
}
