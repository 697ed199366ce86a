/**
 * `_parse_technical_info_pdf` of src/pdsp/extract.py: the single
 * "Reference Data" product of a technical-information document, with one
 * spec per AWG/mm² pair, two per material temperature range and one per
 * voltage note, in that order.
 *
 * The three `re.finditer` scans are not re-implemented: their matches are
 * inputs, in text order, each with its captured groups and the whole match.
 */
module TechInfo {
  import opened Strings
  import opened Wrappers
  import opened Records
  import opened Lists

  /** One `AWG n = x mm` match: the AWG number, the mm² number, and the whole match. */
  datatype AwgMatch = AwgMatch(awg: string, mm2: string, raw: string)

  /** One `PVC: -25 °C … +70 °C` match: the material as written, the two bounds (optionally signed), and the whole match. */
  datatype MaterialMatch = MaterialMatch(material: string, low: string, high: string, raw: string)

  /** One `bis N V` / `up to N V` match. */
  datatype VoltageMatch = VoltageMatch(volts: string, raw: string)

  datatype TechMatches = TechMatches(awg: seq<AwgMatch>, materials: seq<MaterialMatch>, voltages: seq<VoltageMatch>)

  /** `f"awg_{int(n)}_mm2"`. */
  function AwgKey(awg: string): string
  {
    "awg_" + NatToString(NatOf(awg)) + "_mm2"
  }

  function AwgSpec(m: AwgMatch): (s: Spec)
    ensures s.key == AwgKey(m.awg) && s.num == Some(CommaDecimalValue(m.mm2)) && WellFormedSpec(s)
  {
    Spec(AwgKey(m.awg), Some(CommaDecimalValue(m.mm2)), None, Some("mm2"), Literal(m.raw))
  }

  /** `m.group(1).upper()`, then `.lower()` for the key. */
  function MaterialName(material: string): string
  {
    Lower(Upper(material))
  }

  const Celsius: string := "\U{B0}C"

  function MinSpec(m: MaterialMatch): (s: Spec)
    ensures s.key == MaterialName(m.material) + "_temp_min_c" && s.num == Some(SignedValue(m.low) as real)
    ensures WellFormedSpec(s)
  {
    Spec(MaterialName(m.material) + "_temp_min_c", Some(SignedValue(m.low) as real), None, Some(Celsius), Literal(m.raw))
  }

  function MaxSpec(m: MaterialMatch): (s: Spec)
    ensures s.key == MaterialName(m.material) + "_temp_max_c" && s.num == Some(SignedValue(m.high) as real)
    ensures WellFormedSpec(s)
  {
    Spec(MaterialName(m.material) + "_temp_max_c", Some(SignedValue(m.high) as real), None, Some(Celsius), Literal(m.raw))
  }

  /** The two specs of each material match, in match order. */
  function MaterialSpecs(ms: seq<MaterialMatch>): (specs: seq<Spec>)
    ensures |specs| == 2 * |ms|
    decreases |ms|
  {
    if ms == [] then []
    else MaterialSpecs(ms[..|ms| - 1]) + [MinSpec(ms[|ms| - 1]), MaxSpec(ms[|ms| - 1])]
  }

  function VoltageSpec(m: VoltageMatch): (s: Spec)
    ensures s.key == "reference_voltage_v" && s.num == Some(NatOf(m.volts) as real) && WellFormedSpec(s)
  {
    Spec("reference_voltage_v", Some(NatOf(m.volts) as real), None, Some("V"), Literal(m.raw))
  }

  /** One spec per AWG pair, two per material range, one per voltage note. */
  function TechSpecs(t: TechMatches): (specs: seq<Spec>)
    ensures |specs| == |t.awg| + 2 * |t.materials| + |t.voltages|
  {
    MapSeqLength(AwgSpec, t.awg);
    MapSeqLength(VoltageSpec, t.voltages);
    MapSeq(AwgSpec, t.awg) + MaterialSpecs(t.materials) + MapSeq(VoltageSpec, t.voltages)
  }

  /** The reference product around the specs; its texts say whether anything was found. */
  function ReferenceProduct(pdf: string, specs: seq<Spec>): Product
  {
    Product(None, Some("Reference Data"), None, None, None,
      if specs != [] then "General Technical Information" else "General Technical Information (empty)",
      Some(if specs != [] then "Extracted normalization reference values" else "No reference specs were parsed from this document"),
      None, pdf, [],
      Provenance("technical_info_regex", Some(if specs != [] then ["reference lookup data"] else ["no matches found"])),
      specs)
  }

  /** What `_parse_technical_info_pdf` returns for the document `pdf`. */
  function TechProducts(pdf: string, t: TechMatches): seq<Product>
  {
    [ReferenceProduct(pdf, TechSpecs(t))]
  }

  /** The scan for AWG/mm² pairs: one spec per match. */
  method AppendAwgSpecs(before: seq<Spec>, ms: seq<AwgMatch>) returns (specs: seq<Spec>)
    ensures specs == before + MapSeq(AwgSpec, ms)
  {
    specs := before;
    var i := 0;
    while i < |ms|
      invariant 0 <= i <= |ms|
      invariant specs == before + MapSeq(AwgSpec, ms[..i])
    {
      var m := ms[i];
      var awgNum := NatOf(m.awg);
      var mm2 := CommaDecimalValue(m.mm2);
      assert ms[..i + 1][..i] == ms[..i];
      specs := specs + [Spec("awg_" + NatToString(awgNum) + "_mm2", Some(mm2), None, Some("mm2"), Literal(m.raw))];
      i := i + 1;
    }
    assert ms[..i] == ms;
  }

  /** The scan for material temperature ranges: a minimum and a maximum spec per match. */
  method AppendMaterialSpecs(before: seq<Spec>, ms: seq<MaterialMatch>) returns (specs: seq<Spec>)
    ensures specs == before + MaterialSpecs(ms)
  {
    specs := before;
    var j := 0;
    while j < |ms|
      invariant 0 <= j <= |ms|
      invariant specs == before + MaterialSpecs(ms[..j])
    {
      var m := ms[j];
      var mat := Upper(m.material);
      var tmin, tmax := SignedValue(m.low), SignedValue(m.high);
      assert ms[..j + 1][..j] == ms[..j];
      specs := specs + [Spec(Lower(mat) + "_temp_min_c", Some(tmin as real), None, Some(Celsius), Literal(m.raw))];
      specs := specs + [Spec(Lower(mat) + "_temp_max_c", Some(tmax as real), None, Some(Celsius), Literal(m.raw))];
      j := j + 1;
    }
    assert ms[..j] == ms;
  }

  /** The scan for voltage notes: one spec per match. */
  method AppendVoltageSpecs(before: seq<Spec>, ms: seq<VoltageMatch>) returns (specs: seq<Spec>)
    ensures specs == before + MapSeq(VoltageSpec, ms)
  {
    specs := before;
    var k := 0;
    while k < |ms|
      invariant 0 <= k <= |ms|
      invariant specs == before + MapSeq(VoltageSpec, ms[..k])
    {
      var m := ms[k];
      assert ms[..k + 1][..k] == ms[..k];
      specs := specs + [Spec("reference_voltage_v", Some(NatOf(m.volts) as real), None, Some("V"), Literal(m.raw))];
      k := k + 1;
    }
    assert ms[..k] == ms;
  }

  /** `_parse_technical_info_pdf`: the three scans append their specs, then the one product is built. */
  method ParseTechnicalInfoPdf(pdf: string, t: TechMatches) returns (products: seq<Product>)
    ensures products == TechProducts(pdf, t)
  {
    var specs := AppendAwgSpecs([], t.awg);
    assert specs == MapSeq(AwgSpec, t.awg);
    specs := AppendMaterialSpecs(specs, t.materials);
    specs := AppendVoltageSpecs(specs, t.voltages);
    var found := |specs| > 0;
    products := [Product(None, Some("Reference Data"), None, None, None,
      if found then "General Technical Information" else "General Technical Information (empty)",
      Some(if found then "Extracted normalization reference values" else "No reference specs were parsed from this document"),
      None, pdf, [],
      Provenance("technical_info_regex", Some(if found then ["reference lookup data"] else ["no matches found"])),
      specs)];
  }

  // ---------------------------------------------------------------------
  // Properties
  // ---------------------------------------------------------------------

  /** Each material match contributes its minimum and then its maximum, at positions `2j` and `2j + 1`. */
  lemma {:induction false} MaterialSpecsAt(ms: seq<MaterialMatch>, j: nat)
    requires j < |ms|
    ensures MaterialSpecs(ms)[2 * j] == MinSpec(ms[j]) && MaterialSpecs(ms)[2 * j + 1] == MaxSpec(ms[j])
    decreases |ms|
  {
    var front := ms[..|ms| - 1];
    if j < |ms| - 1 {
      MaterialSpecsAt(front, j);
    } else if front != [] {
      MaterialSpecsAt(front, 0);
    }
  }

  /** The specs start with the AWG pairs, in match order. */
  lemma AwgSpecsFirst(t: TechMatches)
    ensures forall i :: 0 <= i < |t.awg| ==> TechSpecs(t)[i] == AwgSpec(t.awg[i])
  {
    MapSeqLength(AwgSpec, t.awg);
    var a := MapSeq(AwgSpec, t.awg);
    var rest := MaterialSpecs(t.materials) + MapSeq(VoltageSpec, t.voltages);
    assert TechSpecs(t) == a + rest;
    forall i | 0 <= i < |t.awg|
      ensures TechSpecs(t)[i] == AwgSpec(t.awg[i])
    {
      MapSeqAt(AwgSpec, t.awg, i);
      assert (a + rest)[i] == a[i];
    }
  }

  /** The two notes one material match contributes, after the gauge notes. */
  lemma MaterialSpecsNextAt(t: TechMatches, j: nat)
    requires j < |t.materials|
    ensures TechSpecs(t)[|t.awg| + 2 * j] == MinSpec(t.materials[j])
    ensures TechSpecs(t)[|t.awg| + 2 * j + 1] == MaxSpec(t.materials[j])
  {
    MapSeqLength(AwgSpec, t.awg);
    var a := MapSeq(AwgSpec, t.awg);
    var b := MaterialSpecs(t.materials);
    var c := MapSeq(VoltageSpec, t.voltages);
    var front := a + b;
    assert TechSpecs(t) == front + c;
    MaterialSpecsAt(t.materials, j);
    assert front[|a| + 2 * j] == b[2 * j];
    assert front[|a| + 2 * j + 1] == b[2 * j + 1];
  }

  /** Then each material's minimum and maximum, in match order. */
  lemma MaterialSpecsNext(t: TechMatches)
    ensures forall j :: 0 <= j < |t.materials| ==>
      TechSpecs(t)[|t.awg| + 2 * j] == MinSpec(t.materials[j]) &&
      TechSpecs(t)[|t.awg| + 2 * j + 1] == MaxSpec(t.materials[j])
  {
    forall j | 0 <= j < |t.materials|
      ensures TechSpecs(t)[|t.awg| + 2 * j] == MinSpec(t.materials[j])
      ensures TechSpecs(t)[|t.awg| + 2 * j + 1] == MaxSpec(t.materials[j])
    {
      MaterialSpecsNextAt(t, j);
    }
  }

  /** And last the voltage notes, in match order. */
  lemma VoltageSpecsLast(t: TechMatches)
    ensures forall k :: 0 <= k < |t.voltages| ==>
      TechSpecs(t)[|t.awg| + 2 * |t.materials| + k] == VoltageSpec(t.voltages[k])
  {
    MapSeqLength(AwgSpec, t.awg);
    MapSeqLength(VoltageSpec, t.voltages);
    var front := MapSeq(AwgSpec, t.awg) + MaterialSpecs(t.materials);
    var c := MapSeq(VoltageSpec, t.voltages);
    assert TechSpecs(t) == front + c;
    forall k | 0 <= k < |t.voltages|
      ensures TechSpecs(t)[|t.awg| + 2 * |t.materials| + k] == VoltageSpec(t.voltages[k])
    {
      MapSeqAt(VoltageSpec, t.voltages, k);
      assert (front + c)[|front| + k] == c[k];
    }
  }

  /** Always exactly one product; it is the "empty" variant exactly when no scan matched. */
  lemma AlwaysOneReferenceProduct(pdf: string, t: TechMatches)
    ensures |TechProducts(pdf, t)| == 1
    ensures TechProducts(pdf, t)[0].family == Some("Reference Data")
    ensures TechProducts(pdf, t)[0].productName == "General Technical Information (empty)" <==>
      t.awg == [] && t.materials == [] && t.voltages == []
    ensures TechProducts(pdf, t)[0].specs == [] <==> t.awg == [] && t.materials == [] && t.voltages == []
  {
  }

  /** Every reference spec is numeric, so every spec is well formed. */
  lemma TechWellFormed(pdf: string, t: TechMatches)
    ensures WellFormedProducts(TechProducts(pdf, t))
  {
    var a := MapSeq(AwgSpec, t.awg);
    var b := MaterialSpecs(t.materials);
    var c := MapSeq(VoltageSpec, t.voltages);
    AwgSpecsWellFormed(t.awg);
    MaterialSpecsWellFormed(t.materials);
    VoltageSpecsWellFormed(t.voltages);
    WellFormedAppend(a, b);
    WellFormedAppend(a + b, c);
    assert TechSpecs(t) == a + b + c;
  }

  lemma AwgSpecsWellFormed(ms: seq<AwgMatch>)
    ensures WellFormedSpecs(MapSeq(AwgSpec, ms))
  {
    MapSeqLength(AwgSpec, ms);
    var a := MapSeq(AwgSpec, ms);
    forall i | 0 <= i < |a|
      ensures WellFormedSpec(a[i])
    {
      MapSeqAt(AwgSpec, ms, i);
    }
  }

  lemma MaterialSpecsWellFormed(ms: seq<MaterialMatch>)
    ensures WellFormedSpecs(MaterialSpecs(ms))
  {
    var b := MaterialSpecs(ms);
    forall i | 0 <= i < |b|
      ensures WellFormedSpec(b[i])
    {
      MaterialSpecsAt(ms, i / 2);
      assert i == 2 * (i / 2) || i == 2 * (i / 2) + 1;
    }
  }

  lemma VoltageSpecsWellFormed(ms: seq<VoltageMatch>)
    ensures WellFormedSpecs(MapSeq(VoltageSpec, ms))
  {
    MapSeqLength(VoltageSpec, ms);
    var c := MapSeq(VoltageSpec, ms);
    forall i | 0 <= i < |c|
      ensures WellFormedSpec(c[i])
    {
      MapSeqAt(VoltageSpec, ms, i);
    }
  }

  /** `int` drops leading zeros: `AWG 07` and `AWG 7` give the same key. */
  lemma AwgKeyCanonical(awg: string)
    ensures AwgKey(NatToString(NatOf(awg))) == AwgKey(awg)
  {
    NatToStringRoundTrip(NatOf(awg));
  }

  /** The material is matched case-insensitively, and its spelling does not change the keys. */
  lemma MaterialKeysIgnoreCase(a: MaterialMatch, b: MaterialMatch)
    requires Upper(a.material) == Upper(b.material)
    ensures MinSpec(a).key == MinSpec(b).key && MaxSpec(a).key == MaxSpec(b).key
  {
  }
}
