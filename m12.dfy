/**
 * `_parse_m12_catalog` of src/pdsp/extract.py: one product per ordering
 * code of an M12 connector catalogue, each carrying the series label
 * nearest to the code and the spec fields scraped around it.
 *
 * Finding the ordering codes (`_find_all_ordering_codes`, a `finditer`
 * over the whole text) is not re-implemented: the matches are an input,
 * in text order, each with its start index, its matched text and what the
 * label patterns capture in the window around it.
 */
module M12 {
  import opened Strings
  import opened Wrappers
  import opened Records
  import opened Nearby
  import Series
  import opened Lists

  /** One ordering-code match: `m.start()`, `m.group(0)`, and the captures around it. */
  datatype CodeMatch = CodeMatch(start: nat, raw: string, nearby: NearbyMatches)

  /** `" ".join(re.findall(r"\d{2,4}", code_raw))`. */
  function NormalizeCode(raw: string): (code: string)
    ensures SpacedDigits(code)
    ensures exists cs :: DigitGroups(cs, 4) && code == Join(" ", cs)
  {
    JoinedGroups(DigitChunks(raw, 4, 0), 4);
    assert DigitGroups(DigitChunks(raw, 4, 0), 4);
    Join(" ", DigitChunks(raw, 4, 0))
  }

  /** The series label nearest to the code within 400 characters, or the combined label when there is none. */
  function FamilyOf(text: string, start: nat): (family: string)
    ensures family in {"713", "763", Series.Combined}
  {
    Series.LabelSet(text, start, 400);
    Series.NearestSeriesOf(text, start, 400).GetOr(Series.Combined)
  }

  /** The spec of one field: numbers as `spec_value_num`, text as `spec_value_text`; `raw` is `str(v)`. */
  function SpecOf(f: Field, v: Value): (s: Spec)
    ensures s.key == Name(f) && WellFormedSpec(s) && s.unit.None?
    ensures v.IsNumber() ==> s.num == Some(v.AsReal())
    ensures !v.IsNumber() ==> s.text == Some(v.s)
  {
    if v.IsNumber() then Spec(Name(f), Some(v.AsReal()), None, None, Printed(v, ""))
    else Spec(Name(f), None, Some(v.s), None, Literal(v.s))
  }

  /** The spec every variant ends with. */
  const Coding: Spec := Spec("coding", None, Some("M12 A"), None, Literal("M12 A"))

  /** The specs of the fields `fs` present in `d`, in the order of `fs`. */
  function FieldSpecs(d: map<Field, Value>, fs: seq<Field>): seq<Spec>
    decreases |fs|
  {
    if fs == [] then []
    else
      var f := fs[|fs| - 1];
      FieldSpecs(d, fs[..|fs| - 1]) + (if f in d then [SpecOf(f, d[f])] else [])
  }

  /** The specs of one variant: the scraped fields in their fixed order, then the coding. */
  function CodeSpecs(d: map<Field, Value>): seq<Spec>
  {
    FieldSpecs(d, FieldOrder) + [Coding]
  }

  /** The product of one code, given its family and the scraped dictionary. */
  function Variant(pdf: string, family: string, raw: string, d: map<Field, Value>): Product
  {
    Product(None, Some(family), None, None, Some(NormalizeCode(raw)), "M12 cable connector (variant)", None, None,
      pdf, [], Provenance("m12_catalog_regex_allpages", Some(["per-code neighborhood features"])), CodeSpecs(d))
  }

  function CodeProduct(pdf: string, text: string, c: CodeMatch): Product
  {
    Variant(pdf, FamilyOf(text, c.start), c.raw, NearbyFields(c.nearby))
  }

  /** The single record returned when the catalogue has no ordering code. */
  function Fallback(pdf: string): Product
  {
    Product(None, Some("M12 Series"), None, None, None, "M12 connector (catalog fallback)",
      Some("No ordering codes found by regex"), None, pdf, [],
      Provenance("m12_catalog_regex_allpages", Some(["no codes found"])), [])
  }

  /** The record of each code, as a function of the code. */
  function Coder(pdf: string, text: string): CodeMatch -> Product
  {
    c => CodeProduct(pdf, text, c)
  }

  /** What `_parse_m12_catalog` returns for the code matches `codes` of `text`. */
  function M12Products(pdf: string, text: string, codes: seq<CodeMatch>): seq<Product>
  {
    if codes == [] then [Fallback(pdf)] else MapSeq(Coder(pdf, text), codes)
  }

  /** The spec loop over the fixed key order, then the coding spec. */
  method BuildSpecs(d: map<Field, Value>) returns (specs: seq<Spec>)
    ensures specs == CodeSpecs(d)
  {
    specs := [];
    var k := 0;
    while k < |FieldOrder|
      invariant 0 <= k <= |FieldOrder|
      invariant specs == FieldSpecs(d, FieldOrder[..k])
    {
      var f := FieldOrder[k];
      assert FieldOrder[..k + 1][..k] == FieldOrder[..k];
      if f in d {
        var v := d[f];
        if v.IsNumber() {
          specs := specs + [Spec(Name(f), Some(v.AsReal()), None, None, Printed(v, ""))];
        } else {
          specs := specs + [Spec(Name(f), None, Some(v.s), None, Literal(v.s))];
        }
      }
      k := k + 1;
    }
    assert FieldOrder[..|FieldOrder|] == FieldOrder;
    specs := specs + [Spec("coding", None, Some("M12 A"), None, Literal("M12 A"))];
  }

  /** The body of the loop over the codes: the record of one code. */
  method BuildVariant(pdf: string, text: string, c: CodeMatch) returns (p: Product)
    ensures p == CodeProduct(pdf, text, c)
  {
    var normalized := Join(" ", DigitChunks(c.raw, 4, 0));
    var series := Series.NearestSeries(text, c.start, 400);
    var family := if series.Some? then series.value else Series.Combined;
    var nearby := ExtractNearbyKv(c.nearby);
    var specs := BuildSpecs(nearby);
    p := Product(None, Some(family), None, None, Some(normalized), "M12 cable connector (variant)",
      None, None, pdf, [], Provenance("m12_catalog_regex_allpages", Some(["per-code neighborhood features"])), specs);
  }

  /** The loop over the codes: one record per code, in order. */
  method BuildVariants(pdf: string, text: string, codes: seq<CodeMatch>) returns (products: seq<Product>)
    ensures products == MapSeq(Coder(pdf, text), codes)
  {
    products := [];
    var i := 0;
    while i < |codes|
      invariant 0 <= i <= |codes|
      invariant products == MapSeq(Coder(pdf, text), codes[..i])
    {
      var p := BuildVariant(pdf, text, codes[i]);
      assert codes[..i + 1][..i] == codes[..i];
      assert codes[..i + 1][i] == codes[i];
      assert MapSeq(Coder(pdf, text), codes[..i + 1]) == products + [Coder(pdf, text)(codes[i])];
      assert Coder(pdf, text)(codes[i]) == p;
      products := products + [p];
      i := i + 1;
    }
    assert codes[..i] == codes;
  }

  /** `_parse_m12_catalog`: the fallback record, or one record per code in text order. */
  method ParseM12Catalog(pdf: string, text: string, codes: seq<CodeMatch>) returns (products: seq<Product>)
    ensures products == M12Products(pdf, text, codes)
  {
    if |codes| == 0 {
      return [Fallback(pdf)];
    }
    products := BuildVariants(pdf, text, codes);
  }

  // ---------------------------------------------------------------------
  // Properties
  // ---------------------------------------------------------------------

  /** Without ordering codes the result is the one fallback record, with no specs. */
  lemma NoCodesFallback(pdf: string, text: string)
    ensures |M12Products(pdf, text, [])| == 1
    ensures M12Products(pdf, text, [])[0].orderingCode.None? && M12Products(pdf, text, [])[0].specs == []
    ensures M12Products(pdf, text, [])[0].sourcePdf == pdf
  {
  }

  /** The record of one code carries its normalised code and a series label. */
  lemma CodeProductShape(pdf: string, text: string, c: CodeMatch)
    ensures CodeProduct(pdf, text, c).orderingCode == Some(NormalizeCode(c.raw))
    ensures CodeProduct(pdf, text, c).family == Some(FamilyOf(text, c.start))
    ensures CodeProduct(pdf, text, c).specs == CodeSpecs(NearbyFields(c.nearby))
    ensures CodeProduct(pdf, text, c).sourcePdf == pdf
  {
  }

  /** With ordering codes there is one record per code, in the order of the codes. */
  lemma OnePerCode(pdf: string, text: string, codes: seq<CodeMatch>)
    requires codes != []
    ensures |M12Products(pdf, text, codes)| == |codes|
    ensures forall i :: 0 <= i < |codes| ==> M12Products(pdf, text, codes)[i] == CodeProduct(pdf, text, codes[i])
  {
    MapSeqLength(Coder(pdf, text), codes);
    forall i | 0 <= i < |codes|
      ensures M12Products(pdf, text, codes)[i] == CodeProduct(pdf, text, codes[i])
    {
      MapSeqAt(Coder(pdf, text), codes, i);
    }
  }

  /** Every record of the catalogue names the catalogue and carries a series label. */
  lemma M12Sources(pdf: string, text: string, codes: seq<CodeMatch>)
    ensures |M12Products(pdf, text, codes)| >= 1
    ensures forall i :: 0 <= i < |M12Products(pdf, text, codes)| ==>
      M12Products(pdf, text, codes)[i].sourcePdf == pdf && M12Products(pdf, text, codes)[i].family.Some?
  {
    if codes != [] {
      OnePerCode(pdf, text, codes);
      forall i | 0 <= i < |codes|
        ensures M12Products(pdf, text, codes)[i].sourcePdf == pdf && M12Products(pdf, text, codes)[i].family.Some?
      {
        CodeProductShape(pdf, text, codes[i]);
      }
    }
  }

  /** The names of the fields `fs`, in order. */
  function Names(fs: seq<Field>): (ns: seq<string>)
    ensures |ns| == |fs| && forall i :: 0 <= i < |fs| ==> ns[i] == Name(fs[i])
  {
    seq(|fs|, i requires 0 <= i < |fs| => Name(fs[i]))
  }

  lemma {:induction false} SubsequenceAppend(xs: seq<string>, ys: seq<string>, y: string)
    requires IsSubsequence(xs, ys)
    ensures IsSubsequence(xs, ys + [y])
    ensures IsSubsequence(xs + [y], ys + [y])
    decreases |ys|
  {
    if xs == [] {
      SubsequenceOfSingle(y, ys);
      assert xs + [y] == [y];
    } else if xs[0] == ys[0] {
      SubsequenceAppend(xs[1..], ys[1..], y);
      assert (ys + [y])[1..] == ys[1..] + [y];
      assert (xs + [y])[1..] == xs[1..] + [y];
    } else {
      SubsequenceAppend(xs, ys[1..], y);
      assert (ys + [y])[1..] == ys[1..] + [y];
    }
  }

  lemma {:induction false} SubsequenceOfSingle(y: string, ys: seq<string>)
    ensures IsSubsequence([y], ys + [y])
    decreases |ys|
  {
    if ys != [] {
      if ys[0] != y {
        SubsequenceOfSingle(y, ys[1..]);
        assert (ys + [y])[1..] == ys[1..] + [y];
      } else {
        assert ([y] + [])[1..] == [];
      }
    }
  }

  /** The keys of the scraped specs appear in the order of `fs`, each at most once. */
  lemma {:induction false} FieldSpecsInOrder(d: map<Field, Value>, fs: seq<Field>)
    ensures IsSubsequence(Keys(FieldSpecs(d, fs)), Names(fs))
    decreases |fs|
  {
    if fs != [] {
      var f := fs[|fs| - 1];
      var front := fs[..|fs| - 1];
      FieldSpecsInOrder(d, front);
      assert Names(fs) == Names(front) + [Name(f)];
      if f in d {
        assert FieldSpecs(d, fs) == FieldSpecs(d, front) + [SpecOf(f, d[f])];
        assert Keys(FieldSpecs(d, fs)) == Keys(FieldSpecs(d, front)) + [Name(f)];
        SubsequenceAppend(Keys(FieldSpecs(d, front)), Names(front), Name(f));
        assert IsSubsequence(Keys(FieldSpecs(d, front)) + [Name(f)], Names(front) + [Name(f)]);
      } else {
        assert FieldSpecs(d, fs) == FieldSpecs(d, front);
        SubsequenceAppend(Keys(FieldSpecs(d, front)), Names(front), Name(f));
      }
    }
  }

  /** A field has a spec exactly when it is in the dictionary. */
  lemma {:induction false} FieldSpecsKeys(d: map<Field, Value>, fs: seq<Field>, g: Field)
    ensures Name(g) in Keys(FieldSpecs(d, fs)) <==> g in fs && g in d
    decreases |fs|
  {
    if fs != [] {
      var f := fs[|fs| - 1];
      var front := fs[..|fs| - 1];
      FieldSpecsKeys(d, front, g);
      NamesDistinct(f, g);
      assert fs == front + [f];
      assert g in fs <==> g in front || g == f;
      if f in d {
        assert Keys(FieldSpecs(d, fs)) == Keys(FieldSpecs(d, front)) + [Name(f)];
      } else {
        assert FieldSpecs(d, fs) == FieldSpecs(d, front);
      }
    }
  }

  /** The spec of a field carries the field's value from the dictionary. */
  lemma {:induction false} FieldSpecsValues(d: map<Field, Value>, fs: seq<Field>, g: Field)
    ensures forall s :: s in FieldSpecs(d, fs) && s.key == Name(g) ==> g in d && s == SpecOf(g, d[g])
    decreases |fs|
  {
    if fs != [] {
      var f := fs[|fs| - 1];
      var front := fs[..|fs| - 1];
      FieldSpecsValues(d, front, g);
      NamesDistinct(f, g);
      if f in d {
        var a := FieldSpecs(d, front);
        assert FieldSpecs(d, fs) == a + [SpecOf(f, d[f])];
        forall s | s in a + [SpecOf(f, d[f])] && s.key == Name(g)
          ensures g in d && s == SpecOf(g, d[g])
        {
          if s !in a {
            assert s == SpecOf(f, d[f]);
          }
        }
      }
    }
  }

  /** The specs of a variant: the scraped fields in the fixed key order, then the coding spec; all well formed. */
  lemma CodeSpecsShape(d: map<Field, Value>)
    ensures IsSubsequence(Keys(CodeSpecs(d)), Names(FieldOrder) + ["coding"])
    ensures CodeSpecs(d)[|CodeSpecs(d)| - 1] == Coding
    ensures WellFormedSpecs(CodeSpecs(d))
  {
    FieldSpecsInOrder(d, FieldOrder);
    assert Keys(CodeSpecs(d)) == Keys(FieldSpecs(d, FieldOrder)) + ["coding"];
    SubsequenceAppend(Keys(FieldSpecs(d, FieldOrder)), Names(FieldOrder), "coding");
    FieldSpecsWellFormed(d, FieldOrder);
    WellFormedAppend(FieldSpecs(d, FieldOrder), [Coding]);
  }

  lemma {:induction false} FieldSpecsWellFormed(d: map<Field, Value>, fs: seq<Field>)
    ensures WellFormedSpecs(FieldSpecs(d, fs))
    decreases |fs|
  {
    if fs != [] {
      var f := fs[|fs| - 1];
      FieldSpecsWellFormed(d, fs[..|fs| - 1]);
      if f in d {
        WellFormedAppend(FieldSpecs(d, fs[..|fs| - 1]), [SpecOf(f, d[f])]);
      }
    }
  }

  /** A scraped field has a spec exactly when the dictionary holds it, and then the spec carries the field's value. */
  lemma SpecPresence(m: NearbyMatches, f: Field)
    ensures Name(f) in Keys(CodeSpecs(NearbyFields(m))) <==> FieldValue(m, f).Some?
    ensures forall s :: s in CodeSpecs(NearbyFields(m)) && s.key == Name(f) ==> s == SpecOf(f, FieldValue(m, f).value)
  {
    var d := NearbyFields(m);
    FieldSpecsKeys(d, FieldOrder, f);
    FieldSpecsValues(d, FieldOrder, f);
    FieldOrderComplete(f);
    FieldPresence(m, f);
    assert Keys(CodeSpecs(d)) == Keys(FieldSpecs(d, FieldOrder)) + ["coding"];
    NameNotCoding(f);
  }

  /** Every record of the catalogue has well-formed specs. */
  lemma M12WellFormed(pdf: string, text: string, codes: seq<CodeMatch>)
    ensures WellFormedProducts(M12Products(pdf, text, codes))
  {
    forall i | 0 <= i < |M12Products(pdf, text, codes)|
      ensures WellFormedSpecs(M12Products(pdf, text, codes)[i].specs)
    {
      if codes != [] {
        OnePerCode(pdf, text, codes);
        CodeProductShape(pdf, text, codes[i]);
        CodeSpecsShape(NearbyFields(codes[i].nearby));
      }
    }
  }

  /** The groups after the first run of the example code. */
  lemma ExampleTailChunks()
    ensures DigitRun("99123 456 12", 5) == 0
    ensures DigitChunks("99123 456 12", 4, 5) == ["456", "12"]
  {
    var s := "99123 456 12";
    assert DigitChunks(s, 4, 12) == [];
    assert DigitRun(s, 10) == 2;
    assert s[10..12] == "12";
    assert DigitChunks(s, 4, 10) == ["12"];
    assert DigitRun(s, 9) == 0;
    assert DigitChunks(s, 4, 9) == ["12"];
    assert DigitRun(s, 6) == 3;
    assert s[6..9] == "456";
    assert DigitChunks(s, 4, 6) == ["456", "12"];
    assert DigitRun(s, 5) == 0;
  }

  /** The groups of the example code: the five-digit run yields its first four digits. */
  lemma ExampleChunks(raw: string)
    requires raw == "99123 456 12"
    ensures DigitChunks(raw, 4, 0) == ["9912", "456", "12"]
  {
    var s := "99123 456 12";
    ExampleTailChunks();
    assert DigitRun(s, 4) == 1;
    assert DigitRun(s, 3) == 2;
    assert DigitRun(s, 2) == 3;
    assert DigitRun(s, 1) == 4;
    assert DigitRun(s, 0) == 5;
    assert DigitChunks(s, 4, 4) == ["456", "12"];
    assert s[0..4] == "9912";
  }

  /** The normalised code of three groups `a b c`. */
  lemma NormalizeThreeGroups(raw: string, a: string, b: string, c: string)
    requires DigitChunks(raw, 4, 0) == [a, b, c]
    ensures NormalizeCode(raw) == a + " " + b + " " + c
  {
    var cs := [a, b, c];
    assert cs[1..] == [b, c];
    assert [b, c][1..] == [c];
    assert Join(" ", [b, c]) == b + " " + c;
    assert Join(" ", cs) == a + " " + (b + " " + c);
  }

  /** The example of the code normalisation: a five-digit block loses its last digit to the four-digit limit. */
  lemma NormalizeExample(raw: string)
    requires raw == "99123 456 12"
    ensures NormalizeCode(raw) == "9912 456 12"
  {
    ExampleChunks(raw);
    NormalizeThreeGroups(raw, "9912", "456", "12");
  }
}
