/**
 * `_extract_nearby_kv` of src/pdsp/extract.py: the spec fields scraped from
 * the window around an ordering code. The many label regular expressions
 * are not re-implemented: what each of them captures in the window is an
 * input (`NearbyMatches`), and the model covers what the source does with
 * the captures (conversion, maxima, the sorted IP list, gauge
 * normalisation, the temperature fallback).
 */
module Nearby {
  import opened Strings
  import opened Wrappers
  import opened Records
  import opened Sorting
  import Gauge
  import Lists

  /** What the label patterns capture in the window (first group of each search, or all matches of each `findall`). */
  datatype NearbyMatches = NearbyMatches(
    contacts: Option<string>,
    lengths: seq<string>,
    articlePrimary: Option<string>,
    articleFallback: Option<string>,
    ips: seq<string>,
    volts: seq<string>,
    gauge: Option<string>,
    jacket: Option<string>,
    insulation: Option<string>,
    design: Option<string>,
    diameter: Option<string>,
    resistance: Option<string>,
    tempMove: Option<(string, string)>,
    tempSpan: Option<(string, string)>,
    bendMove: Option<string>,
    bendFixed: Option<string>,
    cycles: Option<string>,
    speed: Option<string>,
    acceleration: Option<string>)

  /** The nineteen fields the scraper may fill. */
  datatype Field =
    | Contacts
    | CableLength
    | ArticleNo
    | MaterialJacket
    | InsulationWire
    | DesignOfWire
    | CableDiameter
    | Resistance
    | TempMin
    | TempMax
    | BendMove
    | BendFixed
    | BendCycles
    | Speed
    | Acceleration
    | RatedVoltage
    | GaugeMm2
    | GaugeText
    | IpRating

  /** The dictionary key of each field. */
  function Name(f: Field): string
  {
    match f
    case Contacts => "contacts"
    case CableLength => "cable_length_m"
    case ArticleNo => "article_number"
    case MaterialJacket => "material_jacket"
    case InsulationWire => "insulation_wire"
    case DesignOfWire => "design_of_wire"
    case CableDiameter => "cable_diameter_mm"
    case Resistance => "resistance_ohm_per_km_20c"
    case TempMin => "temp_min_c"
    case TempMax => "temp_max_c"
    case BendMove => "bending_radius_move_d"
    case BendFixed => "bending_radius_fixed_d"
    case BendCycles => "bending_cycles_mio"
    case Speed => "speed_ms"
    case Acceleration => "acceleration_ms2"
    case RatedVoltage => "rated_voltage_v"
    case GaugeMm2 => "wire_gauge_mm2"
    case GaugeText => "wire_gauge_text"
    case IpRating => "ip_rating"
  }

  /** The fields in the order the M12 builder reads them back. */
  const FieldOrder: seq<Field> := [Contacts, CableLength, ArticleNo, MaterialJacket, InsulationWire, DesignOfWire, CableDiameter, Resistance, TempMin, TempMax, BendMove, BendFixed, BendCycles, Speed, Acceleration, RatedVoltage, GaugeMm2, GaugeText, IpRating]

  lemma FieldOrderComplete(f: Field)
    ensures f in FieldOrder
  {
  }

  lemma NamesDistinct(f: Field, g: Field)
    ensures Name(f) == Name(g) ==> f == g
  {
  }

  /** No field is named like the coding spec that follows the fields. */
  lemma NameNotCoding(f: Field)
    ensures Name(f) != "coding"
  {
  }

  /** `[int(x) for x in xs]`. */
  function NatsOf(xs: seq<string>): (ns: seq<nat>)
    ensures |ns| == |xs|
    ensures forall i :: 0 <= i < |xs| ==> ns[i] == NatOf(xs[i])
  {
    Lists.MapSeqLength(NatOf, xs);
    assert forall i :: 0 <= i < |xs| ==> Lists.MapSeq(NatOf, xs)[i] == NatOf(xs[i]) by {
      forall i | 0 <= i < |xs|
        ensures Lists.MapSeq(NatOf, xs)[i] == NatOf(xs[i])
      {
        Lists.MapSeqAt(NatOf, xs, i);
      }
    }
    Lists.MapSeq(NatOf, xs)
  }

  /** `max(ns)`. */
  function MaxOf(ns: seq<nat>): (m: nat)
    requires ns != []
    ensures m in ns
    ensures forall i :: 0 <= i < |ns| ==> ns[i] <= m
  {
    if |ns| == 1 then ns[0]
    else
      var r := MaxOf(ns[1..]);
      assert forall i :: 1 <= i < |ns| ==> ns[i] == ns[1..][i - 1];
      if ns[0] >= r then ns[0] else r
  }

  /** `" ".join(re.findall(r"\d{2,5}", g))`: the article number with normalised spacing. */
  function ArticleNumber(g: string): string
  {
    Join(" ", DigitChunks(g, 5, 0))
  }

  /** `float(s)` of a digit string. */
  function NatReal(s: string): Value
  {
    FloatVal(NatOf(s) as real)
  }

  /** `float(s.replace(",", "."))`. */
  function CommaReal(s: string): Value
  {
    FloatVal(CommaDecimalValue(s))
  }

  function MinInt(a: int, b: int): int
  {
    if a <= b then a else b
  }

  function MaxInt(a: int, b: int): int
  {
    if a >= b then a else b
  }

  /** The article-number capture: the form with a suffix, or else the shorter form. */
  function ArticleCapture(m: NearbyMatches): Option<string>
  {
    if m.articlePrimary.Some? then m.articlePrimary else m.articleFallback
  }

  function ContactsValue(m: NearbyMatches): Option<Value>
  {
    if m.contacts.Some? then Some(IntVal(NatOf(m.contacts.value))) else None
  }

  function CableLengthValue(m: NearbyMatches): Option<Value>
  {
    if m.lengths != [] then Some(FloatVal(MaxOf(NatsOf(m.lengths)) as real)) else None
  }

  function ArticleNoValue(m: NearbyMatches): Option<Value>
  {
    if ArticleCapture(m).Some? then Some(Str(ArticleNumber(ArticleCapture(m).value))) else None
  }

  /** `sorted(set(ips))`. */
  function IpList(m: NearbyMatches): seq<string>
  {
    SortedDistinct(m.ips)
  }

  function IpRatingValue(m: NearbyMatches): Option<Value>
  {
    if m.ips != [] then Some(Str(Join(",", IpList(m)))) else None
  }

  function RatedVoltageValue(m: NearbyMatches): Option<Value>
  {
    if m.volts != [] then Some(FloatVal(MaxOf(NatsOf(m.volts)) as real)) else None
  }

  /** The cross-section field of a gauge capture `g` whose reading is `r`. */
  function Mm2Field(g: Option<string>, r: Gauge.GaugeReading): Option<Value>
  {
    if g.Some? && r.mm2.Some? then Some(FloatVal(r.mm2.value)) else None
  }

  /** The text field of a gauge capture `g` whose reading is `r`: the capture as found when no cross-section was read. */
  function GaugeTextField(g: Option<string>, r: Gauge.GaugeReading): Option<Value>
  {
    if g.Some? && r.mm2.None? then Some(Str(g.value)) else None
  }

  function GaugeMm2Value(m: NearbyMatches): Option<Value>
  {
    Mm2Field(m.gauge, Gauge.NormalizeAwgOrMm2(m.gauge))
  }

  function GaugeTextValue(m: NearbyMatches): Option<Value>
  {
    GaugeTextField(m.gauge, Gauge.NormalizeAwgOrMm2(m.gauge))
  }

  function MaterialJacketValue(m: NearbyMatches): Option<Value>
  {
    if m.jacket.Some? then Some(Str(Upper(m.jacket.value))) else None
  }

  function InsulationWireValue(m: NearbyMatches): Option<Value>
  {
    if m.insulation.Some? then Some(Str(Strip(m.insulation.value))) else None
  }

  function DesignOfWireValue(m: NearbyMatches): Option<Value>
  {
    if m.design.Some? then Some(Str(ReplaceCharBy(m.design.value, ' ', ""))) else None
  }

  function CableDiameterValue(m: NearbyMatches): Option<Value>
  {
    if m.diameter.Some? then Some(CommaReal(m.diameter.value)) else None
  }

  function ResistanceValue(m: NearbyMatches): Option<Value>
  {
    if m.resistance.Some? then Some(CommaReal(m.resistance.value)) else None
  }

  function TempMinValue(m: NearbyMatches): Option<Value>
  {
    if m.tempMove.Some? then Some(FloatVal(SignedValue(m.tempMove.value.0) as real))
    else if m.tempSpan.Some? then Some(FloatVal(MinInt(SignedValue(m.tempSpan.value.0), SignedValue(m.tempSpan.value.1)) as real))
    else None
  }

  function TempMaxValue(m: NearbyMatches): Option<Value>
  {
    if m.tempMove.Some? then Some(FloatVal(SignedValue(m.tempMove.value.1) as real))
    else if m.tempSpan.Some? then Some(FloatVal(MaxInt(SignedValue(m.tempSpan.value.0), SignedValue(m.tempSpan.value.1)) as real))
    else None
  }

  function BendMoveValue(m: NearbyMatches): Option<Value>
  {
    if m.bendMove.Some? then Some(NatReal(m.bendMove.value)) else None
  }

  function BendFixedValue(m: NearbyMatches): Option<Value>
  {
    if m.bendFixed.Some? then Some(NatReal(m.bendFixed.value)) else None
  }

  function BendCyclesValue(m: NearbyMatches): Option<Value>
  {
    if m.cycles.Some? then Some(NatReal(m.cycles.value)) else None
  }

  function SpeedValue(m: NearbyMatches): Option<Value>
  {
    if m.speed.Some? then Some(CommaReal(m.speed.value)) else None
  }

  function AccelerationValue(m: NearbyMatches): Option<Value>
  {
    if m.acceleration.Some? then Some(CommaReal(m.acceleration.value)) else None
  }

  /** The value of every field, each by its own definition, independent of the order in which the source fills them. */
  datatype FieldValues = FieldValues(
    contacts: Option<Value>,
    cableLength: Option<Value>,
    articleNo: Option<Value>,
    ipRating: Option<Value>,
    ratedVoltage: Option<Value>,
    gaugeMm2: Option<Value>,
    gaugeText: Option<Value>,
    materialJacket: Option<Value>,
    insulationWire: Option<Value>,
    designOfWire: Option<Value>,
    cableDiameter: Option<Value>,
    resistance: Option<Value>,
    tempMin: Option<Value>,
    tempMax: Option<Value>,
    bendMove: Option<Value>,
    bendFixed: Option<Value>,
    bendCycles: Option<Value>,
    speed: Option<Value>,
    acceleration: Option<Value>)
  {
    function Get(f: Field): Option<Value>
    {
      match f
      case Contacts => contacts
      case CableLength => cableLength
      case ArticleNo => articleNo
      case IpRating => ipRating
      case RatedVoltage => ratedVoltage
      case GaugeMm2 => gaugeMm2
      case GaugeText => gaugeText
      case MaterialJacket => materialJacket
      case InsulationWire => insulationWire
      case DesignOfWire => designOfWire
      case CableDiameter => cableDiameter
      case Resistance => resistance
      case TempMin => tempMin
      case TempMax => tempMax
      case BendMove => bendMove
      case BendFixed => bendFixed
      case BendCycles => bendCycles
      case Speed => speed
      case Acceleration => acceleration
    }
  }

  function Values(m: NearbyMatches): FieldValues
  {
    FieldValues(
      ContactsValue(m),
      CableLengthValue(m),
      ArticleNoValue(m),
      IpRatingValue(m),
      RatedVoltageValue(m),
      GaugeMm2Value(m),
      GaugeTextValue(m),
      MaterialJacketValue(m),
      InsulationWireValue(m),
      DesignOfWireValue(m),
      CableDiameterValue(m),
      ResistanceValue(m),
      TempMinValue(m),
      TempMaxValue(m),
      BendMoveValue(m),
      BendFixedValue(m),
      BendCyclesValue(m),
      SpeedValue(m),
      AccelerationValue(m))
  }

  /** What field `f` of the dictionary should hold, if anything. */
  function FieldValue(m: NearbyMatches, f: Field): Option<Value>
  {
    match f
    case Contacts => ContactsValue(m)
    case CableLength => CableLengthValue(m)
    case ArticleNo => ArticleNoValue(m)
    case IpRating => IpRatingValue(m)
    case RatedVoltage => RatedVoltageValue(m)
    case GaugeMm2 => GaugeMm2Value(m)
    case GaugeText => GaugeTextValue(m)
    case MaterialJacket => MaterialJacketValue(m)
    case InsulationWire => InsulationWireValue(m)
    case DesignOfWire => DesignOfWireValue(m)
    case CableDiameter => CableDiameterValue(m)
    case Resistance => ResistanceValue(m)
    case TempMin => TempMinValue(m)
    case TempMax => TempMaxValue(m)
    case BendMove => BendMoveValue(m)
    case BendFixed => BendFixedValue(m)
    case BendCycles => BendCyclesValue(m)
    case Speed => SpeedValue(m)
    case Acceleration => AccelerationValue(m)
  }

  lemma ValuesAgree(m: NearbyMatches, f: Field)
    ensures Values(m).Get(f) == FieldValue(m, f)
  {
  }

  /** `d[f] = v` when there is a value. */
  function Put(out: map<Field, Value>, f: Field, v: Option<Value>): map<Field, Value>
  {
    if v.Some? then out[f := v.value] else out
  }

  /** `d.setdefault(f, v)` when there is a value. */
  function SetDefault(out: map<Field, Value>, f: Field, v: Option<Value>): map<Field, Value>
  {
    if v.Some? && f !in out then out[f := v.value] else out
  }

  /** Contacts, cable length and article number, in this order. */
  function CatalogFields(v: FieldValues, o: map<Field, Value>): map<Field, Value>
  {
    var o := Put(o, Contacts, v.contacts);
    var o := Put(o, CableLength, v.cableLength);
    Put(o, ArticleNo, v.articleNo)
  }

  /** IP rating and rated voltage. */
  function RatingFields(v: FieldValues, o: map<Field, Value>): map<Field, Value>
  {
    var o := Put(o, IpRating, v.ipRating);
    Put(o, RatedVoltage, v.ratedVoltage)
  }

  /** The conductor gauge: a cross-section, or else the text as found. */
  function GaugeFields(v: FieldValues, o: map<Field, Value>): map<Field, Value>
  {
    var o := Put(o, GaugeMm2, v.gaugeMm2);
    Put(o, GaugeText, v.gaugeText)
  }

  /** Jacket, insulation and wire design, in this order. */
  function MaterialFields(v: FieldValues, o: map<Field, Value>): map<Field, Value>
  {
    var o := Put(o, MaterialJacket, v.materialJacket);
    var o := Put(o, InsulationWire, v.insulationWire);
    Put(o, DesignOfWire, v.designOfWire)
  }

  /** Cable diameter and conductor resistance. */
  function SizeFields(v: FieldValues, o: map<Field, Value>): map<Field, Value>
  {
    var o := Put(o, CableDiameter, v.cableDiameter);
    Put(o, Resistance, v.resistance)
  }

  /** The temperatures: the "move" form overwrites, the generic range only fills what is still missing. */
  function TemperatureFields(o: map<Field, Value>, lo: Option<Value>, hi: Option<Value>, overwrite: bool): map<Field, Value>
  {
    if overwrite then Put(Put(o, TempMin, lo), TempMax, hi)
    else SetDefault(SetDefault(o, TempMin, lo), TempMax, hi)
  }

  /** Bend radii and bending cycles, in this order. */
  function BendFields(v: FieldValues, o: map<Field, Value>): map<Field, Value>
  {
    var o := Put(o, BendMove, v.bendMove);
    var o := Put(o, BendFixed, v.bendFixed);
    Put(o, BendCycles, v.bendCycles)
  }

  /** Travel speed and acceleration. */
  function MotionFields(v: FieldValues, o: map<Field, Value>): map<Field, Value>
  {
    var o := Put(o, Speed, v.speed);
    Put(o, Acceleration, v.acceleration)
  }

  /** The dictionary built from the field values, in the source's order; `overwrite` says whether the temperatures came from the "move" form. */
  function Assemble(v: FieldValues, overwrite: bool): map<Field, Value>
  {
    var o := CatalogFields(v, map[]);
    var o := RatingFields(v, o);
    var o := GaugeFields(v, o);
    var o := MaterialFields(v, o);
    var o := SizeFields(v, o);
    var o := TemperatureFields(o, v.tempMin, v.tempMax, overwrite);
    var o := BendFields(v, o);
    MotionFields(v, o)
  }

  /** The dictionary `_extract_nearby_kv` returns. */
  function NearbyFields(m: NearbyMatches): (r: map<Field, Value>)
    ensures forall f :: f in r ==> FieldValue(m, f) == Some(r[f])
  {
    var r := Assemble(Values(m), m.tempMove.Some?);
    assert forall f :: f in r ==> FieldValue(m, f) == Some(r[f]) by {
      forall f | f in r
        ensures FieldValue(m, f) == Some(r[f])
      {
        AssembleAt(Values(m), m.tempMove.Some?, f);
        ValuesAgree(m, f);
      }
    }
    r
  }

  /** `_extract_nearby_kv`: fills the dictionary in place, one field after the other. */
  method ExtractNearbyKv(m: NearbyMatches) returns (out: map<Field, Value>)
    ensures out == NearbyFields(m)
  {
    out := map[];
    out := FillCatalog(m, out);
    out := FillRatings(m, out);
    if m.gauge.Some? {
      var reading := Gauge.NormalizeAwgOrMm2(m.gauge);
      out := FillGauge(m.gauge.value, reading, out);
    }
    out := FillMaterials(m, out);
    out := FillSizes(m, out);
    out := FillTemperatures(m, out);
    out := FillBending(m, out);
    out := FillMotion(m, out);
  }

  method FillCatalog(m: NearbyMatches, o: map<Field, Value>) returns (out: map<Field, Value>)
    ensures out == Put(Put(Put(o, Contacts, ContactsValue(m)), CableLength, CableLengthValue(m)), ArticleNo, ArticleNoValue(m))
  {
    out := o;
    if m.contacts.Some? {
      out := out[Contacts := IntVal(NatOf(m.contacts.value))];
    }
    if m.lengths != [] {
      out := out[CableLength := FloatVal(MaxOf(NatsOf(m.lengths)) as real)];
    }
    var art := m.articlePrimary;
    if art.None? {
      art := m.articleFallback;
    }
    if art.Some? {
      out := out[ArticleNo := Str(ArticleNumber(art.value))];
    }
  }

  method FillRatings(m: NearbyMatches, o: map<Field, Value>) returns (out: map<Field, Value>)
    ensures out == Put(Put(o, IpRating, IpRatingValue(m)), RatedVoltage, RatedVoltageValue(m))
  {
    out := o;
    if m.ips != [] {
      out := out[IpRating := Str(Join(",", SortedDistinct(m.ips)))];
    }
    if m.volts != [] {
      out := out[RatedVoltage := FloatVal(MaxOf(NatsOf(m.volts)) as real)];
    }
  }

  /** A gauge capture `g` with its reading `r`: the cross-section if one was read, else the text as found. */
  method FillGauge(g: string, r: Gauge.GaugeReading, o: map<Field, Value>) returns (out: map<Field, Value>)
    ensures out == Put(Put(o, GaugeMm2, Mm2Field(Some(g), r)), GaugeText, GaugeTextField(Some(g), r))
  {
    out := o;
    if r.mm2.Some? {
      out := out[GaugeMm2 := FloatVal(r.mm2.value)];
    } else {
      out := out[GaugeText := Str(g)];
    }
  }

  method FillMaterials(m: NearbyMatches, o: map<Field, Value>) returns (out: map<Field, Value>)
    ensures out == Put(Put(Put(o, MaterialJacket, MaterialJacketValue(m)), InsulationWire, InsulationWireValue(m)), DesignOfWire, DesignOfWireValue(m))
  {
    out := o;
    if m.jacket.Some? {
      out := out[MaterialJacket := Str(Upper(m.jacket.value))];
    }
    if m.insulation.Some? {
      out := out[InsulationWire := Str(Strip(m.insulation.value))];
    }
    if m.design.Some? {
      out := out[DesignOfWire := Str(ReplaceCharBy(m.design.value, ' ', ""))];
    }
  }

  method FillSizes(m: NearbyMatches, o: map<Field, Value>) returns (out: map<Field, Value>)
    ensures out == Put(Put(o, CableDiameter, CableDiameterValue(m)), Resistance, ResistanceValue(m))
  {
    out := o;
    if m.diameter.Some? {
      out := out[CableDiameter := CommaReal(m.diameter.value)];
    }
    if m.resistance.Some? {
      out := out[Resistance := CommaReal(m.resistance.value)];
    }
  }

  /** The temperatures: both from the "move" form, or else `setdefault` from the generic range. */
  method FillTemperatures(m: NearbyMatches, o: map<Field, Value>) returns (out: map<Field, Value>)
    ensures out == TemperatureFields(o, TempMinValue(m), TempMaxValue(m), m.tempMove.Some?)
  {
    out := o;
    if m.tempMove.Some? {
      out := out[TempMin := FloatVal(SignedValue(m.tempMove.value.0) as real)];
      out := out[TempMax := FloatVal(SignedValue(m.tempMove.value.1) as real)];
    } else if m.tempSpan.Some? {
      var lo := SignedValue(m.tempSpan.value.0);
      var hi := SignedValue(m.tempSpan.value.1);
      if TempMin !in out {
        out := out[TempMin := FloatVal(MinInt(lo, hi) as real)];
      }
      if TempMax !in out {
        out := out[TempMax := FloatVal(MaxInt(lo, hi) as real)];
      }
    }
  }

  method FillBending(m: NearbyMatches, o: map<Field, Value>) returns (out: map<Field, Value>)
    ensures out == Put(Put(Put(o, BendMove, BendMoveValue(m)), BendFixed, BendFixedValue(m)), BendCycles, BendCyclesValue(m))
  {
    out := o;
    if m.bendMove.Some? {
      out := out[BendMove := NatReal(m.bendMove.value)];
    }
    if m.bendFixed.Some? {
      out := out[BendFixed := NatReal(m.bendFixed.value)];
    }
    if m.cycles.Some? {
      out := out[BendCycles := NatReal(m.cycles.value)];
    }
  }

  method FillMotion(m: NearbyMatches, o: map<Field, Value>) returns (out: map<Field, Value>)
    ensures out == Put(Put(o, Speed, SpeedValue(m)), Acceleration, AccelerationValue(m))
  {
    out := o;
    if m.speed.Some? {
      out := out[Speed := CommaReal(m.speed.value)];
    }
    if m.acceleration.Some? {
      out := out[Acceleration := CommaReal(m.acceleration.value)];
    }
  }

  // ---------------------------------------------------------------------
  // The dictionary and the field values
  // ---------------------------------------------------------------------

  /** `d.get(f)`. */
  function Lookup(out: map<Field, Value>, f: Field): Option<Value>
  {
    if f in out then Some(out[f]) else None
  }

  /** A new value if there is one, else the old. */
  function Over(v: Option<Value>, old_: Option<Value>): Option<Value>
  {
    if v.Some? then v else old_
  }

  lemma CatalogAt(v: FieldValues, o: map<Field, Value>, g: Field)
    ensures Lookup(CatalogFields(v, o), Contacts) == Over(v.contacts, Lookup(o, Contacts))
    ensures Lookup(CatalogFields(v, o), CableLength) == Over(v.cableLength, Lookup(o, CableLength))
    ensures Lookup(CatalogFields(v, o), ArticleNo) == Over(v.articleNo, Lookup(o, ArticleNo))
    ensures g !in {Contacts, CableLength, ArticleNo} ==> Lookup(CatalogFields(v, o), g) == Lookup(o, g)
  {
  }

  lemma RatingAt(v: FieldValues, o: map<Field, Value>, g: Field)
    ensures Lookup(RatingFields(v, o), IpRating) == Over(v.ipRating, Lookup(o, IpRating))
    ensures Lookup(RatingFields(v, o), RatedVoltage) == Over(v.ratedVoltage, Lookup(o, RatedVoltage))
    ensures g !in {IpRating, RatedVoltage} ==> Lookup(RatingFields(v, o), g) == Lookup(o, g)
  {
  }

  lemma GaugeAt(v: FieldValues, o: map<Field, Value>, g: Field)
    ensures Lookup(GaugeFields(v, o), GaugeMm2) == Over(v.gaugeMm2, Lookup(o, GaugeMm2))
    ensures Lookup(GaugeFields(v, o), GaugeText) == Over(v.gaugeText, Lookup(o, GaugeText))
    ensures g !in {GaugeMm2, GaugeText} ==> Lookup(GaugeFields(v, o), g) == Lookup(o, g)
  {
  }

  lemma MaterialAt(v: FieldValues, o: map<Field, Value>, g: Field)
    ensures Lookup(MaterialFields(v, o), MaterialJacket) == Over(v.materialJacket, Lookup(o, MaterialJacket))
    ensures Lookup(MaterialFields(v, o), InsulationWire) == Over(v.insulationWire, Lookup(o, InsulationWire))
    ensures Lookup(MaterialFields(v, o), DesignOfWire) == Over(v.designOfWire, Lookup(o, DesignOfWire))
    ensures g !in {MaterialJacket, InsulationWire, DesignOfWire} ==> Lookup(MaterialFields(v, o), g) == Lookup(o, g)
  {
  }

  lemma SizeAt(v: FieldValues, o: map<Field, Value>, g: Field)
    ensures Lookup(SizeFields(v, o), CableDiameter) == Over(v.cableDiameter, Lookup(o, CableDiameter))
    ensures Lookup(SizeFields(v, o), Resistance) == Over(v.resistance, Lookup(o, Resistance))
    ensures g !in {CableDiameter, Resistance} ==> Lookup(SizeFields(v, o), g) == Lookup(o, g)
  {
  }

  /** With no temperature set before, both come from this step, whichever form they came from. */
  lemma TemperatureAt(o: map<Field, Value>, lo: Option<Value>, hi: Option<Value>, overwrite: bool, g: Field)
    requires TempMin !in o && TempMax !in o
    ensures Lookup(TemperatureFields(o, lo, hi, overwrite), TempMin) == lo
    ensures Lookup(TemperatureFields(o, lo, hi, overwrite), TempMax) == hi
    ensures g !in {TempMin, TempMax} ==> Lookup(TemperatureFields(o, lo, hi, overwrite), g) == Lookup(o, g)
  {
  }

  lemma BendAt(v: FieldValues, o: map<Field, Value>, g: Field)
    ensures Lookup(BendFields(v, o), BendMove) == Over(v.bendMove, Lookup(o, BendMove))
    ensures Lookup(BendFields(v, o), BendFixed) == Over(v.bendFixed, Lookup(o, BendFixed))
    ensures Lookup(BendFields(v, o), BendCycles) == Over(v.bendCycles, Lookup(o, BendCycles))
    ensures g !in {BendMove, BendFixed, BendCycles} ==> Lookup(BendFields(v, o), g) == Lookup(o, g)
  {
  }

  lemma MotionAt(v: FieldValues, o: map<Field, Value>, g: Field)
    ensures Lookup(MotionFields(v, o), Speed) == Over(v.speed, Lookup(o, Speed))
    ensures Lookup(MotionFields(v, o), Acceleration) == Over(v.acceleration, Lookup(o, Acceleration))
    ensures g !in {Speed, Acceleration} ==> Lookup(MotionFields(v, o), g) == Lookup(o, g)
  {
  }

  /** The fields put before the temperatures. */
  function Front(v: FieldValues): map<Field, Value>
  {
    SizeFields(v, MaterialFields(v, GaugeFields(v, RatingFields(v, CatalogFields(v, map[])))))
  }

  lemma FrontAt(v: FieldValues, f: Field)
    ensures f !in {TempMin, TempMax, BendMove, BendFixed, BendCycles, Speed, Acceleration} ==> Lookup(Front(v), f) == v.Get(f)
    ensures TempMin !in Front(v) && TempMax !in Front(v)
    ensures f in {BendMove, BendFixed, BendCycles, Speed, Acceleration} ==> Lookup(Front(v), f) == None
  {
    var o1 := CatalogFields(v, map[]);
    var o2 := RatingFields(v, o1);
    var o3 := GaugeFields(v, o2);
    var o4 := MaterialFields(v, o3);
    CatalogAt(v, map[], f);
    RatingAt(v, o1, f);
    GaugeAt(v, o2, f);
    MaterialAt(v, o3, f);
    SizeAt(v, o4, f);
    CatalogAt(v, map[], TempMin);
    RatingAt(v, o1, TempMin);
    GaugeAt(v, o2, TempMin);
    MaterialAt(v, o3, TempMin);
    SizeAt(v, o4, TempMin);
    CatalogAt(v, map[], TempMax);
    RatingAt(v, o1, TempMax);
    GaugeAt(v, o2, TempMax);
    MaterialAt(v, o3, TempMax);
    SizeAt(v, o4, TempMax);
  }

  /** Every field of the dictionary is the field's value: the order of the assignments and the `setdefault` calls make no difference. */
  lemma AssembleAt(v: FieldValues, overwrite: bool, f: Field)
    ensures Lookup(Assemble(v, overwrite), f) == v.Get(f)
  {
    var o5 := Front(v);
    var o6 := TemperatureFields(o5, v.tempMin, v.tempMax, overwrite);
    var o7 := BendFields(v, o6);
    FrontAt(v, f);
    TemperatureAt(o5, v.tempMin, v.tempMax, overwrite, f);
    BendAt(v, o6, f);
    MotionAt(v, o7, f);
  }

  /** A field is in the dictionary exactly when it has a value, and then holds that value. */
  lemma FieldPresence(m: NearbyMatches, f: Field)
    ensures f in NearbyFields(m) <==> FieldValue(m, f).Some?
    ensures f in NearbyFields(m) ==> NearbyFields(m)[f] == FieldValue(m, f).value
  {
    AssembleAt(Values(m), m.tempMove.Some?, f);
    ValuesAgree(m, f);
  }

  // ---------------------------------------------------------------------
  // What the field values promise
  // ---------------------------------------------------------------------

  /** `xs[i]` is a largest of the numbers `xs`. */
  predicate LargestAt(xs: seq<string>, i: int)
  {
    0 <= i < |xs| && forall j :: 0 <= j < |xs| ==> NatOf(xs[j]) <= NatOf(xs[i])
  }

  /** The largest of the matched numbers is one of them. */
  lemma Largest(xs: seq<string>)
    requires xs != []
    ensures exists i :: LargestAt(xs, i) && MaxOf(NatsOf(xs)) == NatOf(xs[i])
  {
    var ns := NatsOf(xs);
    var i :| 0 <= i < |ns| && ns[i] == MaxOf(ns);
    assert MaxOf(ns) == NatOf(xs[i]);
  }

  /** The cable length is present exactly when a length was matched, and is the largest of them. */
  lemma CableLengthIsMaximum(m: NearbyMatches)
    ensures CableLengthValue(m).Some? <==> m.lengths != []
    ensures m.lengths != [] ==>
      exists i :: LargestAt(m.lengths, i) && CableLengthValue(m) == Some(FloatVal(NatOf(m.lengths[i]) as real))
  {
    if m.lengths != [] {
      Largest(m.lengths);
    }
  }

  /** The rated voltage is present exactly when a voltage was matched, and is the largest of them. */
  lemma VoltageIsMaximum(m: NearbyMatches)
    ensures RatedVoltageValue(m).Some? <==> m.volts != []
    ensures m.volts != [] ==>
      exists i :: LargestAt(m.volts, i) && RatedVoltageValue(m) == Some(FloatVal(NatOf(m.volts[i]) as real))
  {
    if m.volts != [] {
      Largest(m.volts);
    }
  }

  /** `l` holds the elements of `xs`, each once, in increasing order. */
  predicate SortedSetOf(l: seq<string>, xs: seq<string>)
  {
    (forall y :: y in l ==> y in xs) && (forall y :: y in xs ==> y in l) &&
    forall i, j :: 0 <= i < j < |l| ==> StrLess(l[i], l[j])
  }

  /** The IP rating is the matched ratings, each once, in increasing order, joined by commas. */
  lemma IpRatingSortedDistinct(m: NearbyMatches)
    ensures IpRatingValue(m).Some? <==> m.ips != []
    ensures m.ips != [] ==> IpRatingValue(m) == Some(Str(Join(",", IpList(m))))
    ensures SortedSetOf(IpList(m), m.ips)
  {
    SortedDistinctIsSortedSet(m.ips);
  }

  lemma SortedDistinctIsSortedSet(xs: seq<string>)
    ensures SortedSetOf(SortedDistinct(xs), xs)
  {
  }

  /** The article number comes from the form with a suffix when there is one, else from the shorter form. */
  lemma ArticlePreference(m: NearbyMatches)
    ensures ArticleNoValue(m).Some? <==> m.articlePrimary.Some? || m.articleFallback.Some?
    ensures m.articlePrimary.Some? ==> ArticleNoValue(m) == Some(Str(ArticleNumber(m.articlePrimary.value)))
    ensures m.articlePrimary.None? && m.articleFallback.Some? ==>
      ArticleNoValue(m) == Some(Str(ArticleNumber(m.articleFallback.value)))
  {
  }

  /** A normalised article number is digit runs separated by single spaces. */
  lemma ArticleNumberIsSpacedDigits(g: string)
    ensures SpacedDigits(ArticleNumber(g))
  {
    JoinedGroups(DigitChunks(g, 5, 0), 5);
  }

  /** A gauge capture sets exactly one of the two gauge fields: the cross-section when one was read, the text otherwise. */
  lemma GaugeExactlyOne(g: Option<string>, r: Gauge.GaugeReading)
    ensures g.Some? <==> Mm2Field(g, r).Some? || GaugeTextField(g, r).Some?
    ensures !(Mm2Field(g, r).Some? && GaugeTextField(g, r).Some?)
    ensures Mm2Field(g, r).Some? ==> r.mm2.Some? && Mm2Field(g, r) == Some(FloatVal(r.mm2.value))
    ensures GaugeTextField(g, r).Some? ==> g.Some? && GaugeTextField(g, r) == Some(Str(g.value))
  {
  }

  /** The in-move temperatures are taken as found; the generic range puts the smaller value in min and the larger in max. */
  lemma TemperatureOrder(m: NearbyMatches)
    ensures TempMinValue(m).Some? <==> m.tempMove.Some? || m.tempSpan.Some?
    ensures TempMaxValue(m).Some? <==> m.tempMove.Some? || m.tempSpan.Some?
    ensures m.tempMove.Some? ==>
      TempMinValue(m) == Some(FloatVal(SignedValue(m.tempMove.value.0) as real)) &&
      TempMaxValue(m) == Some(FloatVal(SignedValue(m.tempMove.value.1) as real))
    ensures m.tempMove.None? && m.tempSpan.Some? ==>
      TempMinValue(m).value.FloatVal? && TempMaxValue(m).value.FloatVal? &&
      TempMinValue(m).value.r <= TempMaxValue(m).value.r
  {
  }
}
