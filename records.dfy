/**
 * The product and spec records the extractor emits (the dictionaries of
 * src/pdsp/extract.py), with `Option` for the fields that may be `None`.
 */
module Records {
  import opened Wrappers

  /** A scalar the extractor stores: a Python `int`, `float` or `str`. */
  datatype Value = IntVal(i: int) | FloatVal(r: real) | Str(s: string)
  {
    /** `isinstance(v, (int, float))`. */
    predicate IsNumber()
    {
      !Str?
    }

    /** `float(v)` of a number. */
    function AsReal(): real
      requires IsNumber()
    {
      if IntVal? then i as real else r
    }
  }

  /**
   * The `raw` field of a spec: either literal text, or the printed form of a
   * number followed by a suffix (`f"{v} °C"` is `Printed(v, " °C")`, `str(v)`
   * is `Printed(v, "")`). How Python prints a float is not modelled.
   */
  datatype Raw = Literal(text: string) | Printed(v: Value, suffix: string)

  /** One spec dictionary: `spec_key`, `spec_value_num` or `spec_value_text`, `unit`, `raw`. */
  datatype Spec = Spec(key: string, num: Option<real>, text: Option<string>, unit: Option<string>, raw: Raw)

  /** The `provenance` dictionary; `notes` is absent from the placeholder record. */
  datatype Provenance = Provenance(strategy: string, notes: Option<seq<string>>)

  /** One product dictionary. */
  datatype Product = Product(
    brand: Option<string>,
    family: Option<string>,
    modelNo: Option<string>,
    articleNumber: Option<string>,
    orderingCode: Option<string>,
    productName: string,
    description: Option<string>,
    interfaces: Option<string>,
    sourcePdf: string,
    pagesCovered: seq<int>,
    provenance: Provenance,
    specs: seq<Spec>)

  /** Every spec carries exactly one of a number and a text. */
  predicate WellFormedSpec(s: Spec)
  {
    s.num.Some? != s.text.Some?
  }

  predicate WellFormedSpecs(specs: seq<Spec>)
  {
    forall i :: 0 <= i < |specs| ==> WellFormedSpec(specs[i])
  }

  predicate WellFormedProducts(ps: seq<Product>)
  {
    forall i :: 0 <= i < |ps| ==> WellFormedSpecs(ps[i].specs)
  }

  /** The spec keys, in order. */
  function Keys(specs: seq<Spec>): (ks: seq<string>)
    ensures |ks| == |specs|
    ensures forall i :: 0 <= i < |specs| ==> ks[i] == specs[i].key
  {
    seq(|specs|, i requires 0 <= i < |specs| => specs[i].key)
  }

  /** `xs` is `ys` with some elements left out, in the same order. */
  predicate IsSubsequence(xs: seq<string>, ys: seq<string>)
    decreases |ys|
  {
    if xs == [] then true
    else if ys == [] then false
    else if xs[0] == ys[0] then IsSubsequence(xs[1..], ys[1..])
    else IsSubsequence(xs, ys[1..])
  }

  lemma {:induction false} SubsequenceReflexive(xs: seq<string>)
    ensures IsSubsequence(xs, xs)
    decreases |xs|
  {
    if xs != [] {
      SubsequenceReflexive(xs[1..]);
    }
  }

  /** A subsequence stays one when an element is put in front of the longer list. */
  lemma {:induction false} SubsequencePrepend(xs: seq<string>, ys: seq<string>, y: string)
    requires IsSubsequence(xs, ys)
    ensures IsSubsequence(xs, [y] + ys)
    decreases |ys|, 1
  {
    assert ([y] + ys)[1..] == ys;
    if xs != [] && xs[0] == y {
      SubsequenceDrop(xs, ys);
    }
  }

  /** Leaving out the first element of a subsequence keeps it a subsequence. */
  lemma {:induction false} SubsequenceDrop(xs: seq<string>, ys: seq<string>)
    requires xs != [] && IsSubsequence(xs, ys)
    ensures IsSubsequence(xs[1..], ys)
    decreases |ys|, 0
  {
    assert ys == [ys[0]] + ys[1..];
    if xs[0] == ys[0] {
      SubsequencePrepend(xs[1..], ys[1..], ys[0]);
    } else {
      SubsequenceDrop(xs, ys[1..]);
      SubsequencePrepend(xs[1..], ys[1..], ys[0]);
    }
  }

  /** Subsequences of two lists concatenate to a subsequence of their concatenation. */
  lemma {:induction false} SubsequenceConcat(a: seq<string>, b: seq<string>, c: seq<string>, d: seq<string>)
    requires IsSubsequence(a, b) && IsSubsequence(c, d)
    ensures IsSubsequence(a + c, b + d)
    decreases |b|
  {
    if b == [] {
      assert a == [] && a + c == c && b + d == d;
    } else {
      assert (b + d)[1..] == b[1..] + d;
      if a == [] {
        SubsequenceConcat(a, b[1..], c, d);
        assert a + c == c;
        SubsequencePrepend(c, b[1..] + d, b[0]);
        assert [b[0]] + (b[1..] + d) == b + d;
      } else {
        assert (a + c)[1..] == a[1..] + c;
        if a[0] == b[0] {
          SubsequenceConcat(a[1..], b[1..], c, d);
        } else {
          SubsequenceConcat(a, b[1..], c, d);
        }
      }
    }
  }

  lemma WellFormedAppend(a: seq<Spec>, b: seq<Spec>)
    requires WellFormedSpecs(a) && WellFormedSpecs(b)
    ensures WellFormedSpecs(a + b)
  {
    forall i | 0 <= i < |a + b|
      ensures WellFormedSpec((a + b)[i])
    {
      if i < |a| {
        assert (a + b)[i] == a[i];
      } else {
        assert (a + b)[i] == b[i - |a|];
      }
    }
  }

  lemma WellFormedProductsAppend(a: seq<Product>, b: seq<Product>)
    requires WellFormedProducts(a) && WellFormedProducts(b)
    ensures WellFormedProducts(a + b)
  {
    forall i | 0 <= i < |a + b|
      ensures WellFormedSpecs((a + b)[i].specs)
    {
      if i < |a| {
        assert (a + b)[i] == a[i];
      } else {
        assert (a + b)[i] == b[i - |a|];
      }
    }
  }
}
