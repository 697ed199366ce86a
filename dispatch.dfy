/**
 * The loop of `extract_products` in src/pdsp/extract.py: every `.pdf`
 * name of the directory, in sorted order, is classified and handed to
 * the builder of its kind; a document of unknown kind (an unreadable one
 * included) gets a placeholder record.
 *
 * The directory listing is an input (`None` when the path is not a
 * directory), and so is what each document holds: its text, the number of
 * ordering codes in it, and the pattern matches each builder starts from.
 * A name without a document reads as the empty text, as `_read_text_all`
 * does on any failure.
 */
module Dispatch {
  import opened Strings
  import opened Wrappers
  import opened Records
  import opened Sorting
  import Classify
  import Binder
  import M12
  import TechInfo

  /** What the pipeline knows of one document. */
  datatype Document = Document(
    text: string,
    codeCount: nat,
    binder: Binder.BinderMatches,
    codes: seq<M12.CodeMatch>,
    tech: TechInfo.TechMatches)

  /** An unreadable file: no text and no matches. */
  const Unreadable: Document :=
    Document("", 0, Binder.BinderMatches(None, None, None, None, []), [], TechInfo.TechMatches([], [], []))

  /** `_read_text_all` and the scans of one name. */
  function DocOf(docs: map<string, Document>, name: string): Document
  {
    if name in docs then docs[name] else Unreadable
  }

  /** `name.lower().endswith(".pdf")`. */
  predicate IsPdf(name: string)
  {
    EndsWith(Lower(name), ".pdf")
  }

  predicate AllDots(s: string)
  {
    forall i :: 0 <= i < |s| ==> s[i] == '.'
  }

  /** Index of the last `'.'` of `s`, if any. */
  function LastDot(s: string): (k: Option<nat>)
    ensures k.Some? ==> k.value < |s| && s[k.value] == '.' && forall j :: k.value < j < |s| ==> s[j] != '.'
    ensures k.None? ==> forall j :: 0 <= j < |s| ==> s[j] != '.'
    decreases |s|
  {
    if s == [] then None
    else if s[|s| - 1] == '.' then Some(|s| - 1)
    else LastDot(s[..|s| - 1])
  }

  /** `os.path.splitext(name)[0]` for a name without a directory part: leading dots do not start an extension. */
  function Stem(name: string): (r: string)
    ensures |r| <= |name| && r == name[..|r|]
    ensures r != name ==> name[|r|] == '.' && !AllDots(r) && forall j :: |r| < j < |name| ==> name[j] != '.'
  {
    var k := LastDot(name);
    if k.Some? && !AllDots(name[..k.value]) then name[..k.value] else name
  }

  /** `os.path.splitext(b + ".pdf")[0] == b` for a base name `b` that is not only dots. */
  lemma StemOfPdf(b: string)
    requires !AllDots(b)
    ensures Stem(b + ".pdf") == b
  {
    var n := b + ".pdf";
    assert n[|b|] == '.' && n[|b| + 1] == 'p' && n[|b| + 2] == 'd' && n[|b| + 3] == 'f';
    assert LastDot(n) == Some(|b|);
    assert n[..|b|] == b;
  }

  /** `name.lower().endswith(".pdf")`: a dot, then `p`, `d` and `f` in either case, at the end. */
  lemma IsPdfCases(name: string)
    ensures IsPdf(name) <==> (|name| >= 4 && name[|name| - 4] == '.' &&
      (name[|name| - 3] == 'p' || name[|name| - 3] == 'P') &&
      (name[|name| - 2] == 'd' || name[|name| - 2] == 'D') &&
      (name[|name| - 1] == 'f' || name[|name| - 1] == 'F'))
  {
    var l := Lower(name);
    var n := |name|;
    if n >= 4 {
      assert l[n - 4..] == [l[n - 4], l[n - 3], l[n - 2], l[n - 1]];
      assert ".pdf" == ['.', 'p', 'd', 'f'];
    }
  }

  /** The record of a document of unknown kind. */
  function Placeholder(name: string): Product
  {
    Product(None, None, None, None, None, Stem(name), None, None, name, [1], Provenance("placeholder_per_pdf", None), [])
  }

  /** `_classify_pdf_by_text_and_name(text, name) if text else "unknown"`. */
  function KindOf(name: string, d: Document): Classify.Kind
  {
    if d.text != [] then Classify.ClassifyPdf(d.text, name, d.codeCount) else Classify.Unknown
  }

  /** What one `.pdf` file contributes; builders see the file's base name. */
  function FileProducts(name: string, d: Document): seq<Product>
  {
    match KindOf(name, d)
    case Binder => Binder.BinderProducts(name, d.binder)
    case M12 => M12.M12Products(name, d.text, d.codes)
    case TechInfo => TechInfo.TechProducts(name, d.tech)
    case Unknown => [Placeholder(name)]
  }

  /** What one directory entry contributes: nothing unless it is a `.pdf`. */
  function NameProducts(docs: map<string, Document>, name: string): seq<Product>
  {
    if IsPdf(name) then FileProducts(name, DocOf(docs, name)) else []
  }

  /** The contributions of the names `ns`, in the order of `ns`. */
  function Extracted(docs: map<string, Document>, ns: seq<string>): seq<Product>
    decreases |ns|
  {
    if ns == [] then [] else Extracted(docs, ns[..|ns| - 1]) + NameProducts(docs, ns[|ns| - 1])
  }

  /** What `extract_products` returns. */
  function ExtractedProducts(listing: Option<seq<string>>, docs: map<string, Document>): seq<Product>
  {
    if listing.None? then [] else Extracted(docs, Sort(listing.value))
  }

  /** The body of the loop for one `.pdf` file: classify, then build. */
  method ExtractFile(name: string, d: Document) returns (more: seq<Product>)
    ensures more == FileProducts(name, d)
  {
    var kind := if d.text != [] then Classify.ClassifyPdf(d.text, name, d.codeCount) else Classify.Unknown;
    if kind == Classify.Binder {
      more := Binder.ParseBinderCbS260(name, d.binder);
    } else if kind == Classify.M12 {
      more := M12.ParseM12Catalog(name, d.text, d.codes);
    } else if kind == Classify.TechInfo {
      more := TechInfo.ParseTechnicalInfoPdf(name, d.tech);
    } else {
      more := [Product(None, None, None, None, None, Stem(name), None, None, name, [1],
        Provenance("placeholder_per_pdf", None), [])];
    }
  }

  /** `extract_products`: the sorted listing, filtered to `.pdf` names, each file's records in turn. */
  method ExtractProducts(listing: Option<seq<string>>, docs: map<string, Document>) returns (products: seq<Product>)
    ensures products == ExtractedProducts(listing, docs)
  {
    products := [];
    if listing.None? {
      return;
    }
    var names := Sort(listing.value);
    var i := 0;
    while i < |names|
      invariant 0 <= i <= |names|
      invariant products == Extracted(docs, names[..i])
    {
      var name := names[i];
      assert names[..i + 1][..i] == names[..i];
      assert Extracted(docs, names[..i + 1]) == products + NameProducts(docs, name);
      if !EndsWith(Lower(name), ".pdf") {
        assert NameProducts(docs, name) == [];
        i := i + 1;
        continue;
      }
      var more := ExtractFile(name, DocOf(docs, name));
      assert more == NameProducts(docs, name);
      products := products + more;
      i := i + 1;
    }
    assert names[..i] == names;
  }

  // ---------------------------------------------------------------------
  // Properties
  // ---------------------------------------------------------------------

  /** A path that is not a directory yields no records. */
  lemma NotADirectory(docs: map<string, Document>)
    ensures ExtractedProducts(None, docs) == []
  {
  }

  /** The order `os.listdir` happens to return does not matter: only the set of names, with repetitions, does. */
  lemma ListingOrderIrrelevant(l1: seq<string>, l2: seq<string>, docs: map<string, Document>)
    requires multiset(l1) == multiset(l2)
    ensures ExtractedProducts(Some(l1), docs) == ExtractedProducts(Some(l2), docs)
  {
    SortedUnique(Sort(l1), Sort(l2));
  }

  /** The `.pdf` names of `ns`, in order. */
  function PdfNames(ns: seq<string>): (ps: seq<string>)
    ensures forall p :: p in ps ==> p in ns && IsPdf(p)
    decreases |ns|
  {
    if ns == [] then []
    else PdfNames(ns[..|ns| - 1]) + (if IsPdf(ns[|ns| - 1]) then [ns[|ns| - 1]] else [])
  }

  /** Names that are not `.pdf` contribute nothing: the result is that of the `.pdf` names alone. */
  lemma {:induction false} OnlyPdfsCount(docs: map<string, Document>, ns: seq<string>)
    ensures Extracted(docs, ns) == Extracted(docs, PdfNames(ns))
    decreases |ns|
  {
    if ns != [] {
      var front := ns[..|ns| - 1];
      var last := ns[|ns| - 1];
      OnlyPdfsCount(docs, front);
      if IsPdf(last) {
        var ps := PdfNames(front) + [last];
        assert PdfNames(ns) == ps;
        assert ps[..|ps| - 1] == PdfNames(front);
        assert Extracted(docs, ps) == Extracted(docs, PdfNames(front)) + NameProducts(docs, last);
      } else {
        assert NameProducts(docs, last) == [];
        assert PdfNames(ns) == PdfNames(front) + [];
        assert PdfNames(ns) == PdfNames(front);
        assert Extracted(docs, ns) == Extracted(docs, front) + [];
      }
    }
  }

  /** An unreadable or empty document gets the placeholder record. */
  lemma EmptyTextPlaceholder(name: string, d: Document)
    requires d.text == []
    ensures FileProducts(name, d) == [Placeholder(name)]
  {
  }

  /** The placeholder names the file, points at page 1 and carries no specs. */
  lemma PlaceholderShape(name: string)
    requires IsPdf(name) && !AllDots(name[..|name| - 4])
    ensures Placeholder(name).productName == name[..|name| - 4]
    ensures Placeholder(name).sourcePdf == name && Placeholder(name).pagesCovered == [1]
    ensures Placeholder(name).provenance == Provenance("placeholder_per_pdf", None) && Placeholder(name).specs == []
  {
    var n := |name|;
    assert Lower(name)[n - 4..] == ".pdf";
    assert Lower(name)[n - 4] == '.' && Lower(name)[n - 3] == 'p' && Lower(name)[n - 2] == 'd' && Lower(name)[n - 1] == 'f';
    assert name[n - 4] == '.' && name[n - 3] != '.' && name[n - 2] != '.' && name[n - 1] != '.';
    var k := LastDot(name);
    assert k.Some? && k.value == n - 4;
  }

  /** Every `.pdf` file contributes at least one record, and each of them names the file. */
  lemma FileContributes(name: string, d: Document)
    ensures |FileProducts(name, d)| >= 1
    ensures forall i :: 0 <= i < |FileProducts(name, d)| ==> FileProducts(name, d)[i].sourcePdf == name
  {
    match KindOf(name, d)
    case Binder =>
    case M12 =>
      M12.M12Sources(name, d.text, d.codes);
    case TechInfo =>
    case Unknown =>
  }

  /** At least one record per `.pdf` name, and every record names a `.pdf` of the list. */
  lemma {:induction false} ExtractedCoverage(docs: map<string, Document>, ns: seq<string>)
    ensures |Extracted(docs, ns)| >= |PdfNames(ns)|
    ensures forall i :: 0 <= i < |Extracted(docs, ns)| ==>
      IsPdf(Extracted(docs, ns)[i].sourcePdf) && Extracted(docs, ns)[i].sourcePdf in ns
    decreases |ns|
  {
    if ns != [] {
      var front := ns[..|ns| - 1];
      var last := ns[|ns| - 1];
      ExtractedCoverage(docs, front);
      var a: seq<Product> := Extracted(docs, front);
      var b: seq<Product> := NameProducts(docs, last);
      if IsPdf(last) {
        FileContributes(last, DocOf(docs, last));
      }
      forall i | 0 <= i < |a + b|
        ensures IsPdf((a + b)[i].sourcePdf) && (a + b)[i].sourcePdf in ns
      {
        if i < |a| {
          assert (a + b)[i] == a[i];
          assert a[i].sourcePdf in front;
        } else {
          assert (a + b)[i] == b[i - |a|];
        }
      }
    }
  }

  /** Every record of a run has well-formed specs. */
  lemma {:induction false} ExtractedWellFormed(docs: map<string, Document>, ns: seq<string>)
    ensures WellFormedProducts(Extracted(docs, ns))
    decreases |ns|
  {
    if ns != [] {
      var last := ns[|ns| - 1];
      ExtractedWellFormed(docs, ns[..|ns| - 1]);
      if IsPdf(last) {
        var d := DocOf(docs, last);
        match KindOf(last, d)
        case Binder => Binder.BinderWellFormed(last, d.binder);
        case M12 => M12.M12WellFormed(last, d.text, d.codes);
        case TechInfo => TechInfo.TechWellFormed(last, d.tech);
        case Unknown =>
      }
      WellFormedProductsAppend(Extracted(docs, ns[..|ns| - 1]), NameProducts(docs, last));
    }
  }

  /** The whole run: one record or more per `.pdf` name of the listing, each naming its file, all well formed. */
  lemma RunShape(listing: seq<string>, docs: map<string, Document>)
    ensures |ExtractedProducts(Some(listing), docs)| >= |PdfNames(Sort(listing))|
    ensures forall i :: 0 <= i < |ExtractedProducts(Some(listing), docs)| ==>
      IsPdf(ExtractedProducts(Some(listing), docs)[i].sourcePdf) &&
      ExtractedProducts(Some(listing), docs)[i].sourcePdf in multiset(listing)
    ensures WellFormedProducts(ExtractedProducts(Some(listing), docs))
  {
    var names := Sort(listing);
    ExtractedCoverage(docs, names);
    ExtractedWellFormed(docs, names);
    forall i | 0 <= i < |Extracted(docs, names)|
      ensures Extracted(docs, names)[i].sourcePdf in multiset(listing)
    {
      assert Extracted(docs, names)[i].sourcePdf in multiset(names);
    }
  }
}
