/**
 * Character classes and the few `str` operations of Python that the
 * extractor relies on, restricted to what the model needs: ASCII letter
 * case, the whitespace set of `str.isspace`, `strip`, substring search,
 * `replace` of one character, `", ".join` and decimal digit strings.
 */
module Strings {

  /** ASCII model of the regular-expression class `\w`. */
  predicate IsWord(c: char)
  {
    ('a' <= c <= 'z') || ('A' <= c <= 'Z') || ('0' <= c <= '9') || c == '_'
  }

  predicate IsDigit(c: char)
  {
    '0' <= c <= '9'
  }

  /** The characters for which Python's `str.isspace` holds (and `\s` matches). */
  predicate IsSpace(c: char)
  {
    c == ' ' || ('\t' <= c <= '\r') || ('\U{1C}' <= c <= '\U{1F}') ||
    c == '\U{85}' || c == '\U{A0}' || c == '\U{1680}' || ('\U{2000}' <= c <= '\U{200A}') ||
    c == '\U{2028}' || c == '\U{2029}' || c == '\U{202F}' || c == '\U{205F}' || c == '\U{3000}'
  }

  lemma SpaceIsNotWord(c: char)
    ensures IsSpace(c) ==> !IsWord(c)
  {
  }

  /** ASCII lower-casing: a capital moves 32 code points down the table to its small letter. */
  function LowerChar(c: char): (r: char)
    ensures IsWord(r) == IsWord(c)
    ensures !('A' <= r <= 'Z')
    ensures 'A' <= c <= 'Z' ==> 'a' <= r <= 'z' && r as int == c as int + 32
    ensures !('A' <= c <= 'Z') ==> r == c
  {
    if 'A' <= c <= 'Z' then (c as int + 32) as char else c
  }

  /** ASCII upper-casing, the inverse shift. */
  function UpperChar(c: char): (r: char)
    ensures !('a' <= r <= 'z')
    ensures 'a' <= c <= 'z' ==> 'A' <= r <= 'Z' && r as int == c as int - 32
    ensures !('a' <= c <= 'z') ==> r == c
  {
    if 'a' <= c <= 'z' then (c as int - 32) as char else c
  }

  /** `str.lower()` on the ASCII range. */
  function Lower(s: string): (r: string)
    ensures |r| == |s|
    ensures forall i :: 0 <= i < |s| ==> r[i] == LowerChar(s[i])
  {
    seq(|s|, i requires 0 <= i < |s| => LowerChar(s[i]))
  }

  /** What `lower()` does: no capital is left, each capital becomes its small letter, and nothing else changes. */
  lemma LowerCases(s: string)
    ensures |Lower(s)| == |s|
    ensures forall i :: 0 <= i < |s| ==> !('A' <= Lower(s)[i] <= 'Z')
    ensures forall i :: 0 <= i < |s| && 'A' <= s[i] <= 'Z' ==> 'a' <= Lower(s)[i] <= 'z' && Lower(s)[i] as int == s[i] as int + 32
    ensures forall i :: 0 <= i < |s| && !('A' <= s[i] <= 'Z') ==> Lower(s)[i] == s[i]
  {
  }

  /** Lower-casing twice is lower-casing once. */
  lemma LowerIdempotent(s: string)
    ensures Lower(Lower(s)) == Lower(s)
  {
  }

  /** Lower-casing changes nothing in a string without capitals. */
  lemma LowerNoCapitals(s: string)
    requires forall i :: 0 <= i < |s| ==> !('A' <= s[i] <= 'Z')
    ensures Lower(s) == s
  {
  }

  /** `str.upper()` on the ASCII range. */
  function Upper(s: string): (r: string)
    ensures |r| == |s|
    ensures forall i :: 0 <= i < |s| ==> r[i] == UpperChar(s[i])
  {
    seq(|s|, i requires 0 <= i < |s| => UpperChar(s[i]))
  }

  /** `s.replace(a, b)` for single characters `a` and `b`. */
  function ReplaceChar(s: string, a: char, b: char): (r: string)
    ensures |r| == |s|
    ensures forall i :: 0 <= i < |s| ==> r[i] == (if s[i] == a then b else s[i])
  {
    seq(|s|, i requires 0 <= i < |s| => if s[i] == a then b else s[i])
  }

  /**
   * What `replace` does: no `a` is left when `b` differs from it, each `a`
   * became `b`, every other character stayed, and a string without `a` is
   * returned unchanged.
   */
  lemma ReplaceCharEffect(s: string, a: char, b: char)
    ensures |ReplaceChar(s, a, b)| == |s|
    ensures a != b ==> forall i :: 0 <= i < |s| ==> ReplaceChar(s, a, b)[i] != a
    ensures forall i :: 0 <= i < |s| && s[i] == a ==> ReplaceChar(s, a, b)[i] == b
    ensures forall i :: 0 <= i < |s| && s[i] != a ==> ReplaceChar(s, a, b)[i] == s[i]
    ensures (forall i :: 0 <= i < |s| ==> s[i] != a) ==> ReplaceChar(s, a, b) == s
  {
  }

  /** Replacing `a` by `b` twice is replacing it once. */
  lemma ReplaceCharIdempotent(s: string, a: char, b: char)
    ensures ReplaceChar(ReplaceChar(s, a, b), a, b) == ReplaceChar(s, a, b)
  {
  }

  /** Number of leading whitespace characters. */
  function LeadingSpaces(s: string): (n: nat)
    ensures n <= |s|
    ensures forall i :: 0 <= i < n ==> IsSpace(s[i])
    ensures n == |s| || !IsSpace(s[n])
  {
    if |s| > 0 && IsSpace(s[0]) then 1 + LeadingSpaces(s[1..]) else 0
  }

  /** Number of trailing whitespace characters. */
  function TrailingSpaces(s: string): (n: nat)
    ensures n <= |s|
    ensures forall i :: |s| - n <= i < |s| ==> IsSpace(s[i])
    ensures n == |s| || !IsSpace(s[|s| - n - 1])
  {
    if |s| > 0 && IsSpace(s[|s| - 1]) then 1 + TrailingSpaces(s[..|s| - 1]) else 0
  }

  /** `str.strip()`: drops whitespace at both ends and nothing else. */
  function Strip(s: string): (r: string)
    ensures LeadingSpaces(s) + |r| <= |s|
    ensures r == s[LeadingSpaces(s)..LeadingSpaces(s) + |r|]
    ensures forall i :: 0 <= i < |s| && !(LeadingSpaces(s) <= i < LeadingSpaces(s) + |r|) ==> IsSpace(s[i])
    ensures r == [] || (!IsSpace(r[0]) && !IsSpace(r[|r| - 1]))
  {
    var t := s[LeadingSpaces(s)..];
    t[..|t| - TrailingSpaces(t)]
  }

  /** `k` occurs in `t` starting at index `i`. */
  predicate OccursAt(t: string, k: string, i: int)
  {
    0 <= i && i + |k| <= |t| && t[i..i + |k|] == k
  }

  /** Python's `k in t` for strings: `k` occurs in `t` as a contiguous block. */
  function Contains(t: string, k: string): (r: bool)
    ensures r <==> exists i :: OccursAt(t, k, i)
    decreases |t|
  {
    if |k| > |t| then false
    else if t[..|k|] == k then assert OccursAt(t, k, 0); true
    else
      var r := Contains(t[1..], k);
      assert r ==> exists i :: OccursAt(t, k, i) by {
        if r {
          var i :| OccursAt(t[1..], k, i);
          assert t[1..][i..i + |k|] == t[i + 1..i + 1 + |k|];
          assert OccursAt(t, k, i + 1);
        }
      }
      assert (exists i :: OccursAt(t, k, i)) ==> r by {
        if exists i :: OccursAt(t, k, i) {
          var i :| OccursAt(t, k, i);
          assert i != 0;
          assert t[1..][i - 1..i - 1 + |k|] == t[i..i + |k|];
          assert OccursAt(t[1..], k, i - 1);
        }
      }
      r
  }

  /** `str.endswith(suffix)`. */
  predicate EndsWith(s: string, suffix: string)
  {
    |suffix| <= |s| && s[|s| - |suffix|..] == suffix
  }

  /** `sep.join(xs)`. */
  function Join(sep: string, xs: seq<string>): (r: string)
    ensures |xs| == 1 ==> r == xs[0]
    ensures xs == [] ==> r == []
  {
    if |xs| == 0 then []
    else if |xs| == 1 then xs[0]
    else xs[0] + sep + Join(sep, xs[1..])
  }

  predicate AllDigits(s: string)
  {
    forall i :: 0 <= i < |s| ==> IsDigit(s[i])
  }

  function DigitValue(c: char): (d: nat)
    ensures d < 10
  {
    if IsDigit(c) then (c as int - '0' as int) else 0
  }

  function DigitChar(d: nat): (c: char)
    requires d < 10
    ensures IsDigit(c) && DigitValue(c) == d
  {
    ('0' as int + d) as char
  }

  /** `int(ds)` for a string of decimal digits. */
  function NatOf(ds: string): nat
  {
    if ds == [] then 0 else 10 * NatOf(ds[..|ds| - 1]) + DigitValue(ds[|ds| - 1])
  }

  /** A string of `k` digits reads as less than `10^k`. */
  lemma {:induction false} NatOfBound(ds: string)
    ensures NatOf(ds) < Pow10(|ds|)
    decreases |ds|
  {
    if ds != [] {
      NatOfBound(ds[..|ds| - 1]);
    }
  }

  /** Place value: the digits of `a` count `10^|b|` times over when `b` follows them. */
  lemma {:induction false} NatOfConcat(a: string, b: string)
    ensures NatOf(a + b) == NatOf(a) * Pow10(|b|) + NatOf(b)
    decreases |b|
  {
    if b == [] {
      assert a + b == a;
    } else {
      var b0 := b[..|b| - 1];
      var d := DigitValue(b[|b| - 1]);
      assert (a + b)[..|a + b| - 1] == a + b0;
      assert (a + b)[|a + b| - 1] == b[|b| - 1];
      NatOfConcat(a, b0);
      var x, p := NatOf(a), Pow10(|b0|);
      assert Pow10(|b|) == 10 * p;
      assert NatOf(b) == 10 * NatOf(b0) + d;
      calc {
        NatOf(a + b);
        10 * NatOf(a + b0) + d;
        10 * (x * p + NatOf(b0)) + d;
        { ShiftFactor(x, p); }
        x * (10 * p) + (10 * NatOf(b0) + d);
      }
    }
  }

  lemma ShiftFactor(x: nat, p: nat)
    ensures 10 * (x * p) == x * (10 * p)
  {
  }

  /** Leading zeros do not change the value. */
  lemma LeadingZero(s: string)
    ensures NatOf("0" + s) == NatOf(s)
  {
    NatOfConcat("0", s);
    assert NatOf("0") == 10 * NatOf("0"[..0]) + DigitValue('0');
  }

  /** `str(n)` for a natural number: its decimal digits, without leading zeros. */
  function NatToString(n: nat): (s: string)
    ensures |s| >= 1 && AllDigits(s)
    ensures |s| > 1 ==> s[0] != '0'
  {
    if n < 10 then [DigitChar(n)] else NatToString(n / 10) + [DigitChar(n % 10)]
  }

  /** Reading back what `NatToString` writes gives the number again. */
  lemma {:induction false} NatToStringRoundTrip(n: nat)
    ensures NatOf(NatToString(n)) == n
  {
    if n >= 10 {
      NatToStringRoundTrip(n / 10);
      var s := NatToString(n);
      assert s[..|s| - 1] == NatToString(n / 10);
    }
  }

  function Pow10(k: nat): (p: nat)
    ensures p >= 1
  {
    if k == 0 then 1 else 10 * Pow10(k - 1)
  }

  /** Index of the first `'.'` of `s`, or `|s|` when there is none. */
  function DotIndex(s: string): (k: nat)
    ensures k <= |s|
    ensures forall i :: 0 <= i < k ==> s[i] != '.'
    ensures k < |s| ==> s[k] == '.'
  {
    if s == [] then 0 else if s[0] == '.' then 0 else 1 + DotIndex(s[1..])
  }

  /** The digits after a decimal point: `NatOf(f)` tenths-to-the-`|f|`, below one. */
  function Fraction(f: string): (r: real)
    ensures 0.0 <= r < 1.0
    ensures f == [] ==> r == 0.0
  {
    NatOfBound(f);
    FractionBelowOne(NatOf(f), Pow10(|f|));
    NatOf(f) as real / Pow10(|f|) as real
  }

  /**
   * `float(s)` for a string of the form `digits[.digits]`, read as an exact
   * decimal number (no binary rounding).
   */
  function DecimalValue(s: string): (v: real)
    ensures v >= 0.0
    ensures DotIndex(s) == |s| ==> v == NatOf(s) as real
  {
    var k := DotIndex(s);
    var whole := s[..k];
    var frac := if k < |s| then s[k + 1..] else [];
    assert k == |s| ==> whole == s && frac == [];
    NatOf(whole) as real + Fraction(frac)
  }

  /** `float(s.replace(",", "."))`: the decimal separator may be a comma. */
  function CommaDecimalValue(s: string): (v: real)
    ensures v >= 0.0
    ensures (forall i :: 0 <= i < |s| ==> s[i] != ',') ==> v == DecimalValue(s)
  {
    ReplaceCharEffect(s, ',', '.');
    DecimalValue(ReplaceChar(s, ',', '.'))
  }

  /** A digit string reads as its integer value. */
  lemma DigitsAreWhole(s: string)
    requires AllDigits(s)
    ensures DecimalValue(s) == NatOf(s) as real
    ensures CommaDecimalValue(s) == NatOf(s) as real
  {
    assert forall i :: 0 <= i < |s| ==> s[i] != ',' && s[i] != '.';
  }

  /** `w.f` reads as the whole part plus the fraction, below the next whole number. */
  lemma DecimalSplit(w: string, f: string)
    requires AllDigits(w)
    ensures DecimalValue(w + "." + f) == NatOf(w) as real + Fraction(f)
    ensures NatOf(w) as real <= DecimalValue(w + "." + f) < NatOf(w) as real + 1.0
  {
    var s := w + "." + f;
    DotAfterDigits(w, f);
    assert s[..|w|] == w;
    assert s[|w| + 1..] == f;
  }

  lemma DotAfterDigits(w: string, f: string)
    requires AllDigits(w)
    ensures DotIndex(w + "." + f) == |w|
    decreases |w|
  {
    if w != [] {
      assert (w + "." + f)[1..] == w[1..] + "." + f;
      DotAfterDigits(w[1..], f);
    }
  }

  lemma FractionBelowOne(n: nat, p: nat)
    requires n < p
    ensures 0.0 <= n as real / p as real < 1.0
  {
  }

  /** With a comma, `w,f` reads as `w.f`. */
  lemma CommaDecimalSplit(w: string, f: string)
    requires AllDigits(w) && AllDigits(f)
    ensures CommaDecimalValue(w + "," + f) == DecimalValue(w + "." + f)
  {
    var s := w + "," + f;
    assert forall i :: 0 <= i < |w| ==> s[i] == w[i] && s[i] != ',';
    assert forall i :: 0 <= i < |f| ==> s[|w| + 1 + i] == f[i] && s[|w| + 1 + i] != ',';
    assert ReplaceChar(s, ',', '.') == w + "." + f;
  }

  /** `s.replace(c, r)` for a single character `c` and any replacement `r`. */
  function ReplaceCharBy(s: string, c: char, r: string): (out: string)
    ensures (forall j :: 0 <= j < |r| ==> r[j] != c) ==> forall j :: 0 <= j < |out| ==> out[j] != c
    ensures (forall j :: 0 <= j < |s| ==> s[j] != c) ==> out == s
  {
    if s == [] then []
    else (if s[0] == c then r else [s[0]]) + ReplaceCharBy(s[1..], c, r)
  }

  /** `int(s)` for an optionally signed digit string: negative only with a minus sign. */
  function SignedValue(s: string): (v: int)
    ensures v < 0 ==> |s| > 0 && s[0] == '-'
  {
    if |s| > 0 && s[0] == '-' then -(NatOf(s[1..]) as int)
    else if |s| > 0 && s[0] == '+' then NatOf(s[1..])
    else NatOf(s)
  }

  /** The three forms `d`, `-d` and `+d` of a digit string `d`. */
  lemma SignedForms(d: string)
    requires AllDigits(d)
    ensures SignedValue(d) == NatOf(d)
    ensures SignedValue("-" + d) == -(NatOf(d) as int)
    ensures SignedValue("+" + d) == NatOf(d)
  {
    assert ("-" + d)[1..] == d && ("+" + d)[1..] == d;
    if d != [] {
      assert d[0] != '-' && d[0] != '+';
    }
  }

  // ---------------------------------------------------------------------
  // Scanning helpers for the hand-written regular expressions
  // ---------------------------------------------------------------------

  /** Number of consecutive ASCII digits of `t` from index `i`. */
  function DigitRun(t: string, i: nat): (n: nat)
    requires i <= |t|
    ensures i + n <= |t|
    ensures forall j :: i <= j < i + n ==> IsDigit(t[j])
    ensures i + n == |t| || !IsDigit(t[i + n])
    decreases |t| - i
  {
    if i < |t| && IsDigit(t[i]) then 1 + DigitRun(t, i + 1) else 0
  }

  /** Number of consecutive whitespace characters of `t` from index `i` (`\s*`). */
  function SpaceRun(t: string, i: nat): (n: nat)
    requires i <= |t|
    ensures i + n <= |t|
    ensures forall j :: i <= j < i + n ==> IsSpace(t[j])
    ensures i + n == |t| || !IsSpace(t[i + n])
    decreases |t| - i
  {
    if i < |t| && IsSpace(t[i]) then 1 + SpaceRun(t, i + 1) else 0
  }

  /** `\b` before index `k`, given that `t[k]` is a word character. */
  predicate WordStarts(t: string, k: nat)
  {
    k == 0 || k > |t| || !IsWord(t[k - 1])
  }

  /** `\b` after index `k - 1`, given that `t[k - 1]` is a word character. */
  predicate WordEnds(t: string, k: nat)
  {
    k >= |t| || !IsWord(t[k])
  }

  /**
   * `re.findall(r"\d{2,hi}", s)` from index `i` on: greedy runs of two to
   * `hi` digits, left to right; a lone digit matches nothing.
   */
  function DigitChunks(s: string, hi: nat, i: nat): (cs: seq<string>)
    requires 2 <= hi && i <= |s|
    ensures DigitGroups(cs, hi)
    decreases |s| - i
  {
    if i == |s| then []
    else
      var d := DigitRun(s, i);
      if d >= 2 then
        var n := if d <= hi then d else hi;
        [s[i..i + n]] + DigitChunks(s, hi, i + n)
      else DigitChunks(s, hi, i + 1)
  }

  /** Every group is two to `hi` digits. */
  predicate DigitGroups(cs: seq<string>, hi: nat)
  {
    forall j :: 0 <= j < |cs| ==> 2 <= |cs[j]| <= hi && AllDigits(cs[j])
  }

  /** Digits, with single spaces between digit runs and none at either end. */
  predicate SpacedDigits(s: string)
  {
    (s != [] ==> IsDigit(s[0]) && IsDigit(s[|s| - 1])) &&
    forall i :: 0 <= i < |s| ==> IsDigit(s[i]) || (s[i] == ' ' && 0 < i < |s| - 1 && IsDigit(s[i - 1]) && IsDigit(s[i + 1]))
  }

  /** Digit groups joined by single spaces give spaced digits. */
  lemma {:induction false} JoinedGroups(cs: seq<string>, hi: nat)
    requires DigitGroups(cs, hi)
    ensures SpacedDigits(Join(" ", cs))
  {
    if |cs| == 1 {
      assert cs[0][0] == cs[0][0];
    } else if |cs| > 1 {
      assert DigitGroups(cs[1..], hi) by {
        forall j | 0 <= j < |cs[1..]|
          ensures 2 <= |cs[1..][j]| <= hi && AllDigits(cs[1..][j])
        {
          assert cs[1..][j] == cs[j + 1];
        }
      }
      JoinedGroups(cs[1..], hi);
      var a := cs[0];
      assert 2 <= |a| && AllDigits(a);
      var b := Join(" ", cs[1..]);
      var r := a + " " + b;
      assert Join(" ", cs) == r;
      assert |b| >= 2 by {
        if |cs[1..]| == 1 {
          assert b == cs[1];
        } else {
          JoinLength(cs[1..], hi);
        }
      }
      forall i | 0 <= i < |r|
        ensures IsDigit(r[i]) || (r[i] == ' ' && 0 < i < |r| - 1 && IsDigit(r[i - 1]) && IsDigit(r[i + 1]))
      {
        if i < |a| {
          assert r[i] == a[i];
          assert IsDigit(a[i]);
        } else if i == |a| {
          assert r[i] == ' ';
          assert r[i - 1] == a[|a| - 1] && r[i + 1] == b[0];
          assert IsDigit(a[|a| - 1]) && IsDigit(b[0]);
        } else {
          var k := i - |a| - 1;
          assert 0 <= k < |b|;
          assert r[i] == b[k];
          SpacedAt(b, k);
          if r[i] == ' ' {
            assert 0 < k < |b| - 1;
            assert r[i - 1] == b[k - 1] && r[i + 1] == b[k + 1];
            assert IsDigit(b[k - 1]) && IsDigit(b[k + 1]);
          } else {
            assert IsDigit(b[k]);
          }
        }
      }
      assert r[0] == a[0] && r[|r| - 1] == b[|b| - 1];
    }
  }

  lemma SpacedAt(s: string, k: nat)
    requires SpacedDigits(s) && k < |s|
    ensures IsDigit(s[k]) || (s[k] == ' ' && 0 < k < |s| - 1 && IsDigit(s[k - 1]) && IsDigit(s[k + 1]))
  {
  }

  /** Two or more groups of at least two digits join to at least five characters. */
  lemma {:induction false} JoinLength(cs: seq<string>, hi: nat)
    requires DigitGroups(cs, hi) && |cs| >= 2
    ensures |Join(" ", cs)| >= 5
  {
    assert |cs[0]| >= 2;
  }
}
