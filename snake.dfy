/**
 * `to_snake_case` and `canonical_key` of src/pdsp/normalize.py.
 *
 * `ToSnakeCase` follows the source's chain of rebindings stage by stage.
 * `SnakeKey` is an independent one-pass reference: word characters are kept
 * in order and lower-cased, and every maximal run of other characters that
 * lies between two word characters becomes a single `_`. The main theorem,
 * `ToSnakeCaseIsReference`, says the two agree on every input.
 */
module Snake {
  import opened Strings

  // ---------------------------------------------------------------------
  // The source's pipeline
  // ---------------------------------------------------------------------

  /** Characters the glyph filter `[^\w\-/\. ]+` leaves alone. */
  predicate KeptByFilter(c: char)
  {
    IsWord(c) || c == '-' || c == '/' || c == '.' || c == ' '
  }

  /** The two character classes whose runs are rewritten to one space. */
  datatype RunClass = OddGlyph | Whitespace

  predicate InClass(c: char, k: RunClass)
  {
    match k
    case OddGlyph => !KeptByFilter(c)
    case Whitespace => IsSpace(c)
  }

  lemma ClassIsSeparator(c: char, k: RunClass)
    ensures InClass(c, k) ==> !IsWord(c)
  {
  }

  /**
   * `re.sub(<class>+, " ", s)`: every maximal run of class characters becomes
   * one space. `inRun` says that the character before `s` was in the class and
   * its run has already produced its space.
   */
  function RunsToSpace(s: string, k: RunClass, inRun: bool): (r: string)
    ensures forall i :: 0 <= i < |r| ==> r[i] == ' ' || (!InClass(r[i], k) && r[i] in s)
  {
    if s == [] then []
    else if InClass(s[0], k) then
      (if inRun then [] else [' ']) + RunsToSpace(s[1..], k, true)
    else
      [s[0]] + RunsToSpace(s[1..], k, false)
  }

  /** The first rebindings of `to_snake_case`: strip, unify dashes and dots, blank the odd glyphs and the separators. */
  function Separated(s: string): string
  {
    var s1 := Strip(s);
    var s2 := ReplaceChar(ReplaceChar(ReplaceChar(s1, '\U{2013}', '-'), '\U{2014}', '-'), '\U{B7}', '.');
    var s3 := RunsToSpace(s2, OddGlyph, false);
    var s4 := ReplaceChar(ReplaceChar(s3, '/', ' '), '\\', ' ');
    var s5 := ReplaceChar(s4, '.', ' ');
    ReplaceChar(s5, '-', ' ')
  }

  /** `to_snake_case`, one line per rebinding of the source. */
  function ToSnakeCase(s: string): string
  {
    var s6 := Separated(s);
    var s7 := Lower(Strip(RunsToSpace(s6, Whitespace, false)));
    ReplaceChar(s7, ' ', '_')
  }

  /** `canonical_key`: the snake-case key, with no aliasing yet. */
  function CanonicalKey(s: string): (r: string)
    ensures r == SnakeKey(s)
  {
    ToSnakeCaseIsReference(s);
    ToSnakeCase(s)
  }

  // ---------------------------------------------------------------------
  // The reference definition
  // ---------------------------------------------------------------------

  /** Where the one-pass scan stands: before any word, inside a word, or after separators that follow a word. */
  datatype Phase = Start | InWord | AfterSep

  /** The characters a snake-case key is made of. */
  predicate IsSnakeChar(c: char)
  {
    ('a' <= c <= 'z') || IsDigit(c) || c == '_'
  }

  function Emit(p: Phase, c: char): (r: string)
    ensures forall i :: 0 <= i < |r| ==> IsSnakeChar(r[i])
  {
    if IsWord(c) then (if p == AfterSep then ['_', LowerChar(c)] else [LowerChar(c)]) else []
  }

  function Next(p: Phase, c: char): Phase
  {
    if IsWord(c) then InWord else if p == Start then Start else AfterSep
  }

  /** The scan: word characters are lower-cased, a separator run before a word (but not before the first) emits one `_`. */
  function SnakeRef(s: string, p: Phase): (r: string)
    ensures forall i :: 0 <= i < |r| ==> IsSnakeChar(r[i])
  {
    if s == [] then [] else Emit(p, s[0]) + SnakeRef(s[1..], Next(p, s[0]))
  }

  /** The phase the scan is in after reading `s`. */
  function After(s: string, p: Phase): Phase
  {
    if s == [] then p else After(s[1..], Next(p, s[0]))
  }

  /** The reference snake-case key of `s`. */
  function SnakeKey(s: string): string
  {
    SnakeRef(s, Start)
  }

  // ---------------------------------------------------------------------
  // Facts about the scan
  // ---------------------------------------------------------------------

  predicate NoWord(s: string)
  {
    forall i :: 0 <= i < |s| ==> !IsWord(s[i])
  }

  lemma {:induction false} ScanConcat(x: string, y: string, p: Phase)
    ensures SnakeRef(x + y, p) == SnakeRef(x, p) + SnakeRef(y, After(x, p))
    ensures After(x + y, p) == After(y, After(x, p))
    decreases |x|
  {
    if x != [] {
      assert (x + y)[0] == x[0];
      assert (x + y)[1..] == x[1..] + y;
      ScanConcat(x[1..], y, Next(p, x[0]));
    } else {
      assert x + y == y;
    }
  }

  lemma {:induction false} ScanSeparators(s: string, p: Phase)
    requires NoWord(s)
    ensures SnakeRef(s, p) == []
    ensures After(s, p) == (if s == [] || p == Start then p else AfterSep)
    decreases |s|
  {
    if s != [] {
      ScanSeparators(s[1..], Next(p, s[0]));
    }
  }

  /** The scan only looks at which characters are word characters and at the word characters themselves. */
  lemma {:induction false} ScanSameShape(s: string, t: string, p: Phase)
    requires |s| == |t|
    requires forall i :: 0 <= i < |s| ==> IsWord(s[i]) == IsWord(t[i])
    requires forall i :: 0 <= i < |s| && IsWord(s[i]) ==> s[i] == t[i]
    ensures SnakeRef(s, p) == SnakeRef(t, p)
    decreases |s|
  {
    if s != [] {
      ScanSameShape(s[1..], t[1..], Next(p, s[0]));
    }
  }

  lemma ReplaceSeparator(s: string, a: char, b: char, p: Phase)
    requires !IsWord(a) && !IsWord(b)
    ensures SnakeRef(ReplaceChar(s, a, b), p) == SnakeRef(s, p)
  {
    ScanSameShape(ReplaceChar(s, a, b), s, p);
  }

  /** Collapsing runs of separators leaves the scan unchanged. */
  lemma {:induction false} ScanRunsToSpace(s: string, k: RunClass, inRun: bool, p: Phase)
    requires inRun ==> p != InWord
    ensures SnakeRef(RunsToSpace(s, k, inRun), p) == SnakeRef(s, p)
    decreases |s|
  {
    if s != [] {
      ClassIsSeparator(s[0], k);
      var rest := RunsToSpace(s[1..], k, InClass(s[0], k));
      ScanRunsToSpace(s[1..], k, InClass(s[0], k), Next(p, s[0]));
      assert SnakeRef(s, p) == Emit(p, s[0]) + SnakeRef(s[1..], Next(p, s[0]));
      if InClass(s[0], k) {
        if inRun {
          assert RunsToSpace(s, k, inRun) == rest;
          assert Emit(p, s[0]) == [];
        } else {
          var q := Next(p, ' ');
          assert q == Next(p, s[0]);
          assert ([' '] + rest)[1..] == rest;
        }
      } else {
        assert ([s[0]] + rest)[1..] == rest;
      }
    }
  }

  lemma ScanStrip(s: string)
    ensures SnakeRef(Strip(s), Start) == SnakeRef(s, Start)
  {
    var r := Strip(s);
    var l := LeadingSpaces(s);
    var pre, post := s[..l], s[l + |r|..];
    assert s == pre + r + post;
    forall i | 0 <= i < |pre| ensures !IsWord(pre[i]) {
      SpaceIsNotWord(pre[i]);
    }
    forall i | 0 <= i < |post| ensures !IsWord(post[i]) {
      assert post[i] == s[l + |r| + i];
      SpaceIsNotWord(post[i]);
    }
    ScanConcat(pre + r, post, Start);
    ScanConcat(pre, r, Start);
    ScanSeparators(pre, Start);
    ScanSeparators(post, After(pre + r, Start));
  }

  predicate WordsOrSpaces(t: string)
  {
    forall i :: 0 <= i < |t| ==> IsWord(t[i]) || t[i] == ' '
  }

  predicate SingleSpaces(t: string)
  {
    forall i :: 0 <= i < |t| - 1 ==> !(IsSpace(t[i]) && IsSpace(t[i + 1]))
  }

  /** A string of words separated by single spaces, with no space at either end. */
  predicate SpacedWords(t: string)
  {
    WordsOrSpaces(t) && SingleSpaces(t) && (t == [] || (t[0] != ' ' && t[|t| - 1] != ' '))
  }

  lemma SuffixKeepsShape(t: string, k: nat)
    requires k <= |t|
    requires WordsOrSpaces(t) && SingleSpaces(t)
    ensures WordsOrSpaces(t[k..]) && SingleSpaces(t[k..])
  {
    var u := t[k..];
    forall i | 0 <= i < |u| ensures IsWord(u[i]) || u[i] == ' ' {
      assert u[i] == t[k + i];
    }
    forall i | 0 <= i < |u| - 1 ensures !(IsSpace(u[i]) && IsSpace(u[i + 1])) {
      assert u[i] == t[k + i] && u[i + 1] == t[k + i + 1];
    }
  }

  function FinishChar(c: char): char
  {
    if c == ' ' then '_' else LowerChar(c)
  }

  /** The last two stages of the pipeline: `lower()` and then `replace(" ", "_")`. */
  function Finish(t: string): (r: string)
    ensures |r| == |t|
    ensures forall i :: 0 <= i < |t| ==> r[i] == FinishChar(t[i])
  {
    ReplaceChar(Lower(t), ' ', '_')
  }

  lemma FinishCons(t: string)
    requires t != []
    ensures Finish(t) == [FinishChar(t[0])] + Finish(t[1..])
  {
    var a, b := Finish(t), [FinishChar(t[0])] + Finish(t[1..]);
    assert |a| == |b|;
    forall i | 0 <= i < |a| ensures a[i] == b[i] {
      if i > 0 {
        assert b[i] == Finish(t[1..])[i - 1] == FinishChar(t[1..][i - 1]);
      }
    }
  }

  lemma SpaceThenWordA(t: string)
    requires |t| >= 2 && t[0] == ' ' && IsWord(t[1])
    ensures SnakeRef(t, InWord) == ['_', LowerChar(t[1])] + SnakeRef(t[2..], InWord)
  {
    var u := t[1..];
    assert u[1..] == t[2..];
    assert SnakeRef(t, InWord) == SnakeRef(u, AfterSep) by {
      assert Emit(InWord, t[0]) == [];
    }
    assert SnakeRef(u, AfterSep) == ['_', LowerChar(t[1])] + SnakeRef(t[2..], InWord) by {
      assert Emit(AfterSep, u[0]) == ['_', LowerChar(t[1])];
    }
  }
  lemma SpaceThenWordB(t: string)
    requires |t| >= 2 && t[0] == ' ' && IsWord(t[1])
    ensures Finish(t) == ['_', LowerChar(t[1])] + Finish(t[2..])
  {
    var u := t[1..];
    assert u[1..] == t[2..];
    FinishCons(t);
    FinishCons(u);
    assert FinishChar(t[0]) == '_';
    assert FinishChar(u[0]) == LowerChar(t[1]);
  }
  lemma SpaceThenWord(t: string)
    requires |t| >= 2 && t[0] == ' ' && IsWord(t[1])
    ensures SnakeRef(t, InWord) == ['_', LowerChar(t[1])] + SnakeRef(t[2..], InWord)
    ensures Finish(t) == ['_', LowerChar(t[1])] + Finish(t[2..])
  { SpaceThenWordA(t); SpaceThenWordB(t); }

  lemma WordThenRest(t: string, p: Phase)
    requires t != [] && IsWord(t[0]) && (p == InWord || p == Start)
    requires SnakeRef(t[1..], InWord) == Finish(t[1..])
    ensures SnakeRef(t, p) == Finish(t)
  {
    FinishCons(t);
    assert Emit(p, t[0]) == [LowerChar(t[0])] && Next(p, t[0]) == InWord;
  }

  /** On a string that is already words with single spaces, the scan is lower-casing and `' '` to `'_'`. */
  lemma {:induction false} ScanSpacedWords(t: string, p: Phase)
    requires WordsOrSpaces(t) && SingleSpaces(t)
    requires t == [] || t[|t| - 1] != ' '
    requires p == InWord || (p == Start && (t == [] || t[0] != ' '))
    ensures SnakeRef(t, p) == Finish(t)
    decreases |t|
  {
    if t != [] && t[0] == ' ' {
      assert |t| >= 2 && !IsSpace(t[1]);
      assert IsWord(t[1]);
      SuffixKeepsShape(t, 2);
      ScanSpacedWords(t[2..], InWord);
      SpaceThenWord(t);
    } else if t != [] {
      assert IsWord(t[0]);
      SuffixKeepsShape(t, 1);
      ScanSpacedWords(t[1..], InWord);
      WordThenRest(t, p);
    }
  }

  lemma {:induction false} NoDoubleSpace(s: string, inRun: bool)
    ensures var r := RunsToSpace(s, Whitespace, inRun);
      && (inRun && r != [] ==> !IsSpace(r[0]))
      && SingleSpaces(r)
    decreases |s|
  {
    if s != [] {
      var rest := RunsToSpace(s[1..], Whitespace, IsSpace(s[0]));
      NoDoubleSpace(s[1..], IsSpace(s[0]));
      var head := if IsSpace(s[0]) then (if inRun then [] else [' ']) else [s[0]];
      var r := head + rest;
      assert r == RunsToSpace(s, Whitespace, inRun);
      forall i | 0 <= i < |r| - 1 ensures !(IsSpace(r[i]) && IsSpace(r[i + 1])) {
        if i >= |head| {
          assert r[i] == rest[i - |head|] && r[i + 1] == rest[i - |head| + 1];
        } else {
          assert r[i + 1] == rest[0];
        }
      }
    }
  }

  lemma CollapsedStripped(s6: string)
    requires WordsOrSpaces(s6)
    ensures SpacedWords(Strip(RunsToSpace(s6, Whitespace, false)))
  {
    var c := RunsToSpace(s6, Whitespace, false);
    assert WordsOrSpaces(c) by {
      forall i | 0 <= i < |c| ensures IsWord(c[i]) || c[i] == ' ' {
        if c[i] != ' ' {
          var j :| 0 <= j < |s6| && s6[j] == c[i];
        }
      }
    }
    NoDoubleSpace(s6, false);
    var r := Strip(c);
    var l := LeadingSpaces(c);
    assert r == c[l..][..|r|];
    SuffixKeepsShape(c, l);
    var u := c[l..];
    assert WordsOrSpaces(r) by {
      forall i | 0 <= i < |r| ensures IsWord(r[i]) || r[i] == ' ' {
        assert r[i] == u[i];
      }
    }
    assert SingleSpaces(r) by {
      forall i | 0 <= i < |r| - 1 ensures !(IsSpace(r[i]) && IsSpace(r[i + 1])) {
        assert r[i] == u[i] && r[i + 1] == u[i + 1];
      }
    }
  }

  // ---------------------------------------------------------------------
  // Theorems about to_snake_case and canonical_key
  // ---------------------------------------------------------------------

  /** Stripping and turning separators into spaces leaves the scan unchanged, and leaves only words and spaces. */
  lemma SeparatedKeepsScan(s: string)
    ensures SnakeRef(Separated(s), Start) == SnakeKey(s)
    ensures WordsOrSpaces(Separated(s))
  {
    var s1 := Strip(s);
    var s2 := ReplaceChar(ReplaceChar(ReplaceChar(s1, '\U{2013}', '-'), '\U{2014}', '-'), '\U{B7}', '.');
    var s3 := RunsToSpace(s2, OddGlyph, false);
    var s4 := ReplaceChar(ReplaceChar(s3, '/', ' '), '\\', ' ');
    var s5 := ReplaceChar(s4, '.', ' ');
    ScanStrip(s);
    ReplaceSeparator(s1, '\U{2013}', '-', Start);
    ReplaceSeparator(ReplaceChar(s1, '\U{2013}', '-'), '\U{2014}', '-', Start);
    ReplaceSeparator(ReplaceChar(ReplaceChar(s1, '\U{2013}', '-'), '\U{2014}', '-'), '\U{B7}', '.', Start);
    ScanRunsToSpace(s2, OddGlyph, false, Start);
    ReplaceSeparator(s3, '/', ' ', Start);
    ReplaceSeparator(ReplaceChar(s3, '/', ' '), '\\', ' ', Start);
    ReplaceSeparator(s4, '.', ' ', Start);
    ReplaceSeparator(s5, '-', ' ', Start);
    assert WordsOrSpaces(Separated(s));
  }

  /** The source's pipeline computes exactly the reference key. */
  lemma ToSnakeCaseIsReference(s: string)
    ensures ToSnakeCase(s) == SnakeKey(s)
  {
    var s6 := Separated(s);
    var c := RunsToSpace(s6, Whitespace, false);
    var t := Strip(c);
    SeparatedKeepsScan(s);
    ScanRunsToSpace(s6, Whitespace, false, Start);
    ScanStrip(c);
    assert SnakeRef(t, Start) == SnakeKey(s);
    CollapsedStripped(s6);
    ScanSpacedWords(t, Start);
  }

  /** No space, hyphen, slash, backslash, dot, dash or middle dot survives; only `a`-`z`, digits and `_` remain. */
  lemma ToSnakeCaseAlphabet(s: string)
    ensures forall i :: 0 <= i < |ToSnakeCase(s)| ==> IsSnakeChar(ToSnakeCase(s)[i])
    ensures forall c :: c in ToSnakeCase(s) ==>
      c !in {' ', '-', '/', '\\', '.', '\U{2013}', '\U{2014}', '\U{B7}'}
  {
    ToSnakeCaseIsReference(s);
  }

  lemma AfterWordEnd(x: string, p: Phase)
    requires x != [] && IsWord(x[|x| - 1])
    ensures After(x, p) == InWord
  {
    var init := x[..|x| - 1];
    assert x == init + [x[|x| - 1]];
    ScanConcat(init, [x[|x| - 1]], p);
  }

  lemma ScanFromWord(y: string)
    requires y != [] && IsWord(y[0])
    ensures SnakeRef(y, InWord) == SnakeRef(y, Start)
    ensures SnakeRef(y, AfterSep) == ['_'] + SnakeRef(y, Start)
  {
  }

  /** Word characters that touch stay together: the key of `x + y` is the keys side by side. */
  lemma AdjacentWords(x: string, y: string)
    requires x != [] && IsWord(x[|x| - 1])
    requires y != [] && IsWord(y[0])
    ensures SnakeKey(x + y) == SnakeKey(x) + SnakeKey(y)
  {
    ScanConcat(x, y, Start);
    AfterWordEnd(x, Start);
    ScanFromWord(y);
  }

  /** Separators after a word add nothing yet, and leave the scan after a separator. */
  lemma WordThenSeparators(x: string, seps: string)
    requires x != [] && IsWord(x[|x| - 1])
    requires seps != [] && NoWord(seps)
    ensures SnakeRef(x + seps, Start) == SnakeKey(x)
    ensures After(x + seps, Start) == AfterSep
  {
    ScanConcat(x, seps, Start);
    AfterWordEnd(x, Start);
    ScanSeparators(seps, InWord);
  }

  /** Any non-empty run of separators between two word characters becomes exactly one `_`. */
  lemma SeparatorRunIsOneUnderscore(x: string, seps: string, y: string)
    requires x != [] && IsWord(x[|x| - 1])
    requires seps != [] && NoWord(seps)
    requires y != [] && IsWord(y[0])
    ensures SnakeKey(x + seps + y) == SnakeKey(x) + "_" + SnakeKey(y)
  {
    var xs := x + seps;
    WordThenSeparators(x, seps);
    ScanConcat(xs, y, Start);
    ScanFromWord(y);
    assert SnakeKey(xs + y) == SnakeKey(x) + (['_'] + SnakeKey(y));
  }

  /** Separators at either end produce nothing: there is no leading or trailing `_` from them. */
  lemma OuterSeparatorsVanish(pre: string, x: string, post: string)
    requires NoWord(pre) && NoWord(post)
    ensures SnakeKey(pre + x + post) == SnakeKey(x)
  {
    ScanConcat(pre + x, post, Start);
    ScanConcat(pre, x, Start);
    ScanSeparators(pre, Start);
    ScanSeparators(post, After(pre + x, Start));
  }

  /** A run of word characters alone is only lower-cased. */
  lemma {:induction false} WordOnly(w: string, p: Phase)
    requires forall i :: 0 <= i < |w| ==> IsWord(w[i])
    requires p != AfterSep
    ensures SnakeRef(w, p) == Lower(w)
    decreases |w|
  {
    if w != [] {
      WordOnly(w[1..], InWord);
      assert Lower(w) == [LowerChar(w[0])] + Lower(w[1..]);
    }
  }

  /** The key is empty exactly when `s` has no word character. */
  lemma KeyEmpty(s: string)
    ensures SnakeKey(s) == [] <==> NoWord(s)
  {
    if NoWord(s) {
      ScanSeparators(s, Start);
    } else {
      KeyFirst(s);
    }
  }

  /** A non-empty key starts with the first word character of `s`, lower-cased: no leading `_` comes from a separator. */
  lemma KeyFirst(s: string)
    requires !NoWord(s)
    ensures SnakeKey(s) != [] && SnakeKey(s)[0] == LowerChar(s[FirstWord(s)])
  {
    var i := FirstWord(s);
    assert s == s[..i] + s[i..];
    ScanConcat(s[..i], s[i..], Start);
    ScanSeparators(s[..i], Start);
    assert SnakeKey(s) == SnakeRef(s[i..], Start);
  }

  /** A non-empty key ends with the last word character of `s`, lower-cased: no trailing `_` comes from a separator. */
  lemma KeyLast(s: string)
    requires !NoWord(s)
    ensures SnakeKey(s) != [] && SnakeKey(s)[|SnakeKey(s)| - 1] == LowerChar(s[LastWord(s)])
  {
    var j := LastWord(s);
    var front, back := s[..j], s[j + 1..];
    assert s == front + [s[j]] + back;
    ScanConcat(front + [s[j]], back, Start);
    ScanConcat(front, [s[j]], Start);
    ScanSeparators(back, After(front + [s[j]], Start));
    var e := Emit(After(front, Start), s[j]);
    assert SnakeRef([s[j]], After(front, Start)) == e;
    assert SnakeKey(s) == SnakeRef(front, Start) + e;
  }

  function FirstWord(s: string): (i: nat)
    requires !NoWord(s)
    ensures i < |s| && IsWord(s[i]) && NoWord(s[..i])
  {
    if IsWord(s[0]) then 0
    else
      var i := 1 + FirstWord(s[1..]);
      assert forall k :: 1 <= k < i ==> s[k] == s[1..][k - 1];
      i
  }

  function LastWord(s: string): (j: nat)
    requires !NoWord(s)
    ensures j < |s| && IsWord(s[j]) && NoWord(s[j + 1..])
  {
    if IsWord(s[|s| - 1]) then |s| - 1
    else
      var init := s[..|s| - 1];
      assert !NoWord(init) by {
        var k :| 0 <= k < |s| && IsWord(s[k]);
        assert init[k] == s[k];
      }
      var j := LastWord(init);
      assert forall k :: j < k < |s| ==> !IsWord(s[k]) by {
        forall k | j < k < |s|
          ensures !IsWord(s[k])
        {
          if k < |s| - 1 {
            assert s[k] == init[j + 1..][k - j - 1];
          }
        }
      }
      j
  }

  /** Applying `to_snake_case` to its own output changes nothing. */
  lemma ToSnakeCaseIdempotent(s: string)
    ensures ToSnakeCase(ToSnakeCase(s)) == ToSnakeCase(s)
  {
    var r := ToSnakeCase(s);
    ToSnakeCaseIsReference(s);
    ToSnakeCaseIsReference(r);
    WordOnly(r, Start);
    assert Lower(r) == r;
  }

  /** `canonical_key` and `to_snake_case` agree on every input. */
  lemma CanonicalKeyIsSnakeCase(s: string)
    ensures CanonicalKey(s) == ToSnakeCase(s)
  {
  }
}
