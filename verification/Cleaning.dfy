/**
  The cleaning applied to the OCR engine's output before any field is looked
  for: every character outside `[A-Za-z0-9:/\- \n]` becomes a space, every run
  of whitespace (line feeds included) becomes one space, and the ends are
  stripped.
 */
module Cleaning {
  import opened Text

  /** The characters the first substitution keeps: `[A-Za-z0-9:/\-\n ]`. */
  predicate IsKept(c: char) {
    IsLetter(c) || IsDigit(c) || c == ':' || c == '/' || c == '-' || c == '\n' || c == ' '
  }

  /** The characters a cleaned text is made of. */
  predicate IsCleanChar(c: char) {
    IsLetter(c) || IsDigit(c) || c == ':' || c == '/' || c == '-' || c == ' '
  }

  /** Two spaces side by side at positions `k` and `k + 1`. */
  predicate DoubleSpaceAt(s: string, k: nat)
    requires k + 1 < |s|
  {
    s[k] == ' ' && s[k + 1] == ' '
  }

  /** No two spaces side by side. */
  predicate NoDoubleSpace(s: string) {
    forall k: nat :: k + 1 < |s| ==> !DoubleSpaceAt(s, k)
  }

  /** The shape of every text that cleaning returns. */
  predicate IsClean(t: string) {
    && (forall k :: 0 <= k < |t| ==> IsCleanChar(t[k]))
    && NoDoubleSpace(t)
    && (t == [] || (t[0] != ' ' && t[|t| - 1] != ' '))
  }

  /** `re.sub(r'[^A-Za-z0-9:/\-\n ]', ' ', s)` */
  function ReplaceUnkept(s: string): (r: string)
    ensures |r| == |s|
    ensures forall k :: 0 <= k < |r| ==> IsKept(r[k])
    ensures forall k :: 0 <= k < |s| && IsKept(s[k]) ==> r[k] == s[k]
    ensures forall k :: 0 <= k < |s| && !IsKept(s[k]) ==> r[k] == ' '
  {
    seq(|s|, k requires 0 <= k < |s| => if IsKept(s[k]) then s[k] else ' ')
  }

  /** `re.sub(r'\s+', ' ', s)`: each maximal run of whitespace becomes one space. */
  function CollapseWhitespace(s: string): (r: string)
    ensures |r| == 0 <==> |s| == 0
    ensures s != [] && IsSpace(s[0]) ==> r[0] == ' '
    ensures s != [] && !IsSpace(s[0]) ==> r[0] == s[0]
    decreases |s|
  {
    if s == [] then []
    else if IsSpace(s[0]) then [' '] + CollapseWhitespace(StripLeft(s))
    else [s[0]] + CollapseWhitespace(s[1..])
  }

  /** The collapsed text has no two adjacent spaces, and each of its characters is a space
      or a non-whitespace character of the input. */
  lemma {:induction false} CollapseWhitespaceShape(s: string)
    ensures var r := CollapseWhitespace(s);
      && (forall k :: 0 <= k < |r| ==> r[k] == ' ' || (!IsSpace(r[k]) && r[k] in s))
      && NoDoubleSpace(r)
    decreases |s|
  {
    if s != [] {
      if IsSpace(s[0]) {
        var l := StripLeft(s);
        assert l == StripLeft(s[1..]);
        StripLeftIsSuffix(s);
        CollapseWhitespaceShape(l);
        var rest := CollapseWhitespace(l);
        NoDoubleSpaceCons(' ', rest);
        assert forall c :: c in l ==> c in s;
        assert CollapseWhitespace(s) == [' '] + rest;
      } else {
        var rest := CollapseWhitespace(s[1..]);
        CollapseWhitespaceShape(s[1..]);
        NoDoubleSpaceCons(s[0], rest);
        assert forall c :: c in s[1..] ==> c in s;
        assert CollapseWhitespace(s) == [s[0]] + rest;
      }
    }
  }

  /** A non-empty run of whitespace becomes exactly one space. */
  lemma CollapseWhitespaceOfRun(w: string)
    requires w != []
    requires forall k :: 0 <= k < |w| ==> IsSpace(w[k])
    ensures CollapseWhitespace(w) == " "
  {
    StripLeftAllSpace(w);
  }

  /** A non-whitespace character is kept as it is. */
  lemma CollapseWhitespaceOfChar(c: char)
    requires !IsSpace(c)
    ensures CollapseWhitespace([c]) == [c]
  {
    assert [c][1..] == [];
  }

  /** Collapsing works run by run: text that starts with a non-whitespace character is
      collapsed on its own after whatever comes before it. With `CollapseWhitespaceOfRun`,
      `CollapseWhitespaceOfChar` and the empty text, this determines the result on every
      input. */
  lemma {:induction false} CollapseWhitespaceSplit(a: string, t: string)
    requires t != [] && !IsSpace(t[0])
    ensures CollapseWhitespace(a + t) == CollapseWhitespace(a) + CollapseWhitespace(t)
    decreases |a|
  {
    if a == [] {
      assert a + t == t;
    } else if IsSpace(a[0]) {
      assert (a + t)[0] == a[0];
      StripLeftAppend(a, t);
      var l := StripLeft(a);
      assert l == StripLeft(a[1..]);
      CollapseWhitespaceSplit(l, t);
      assert CollapseWhitespace(a + t) == [' '] + CollapseWhitespace(l + t);
      assert CollapseWhitespace(a) == [' '] + CollapseWhitespace(l);
      AppendAssoc([' '], CollapseWhitespace(l), CollapseWhitespace(t));
    } else {
      assert (a + t)[0] == a[0];
      assert (a + t)[1..] == a[1..] + t;
      CollapseWhitespaceSplit(a[1..], t);
      assert CollapseWhitespace(a + t) == [a[0]] + CollapseWhitespace(a[1..] + t);
      assert CollapseWhitespace(a) == [a[0]] + CollapseWhitespace(a[1..]);
      AppendAssoc([a[0]], CollapseWhitespace(a[1..]), CollapseWhitespace(t));
    }
  }

  /** A non-empty run of whitespace followed by text that does not start with whitespace
      becomes one space before that text, collapsed. */
  lemma CollapseWhitespaceRunThen(w: string, t: string)
    requires w != [] && forall k :: 0 <= k < |w| ==> IsSpace(w[k])
    requires t == [] || !IsSpace(t[0])
    ensures CollapseWhitespace(w + t) == " " + CollapseWhitespace(t)
  {
    CollapseWhitespaceOfRun(w);
    if t == [] {
      assert w + t == w;
    } else {
      CollapseWhitespaceSplit(w, t);
    }
  }

  /** Text that ends in a non-whitespace character is collapsed on its own before
      whatever follows it. */
  lemma CollapseWhitespaceAfterChar(a: string, u: string)
    requires a != [] && !IsSpace(a[|a| - 1])
    ensures CollapseWhitespace(a + u) == CollapseWhitespace(a) + CollapseWhitespace(u)
  {
    var init := a[..|a| - 1];
    var c := a[|a| - 1];
    assert a == init + [c];
    assert a + u == init + ([c] + u);
    CollapseWhitespaceSplit(init, [c] + u);
    assert ([c] + u)[1..] == u;
    assert CollapseWhitespace([c] + u) == [c] + CollapseWhitespace(u);
    CollapseWhitespaceSplit(init, [c]);
    CollapseWhitespaceOfChar(c);
    AppendAssoc(CollapseWhitespace(init), [c], CollapseWhitespace(u));
  }

  /** A maximal run of whitespace between two texts becomes exactly one space, and the
      texts on either side are collapsed on their own. */
  lemma CollapseWhitespaceRunBetween(a: string, w: string, t: string)
    requires a == [] || !IsSpace(a[|a| - 1])
    requires w != [] && forall k :: 0 <= k < |w| ==> IsSpace(w[k])
    requires t == [] || !IsSpace(t[0])
    ensures CollapseWhitespace(a + w + t) == CollapseWhitespace(a) + " " + CollapseWhitespace(t)
  {
    CollapseWhitespaceRunThen(w, t);
    AppendAssoc(a, w, t);
    if a == [] {
      assert a + (w + t) == w + t;
    } else {
      CollapseWhitespaceAfterChar(a, w + t);
      AppendAssoc(CollapseWhitespace(a), " ", CollapseWhitespace(t));
    }
  }

  lemma NoDoubleSpaceCons(c: char, t: string)
    requires NoDoubleSpace(t)
    requires c != ' ' || t == [] || t[0] != ' '
    ensures NoDoubleSpace([c] + t)
  {
    var u := [c] + t;
    forall k: nat | k + 1 < |u|
      ensures !DoubleSpaceAt(u, k)
    {
      if k > 0 {
        assert !DoubleSpaceAt(t, k - 1);
      }
    }
  }

  /** Lines 54-56 of the OCR step: substitute, collapse, strip. */
  function Clean(s: string): string {
    Strip(CollapseWhitespace(ReplaceUnkept(s)))
  }

  lemma SliceKeepsNoDoubleSpace(s: string, a: nat, b: nat)
    requires a <= b <= |s|
    requires NoDoubleSpace(s)
    ensures NoDoubleSpace(s[a..b])
  {
    var t := s[a..b];
    forall k: nat | k + 1 < |t|
      ensures !DoubleSpaceAt(t, k)
    {
      assert !DoubleSpaceAt(s, a + k);
      assert t[k] == s[a + k] && t[k + 1] == s[a + k + 1];
    }
  }

  /** Stripping keeps single spaces single and adds no character. */
  lemma StripKeepsSpacing(v: string)
    requires NoDoubleSpace(v)
    ensures NoDoubleSpace(Strip(v))
    ensures forall c :: c in Strip(v) ==> c in v
  {
    var l := StripLeft(v);
    StripLeftIsSuffix(v);
    StripRightIsPrefix(l);
    SliceKeepsNoDoubleSpace(v, |v| - |l|, |v|);
    SliceKeepsNoDoubleSpace(l, 0, |Strip(v)|);
  }

  /** Whatever the OCR engine returns, the cleaned text has only letters, digits,
      `:`, `/`, `-` and single spaces, and neither starts nor ends with a space. */
  lemma CleanIsClean(s: string)
    ensures IsClean(Clean(s))
  {
    var u := ReplaceUnkept(s);
    var v := CollapseWhitespace(u);
    CollapseWhitespaceShape(u);
    var w := Strip(v);
    StripKeepsSpacing(v);
    forall k | 0 <= k < |w|
      ensures IsCleanChar(w[k])
    {
      var c := w[k];
      assert c in v;
      var i :| 0 <= i < |v| && v[i] == c;
      if c != ' ' {
        assert c in u;
        var j :| 0 <= j < |u| && u[j] == c;
        assert IsKept(u[j]);
      }
    }
  }

  lemma {:induction false} CollapseKeepsSingleSpaces(t: string)
    requires forall k :: 0 <= k < |t| ==> t[k] == ' ' || !IsSpace(t[k])
    requires NoDoubleSpace(t)
    ensures CollapseWhitespace(t) == t
    decreases |t|
  {
    if t != [] {
      var rest := t[1..];
      assert NoDoubleSpace(rest) by {
        SliceKeepsNoDoubleSpace(t, 1, |t|);
        assert rest == t[1..|t|];
      }
      CollapseKeepsSingleSpaces(rest);
      if IsSpace(t[0]) {
        assert rest == [] || !IsSpace(rest[0]) by {
          if rest != [] {
            assert !DoubleSpaceAt(t, 0);
            assert rest[0] == t[1];
          }
        }
        assert StripLeft(t) == rest;
      }
      assert t == [t[0]] + rest;
    }
  }

  /** A text already in cleaned shape passes through cleaning unchanged. */
  lemma CleanKeepsClean(t: string)
    requires IsClean(t)
    ensures Clean(t) == t
  {
    assert ReplaceUnkept(t) == t;
    CollapseKeepsSingleSpaces(t);
    StripKeepsTrimmed(t);
  }

  /** Cleaning is idempotent. */
  lemma CleanIdempotent(s: string)
    ensures Clean(Clean(s)) == Clean(s)
  {
    CleanIsClean(s);
    CleanKeepsClean(Clean(s));
  }

  /** The cleaned text is a single line. */
  lemma CleanHasNoLineFeed(s: string)
    ensures '\n' !in Clean(s)
  {
    CleanIsClean(s);
  }
}
