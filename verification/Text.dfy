/**
  The character classes and the Python string operations that the
  identity-card text extractor relies on, restricted to ASCII:
  `\d`, `\w`, `\s`, `str.lower`, `str.upper`, `str.strip`,
  `str.split("\n")`, `str.replace(" ", "")` and the substring test `x in s`.
 */
module Text {

  datatype Option<T> = None | Some(value: T)

  /** `\d`: an ASCII decimal digit. */
  predicate IsDigit(c: char) {
    '0' <= c <= '9'
  }

  predicate IsLetter(c: char) {
    'A' <= c <= 'Z' || 'a' <= c <= 'z'
  }

  /** `\w`: letters, digits and the underscore. */
  predicate IsWordChar(c: char) {
    IsLetter(c) || IsDigit(c) || c == '_'
  }

  /** `\s` and `str.isspace`: space, tab, line feed, vertical tab, form feed,
      carriage return and the separators 0x1C to 0x1F. */
  predicate IsSpace(c: char) {
    c == ' ' || 9 <= c as int <= 13 || 28 <= c as int <= 31
  }

  function ToLower(c: char): char {
    if 'A' <= c <= 'Z' then (c as int + 32) as char else c
  }

  function ToUpper(c: char): char {
    if 'a' <= c <= 'z' then (c as int - 32) as char else c
  }

  /** `s.lower()` */
  function Lower(s: string): string {
    seq(|s|, k requires 0 <= k < |s| => ToLower(s[k]))
  }

  /** `s.upper()` */
  function Upper(s: string): string {
    seq(|s|, k requires 0 <= k < |s| => ToUpper(s[k]))
  }

  /** `w in s` for strings: `w` occurs somewhere in `s` as a contiguous piece. */
  predicate Contains(s: string, w: string)
    decreases |s|
  {
    w <= s || (s != [] && Contains(s[1..], w))
  }

  /** `any(w in s for w in ws)` */
  predicate ContainsAny(s: string, ws: seq<string>) {
    exists k :: 0 <= k < |ws| && Contains(s, ws[k])
  }

  /** Leading whitespace removed. */
  function StripLeft(s: string): (r: string)
    ensures |r| <= |s|
    ensures r == [] || !IsSpace(r[0])
    decreases |s|
  {
    if s != [] && IsSpace(s[0]) then StripLeft(s[1..]) else s
  }

  /** Trailing whitespace removed. */
  function StripRight(s: string): (r: string)
    ensures |r| <= |s|
    ensures r == [] || !IsSpace(r[|r| - 1])
    ensures r != [] ==> r[0] == s[0]
    decreases |s|
  {
    if s != [] && IsSpace(s[|s| - 1]) then StripRight(s[..|s| - 1]) else s
  }

  /** `StripLeft` drops exactly the longest all-whitespace prefix. */
  lemma {:induction false} StripLeftIsSuffix(s: string)
    ensures StripLeft(s) == s[|s| - |StripLeft(s)|..|s|]
    ensures forall k :: 0 <= k < |s| - |StripLeft(s)| ==> IsSpace(s[k])
    decreases |s|
  {
    if s != [] && IsSpace(s[0]) {
      StripLeftIsSuffix(s[1..]);
    }
  }

  /** `StripRight` drops exactly the longest all-whitespace suffix. */
  lemma {:induction false} StripRightIsPrefix(s: string)
    ensures StripRight(s) == s[0..|StripRight(s)|]
    ensures forall k :: |StripRight(s)| <= k < |s| ==> IsSpace(s[k])
    decreases |s|
  {
    if s != [] && IsSpace(s[|s| - 1]) {
      StripRightIsPrefix(s[..|s| - 1]);
    }
  }

  /** Leading whitespace stops at the first non-whitespace character, so text after one
      is never touched. */
  lemma {:induction false} StripLeftAppend(a: string, t: string)
    requires t != [] && !IsSpace(t[0])
    ensures StripLeft(a + t) == StripLeft(a) + t
    decreases |a|
  {
    if a == [] {
      assert a + t == t;
    } else {
      assert (a + t)[0] == a[0];
      if IsSpace(a[0]) {
        assert (a + t)[1..] == a[1..] + t;
        StripLeftAppend(a[1..], t);
      }
    }
  }

  /** All-whitespace text strips to nothing from the left. */
  lemma StripLeftAllSpace(w: string)
    requires forall k :: 0 <= k < |w| ==> IsSpace(w[k])
    ensures StripLeft(w) == []
  {
    StripLeftIsSuffix(w);
  }

  /** `s.strip()` */
  function Strip(s: string): (r: string)
    ensures |r| <= |s| && IsTrimmed(r)
  {
    StripRight(StripLeft(s))
  }

  /** Neither end is whitespace. */
  predicate IsTrimmed(t: string) {
    t == [] || (!IsSpace(t[0]) && !IsSpace(t[|t| - 1]))
  }

  lemma StripKeepsTrimmed(t: string)
    requires IsTrimmed(t)
    ensures Strip(t) == t
  {
  }

  /** Stripping twice is stripping once. */
  lemma StripIdempotent(s: string)
    ensures Strip(Strip(s)) == Strip(s)
  {
    StripKeepsTrimmed(Strip(s));
  }

  /** Concatenation regroups. */
  lemma AppendAssoc(x: string, y: string, z: string)
    ensures x + (y + z) == (x + y) + z
  {
  }

  /** Adjacent slices join into one. */
  lemma SliceConcat(s: string, a: nat, b: nat, c: nat)
    requires a <= b <= c <= |s|
    ensures s[a..c] == s[a..b] + s[b..c]
  {
  }

  /** `s.replace(" ", "")`: every space dropped, everything else kept in order. */
  function RemoveSpaces(s: string): (r: string)
    ensures |r| <= |s|
    ensures forall c :: c in r <==> c in s && c != ' '
    ensures s != [] && s[0] != ' ' ==> r != [] && r[0] == s[0]
    decreases |s|
  {
    if s == [] then []
    else if s[0] == ' ' then RemoveSpaces(s[1..])
    else [s[0]] + RemoveSpaces(s[1..])
  }

  lemma {:induction false} RemoveSpacesAppend(a: string, b: string)
    ensures RemoveSpaces(a + b) == RemoveSpaces(a) + RemoveSpaces(b)
    decreases |a|
  {
    if a == [] {
      assert a + b == b;
    } else {
      assert (a + b)[1..] == a[1..] + b;
      RemoveSpacesAppend(a[1..], b);
    }
  }

  lemma {:induction false} RemoveSpacesKeepsSpaceless(s: string)
    requires ' ' !in s
    ensures RemoveSpaces(s) == s
    decreases |s|
  {
    if s != [] {
      RemoveSpacesKeepsSpaceless(s[1..]);
    }
  }

  /** `s.split("\n")`: the pieces between line feeds, always at least one. */
  function SplitLines(s: string): (r: seq<string>)
    ensures |r| >= 1
    ensures forall k :: 0 <= k < |r| ==> '\n' !in r[k]
    ensures '\n' !in s ==> r == [s]
    decreases |s|
  {
    if s == [] then [[]]
    else
      var rest := SplitLines(s[1..]);
      assert '\n' !in s ==> '\n' !in s[1..] && s == [s[0]] + s[1..];
      if s[0] == '\n' then [[]] + rest
      else [[s[0]] + rest[0]] + rest[1..]
  }

  /** `"\n".join(pieces)` */
  function JoinLines(pieces: seq<string>): string
    decreases |pieces|
  {
    if pieces == [] then []
    else if |pieces| == 1 then pieces[0]
    else pieces[0] + "\n" + JoinLines(pieces[1..])
  }

  lemma JoinLinesCons(p: string, ps: seq<string>)
    requires ps != []
    ensures JoinLines([p] + ps) == p + "\n" + JoinLines(ps)
  {
    assert ([p] + ps)[1..] == ps;
  }

  /** Splitting on line feeds loses nothing: joining the pieces gives the text back. */
  lemma {:induction false} JoinSplitLines(s: string)
    ensures JoinLines(SplitLines(s)) == s
    decreases |s|
  {
    if s != [] {
      var tail := s[1..];
      var rest := SplitLines(tail);
      JoinSplitLines(tail);
      assert s == [s[0]] + tail;
      if s[0] == '\n' {
        assert SplitLines(s) == [[]] + rest;
        JoinLinesCons([], rest);
      } else if |rest| == 1 {
        assert SplitLines(s) == [[s[0]] + rest[0]];
      } else {
        var head := [s[0]] + rest[0];
        assert rest == [rest[0]] + rest[1..];
        assert SplitLines(s) == [head] + rest[1..];
        JoinLinesCons(head, rest[1..]);
        JoinLinesCons(rest[0], rest[1..]);
      }
    }
  }
}
