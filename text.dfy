/** The Python string operations the dispatch engine relies on, as functions on
    `string`: strip, lower, capitalize, `in`, startswith, replace, split and the
    decimal rendering of integers used in f-strings. */
module Text {

  /** Python's `str.isspace()`: the same characters `\s` matches in a `str`
      regular expression and `str.strip()` removes. */
  predicate IsSpace(c: char) {
    || c == ' '
    || '\t' <= c <= '\r'
    || '\U{1C}' <= c <= '\U{1F}'
    || c == '\U{85}' || c == '\U{A0}' || c == '\U{1680}'
    || '\U{2000}' <= c <= '\U{200A}'
    || c == '\U{2028}' || c == '\U{2029}' || c == '\U{202F}' || c == '\U{205F}' || c == '\U{3000}'
  }

  predicate IsDigit(c: char) {
    '0' <= c <= '9'
  }

  predicate IsUpper(c: char) {
    'A' <= c <= 'Z'
  }

  predicate IsLower(c: char) {
    'a' <= c <= 'z'
  }

  // ---------------------------------------------------------------- strip

  function TrimStart(s: string, drop: char -> bool): (r: string)
    ensures |r| <= |s| && r == s[|s| - |r|..]
    ensures forall i :: 0 <= i < |s| - |r| ==> drop(s[i])
    ensures r != [] ==> !drop(r[0])
  {
    if s != [] && drop(s[0]) then
      var r := TrimStart(s[1..], drop);
      assert s[1..][|s| - 1 - |r|..] == s[|s| - |r|..];
      assert forall i :: 1 <= i < |s| - |r| ==> s[i] == s[1..][i - 1];
      r
    else s
  }

  function TrimEnd(s: string, drop: char -> bool): (r: string)
    ensures |r| <= |s| && r == s[..|r|]
    ensures forall i :: |r| <= i < |s| ==> drop(s[i])
    ensures r != [] ==> !drop(r[|r| - 1])
  {
    if s != [] && drop(s[|s| - 1]) then TrimEnd(s[..|s| - 1], drop) else s
  }

  /** `s.strip(chars)`: drop the characters `drop` accepts from both ends. */
  function Trim(s: string, drop: char -> bool): (r: string)
  {
    TrimEnd(TrimStart(s, drop), drop)
  }

  /** Where the trimmed text starts inside the original. */
  function TrimOffset(s: string, drop: char -> bool): nat
  {
    |s| - |TrimStart(s, drop)|
  }

  /** `s.strip()` */
  function Strip(s: string): (r: string)
  {
    Trim(s, IsSpace)
  }

  predicate IsSlash(c: char) {
    c == '/'
  }

  /** A trimmed string is a slice of the original. */
  lemma TrimSlice(s: string, drop: char -> bool)
    ensures TrimOffset(s, drop) + |Trim(s, drop)| <= |s|
    ensures Trim(s, drop) == s[TrimOffset(s, drop)..TrimOffset(s, drop) + |Trim(s, drop)|]
  {
    var t := TrimStart(s, drop);
    assert TrimEnd(t, drop) == t[..|TrimEnd(t, drop)|];
  }

  /** What remains of a trim neither starts nor ends with a dropped character. */
  lemma TrimEnds(s: string, drop: char -> bool)
    ensures Trim(s, drop) != [] ==> !drop(Trim(s, drop)[0]) && !drop(Trim(s, drop)[|Trim(s, drop)| - 1])
  {
    var t := TrimStart(s, drop);
    var r := TrimEnd(t, drop);
    if r != [] {
      assert r[0] == t[0];
    }
  }

  /** The removed ends consist of dropped characters only. */
  lemma TrimDropped(s: string, drop: char -> bool)
    ensures forall k :: 0 <= k < TrimOffset(s, drop) ==> drop(s[k])
    ensures forall k :: TrimOffset(s, drop) + |Trim(s, drop)| <= k < |s| ==> drop(s[k])
  {
    TrimDroppedBack(s, drop);
  }

  lemma TrimDroppedBack(s: string, drop: char -> bool)
    ensures forall k :: TrimOffset(s, drop) + |Trim(s, drop)| <= k < |s| ==> drop(s[k])
  {
    var t := TrimStart(s, drop);
    var r := TrimEnd(t, drop);
    var i := |s| - |t|;
    assert t == s[i..];
    forall k | i + |r| <= k < |s| ensures drop(s[k]) {
      assert s[k] == t[k - i];
      assert drop(t[k - i]);
    }
  }

  /** A string whose ends are kept is its own trim. */
  lemma TrimNone(s: string, drop: char -> bool)
    requires s != [] ==> !drop(s[0]) && !drop(s[|s| - 1])
    ensures Trim(s, drop) == s
  {
    TrimSlice(s, drop);
    TrimDropped(s, drop);
    if s != [] {
      assert TrimOffset(s, drop) == 0;
      assert TrimOffset(s, drop) + |Trim(s, drop)| == |s|;
    }
  }

  /** Text with no whitespace at either end. */
  predicate Trimmed(t: string) {
    t != [] ==> !IsSpace(t[0]) && !IsSpace(t[|t| - 1])
  }

  lemma StripTrimmed(s: string)
    ensures Trimmed(Strip(s))
  {
    TrimEnds(s, IsSpace);
  }

  /** Everything that is not dropped survives the trim, and nothing new appears. */
  lemma TrimKeeps(s: string, drop: char -> bool, c: char)
    ensures c in s && !drop(c) ==> c in Trim(s, drop)
    ensures c in Trim(s, drop) ==> c in s
  {
    if c in s && !drop(c) {
      var k :| 0 <= k < |s| && s[k] == c;
      TrimKept(s, drop, k);
    }
    TrimFrom(s, drop, c);
  }

  lemma TrimFrom(s: string, drop: char -> bool, c: char)
    ensures c in Trim(s, drop) ==> c in s
  {
    var r, i := Trim(s, drop), TrimOffset(s, drop);
    TrimSlice(s, drop);
    if c in r {
      var k :| 0 <= k < |r| && r[k] == c;
      assert s[i + k] == c;
    }
  }

  /** A kept position of the original lies inside the trimmed slice. */
  lemma TrimKept(s: string, drop: char -> bool, k: nat)
    requires k < |s| && !drop(s[k])
    ensures TrimOffset(s, drop) <= k < TrimOffset(s, drop) + |Trim(s, drop)|
    ensures Trim(s, drop)[k - TrimOffset(s, drop)] == s[k]
  {
    TrimDropped(s, drop);
    TrimSlice(s, drop);
  }

  /** Dropped characters in front are all `TrimStart` removes. */
  lemma {:induction false} TrimStartPadded(pre: string, b: string, drop: char -> bool)
    requires forall i :: 0 <= i < |pre| ==> drop(pre[i])
    requires b != [] ==> !drop(b[0])
    ensures TrimStart(pre + b, drop) == b
    decreases |pre|
  {
    if pre == [] {
      assert pre + b == b;
    } else {
      assert (pre + b)[1..] == pre[1..] + b;
      TrimStartPadded(pre[1..], b, drop);
    }
  }

  /** Dropped characters behind are all `TrimEnd` removes. */
  lemma {:induction false} TrimEndPadded(a: string, post: string, drop: char -> bool)
    requires forall i :: 0 <= i < |post| ==> drop(post[i])
    requires a != [] ==> !drop(a[|a| - 1])
    ensures TrimEnd(a + post, drop) == a
    decreases |post|
  {
    if post == [] {
      assert a + post == a;
    } else {
      var s := a + post;
      assert s[|s| - 1] == post[|post| - 1];
      assert s[..|s| - 1] == a + post[..|post| - 1];
      TrimEndPadded(a, post[..|post| - 1], drop);
    }
  }

  /** Stripping whitespace padding gives back the trimmed text inside. */
  lemma StripPadded(pre: string, a: string, post: string)
    requires Trimmed(a)
    requires forall i :: 0 <= i < |pre| ==> IsSpace(pre[i])
    requires forall i :: 0 <= i < |post| ==> IsSpace(post[i])
    ensures Strip(pre + a + post) == a
  {
    assert pre + a + post == pre + (a + post);
    if a == [] {
      TrimStartPadded(pre + post, [], IsSpace);
      assert pre + [] + post == (pre + post) + [];
      assert Strip(pre + a + post) == TrimEnd([], IsSpace);
    } else {
      TrimStartPadded(pre, a + post, IsSpace);
      TrimEndPadded(a, post, IsSpace);
    }
  }

  /** Two trimmed, non-empty texts joined by one space strip to themselves. */
  lemma StripJoinBoth(a: string, b: string)
    requires a != [] && b != [] && Trimmed(a) && Trimmed(b)
    ensures Strip(a + " " + b) == a + " " + b
  {
    var joined := a + " " + b;
    assert joined[0] == a[0] && joined[|joined| - 1] == b[|b| - 1];
    TrimNone(joined, IsSpace);
  }

  /** A trimmed text followed by a space and nothing strips to itself. */
  lemma StripJoinFirst(a: string, b: string)
    requires Trimmed(a) && b == []
    ensures Strip(a + " " + b) == a
  {
    var none: string := [];
    StripPadded(none, a, " ");
    assert none + a + " " == a + " " + b;
  }

  /** Nothing and a space before a trimmed text strip to that text. */
  lemma StripJoinLast(a: string, b: string)
    requires a == [] && Trimmed(b)
    ensures Strip(a + " " + b) == b
  {
    var none: string := [];
    StripPadded(" ", b, none);
    assert " " + b + none == a + " " + b;
  }

  /** Stripping two texts joined by one space: the join itself when both are
      non-empty and trimmed, else the one that is there. */
  lemma StripJoin(a: string, b: string)
    ensures Trimmed(Strip(a + " " + b))
    ensures a != [] && b != [] && Trimmed(a) && Trimmed(b) ==> Strip(a + " " + b) == a + " " + b
    ensures Trimmed(a) && b == [] ==> Strip(a + " " + b) == a
    ensures a == [] && Trimmed(b) ==> Strip(a + " " + b) == b
  {
    StripTrimmed(a + " " + b);
    if a != [] && b != [] && Trimmed(a) && Trimmed(b) {
      StripJoinBoth(a, b);
    }
    if Trimmed(a) && b == [] {
      StripJoinFirst(a, b);
    }
    if a == [] && Trimmed(b) {
      StripJoinLast(a, b);
    }
  }

  /** Python's `s.strip() == ""` holds exactly for all-whitespace strings. */
  lemma StripEmptyIff(s: string)
    ensures Strip(s) == [] <==> forall k :: 0 <= k < |s| ==> IsSpace(s[k])
  {
    if Strip(s) == [] {
      forall k | 0 <= k < |s| ensures IsSpace(s[k]) {
        TrimKeeps(s, IsSpace, s[k]);
      }
    } else {
      var r := Strip(s);
      TrimKeeps(s, IsSpace, r[0]);
      TrimEnds(s, IsSpace);
    }
  }

  // ---------------------------------------------------------------- case

  function LowerChar(c: char): char {
    if IsUpper(c) then (c as int + 32) as char else c
  }

  function UpperChar(c: char): char {
    if IsLower(c) then (c as int - 32) as char else c
  }

  /** `s.lower()` on ASCII letters. */
  function Lower(s: string): (r: string)
    ensures |r| == |s|
    ensures forall i :: 0 <= i < |s| ==> r[i] == LowerChar(s[i])
  {
    seq(|s|, i requires 0 <= i < |s| => LowerChar(s[i]))
  }

  /** `s.capitalize()` on ASCII letters: first letter upper case, the rest lower case. */
  function Capitalize(s: string): (r: string)
    ensures |r| == |s|
  {
    if s == [] then [] else [UpperChar(s[0])] + Lower(s[1..])
  }

  /** A capitalized word: no lower-case letter first, no upper-case letter after it. */
  predicate IsCapitalized(s: string) {
    (s != [] ==> !IsLower(s[0])) && forall i :: 1 <= i < |s| ==> !IsUpper(s[i])
  }

  lemma CapitalizeShape(s: string)
    ensures IsCapitalized(Capitalize(s))
    ensures forall i :: 0 <= i < |s| ==>
      (IsDigit(Capitalize(s)[i]) <==> IsDigit(s[i])) && (IsSpace(Capitalize(s)[i]) <==> IsSpace(s[i]))
    ensures forall i :: 0 <= i < |s| && !IsLower(s[i]) && !IsUpper(s[i]) ==> Capitalize(s)[i] == s[i]
  {
    var r := Capitalize(s);
    forall i | 0 <= i < |s|
      ensures i == 0 ==> !IsLower(r[i])
      ensures i > 0 ==> !IsUpper(r[i])
      ensures (IsDigit(r[i]) <==> IsDigit(s[i])) && (IsSpace(r[i]) <==> IsSpace(s[i]))
      ensures !IsLower(s[i]) && !IsUpper(s[i]) ==> r[i] == s[i]
    {
      if i == 0 {
        assert r[i] == UpperChar(s[0]);
        CaseChars(s[i]);
      } else {
        assert r[i] == Lower(s[1..])[i - 1] == LowerChar(s[i]);
        CaseChars(s[i]);
      }
    }
  }

  /** Changing the case of a character changes nothing but letters. */
  lemma CaseChars(c: char)
    ensures !IsLower(UpperChar(c)) && !IsUpper(LowerChar(c))
    ensures IsDigit(UpperChar(c)) <==> IsDigit(c)
    ensures IsDigit(LowerChar(c)) <==> IsDigit(c)
    ensures IsSpace(UpperChar(c)) <==> IsSpace(c)
    ensures IsSpace(LowerChar(c)) <==> IsSpace(c)
    ensures !IsLower(c) && !IsUpper(c) ==> UpperChar(c) == c && LowerChar(c) == c
  {
  }

  // ---------------------------------------------------------------- in, startswith

  /** `p in s` for strings: `p` occurs in `s` as a contiguous substring. */
  predicate Contains(s: string, p: string)
    decreases |s|
  {
    p <= s || (s != [] && Contains(s[1..], p))
  }

  predicate OccursAt(s: string, p: string, i: int) {
    0 <= i && i + |p| <= |s| && s[i..i + |p|] == p
  }

  /** An occurrence at a known position is found by `Contains`. */
  lemma {:induction false} OccursContains(s: string, p: string, i: int)
    requires OccursAt(s, p, i)
    ensures Contains(s, p)
    decreases i
  {
    if i > 0 {
      assert s[1..][i - 1..i - 1 + |p|] == s[i..i + |p|];
      OccursContains(s[1..], p, i - 1);
    }
  }

  /** `Contains` finds an actual position. */
  lemma {:induction false} ContainsPos(s: string, p: string) returns (i: nat)
    requires Contains(s, p)
    ensures OccursAt(s, p, i)
    decreases |s|
  {
    if p <= s {
      i := 0;
    } else {
      var j := ContainsPos(s[1..], p);
      assert s[1..][j..j + |p|] == s[j + 1..j + 1 + |p|];
      i := j + 1;
    }
  }

  /** A one-character substring test is character membership. */
  lemma ContainsChar(s: string, c: char)
    ensures Contains(s, [c]) <==> c in s
  {
    if c in s {
      var k :| 0 <= k < |s| && s[k] == c;
      assert s[k..k + 1] == [c];
      OccursContains(s, [c], k);
    }
    if Contains(s, [c]) {
      var k := ContainsPos(s, [c]);
      assert s[k] == s[k..k + 1][0];
    }
  }

  /** Occurrences of `p` inside `b` are occurrences in `a + b`. */
  lemma ContainsSuffix(a: string, b: string, p: string)
    requires Contains(b, p)
    ensures Contains(a + b, p)
  {
    var i := ContainsPos(b, p);
    assert (a + b)[|a| + i..|a| + i + |p|] == b[i..i + |p|];
    OccursContains(a + b, p, |a| + i);
  }

  /** A longer pattern is found only where its parts are. */
  lemma ContainsPart(s: string, p: string, q: string)
    requires Contains(s, p + q)
    ensures Contains(s, p) && Contains(s, q)
  {
    var i := ContainsPos(s, p + q);
    assert s[i..i + |p|] == (p + q)[..|p|];
    OccursContains(s, p, i);
    assert s[i + |p|..i + |p| + |q|] == (p + q)[|p|..];
    OccursContains(s, q, i + |p|);
  }

  /** A pattern is found only in a string at least as long, and one of the
      same length only in itself. */
  lemma ContainsLength(s: string, p: string)
    requires Contains(s, p)
    ensures |p| <= |s| && (|p| == |s| ==> p == s)
  {
    var i := ContainsPos(s, p);
  }

  /** A pattern as long as the text but differing from it somewhere does not occur in it. */
  lemma ContainsDiffer(s: string, p: string, k: nat)
    requires |p| == |s| && k < |s| && s[k] != p[k]
    ensures !Contains(s, p)
  {
    if Contains(s, p) {
      ContainsLength(s, p);
    }
  }

  /** A pattern longer than the text does not occur in it. */
  lemma ContainsLonger(s: string, p: string)
    requires |p| > |s|
    ensures !Contains(s, p)
  {
    if Contains(s, p) {
      ContainsLength(s, p);
    }
  }

  /** A pattern is found only where its first character is. */
  lemma ContainsFirst(s: string, p: string)
    requires |p| > 0 && Contains(s, p)
    ensures p[0] in s
  {
    var i := ContainsPos(s, p);
    assert s[i] == p[0];
  }

  // ---------------------------------------------------------------- replace

  /** `s.replace(p, r)`: every occurrence of `p`, scanning left to right and
      without overlaps, is replaced by `r`. */
  function Replace(s: string, p: string, r: string): string
    requires |p| > 0
    decreases |s|
  {
    if s == [] then []
    else if p <= s then r + Replace(s[|p|..], p, r)
    else [s[0]] + Replace(s[1..], p, r)
  }

  /** Replacing a pattern that does not occur changes nothing. */
  lemma {:induction false} ReplaceAbsent(s: string, p: string, r: string)
    requires |p| > 0
    requires !Contains(s, p)
    ensures Replace(s, p, r) == s
    decreases |s|
  {
    if s != [] {
      ReplaceAbsent(s[1..], p, r);
    }
  }

  /** Six pieces put together read back piece by piece (the middle two as one). */
  lemma SixParts(a: string, b: string, c: string, d: string, e: string, f: string)
    ensures var r := a + b + c + d + e + f;
      var m := |a| + |b|;
      var n := m + |c| + |d|;
      && r[..|a|] == a
      && r[|a|..m] == b
      && r[m..n] == c + d
      && r[n..n + |e|] == e
      && r[n + |e|..] == f
  {
    var ab := a + b;
    var abcd := ab + (c + d);
    var abcde := abcd + e;
    assert a + b + c + d + e + f == abcde + f;
    assert (abcde + f)[..|abcde|] == abcde;
    assert abcde[..|abcd|] == abcd;
    assert abcd[..|ab|] == ab;
  }

  /** An occurrence between two characters that start none is replaced alone. */
  lemma ReplaceInside(c: char, p: string, d: char, r: string)
    requires |p| >= 2 && !(p <= [c] + p + [d])
    ensures Replace([c] + p + [d], p, r) == [c] + r + [d]
  {
    var s := [c] + p + [d];
    assert s[1..] == p + [d];
    assert Replace(s, p, r) == [c] + Replace(p + [d], p, r);
    ReplaceFront([d], p, r);
    assert !(p <= [d]) && [d][1..] == [];
    assert Replace([d], p, r) == [d];
  }

  /** A part that cannot start an occurrence is copied unchanged. */
  lemma {:induction false} ReplaceSkip(a: string, b: string, p: string, r: string)
    requires |p| > 0
    requires p[0] !in a
    ensures Replace(a + b, p, r) == a + Replace(b, p, r)
    decreases |a|
  {
    if a != [] {
      assert (a + b)[0] == a[0];
      assert (a + b)[1..] == a[1..] + b;
      assert Replace(a + b, p, r) == [a[0]] + Replace(a[1..] + b, p, r);
      ReplaceSkip(a[1..], b, p, r);
      calc {
        Replace(a + b, p, r);
        [a[0]] + (a[1..] + Replace(b, p, r));
        ([a[0]] + a[1..]) + Replace(b, p, r);
        { assert [a[0]] + a[1..] == a; }
        a + Replace(b, p, r);
      }
    } else {
      assert a + b == b;
    }
  }

  /** An occurrence at the front is replaced and the scan resumes after it. */
  lemma ReplaceFront(b: string, p: string, r: string)
    requires |p| > 0
    ensures Replace(p + b, p, r) == r + Replace(b, p, r)
  {
    assert (p + b)[|p|..] == b;
  }

  /** The conditions under which `Replace(_, p, r)` cannot create a new
      occurrence of `p`: the replacement is not empty, holds neither the first
      nor the last character of `p`, and does not occur inside `p`. */
  predicate SafeReplacement(p: string, r: string) {
    |p| > 0 && |r| > 0 && p[0] !in r && p[|p| - 1] !in r && !Contains(p, r)
  }

  /** With a safe replacement, a tail of `p` at the front of the output was
      already at the front of the input. */
  lemma {:induction false} ReplacePrefixBack(t: string, p: string, r: string, k: nat)
    requires SafeReplacement(p, r)
    requires 1 <= k <= |p|
    requires p[k..] <= Replace(t, p, r)
    ensures p[k..] <= t
    decreases |t|
  {
    if k == |p| || t == [] {
      return;
    }
    if p <= t {
      var rest := Replace(t[|p|..], p, r);
      assert Replace(t, p, r) == r + rest;
      if |p| - k <= |r| {
        assert false;
      } else {
        assert r == p[k..k + |r|];
        OccursContains(p, r, k);
        assert false;
      }
    } else {
      var rest := Replace(t[1..], p, r);
      assert Replace(t, p, r) == [t[0]] + rest;
      assert p[k] == t[0];
      assert p[k + 1..] <= rest;
      ReplacePrefixBack(t[1..], p, r, k + 1);
      assert p[k..] == [p[k]] + p[k + 1..];
      assert t == [t[0]] + t[1..];
    }
  }

  /** No occurrence starts inside a part that lacks the first character of the
      pattern, so any occurrence in `a + b` lies in `b`. */
  lemma NoStartIn(a: string, b: string, p: string)
    requires |p| > 0 && p[0] !in a && !Contains(b, p)
    ensures !Contains(a + b, p)
  {
    if Contains(a + b, p) {
      var i := ContainsPos(a + b, p);
      if i < |a| {
        assert false;
      } else {
        assert (a + b)[i..i + |p|] == b[i - |a|..i - |a| + |p|];
        OccursContains(b, p, i - |a|);
        assert false;
      }
    }
  }

  /** One leading character can only add an occurrence at the very front. */
  lemma NoStartAfter(c: char, b: string, p: string)
    requires |p| > 0 && !Contains(b, p) && !(p <= [c] + b)
    ensures !Contains([c] + b, p)
  {
    assert ([c] + b)[1..] == b;
  }

  /** With a safe replacement no occurrence of `p` is left after `Replace`. */
  lemma {:induction false} ReplaceLeavesNone(s: string, p: string, r: string)
    requires SafeReplacement(p, r)
    ensures !Contains(Replace(s, p, r), p)
    decreases |s|
  {
    if s == [] {
      return;
    }
    if p <= s {
      ReplaceLeavesNone(s[|p|..], p, r);
      NoStartIn(r, Replace(s[|p|..], p, r), p);
    } else {
      var rest := Replace(s[1..], p, r);
      ReplaceLeavesNone(s[1..], p, r);
      if p <= [s[0]] + rest {
        assert p[1..] <= rest;
        ReplacePrefixBack(s[1..], p, r, 1);
        assert false;
      }
      NoStartAfter(s[0], rest, p);
    }
  }

  /** Two strings overlap when one is a prefix of the other. */
  predicate Overlap(a: string, b: string) {
    a <= b || b <= a
  }

  /**
   * No occurrence of `p` can share a character with an occurrence of `q`:
   * `q` starts neither inside nor at an occurrence of `p`, nor `p` inside `q`.
   */
  predicate Apart(p: string, q: string) {
    (forall k :: 0 <= k < |p| ==> !Overlap(p[k..], q)) &&
    (forall m :: 0 <= m < |q| ==> !Overlap(p, q[m..]))
  }

  /** Two prefixes of one string overlap. */
  lemma PrefixesOverlap(a: string, b: string, t: string)
    requires a <= t && b <= t
    ensures Overlap(a, b)
  {
    if |a| <= |b| {
      assert a == t[..|a|] == b[..|a|];
    } else {
      assert b == t[..|b|] == a[..|b|];
    }
  }

  /** `Replace` copies a prefix no occurrence of `p` starts inside of. */
  lemma {:induction false} ReplaceKeepsPrefix(t: string, p: string, r: string, q: string)
    requires |p| > 0 && q <= t
    requires forall m :: 0 <= m < |q| ==> !Overlap(p, q[m..])
    ensures q <= Replace(t, p, r)
    decreases |t|
  {
    if q == [] {
      return;
    }
    if p <= t {
      PrefixesOverlap(p, q[0..], t);
      assert false;
    }
    forall m | 0 <= m < |q[1..]|
      ensures !Overlap(p, q[1..][m..])
    {
      assert q[1..][m..] == q[m + 1..];
    }
    ReplaceKeepsPrefix(t[1..], p, r, q[1..]);
  }

  /** An occurrence of `q` apart from `p` survives replacing `p`. */
  lemma {:induction false} ReplaceKeeps(s: string, p: string, r: string, q: string, i: nat)
    requires |p| > 0 && Apart(p, q) && OccursAt(s, q, i)
    ensures Contains(Replace(s, p, r), q)
    decreases |s|
  {
    if i == 0 {
      assert q <= s;
      ReplaceKeepsPrefix(s, p, r, q);
      return;
    }
    if p <= s {
      if i < |p| {
        assert p[i..] <= s[i..];
        PrefixesOverlap(p[i..], q, s[i..]);
        assert false;
      }
      assert s[|p|..][i - |p|..i - |p| + |q|] == s[i..i + |q|];
      ReplaceKeeps(s[|p|..], p, r, q, i - |p|);
      ContainsSuffix(r, Replace(s[|p|..], p, r), q);
    } else {
      assert s[1..][i - 1..i - 1 + |q|] == s[i..i + |q|];
      ReplaceKeeps(s[1..], p, r, q, i - 1);
      ContainsSuffix([s[0]], Replace(s[1..], p, r), q);
    }
  }

  /** Whatever `q` apart from `p` the text holds, the replaced text holds too. */
  lemma ReplaceKeepsApart(s: string, p: string, r: string, q: string)
    requires |p| > 0 && Apart(p, q) && Contains(s, q)
    ensures Contains(Replace(s, p, r), q)
  {
    var i := ContainsPos(s, q);
    ReplaceKeeps(s, p, r, q, i);
  }

  /** For a non-empty `q`, the number of positions of `s` at which `q` starts
      (`s.count(q)` counts the non-overlapping ones; this counts them all). */
  function Occurrences(s: string, q: string): nat
    decreases |s|
  {
    if s == [] then 0
    else (if q <= s then 1 else 0) + Occurrences(s[1..], q)
  }

  /** A non-empty pattern is found exactly when it starts somewhere. */
  lemma {:induction false} OccurrencesContains(s: string, q: string)
    requires |q| > 0
    ensures Contains(s, q) <==> Occurrences(s, q) > 0
    decreases |s|
  {
    if s != [] {
      OccurrencesContains(s[1..], q);
    } else if Contains(s, q) {
      ContainsLength(s, q);
    }
  }

  /** A prefix can only add starting positions. */
  lemma {:induction false} OccurrencesPrepend(a: string, b: string, q: string)
    ensures Occurrences(a + b, q) >= Occurrences(b, q)
    decreases |a|
  {
    if a != [] {
      assert (a + b)[1..] == a[1..] + b;
      OccurrencesPrepend(a[1..], b, q);
    } else {
      assert a + b == b;
    }
  }

  /** Positions at which `q` does not start do not count. */
  lemma {:induction false} OccurrencesSkip(s: string, q: string, n: nat)
    requires n <= |s|
    requires forall k :: 0 <= k < n ==> !(q <= s[k..])
    ensures Occurrences(s, q) == Occurrences(s[n..], q)
    decreases n
  {
    if n > 0 {
      assert !(q <= s[0..]) && s[0..] == s;
      forall k | 0 <= k < n - 1
        ensures !(q <= s[1..][k..])
      {
        assert s[1..][k..] == s[k + 1..];
      }
      OccurrencesSkip(s[1..], q, n - 1);
      assert s[1..][n - 1..] == s[n..];
    }
  }

  /** Replacing `p` keeps every occurrence of a `q` apart from it: the
      replaced text holds at least as many. */
  lemma {:induction false} ReplaceKeepsAll(s: string, p: string, r: string, q: string)
    requires |p| > 0 && Apart(p, q)
    ensures Occurrences(Replace(s, p, r), q) >= Occurrences(s, q)
    decreases |s|
  {
    if s == [] {
      return;
    }
    var t := Replace(s, p, r);
    if p <= s {
      forall k | 0 <= k < |p|
        ensures !(q <= s[k..])
      {
        assert p[k..] <= s[k..];
        if q <= s[k..] {
          PrefixesOverlap(p[k..], q, s[k..]);
        }
      }
      OccurrencesSkip(s, q, |p|);
      ReplaceKeepsAll(s[|p|..], p, r, q);
      OccurrencesPrepend(r, Replace(s[|p|..], p, r), q);
    } else {
      ReplaceKeepsAll(s[1..], p, r, q);
      assert t == [s[0]] + Replace(s[1..], p, r);
      assert t[1..] == Replace(s[1..], p, r);
      if q <= s {
        ReplaceKeepsPrefix(s, p, r, q);
      }
    }
  }

  /** With a replacement safe for `q`, a tail of `q` at the front of the
      output of replacing `p` was already at the front of the input. */
  lemma {:induction false} ReplaceTailBack(t: string, p: string, r: string, q: string, k: nat)
    requires |p| > 0 && SafeReplacement(q, r)
    requires 1 <= k <= |q|
    requires q[k..] <= Replace(t, p, r)
    ensures q[k..] <= t
    decreases |t|
  {
    if k == |q| || t == [] {
      return;
    }
    if p <= t {
      var rest := Replace(t[|p|..], p, r);
      assert Replace(t, p, r) == r + rest;
      if |q| - k <= |r| {
        assert false;
      } else {
        assert r == q[k..k + |r|];
        OccursContains(q, r, k);
        assert false;
      }
    } else {
      var rest := Replace(t[1..], p, r);
      assert Replace(t, p, r) == [t[0]] + rest;
      assert q[k] == t[0];
      assert q[k + 1..] <= rest;
      ReplaceTailBack(t[1..], p, r, q, k + 1);
      assert q[k..] == [q[k]] + q[k + 1..];
      assert t == [t[0]] + t[1..];
    }
  }

  /** A replacement safe for `q` creates no occurrence of `q`. */
  lemma {:induction false} ReplaceAddsNone(s: string, p: string, r: string, q: string)
    requires |p| > 0 && SafeReplacement(q, r) && !Contains(s, q)
    ensures !Contains(Replace(s, p, r), q)
    decreases |s|
  {
    if s == [] {
      return;
    }
    if p <= s {
      if Contains(s[|p|..], q) {
        assert s[..|p|] + s[|p|..] == s;
        ContainsSuffix(s[..|p|], s[|p|..], q);
        assert false;
      }
      ReplaceAddsNone(s[|p|..], p, r, q);
      NoStartIn(r, Replace(s[|p|..], p, r), q);
    } else {
      var rest := Replace(s[1..], p, r);
      ReplaceAddsNone(s[1..], p, r, q);
      if q <= [s[0]] + rest {
        assert q[1..] <= rest;
        ReplaceTailBack(s[1..], p, r, q, 1);
        assert false;
      }
      NoStartAfter(s[0], rest, q);
    }
  }

  // ---------------------------------------------------------------- split

  function IndexOf(s: string, c: char): (k: nat)
    requires c in s
    ensures k < |s| && s[k] == c && c !in s[..k]
  {
    if s[0] == c then 0 else 1 + IndexOf(s[1..], c)
  }

  /** `s.split(sep)` for a one-character separator: never an empty list. */
  function Split(s: string, sep: char): (parts: seq<string>)
    ensures |parts| >= 1
    ensures forall k :: 0 <= k < |parts| ==> sep !in parts[k]
    decreases |s|
  {
    if sep in s then
      var k := IndexOf(s, sep);
      [s[..k]] + Split(s[k + 1..], sep)
    else [s]
  }

  /** `sep.join(parts)` */
  function Join(parts: seq<string>, sep: char): string
    requires |parts| >= 1
  {
    if |parts| == 1 then parts[0] else parts[0] + [sep] + Join(parts[1..], sep)
  }

  /** Splitting loses nothing: joining the parts gives the string back. */
  lemma {:induction false} SplitJoin(s: string, sep: char)
    ensures Join(Split(s, sep), sep) == s
    decreases |s|
  {
    if sep in s {
      var k := IndexOf(s, sep);
      SplitJoin(s[k + 1..], sep);
      assert Split(s, sep)[1..] == Split(s[k + 1..], sep);
      assert s == s[..k] + [sep] + s[k + 1..];
    }
  }

  /** The first part runs up to the first separator, and there is a second part
      exactly when the separator occurs. */
  lemma SplitFirst(s: string, sep: char)
    ensures (|Split(s, sep)| > 1) <==> sep in s
    ensures sep in s ==>
      && Split(s, sep)[0] == s[..IndexOf(s, sep)]
      && Split(s, sep)[1] == Split(s[IndexOf(s, sep) + 1..], sep)[0]
    ensures sep !in s ==> Split(s, sep) == [s]
  {
  }

  /** Two separator-free parts joined by one separator split back into them. */
  lemma SplitTwo(a: string, b: string, sep: char)
    requires sep !in a && sep !in b
    ensures Split(a + [sep] + b, sep) == [a, b]
  {
    var s := a + [sep] + b;
    assert s[|a|] == sep;
    assert IndexOf(s, sep) == |a| by {
      assert s[..|a|] == a;
    }
    assert s[..|a|] == a && s[|a| + 1..] == b;
  }

  // ---------------------------------------------------------------- regular-expression helpers

  /** `re.split(pattern, s)[0]` for a one-character class: the part before the
      first character `stop` accepts. */
  function TakeUntil(s: string, stop: char -> bool): (r: string)
    ensures r <= s
    ensures forall i :: 0 <= i < |r| ==> !stop(r[i])
    ensures |r| < |s| ==> stop(s[|r|])
  {
    if s == [] || stop(s[0]) then [] else [s[0]] + TakeUntil(s[1..], stop)
  }

  /** The part before the first stop character is found as soon as one occurs. */
  lemma TakeUntilAt(a: string, b: string, stop: char -> bool)
    requires forall i :: 0 <= i < |a| ==> !stop(a[i])
    requires b != [] && stop(b[0])
    ensures TakeUntil(a + b, stop) == a
  {
    assert (a + b)[..|a|] == a;
  }

  /** `re.sub(r"\d+", "", s)` with ASCII digits. */
  function RemoveDigits(s: string): (r: string)
    ensures forall i :: 0 <= i < |r| ==> !IsDigit(r[i])
    ensures forall c :: c in r <==> c in s && !IsDigit(c)
  {
    if s == [] then []
    else if IsDigit(s[0]) then RemoveDigits(s[1..])
    else [s[0]] + RemoveDigits(s[1..])
  }

  /** A string without digits keeps all its characters. */
  lemma {:induction false} RemoveDigitsNone(s: string)
    requires forall i :: 0 <= i < |s| ==> !IsDigit(s[i])
    ensures RemoveDigits(s) == s
  {
    if s != [] {
      RemoveDigitsNone(s[1..]);
    }
  }

  // ---------------------------------------------------------------- str(int)

  function DigitChar(d: nat): char
    requires d < 10
  {
    "0123456789"[d]
  }

  function NatToString(n: nat): (r: string)
    ensures r != []
    ensures forall i :: 0 <= i < |r| ==> IsDigit(r[i])
  {
    if n < 10 then [DigitChar(n)] else NatToString(n / 10) + [DigitChar(n % 10)]
  }

  /** `str(i)` for a Python int. */
  function IntToString(i: int): string
  {
    if i < 0 then "-" + NatToString(-i) else NatToString(i)
  }
}
