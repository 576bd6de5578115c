/** The JavaScript string operations the screens rely on: `trim`, `includes`
    and `toLowerCase`, over strings as sequences of characters. */
module Text {

  /** The characters `String.prototype.trim` removes: ECMAScript WhiteSpace
      (tab, vertical tab, form feed, space, no-break space, byte order mark and
      the Unicode space separators) and LineTerminator code points. */
  predicate IsWhitespace(c: char) {
    || c == '\t' || c == '\n' || c == '\U{B}' || c == '\U{C}' || c == '\r'
    || c == ' ' || c == '\U{A0}' || c == '\U{1680}'
    || ('\U{2000}' <= c <= '\U{200A}')
    || c == '\U{2028}' || c == '\U{2029}' || c == '\U{202F}' || c == '\U{205F}'
    || c == '\U{3000}' || c == '\U{FEFF}'
  }

  /** A string made of whitespace only (the empty string included). */
  predicate IsBlank(s: string) {
    forall i :: 0 <= i < |s| ==> IsWhitespace(s[i])
  }

  /** Removes leading whitespace; what is left is a suffix of `s`. */
  function TrimStart(s: string): (r: string)
    ensures |r| <= |s| && r == s[|s| - |r|..]
    ensures IsBlank(s[..|s| - |r|])
    ensures r == [] || !IsWhitespace(r[0])
  {
    if s != [] && IsWhitespace(s[0]) then
      var r := TrimStart(s[1..]);
      var k := |s| - |r|;
      assert s[1..][k - 1..] == s[k..];
      assert forall i :: 0 < i < k ==> s[..k][i] == s[1..][..k - 1][i - 1];
      r
    else s
  }

  /** Removes trailing whitespace; what is left is a prefix of `s`. */
  function TrimEnd(s: string): (r: string)
    ensures |r| <= |s| && r == s[..|r|]
    ensures IsBlank(s[|r|..])
    ensures r == [] || !IsWhitespace(r[|r| - 1])
  {
    if s != [] && IsWhitespace(s[|s| - 1]) then
      var r := TrimEnd(s[..|s| - 1]);
      assert s[..|s| - 1][..|r|] == s[..|r|];
      assert s[|r|..] == s[..|s| - 1][|r|..] + [s[|s| - 1]];
      BlankConcat(s[..|s| - 1][|r|..], [s[|s| - 1]]);
      r
    else s
  }

  /** `s.trim()`: the middle slice of `s` left once whitespace is cut from both
      ends; it is empty exactly when `s` is blank. */
  function Trim(s: string): (r: string)
    ensures var k := |s| - |TrimStart(s)|;
      && k + |r| <= |s| && r == s[k..k + |r|]
      && IsBlank(s[..k]) && IsBlank(s[k + |r|..])
    ensures r == [] <==> IsBlank(s)
    ensures r == [] || (!IsWhitespace(r[0]) && !IsWhitespace(r[|r| - 1]))
  {
    var t := TrimStart(s);
    var r := TrimEnd(t);
    SliceOfSuffix(s, t, r);
    TrimBlank(s, t, r);
    TrimEnds(t, r);
    r
  }

  /** Trimming leaves nothing exactly when there was nothing but whitespace. */
  lemma TrimBlank(s: string, t: string, r: string)
    requires t == TrimStart(s) && r == TrimEnd(t)
    ensures r == [] <==> IsBlank(s)
  {
    if r == [] {
      EmptyTrimIsBlank(s, t);
    }
    if IsBlank(s) {
      BlankTrimsToEmpty(s, t);
    }
  }

  /** When trimming the end leaves nothing, the whole string was whitespace. */
  lemma EmptyTrimIsBlank(s: string, t: string)
    requires t == TrimStart(s) && TrimEnd(t) == []
    ensures IsBlank(s)
  {
    assert s[..|s|] == s;
  }

  /** Trimming the start of a blank string leaves nothing. */
  lemma BlankTrimsToEmpty(s: string, t: string)
    requires t == TrimStart(s) && IsBlank(s)
    ensures t == []
  {
    if t != [] {
      BlankSuffix(s, t);
    }
  }

  /** What is left after trimming starts and ends on non-whitespace. */
  lemma TrimEnds(t: string, r: string)
    requires t == [] || !IsWhitespace(t[0])
    requires r == TrimEnd(t)
    ensures r == [] || (!IsWhitespace(r[0]) && !IsWhitespace(r[|r| - 1]))
  {
    if r != [] {
      assert r[0] == t[0];
    }
  }

  /** A suffix of a blank string is blank. */
  lemma BlankSuffix(s: string, t: string)
    requires IsBlank(s) && |t| <= |s| && t == s[|s| - |t|..]
    ensures IsBlank(t)
  {
    forall i | 0 <= i < |t| ensures IsWhitespace(t[i]) {
      assert t[i] == s[|s| - |t| + i];
    }
  }

  /** A prefix `r` of a suffix `t` of `s` is a slice of `s`. */
  lemma SliceOfSuffix(s: string, t: string, r: string)
    requires |t| <= |s| && t == s[|s| - |t|..] && |r| <= |t| && r == t[..|r|]
    ensures var k := |s| - |t|;
      && k + |r| <= |s| && r == s[k..k + |r|] && t[|r|..] == s[k + |r|..]
  {
  }

  /** Two blank strings make a blank string. */
  lemma BlankConcat(a: string, b: string)
    requires IsBlank(a) && IsBlank(b)
    ensures IsBlank(a + b)
  {
    forall i | 0 <= i < |a + b| ensures IsWhitespace((a + b)[i]) {
      if i >= |a| {
        assert (a + b)[i] == b[i - |a|];
      }
    }
  }

  /** Trimming an already trimmed string changes nothing. */
  lemma TrimIdempotent(s: string)
    ensures Trim(Trim(s)) == Trim(s)
  {
    var r := Trim(s);
    assert TrimStart(r) == r;
    assert TrimEnd(r) == r;
  }

  /** `sub` occurs in `s` starting at index `i`. */
  predicate OccursAt(s: string, sub: string, i: int) {
    0 <= i <= |s| - |sub| && s[i..i + |sub|] == sub
  }

  /** `s.includes(sub)`: `sub` occurs in `s` at some position. */
  function Contains(s: string, sub: string): (r: bool)
    ensures r <==> exists i :: OccursAt(s, sub, i)
    decreases |s|
  {
    if |sub| <= |s| && s[..|sub|] == sub then
      assert OccursAt(s, sub, 0);
      true
    else if |s| <= |sub| then
      false
    else
      OccursInTail(s, sub);
      Contains(s[1..], sub)
  }

  /** Past position 0, `sub` occurs in `s` exactly where it occurs in `s[1..]`,
      one position further on. */
  lemma OccursInTail(s: string, sub: string)
    requires |sub| < |s| && s[..|sub|] != sub
    ensures (exists i :: OccursAt(s, sub, i)) <==> (exists j :: OccursAt(s[1..], sub, j))
  {
    if exists j :: OccursAt(s[1..], sub, j) {
      var j :| OccursAt(s[1..], sub, j);
      TailSlice(s, j, |sub|);
      assert OccursAt(s, sub, j + 1);
    }
    if exists i :: OccursAt(s, sub, i) {
      var i :| OccursAt(s, sub, i);
      TailSlice(s, i - 1, |sub|);
      assert OccursAt(s[1..], sub, i - 1);
    }
  }

  /** A string that neither starts nor ends with whitespace occurs in `s`
      exactly when it occurs in `s.trim()`: no occurrence can reach into the
      whitespace cut from either end. */
  lemma {:induction false} ContainsTrimmed(s: string, sub: string)
    requires sub != [] && !IsWhitespace(sub[0]) && !IsWhitespace(sub[|sub| - 1])
    ensures Contains(Trim(s), sub) <==> Contains(s, sub)
  {
    TrimmedContains(s, |s| - |TrimStart(s)|, Trim(s), sub);
  }

  /** `ContainsTrimmed` for any slice with only whitespace around it. */
  lemma TrimmedContains(s: string, k: int, r: string, sub: string)
    requires 0 <= k && k + |r| <= |s| && r == s[k..k + |r|]
    requires IsBlank(s[..k]) && IsBlank(s[k + |r|..])
    requires sub != [] && !IsWhitespace(sub[0]) && !IsWhitespace(sub[|sub| - 1])
    ensures Contains(r, sub) <==> Contains(s, sub)
  {
    SliceContains(s, k, r, sub);
    ContainsInside(s, k, r, sub);
  }

  /** What a slice contains, the whole string contains. */
  lemma SliceContains(s: string, k: int, r: string, sub: string)
    requires 0 <= k && k + |r| <= |s| && r == s[k..k + |r|]
    ensures Contains(r, sub) ==> Contains(s, sub)
  {
    if Contains(r, sub) {
      var j :| OccursAt(r, sub, j);
      OccursInSlice(s, k, r, sub, j);
    }
  }

  /** A string that starts and ends on non-whitespace occurs in the slice `r`
      whenever it occurs in a string that has only whitespace around `r`. */
  lemma ContainsInside(s: string, k: int, r: string, sub: string)
    requires 0 <= k && k + |r| <= |s| && r == s[k..k + |r|]
    requires IsBlank(s[..k]) && IsBlank(s[k + |r|..])
    requires sub != [] && !IsWhitespace(sub[0]) && !IsWhitespace(sub[|sub| - 1])
    ensures Contains(s, sub) ==> Contains(r, sub)
  {
    if Contains(s, sub) {
      var i :| OccursAt(s, sub, i);
      OccursInside(s, k, r, sub, i);
    }
  }

  /** An occurrence in a slice is an occurrence in the whole string. */
  lemma OccursInSlice(s: string, k: int, r: string, sub: string, j: int)
    requires 0 <= k && k + |r| <= |s| && r == s[k..k + |r|] && OccursAt(r, sub, j)
    ensures OccursAt(s, sub, k + j)
  {
    forall t | 0 <= t < |sub| ensures s[k + j..k + j + |sub|][t] == sub[t] {
      assert r[j + t] == s[k + j + t];
      assert r[j..j + |sub|][t] == sub[t];
    }
  }

  /** An occurrence that starts and ends on non-whitespace, in a string whose
      slice `r` is surrounded by whitespace only, lies within `r`. */
  lemma OccursInside(s: string, k: int, r: string, sub: string, i: int)
    requires 0 <= k && k + |r| <= |s| && r == s[k..k + |r|]
    requires IsBlank(s[..k]) && IsBlank(s[k + |r|..])
    requires sub != [] && !IsWhitespace(sub[0]) && !IsWhitespace(sub[|sub| - 1])
    requires OccursAt(s, sub, i)
    ensures OccursAt(r, sub, i - k)
  {
    assert s[i] == s[i..i + |sub|][0];
    assert s[i + |sub| - 1] == s[i..i + |sub|][|sub| - 1];
    forall t | 0 <= t < |sub| ensures r[i - k..i - k + |sub|][t] == sub[t] {
      assert r[i - k + t] == s[i + t];
      assert s[i..i + |sub|][t] == sub[t];
    }
  }

  /** A string whose first character does not appear in `s` does not occur in `s`. */
  lemma AbsentFirstChar(s: string, sub: string)
    requires sub != [] && sub[0] !in s
    ensures !Contains(s, sub)
  {
    forall i | 0 <= i <= |s| - |sub| ensures !OccursAt(s, sub, i) {
      assert s[i..i + |sub|][0] == s[i];
    }
  }

  /** A slice of the tail of `s` is the slice of `s` one place further on. */
  lemma TailSlice(s: string, j: int, n: int)
    requires 0 <= j && 0 <= n && j + n <= |s| - 1
    ensures s[1..][j..j + n] == s[j + 1..j + 1 + n]
  {
  }

  /** The empty string occurs in every string. */
  lemma ContainsEmpty(s: string)
    ensures Contains(s, "")
  {
    assert OccursAt(s, "", 0);
  }

  /** `toLowerCase` on one character: the ASCII capitals A-Z map to a-z and
      every other character is left as it is. */
  function LowerChar(c: char): char {
    if 'A' <= c <= 'Z' then (c as int + 32) as char else c
  }

  /** `s.toLowerCase()`, one character at a time. */
  function Lower(s: string): string {
    seq(|s|, i requires 0 <= i < |s| => LowerChar(s[i]))
  }

  /** `s.toLowerCase().includes(keyword.toLowerCase())`. */
  predicate ContainsIgnoringCase(s: string, keyword: string) {
    Contains(Lower(s), Lower(keyword))
  }

  /** Lower-casing twice is lower-casing once. */
  lemma LowerIdempotent(s: string)
    ensures Lower(Lower(s)) == Lower(s)
  {
  }

  /** The case-insensitive test cannot tell a string from its lower-case form,
      on either side; an empty keyword is found in every string. */
  lemma ContainsIgnoringCaseProperties(s: string, keyword: string)
    ensures ContainsIgnoringCase(Lower(s), keyword) == ContainsIgnoringCase(s, keyword)
    ensures ContainsIgnoringCase(s, Lower(keyword)) == ContainsIgnoringCase(s, keyword)
    ensures ContainsIgnoringCase(s, "")
  {
    LowerIdempotent(s);
    LowerIdempotent(keyword);
    ContainsEmpty(Lower(s));
  }
}
