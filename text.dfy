/**
 * The handful of Python string built-ins the diagram-index builder relies on:
 * `str.replace`, `str.title`, `str.join`, string ordering (`<=` on `str`, used
 * by `sorted`) and the `repr` of a list of strings.
 */
module Text {

  /** `s` holds `pat` starting at index `i`. */
  predicate OccursAt(s: string, pat: string, i: int)
  {
    0 <= i && i + |pat| <= |s| && s[i..i + |pat|] == pat
  }

  predicate EndsWith(s: string, suffix: string)
  {
    |suffix| <= |s| && s[|s| - |suffix|..] == suffix
  }

  /** Substring test: `t in s` in Python. */
  ghost predicate Contains(s: string, t: string)
  {
    exists k :: OccursAt(s, t, k)
  }

  /**
   * `s.replace(pat, rep)`: every occurrence of `pat`, found scanning from the
   * left and never overlapping a replaced one, is replaced by `rep`.
   */
  function ReplaceAll(s: string, pat: string, rep: string): string
    requires |pat| > 0
    decreases |s|
  {
    if |s| < |pat| then s
    else if s[..|pat|] == pat then rep + ReplaceAll(s[|pat|..], pat, rep)
    else [s[0]] + ReplaceAll(s[1..], pat, rep)
  }

  /**
   * Removing `pat` from a string that holds it only as its suffix leaves
   * exactly the part before the suffix.
   */
  lemma {:induction false} RemoveSoleSuffix(s: string, pat: string)
    requires |pat| > 0 && EndsWith(s, pat)
    requires forall i :: 0 <= i < |s| - |pat| ==> !OccursAt(s, pat, i)
    ensures ReplaceAll(s, pat, "") == s[..|s| - |pat|]
    decreases |s|
  {
    if |s| == |pat| {
      assert s[..|pat|] == pat;
    } else {
      assert !OccursAt(s, pat, 0);
      assert s[..|pat|] != pat;
      var t := s[1..];
      assert t[|t| - |pat|..] == s[|s| - |pat|..];
      forall i | 0 <= i < |t| - |pat|
        ensures !OccursAt(t, pat, i)
      {
        assert !OccursAt(s, pat, i + 1);
        assert t[i..i + |pat|] == s[i + 1..i + 1 + |pat|];
      }
      RemoveSoleSuffix(t, pat);
      assert [s[0]] + t[..|t| - |pat|] == s[..|s| - |pat|];
    }
  }

  /**
   * Replacing one character by another keeps the length and changes exactly
   * the positions that held the old character.
   */
  lemma {:induction false} ReplaceCharAt(s: string, a: char, b: char)
    ensures |ReplaceAll(s, [a], [b])| == |s|
    ensures forall i :: 0 <= i < |s| ==>
      ReplaceAll(s, [a], [b])[i] == (if s[i] == a then b else s[i])
    decreases |s|
  {
    if |s| > 0 {
      ReplaceCharAt(s[1..], a, b);
      var r := ReplaceAll(s, [a], [b]);
      var head := if s[0] == a then b else s[0];
      assert s[..1] == [s[0]];
      assert r == [head] + ReplaceAll(s[1..], [a], [b]);
      forall i | 0 <= i < |s|
        ensures r[i] == (if s[i] == a then b else s[i])
      {
        if i > 0 {
          assert r[i] == ReplaceAll(s[1..], [a], [b])[i - 1];
          assert s[1..][i - 1] == s[i];
        }
      }
    }
  }

  // ---------------------------------------------------------------------
  // str.title(): a cased character is upper-cased when the character before
  // it is not cased, lower-cased otherwise; other characters are unchanged.
  // Only the ASCII letters are treated as cased.

  predicate IsCased(c: char)
  {
    'a' <= c <= 'z' || 'A' <= c <= 'Z'
  }

  function Upper(c: char): char
  {
    if 'a' <= c <= 'z' then (c as int - 32) as char else c
  }

  function Lower(c: char): char
  {
    if 'A' <= c <= 'Z' then (c as int + 32) as char else c
  }

  /** How `title` rewrites `c`, given whether the character before it is cased. */
  function TitleChar(c: char, afterCased: bool): char
  {
    if !IsCased(c) then c else if afterCased then Lower(c) else Upper(c)
  }

  /** `title` of `s` when the character before `s` is cased iff `afterCased`. */
  function TitleFrom(s: string, afterCased: bool): (r: string)
    ensures |r| == |s|
    ensures |s| > 0 ==> r[0] == TitleChar(s[0], afterCased)
    ensures forall i :: 0 < i < |s| ==> r[i] == TitleChar(s[i], IsCased(s[i - 1]))
    decreases |s|
  {
    if s == [] then [] else [TitleChar(s[0], afterCased)] + TitleFrom(s[1..], IsCased(s[0]))
  }

  /** Python's `s.title()`. */
  function Title(s: string): string
  {
    TitleFrom(s, false)
  }

  /** The rule, written for every position of the result. */
  lemma TitleAt(s: string, i: int)
    requires 0 <= i < |s|
    ensures |Title(s)| == |s|
    ensures Title(s)[i] == TitleChar(s[i], i > 0 && IsCased(s[i - 1]))
  {
  }

  // ---------------------------------------------------------------------
  // Joining and list repr.

  /** `sep.join(parts)`. */
  function Join(parts: seq<string>, sep: string): string
  {
    if |parts| == 0 then ""
    else if |parts| == 1 then parts[0]
    else parts[0] + sep + Join(parts[1..], sep)
  }

  /**
   * `str(parts)` for a list of strings: `['a', 'b']`. Python chooses the quote
   * character and escapes per element; this is its form for elements that hold
   * no quote, backslash or unprintable character.
   */
  function ListRepr(parts: seq<string>): string
  {
    "[" + Join(Quoted(parts), ", ") + "]"
  }

  function Quoted(parts: seq<string>): (r: seq<string>)
    ensures |r| == |parts|
    ensures forall i :: 0 <= i < |parts| ==> r[i] == "'" + parts[i] + "'"
  {
    if parts == [] then [] else ["'" + parts[0] + "'"] + Quoted(parts[1..])
  }

  /** Joining one element inserts no separator. */
  lemma JoinSingle(part: string, sep: string)
    ensures Join([part], sep) == part
  {
  }

  // ---------------------------------------------------------------------
  // Python's ordering of `str`: lexicographic by code point, a proper prefix
  // coming first.

  predicate StrLe(a: string, b: string)
    decreases |a|
  {
    if a == [] then true
    else if b == [] then false
    else if a[0] != b[0] then a[0] < b[0]
    else StrLe(a[1..], b[1..])
  }

  lemma {:induction false} StrLeTotal(a: string, b: string)
    ensures StrLe(a, b) || StrLe(b, a)
    decreases |a|
  {
    if a != [] && b != [] && a[0] == b[0] {
      StrLeTotal(a[1..], b[1..]);
    }
  }

  lemma {:induction false} StrLeTransitive(a: string, b: string, c: string)
    requires StrLe(a, b) && StrLe(b, c)
    ensures StrLe(a, c)
    decreases |a|
  {
    if a != [] && b != [] && c != [] && a[0] == b[0] && b[0] == c[0] {
      StrLeTransitive(a[1..], b[1..], c[1..]);
    }
  }

  lemma {:induction false} StrLeAntisymmetric(a: string, b: string)
    requires StrLe(a, b) && StrLe(b, a)
    ensures a == b
    decreases |a|
  {
    if a != [] {
      StrLeAntisymmetric(a[1..], b[1..]);
      assert a == [a[0]] + a[1..];
      assert b == [b[0]] + b[1..];
    }
  }

  // ---------------------------------------------------------------------
  // Substrings of concatenations.

  lemma ContainsMiddle(a: string, t: string, c: string)
    ensures Contains(a + t + c, t)
  {
    assert (a + t + c)[|a|..|a| + |t|] == t;
    assert OccursAt(a + t + c, t, |a|);
  }

  /** A substring of a prefix is a substring of the whole. */
  lemma ContainsInPrefix(p: string, s: string, t: string)
    requires p <= s && Contains(p, t)
    ensures Contains(s, t)
  {
    var k :| OccursAt(p, t, k);
    assert s[k..k + |t|] == p[k..k + |t|];
    assert OccursAt(s, t, k);
  }

  /** A substring of the second part of a concatenation is a substring of it. */
  lemma ContainsInSuffix(a: string, b: string, t: string)
    requires Contains(b, t)
    ensures Contains(a + b, t)
  {
    var k :| OccursAt(b, t, k);
    assert (a + b)[|a| + k..|a| + k + |t|] == b[k..k + |t|];
    assert OccursAt(a + b, t, |a| + k);
  }

  lemma PrefixTransitive(a: string, b: string, c: string)
    requires a <= b && b <= c
    ensures a <= c
  {
  }
}
