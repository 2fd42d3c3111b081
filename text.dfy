/** String operations the filter uses: `toLowerCase`, `includes`,
    `startsWith`, `endsWith`, and the ordering of JavaScript's `<` on two
    strings, taken character by character. */
module Text {

  /** `toLowerCase` on one character: ASCII capitals and the capitals of
      the Polish alphabet; every other character is left alone. */
  function LowerChar(c: char): char
  {
    if 'A' <= c <= 'Z' then (c as int + 32) as char
    else if c == '\U{0104}' then '\U{0105}'  // Ą
    else if c == '\U{0106}' then '\U{0107}'  // Ć
    else if c == '\U{0118}' then '\U{0119}'  // Ę
    else if c == '\U{0141}' then '\U{0142}'  // Ł
    else if c == '\U{0143}' then '\U{0144}'  // Ń
    else if c == '\U{00D3}' then '\U{00F3}'  // Ó
    else if c == '\U{015A}' then '\U{015B}'  // Ś
    else if c == '\U{0179}' then '\U{017A}'  // Ź
    else if c == '\U{017B}' then '\U{017C}'  // Ż
    else c
  }

  /** `s.toLowerCase()`. */
  function Lower(s: string): (r: string)
    ensures |r| == |s|
    ensures forall i :: 0 <= i < |s| ==> r[i] == LowerChar(s[i])
  {
    seq(|s|, i requires 0 <= i < |s| => LowerChar(s[i]))
  }

  /** Lower-casing twice is lower-casing once. */
  lemma LowerIdempotent(s: string)
    ensures Lower(Lower(s)) == Lower(s)
  {
  }

  /** `s.startsWith(p)`. */
  predicate StartsWith(s: string, p: string)
  {
    |p| <= |s| && s[..|p|] == p
  }

  /** `s.endsWith(p)`. */
  predicate EndsWith(s: string, p: string)
  {
    |p| <= |s| && s[|s| - |p|..] == p
  }

  /** `sub` occurs in `s` starting at index `i`. */
  predicate OccursAt(s: string, sub: string, i: int)
  {
    0 <= i <= |s| - |sub| && s[i..i + |sub|] == sub
  }

  /** `s.includes(sub)`. */
  predicate Includes(s: string, sub: string)
  {
    exists i | 0 <= i <= |s| - |sub| :: OccursAt(s, sub, i)
  }

  /** A prefix or a suffix is in particular a substring. */
  lemma EdgesAreIncluded(s: string, p: string)
    ensures StartsWith(s, p) ==> Includes(s, p)
    ensures EndsWith(s, p) ==> Includes(s, p)
  {
    if StartsWith(s, p) {
      assert OccursAt(s, p, 0);
    }
    if EndsWith(s, p) {
      assert s[|s| - |p|..] == s[|s| - |p|..|s| - |p| + |p|];
      assert OccursAt(s, p, |s| - |p|);
    }
  }

  /** A substring cannot hold a character the string lacks. */
  lemma MissingCharExcludes(s: string, sub: string, c: char)
    requires c in sub && c !in s
    ensures !Includes(s, sub)
  {
    var j :| 0 <= j < |sub| && sub[j] == c;
    forall i | 0 <= i <= |s| - |sub|
      ensures !OccursAt(s, sub, i)
    {
      assert s[i + j] in s;
      assert s[i..i + |sub|][j] == s[i + j];
    }
  }

  /** JavaScript's `a < b` on two strings: lexicographic on characters (Unicode
      scalar values), a proper prefix before the longer string. */
  predicate StrLess(a: string, b: string)
    decreases |a|
  {
    if a == [] then b != []
    else if b == [] then false
    else if a[0] != b[0] then a[0] < b[0]
    else StrLess(a[1..], b[1..])
  }

  lemma {:induction false} StrLessIrreflexive(a: string)
    ensures !StrLess(a, a)
    decreases |a|
  {
    if a != [] {
      StrLessIrreflexive(a[1..]);
    }
  }

  lemma {:induction false} StrLessAsymmetric(a: string, b: string)
    ensures StrLess(a, b) ==> !StrLess(b, a)
    decreases |a|
  {
    if a != [] && b != [] && a[0] == b[0] {
      StrLessAsymmetric(a[1..], b[1..]);
    }
  }

  lemma {:induction false} StrLessTransitive(a: string, b: string, c: string)
    requires StrLess(a, b) && StrLess(b, c)
    ensures StrLess(a, c)
    decreases |a|
  {
    if a != [] && b != [] && c != [] && a[0] == b[0] && b[0] == c[0] {
      StrLessTransitive(a[1..], b[1..], c[1..]);
    }
  }

  /** Two distinct strings are ordered one way or the other. */
  lemma {:induction false} StrLessTotal(a: string, b: string)
    ensures a == b || StrLess(a, b) || StrLess(b, a)
    decreases |a|
  {
    if a != [] && b != [] && a[0] == b[0] {
      StrLessTotal(a[1..], b[1..]);
      if a[1..] == b[1..] {
        assert a == [a[0]] + a[1..] && b == [b[0]] + b[1..];
      }
    }
  }
}
