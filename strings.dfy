/** String rules shared by the frontend and the backend: substring search
    (`includes`/`contains`), prefixes and suffixes (`startsWith`/`endsWith`),
    the last index of a character (`lastIndexOf`) and lower-casing. */
module Strings {

  /** `s.startsWith(p)` */
  predicate StartsWith(s: string, p: string)
  {
    |p| <= |s| && s[..|p|] == p
  }

  /** `s.endsWith(p)` */
  predicate EndsWith(s: string, p: string)
  {
    |p| <= |s| && s[|s| - |p|..] == p
  }

  /** `sub` occurs in `s` starting at position `i` */
  predicate OccursAt(s: string, sub: string, i: int)
  {
    0 <= i <= |s| - |sub| && s[i..i + |sub|] == sub
  }

  /** `s.includes(sub)` in TypeScript, `s.contains(sub)` in Java */
  predicate Contains(s: string, sub: string)
  {
    exists i | 0 <= i <= |s| - |sub| :: OccursAt(s, sub, i)
  }

  /** `s.lastIndexOf(c)`: the position of the last occurrence of `c`, or -1 */
  function LastIndexOf(s: string, c: char): (r: int)
    ensures -1 <= r < |s|
    ensures r == -1 <==> c !in s
    ensures 0 <= r ==> s[r] == c && c !in s[r + 1..]
  {
    if |s| == 0 then -1
    else if s[|s| - 1] == c then |s| - 1
    else
      var r := LastIndexOf(s[..|s| - 1], c);
      LastIndexOfStep(s, c, r);
      r
  }

  /** The step of LastIndexOf: when the last character is not `c`, the
      answer for the prefix is the answer for the whole string. */
  lemma LastIndexOfStep(s: string, c: char, r: int)
    requires |s| > 0 && s[|s| - 1] != c
    requires -1 <= r < |s| - 1
    requires r == -1 <==> c !in s[..|s| - 1]
    requires 0 <= r ==> s[r] == c && c !in s[..|s| - 1][r + 1..]
    ensures r == -1 <==> c !in s
    ensures 0 <= r ==> c !in s[r + 1..]
  {
    var p := s[..|s| - 1];
    assert s == p + [s[|s| - 1]];
    if 0 <= r {
      assert s[r + 1..] == p[r + 1..] + [s[|s| - 1]];
    }
  }

  /** Lower-casing of one character; only the ASCII letters A-Z change. */
  function LowerChar(c: char): (r: char)
    ensures 'A' <= c <= 'Z' ==> r as int == c as int + 32
    ensures !('A' <= c <= 'Z') ==> r == c
  {
    if 'A' <= c <= 'Z' then (c as int + 32) as char else c
  }

  /** `s.toLowerCase()` (ASCII letters only) */
  function Lower(s: string): (r: string)
    ensures |r| == |s|
    ensures forall i :: 0 <= i < |s| ==> r[i] == LowerChar(s[i])
  {
    seq(|s|, i requires 0 <= i < |s| => LowerChar(s[i]))
  }

  /** Lower-casing commutes with taking a suffix. */
  lemma LowerSuffix(s: string, k: nat)
    requires k <= |s|
    ensures Lower(s[k..]) == Lower(s)[k..]
  {
  }

  /** Containing a two-character string means having the two characters side by side. */
  lemma ContainsPair(s: string, a: char, b: char)
    ensures Contains(s, [a, b]) <==> exists i :: 0 <= i < |s| - 1 && s[i] == a && s[i + 1] == b
  {
    if Contains(s, [a, b]) {
      var i :| 0 <= i <= |s| - 2 && OccursAt(s, [a, b], i);
      assert s[i] == s[i..i + 2][0] && s[i + 1] == s[i..i + 2][1];
    }
    if exists i :: 0 <= i < |s| - 1 && s[i] == a && s[i + 1] == b {
      var i :| 0 <= i < |s| - 1 && s[i] == a && s[i + 1] == b;
      assert s[i..i + 2] == [a, b];
      assert OccursAt(s, [a, b], i);
    }
  }

  /** The text after the last `c`; the whole of `s` when it has no `c`.
      This is `s.split(c).pop()` in TypeScript. */
  function AfterLast(s: string, c: char): (r: string)
    ensures c !in r
    ensures c !in s ==> r == s
    ensures c in s ==> |r| < |s| && s[|s| - |r| - 1] == c && s[|s| - |r|..] == r
  {
    s[LastIndexOf(s, c) + 1..]
  }

  /** The last occurrence is the one with no further occurrence after it. */
  lemma LastIndexOfUnique(s: string, c: char, k: int)
    requires 0 <= k < |s| && s[k] == c && c !in s[k + 1..]
    ensures LastIndexOf(s, c) == k
  {
  }

  /** Lower-casing does not move the last '.'. */
  lemma LastDotOfLower(s: string)
    ensures LastIndexOf(Lower(s), '.') == LastIndexOf(s, '.')
  {
    var k := LastIndexOf(s, '.');
    if k == -1 {
      forall i | 0 <= i < |s| ensures Lower(s)[i] != '.' {
        assert s[i] in s;
      }
    } else {
      forall j | k + 1 <= j < |s| ensures Lower(s)[j] != '.' {
        assert s[j] == s[k + 1..][j - k - 1];
      }
      LastIndexOfUnique(Lower(s), '.', k);
    }
  }

  /** A suffix that starts with the only '.' after it marks the last '.'. */
  lemma LastDotOfSuffix(s: string, e: string)
    requires '.' !in e && EndsWith(s, "." + e)
    ensures LastIndexOf(s, '.') == |s| - |e| - 1
    ensures AfterLast(s, '.') == e
  {
    var k := |s| - |e| - 1;
    assert s[k] == s[k..][0] && s[k..] == "." + e;
    assert s[k + 1..] == e;
    LastIndexOfUnique(s, '.', k);
  }
}
