/** Text helpers shared by the modules: substring search, first-occurrence
    replacement (JavaScript's `String.prototype.replace` with a string pattern),
    prefix tests and ASCII lower-casing (the `/i` flag of a regular expression). */
module Strings {
  import opened Wrappers

  /** `p` occurs in `s` starting at index `i`. */
  predicate OccursAt(s: string, p: string, i: nat) {
    i + |p| <= |s| && s[i..i + |p|] == p
  }

  /** The first index at or after `i` where `p` occurs in `s` (`s.indexOf(p, i)`). */
  function FindFrom(s: string, p: string, i: nat): (r: Option<nat>)
    decreases |s| - i
    ensures r.Some? ==> i <= r.value && OccursAt(s, p, r.value)
    ensures r.Some? ==> forall j :: i <= j < r.value ==> !OccursAt(s, p, j)
    ensures r.None? ==> forall j :: i <= j ==> !OccursAt(s, p, j)
  {
    if i + |p| > |s| then None
    else if s[i..i + |p|] == p then Some(i)
    else FindFrom(s, p, i + 1)
  }

  /** `s.includes(p)`. */
  predicate Contains(s: string, p: string) {
    FindFrom(s, p, 0).Some?
  }

  /** `s.startsWith(p)`. */
  predicate StartsWith(s: string, p: string) {
    |p| <= |s| && s[..|p|] == p
  }

  /** `s.replace(p, r)` with a string pattern and a replacement with no `$`
      (JavaScript expands `$&`, `$$` and the like even then): only the first
      occurrence is replaced. */
  function ReplaceFirst(s: string, p: string, r: string): (t: string)
    ensures !Contains(s, p) ==> t == s
    ensures |t| >= |s| - |p|
    ensures |r| >= |p| ==> |t| >= |s|
  {
    match FindFrom(s, p, 0)
    case None => s
    case Some(k) => s[..k] + r + s[k + |p|..]
  }

  /** With a first occurrence at `k`, the replacement stands at `k`
      between the untouched text around that occurrence. */
  lemma ReplaceFirstAt(s: string, p: string, r: string, k: nat)
    requires FindFrom(s, p, 0) == Some(k)
    ensures k + |p| <= |s|
    ensures ReplaceFirst(s, p, r) == s[..k] + r + s[k + |p|..]
    ensures OccursAt(ReplaceFirst(s, p, r), r, k)
  {
    var t := ReplaceFirst(s, p, r);
    assert t[k..k + |r|] == r;
  }

  /** Where a needle occurs, so does each of its prefixes. */
  lemma OccursPrefix(s: string, p: string, q: string, i: nat)
    requires OccursAt(s, p + q, i)
    ensures OccursAt(s, p, i)
  {
    assert s[i..i + |p|] == s[i..i + |p + q|][..|p|];
  }

  /** An occurrence anywhere is found by the search. */
  lemma OccursThenContains(s: string, p: string, i: nat)
    requires OccursAt(s, p, i)
    ensures Contains(s, p)
  {
  }

  /** A needle placed between two strings is found in their concatenation. */
  lemma ContainsInfix(s: string, a: string, p: string, b: string)
    requires s == a + p + b
    ensures Contains(s, p)
  {
    assert s[|a|..|a| + |p|] == p;
    OccursThenContains(s, p, |a|);
  }

  /** A string shorter than the needle does not contain it. */
  lemma ShortDoesNotContain(s: string, p: string)
    requires |s| < |p|
    ensures !Contains(s, p)
  {
  }

  /** The UTF-16 code units JavaScript spends on a character: a surrogate
      pair for one outside the Basic Multilingual Plane, one unit otherwise. */
  function CodeUnits(c: char): nat {
    if c as int > 0xFFFF then 2 else 1
  }

  /** `s.length`: JavaScript counts UTF-16 code units, not characters. */
  function Utf16Length(s: string): (n: nat)
    ensures |s| <= n <= 2 * |s|
  {
    if s == [] then 0 else Utf16Length(s[..|s| - 1]) + CodeUnits(s[|s| - 1])
  }

  lemma Utf16LengthSnoc(s: string, k: nat)
    requires k < |s|
    ensures Utf16Length(s[..k + 1]) == Utf16Length(s[..k]) + CodeUnits(s[k])
  {
    assert s[..k + 1][..k] == s[..k];
  }

  /** A longer prefix never takes fewer code units. */
  lemma {:induction false} Utf16LengthMonotone(s: string, i: nat, j: nat)
    requires i <= j <= |s|
    decreases j
    ensures Utf16Length(s[..i]) <= Utf16Length(s[..j])
  {
    if i < j {
      Utf16LengthMonotone(s, i, j - 1);
      Utf16LengthSnoc(s, j - 1);
    }
  }

  function CutFrom(s: string, n: nat, k: nat): (r: nat)
    requires k <= |s| && Utf16Length(s[..k]) <= n
    decreases |s| - k
    ensures k <= r <= |s| && Utf16Length(s[..r]) <= n
    ensures r < |s| ==> Utf16Length(s[..r + 1]) > n
  {
    if k == |s| then k
    else
      Utf16LengthSnoc(s, k);
      if Utf16Length(s[..k]) + CodeUnits(s[k]) > n then k else CutFrom(s, n, k + 1)
  }

  /** How many whole characters `s.substring(0, n)` keeps: the longest
      prefix that fits in `n` code units (a negative `n` counts as 0). */
  function CutIndex(s: string, n: int): (k: nat)
    ensures k <= |s|
    ensures Utf16Length(s[..k]) <= if n < 0 then 0 else n
    ensures k < |s| ==> Utf16Length(s[..k + 1]) > n
  {
    if n < 0 then 0 else CutFrom(s, n, 0)
  }

  /** No longer prefix fits: the cut keeps as much as the limit allows. */
  lemma CutIndexLongest(s: string, n: int, j: nat)
    requires CutIndex(s, n) < j <= |s|
    ensures Utf16Length(s[..j]) > n
  {
    Utf16LengthMonotone(s, CutIndex(s, n) + 1, j);
  }

  /** The cut falls short of the limit only by the first unit of a
      surrogate pair. */
  lemma CutIndexShortfall(s: string, n: int)
    requires CutIndex(s, n) < |s|
    ensures n - CodeUnits(s[CutIndex(s, n)]) < Utf16Length(s[..CutIndex(s, n)])
  {
    Utf16LengthSnoc(s, CutIndex(s, n));
  }

  /** A text longer than the limit is cut before its end. */
  lemma CutIndexInside(s: string, n: int)
    requires Utf16Length(s) > (if n < 0 then 0 else n)
    ensures CutIndex(s, n) < |s|
  {
    assert s[..|s|] == s;
  }

  function Lower(c: char): char {
    if 'A' <= c <= 'Z' then (c as int + 32) as char else c
  }

  /** ASCII lower-casing, as a case-insensitive regular expression compares. */
  function LowerAll(s: string): (t: string)
    ensures |t| == |s|
    ensures forall i :: 0 <= i < |s| ==> t[i] == Lower(s[i])
  {
    seq(|s|, i requires 0 <= i < |s| => Lower(s[i]))
  }
}
