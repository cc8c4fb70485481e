/** The string operations of JavaScript that the plugin view-model relies on. */
module Text {
  import opened Seqs

  /** `toLowerCase` of one character, restricted to ASCII letters. */
  function Lower(c: char): char {
    if 'A' <= c <= 'Z' then (c as int + 32) as char else c
  }

  /** `toUpperCase` of one character, restricted to ASCII letters. */
  function Upper(c: char): char {
    if 'a' <= c <= 'z' then (c as int - 32) as char else c
  }

  function ToLower(s: string): string {
    seq(|s|, i requires 0 <= i < |s| => Lower(s[i]))
  }

  function ToUpper(s: string): string {
    seq(|s|, i requires 0 <= i < |s| => Upper(s[i]))
  }

  /** `needle` occurs in `hay` starting at position `i`. */
  predicate OccursAt(hay: string, needle: string, i: int) {
    0 <= i && i + |needle| <= |hay| && hay[i..i + |needle|] == needle
  }

  /** `hay.indexOf(needle)`: the first position at which `needle` occurs, or -1 (see `IndexOfSpec`). */
  function IndexOf(hay: string, needle: string): int {
    IndexFrom(hay, needle, 0)
  }

  /** The first position from `k` on at which `needle` occurs, or -1. */
  function IndexFrom(hay: string, needle: string, k: nat): int
    requires k <= |hay|
    decreases |hay| - k
  {
    if k + |needle| > |hay| then -1
    else if hay[k..k + |needle|] == needle then k
    else IndexFrom(hay, needle, k + 1)
  }

  /** The search from `k` finds the first occurrence at or after `k`, and -1 only when there is none. */
  lemma {:induction false} IndexFromSpec(hay: string, needle: string, k: nat)
    requires k <= |hay|
    ensures var r := IndexFrom(hay, needle, k);
      (r == -1 || (k <= r && OccursAt(hay, needle, r)))
      && forall i :: k <= i && (r == -1 || i < r) ==> !OccursAt(hay, needle, i)
    decreases |hay| - k
  {
    if k + |needle| <= |hay| && hay[k..k + |needle|] != needle {
      IndexFromSpec(hay, needle, k + 1);
    }
  }

  /** `indexOf` gives the first occurrence, or -1 exactly when the needle occurs nowhere. */
  lemma IndexOfSpec(hay: string, needle: string)
    ensures var r := IndexOf(hay, needle);
      (r == -1 || OccursAt(hay, needle, r))
      && forall i :: 0 <= i && (r == -1 || i < r) ==> !OccursAt(hay, needle, i)
  {
    IndexFromSpec(hay, needle, 0);
  }

  /** `hay.indexOf(needle) != -1`. */
  predicate Contains(hay: string, needle: string) {
    IndexOf(hay, needle) != -1
  }

  /** The substring test used throughout: true exactly when `needle` occurs somewhere in `hay`. */
  lemma ContainsIffOccurs(hay: string, needle: string)
    ensures Contains(hay, needle) <==> exists i :: OccursAt(hay, needle, i)
  {
    IndexOfSpec(hay, needle);
  }

  /** Every string contains the empty string, so an empty search term matches everything. */
  lemma ContainsEmpty(hay: string)
    ensures Contains(hay, "")
  {
    assert hay[0..0] == "";
  }

  /** `parts.join(sep)`. */
  function Join(parts: seq<string>, sep: string): string {
    if |parts| == 0 then ""
    else if |parts| == 1 then parts[0]
    else parts[0] + sep + Join(parts[1..], sep)
  }

  /** The characters matched by the regular-expression class `\s`. */
  predicate IsSpace(c: char) {
    var n := c as int;
    (9 <= n <= 13) || n == 0x20 || n == 0xA0 || n == 0x1680 || (0x2000 <= n <= 0x200A)
    || n == 0x2028 || n == 0x2029 || n == 0x202F || n == 0x205F || n == 0x3000 || n == 0xFEFF
  }

  /** How many characters of `s` are whitespace. */
  function CountSpaces(s: string): (n: nat)
    ensures n <= |s|
  {
    if s == [] then 0 else CountSpaces(s[..|s| - 1]) + (if IsSpace(s[|s| - 1]) then 1 else 0)
  }

  /**
   * `s.replace(/\s+/g, '')`: the characters of `s` that are not whitespace, in order, each as
   * often as it occurs (`StripSpacesUnique` shows these ensures determine the result;
   * `StripSpacesMembers` and `StripSpacesNoSpaces` follow from them).
   */
  function StripSpaces(s: string): (r: string)
    ensures IsSubsequence(r, s)
    ensures |r| == |s| - CountSpaces(s)
    ensures forall i :: 0 <= i < |r| ==> !IsSpace(r[i])
    ensures forall i :: 0 <= i < |r| ==> r[i] in s
    ensures |r| <= |s|
  {
    if s == [] then []
    else
      var init, last := s[..|s| - 1], s[|s| - 1];
      var t := StripSpaces(init);
      assert s == init + [last];
      var r := if IsSpace(last) then (SubsequenceSnoc(t, init, last); t)
               else (SubsequenceBoth(t, init, last); t + [last]);
      SubsequenceMembers(r, s);
      r
  }

  /** A whitespace-free sub-list of `b` is no longer than the non-whitespace part of `b`. */
  lemma {:induction false} SpaceFreeBound(a: string, b: string)
    requires IsSubsequence(a, b) && forall i :: 0 <= i < |a| ==> !IsSpace(a[i])
    ensures |a| <= |b| - CountSpaces(b)
    decreases |b|
  {
    if a != [] {
      var init := b[..|b| - 1];
      assert CountSpaces(b) <= CountSpaces(init) + 1;
      if a[|a| - 1] == b[|b| - 1] {
        assert !IsSpace(a[|a| - 1]);
        SpaceFreeBound(a[..|a| - 1], init);
      } else {
        SpaceFreeBound(a, init);
      }
    }
  }

  /** Only one string is a whitespace-free sub-list of `s` as long as its non-whitespace part: the stripped `s`. */
  lemma {:induction false} StripSpacesUnique(s: string, r: string)
    requires IsSubsequence(r, s) && |r| == |s| - CountSpaces(s)
    requires forall i :: 0 <= i < |r| ==> !IsSpace(r[i])
    ensures r == StripSpaces(s)
    decreases |s|
  {
    if s != [] {
      var init, last := s[..|s| - 1], s[|s| - 1];
      if IsSpace(last) {
        assert IsSubsequence(r, init);
        StripSpacesUnique(init, r);
      } else if r != [] && r[|r| - 1] == last {
        var r' := r[..|r| - 1];
        StripSpacesUnique(init, r');
        PrefixStep(r, |r| - 1);
        WholePrefix(r, |r|);
      } else {
        assert IsSubsequence(r, init);
        SpaceFreeBound(r, init);
        assert false;
      }
    }
  }


  /** A character survives stripping exactly when it occurs in `s` and is not whitespace. */
  lemma {:induction false} StripSpacesMembers(s: string)
    ensures forall c :: c in StripSpaces(s) <==> c in s && !IsSpace(c)
    decreases |s|
  {
    if s != [] {
      var init, last := s[..|s| - 1], s[|s| - 1];
      assert s == init + [last];
      StripSpacesMembers(init);
    }
  }

  /** A string without whitespace is left as it is. */
  lemma StripSpacesNoSpaces(s: string)
    requires forall i :: 0 <= i < |s| ==> !IsSpace(s[i])
    ensures StripSpaces(s) == s
  {
    SubsequenceSelf(s);
    NoSpacesCount(s);
    StripSpacesUnique(s, s);
  }

  /** A string without whitespace has none to count. */
  lemma {:induction false} NoSpacesCount(s: string)
    requires forall i :: 0 <= i < |s| ==> !IsSpace(s[i])
    ensures CountSpaces(s) == 0
    decreases |s|
  {
    if s != [] {
      NoSpacesCount(s[..|s| - 1]);
    }
  }
}
