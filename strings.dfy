/**
 * The few FString operations the generator relies on. The engine's FString::Find and
 * FString::EndsWith compare with ESearchCase::IgnoreCase unless told otherwise, and the
 * generator never tells them otherwise, so both are modelled case-insensitively
 * (the engine upper-cases ASCII letters only).
 */
module Strings {

  /** Upper-casing of one character as the engine's case-insensitive comparison does it. */
  function ToUpper(c: char): char {
    if 'a' <= c <= 'z' then (c as int - 32) as char else c
  }

  /** Case-insensitive equality, as FName comparison and FString's default comparison do it. */
  predicate EqualsIgnoreCase(a: string, b: string) {
    |a| == |b| && forall i :: 0 <= i < |a| ==> ToUpper(a[i]) == ToUpper(b[i])
  }

  /** The key a case-insensitive set of strings files `s` under: `s` upper-cased. */
  function FoldCase(s: string): (r: string)
    ensures |r| == |s|
  {
    seq(|s|, i requires 0 <= i < |s| => ToUpper(s[i]))
  }

  /** Two strings are equal ignoring case exactly when they have the same key. */
  lemma FoldCaseIsKey(a: string, b: string)
    ensures EqualsIgnoreCase(a, b) <==> FoldCase(a) == FoldCase(b)
  {
    if EqualsIgnoreCase(a, b) {
      assert forall i | 0 <= i < |a| :: FoldCase(a)[i] == FoldCase(b)[i];
    }
    if FoldCase(a) == FoldCase(b) {
      assert forall i | 0 <= i < |a| :: ToUpper(a[i]) == FoldCase(a)[i] == FoldCase(b)[i] == ToUpper(b[i]);
    }
  }

  /** A string's key is the same string ignoring case, and its own key. */
  lemma FoldCaseKeepsCase(s: string)
    ensures EqualsIgnoreCase(FoldCase(s), s)
    ensures FoldCase(FoldCase(s)) == FoldCase(s)
  {
    assert forall i | 0 <= i < |s| :: FoldCase(FoldCase(s))[i] == FoldCase(s)[i];
  }

  /** `t` occurs in `s` at index `i`, ignoring case. */
  predicate MatchesAt(s: string, t: string, i: nat) {
    i + |t| <= |s| && EqualsIgnoreCase(s[i..i + |t|], t)
  }

  /** The first match of `t` at or after `start`, or -1 (INDEX_NONE). */
  function FindFrom(s: string, t: string, start: nat): (r: int)
    requires start <= |s|
    ensures r == -1 || (start <= r && MatchesAt(s, t, r))
    decreases |s| - start
  {
    if MatchesAt(s, t, start) then start
    else if start == |s| then -1
    else FindFrom(s, t, start + 1)
  }

  /** FindFrom answers -1 only when nothing matches from `start` on, and otherwise nothing matches before its answer. */
  lemma {:induction false} FindFromIsFirst(s: string, t: string, start: nat)
    requires start <= |s|
    ensures FindFrom(s, t, start) == -1 ==> forall i: nat :: start <= i ==> !MatchesAt(s, t, i)
    ensures FindFrom(s, t, start) != -1 ==> forall i: nat :: start <= i < FindFrom(s, t, start) ==> !MatchesAt(s, t, i)
    decreases |s| - start
  {
    if !MatchesAt(s, t, start) && start < |s| {
      FindFromIsFirst(s, t, start + 1);
    }
  }

  /** FString::Find(t): the index of an occurrence of `t` in `s`, or -1; FindIsFirst says which one. */
  function Find(s: string, t: string): (r: int)
    ensures r == -1 || (0 <= r && MatchesAt(s, t, r))
  {
    FindFrom(s, t, 0)
  }

  /** Find answers -1 exactly when `t` occurs nowhere in `s`, and otherwise gives the first occurrence. */
  lemma FindIsFirst(s: string, t: string)
    ensures Find(s, t) == -1 <==> forall i: nat :: !MatchesAt(s, t, i)
    ensures Find(s, t) != -1 ==> forall i: nat :: i < Find(s, t) ==> !MatchesAt(s, t, i)
  {
    FindFromIsFirst(s, t, 0);
  }

  /** `Find(t) != INDEX_NONE`: `t` occurs somewhere in `s`. */
  predicate Contains(s: string, t: string) {
    Find(s, t) != -1
  }

  /** FString::EndsWith(t), ignoring case. */
  predicate EndsWith(s: string, t: string) {
    |t| <= |s| && EqualsIgnoreCase(s[|s| - |t|..], t)
  }

  lemma ContainsIffSomeMatch(s: string, t: string)
    ensures Contains(s, t) <==> exists i: nat :: MatchesAt(s, t, i)
  {
    FindIsFirst(s, t);
  }

  /** Exact equality implies case-insensitive equality (so an exact occurrence is found). */
  lemma ExactMatchIsFound(s: string, t: string, i: nat)
    requires i + |t| <= |s| && s[i..i + |t|] == t
    ensures Contains(s, t) && 0 <= Find(s, t) <= i
  {
    assert MatchesAt(s, t, i);
    FindIsFirst(s, t);
  }
}
