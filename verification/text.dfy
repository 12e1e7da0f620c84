/**
 The two string operations the storefront's search filter relies on:
 lower-casing (`toLowerCase`) and substring search (`includes`).
 Lower-casing is modelled on ASCII letters only; every other character
 is left as it is.
 */
module Text {

  predicate IsUpper(c: char)
  {
    'A' <= c <= 'Z'
  }

  /** Lower-cases one character: `A`..`Z` become `a`..`z`, all else is unchanged. */
  function LowerChar(c: char): char
  {
    if IsUpper(c) then (c as int + 32) as char else c
  }

  /**
   The model of `String.prototype.toLowerCase`: the result has no
   upper-case letter, every other character stays where it was, and each
   upper-case letter is replaced by its lower-case partner.
   */
  function ToLower(s: string): (r: string)
    ensures |r| == |s|
    ensures forall i :: 0 <= i < |r| ==> !IsUpper(r[i])
    ensures forall i :: 0 <= i < |s| && !IsUpper(s[i]) ==> r[i] == s[i]
    ensures forall i :: 0 <= i < |s| && IsUpper(s[i]) ==> r[i] as int == s[i] as int - 'A' as int + 'a' as int
  {
    seq(|s|, i requires 0 <= i < |s| => LowerChar(s[i]))
  }

  /** Lower-casing twice is lower-casing once. */
  lemma ToLowerIdempotent(s: string)
    ensures ToLower(ToLower(s)) == ToLower(s)
  {
  }

  /** `q` occurs in `s` starting at position `i`. */
  ghost predicate OccursAt(s: string, q: string, i: int)
  {
    0 <= i && i + |q| <= |s| && s[i..i + |q|] == q
  }

  predicate IsPrefix(q: string, s: string)
  {
    |q| <= |s| && s[..|q|] == q
  }

  /** An occurrence in a non-empty string is at its start or in its tail. */
  lemma OccursSplit(s: string, q: string)
    requires |s| > 0
    ensures (exists i :: OccursAt(s, q, i)) <==> IsPrefix(q, s) || exists j :: OccursAt(s[1..], q, j)
  {
    if IsPrefix(q, s) {
      assert OccursAt(s, q, 0);
    }
    forall j | OccursAt(s[1..], q, j)
      ensures OccursAt(s, q, j + 1)
    {
      assert s[1..][j..j + |q|] == s[j + 1..j + 1 + |q|];
    }
    forall i | OccursAt(s, q, i) && i > 0
      ensures OccursAt(s[1..], q, i - 1)
    {
      assert s[1..][i - 1..i - 1 + |q|] == s[i..i + |q|];
    }
  }

  /**
   The model of `String.prototype.includes`: true exactly when `q` occurs
   somewhere in `s`. The empty string occurs in every string.
   */
  function Includes(s: string, q: string): (r: bool)
    ensures r <==> exists i :: OccursAt(s, q, i)
    decreases |s|
  {
    if |s| == 0 then
      assert forall i :: OccursAt(s, q, i) ==> i == 0;
      assert OccursAt(s, q, 0) <==> IsPrefix(q, s);
      IsPrefix(q, s)
    else
      OccursSplit(s, q);
      IsPrefix(q, s) || Includes(s[1..], q)
  }

  /** Every string includes the empty string. */
  lemma IncludesEmpty(s: string)
    ensures Includes(s, "")
  {
    assert OccursAt(s, "", 0);
  }
}
