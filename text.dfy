/** The string operations the keyword lookups rely on: ASCII case mapping
    (Python's `str.lower` / `str.upper` restricted to ASCII letters) and
    substring membership (Python's `w in s`). */
module Text {

  /** Lower-case one character: `A`..`Z` become `a`..`z`, everything else is kept. */
  function Lower(c: char): (r: char) {
    if 'A' <= c <= 'Z' then (c as int + 32) as char else c
  }

  /** Upper-case one character: `a`..`z` become `A`..`Z`, everything else is kept. */
  function Upper(c: char): (r: char) {
    if 'a' <= c <= 'z' then (c as int - 32) as char else c
  }

  /** `s.lower()`: the same string, each character lower-cased. */
  function LowerStr(s: string): (r: string)
    ensures |r| == |s|
    ensures forall i :: 0 <= i < |r| ==> !('A' <= r[i] <= 'Z')
    ensures forall i :: 0 <= i < |s| && r[i] != s[i] ==>
      'A' <= s[i] <= 'Z' && r[i] as int == s[i] as int + 32
  {
    seq(|s|, i requires 0 <= i < |s| => Lower(s[i]))
  }

  /** `s.upper()`: the same string, each character upper-cased. */
  function UpperStr(s: string): (r: string) {
    seq(|s|, i requires 0 <= i < |s| => Upper(s[i]))
  }

  predicate IsPrefix(w: string, s: string) {
    |w| <= |s| && s[..|w|] == w
  }

  /** `w in s`: `w` is a substring of `s`, found by trying every start position
      from the left. The empty string occurs in every string. */
  predicate Occurs(w: string, s: string) {
    IsPrefix(w, s) || (s != [] && Occurs(w, s[1..]))
  }

  /** Reference reading of substring membership: `w` sits in `s` at offset `i`. */
  predicate OccursAt(w: string, s: string, i: nat) {
    i + |w| <= |s| && s[i..i + |w|] == w
  }

  /** `Occurs` finds `w` exactly when `w` sits in `s` at some offset. */
  lemma {:induction false} OccursIffSomeOffset(w: string, s: string)
    ensures Occurs(w, s) <==> exists i: nat :: OccursAt(w, s, i)
  {
    if IsPrefix(w, s) {
      assert OccursAt(w, s, 0);
    } else if s == [] {
      forall i: nat ensures !OccursAt(w, s, i) {
      }
    } else {
      OccursIffSomeOffset(w, s[1..]);
      if Occurs(w, s[1..]) {
        var i: nat :| OccursAt(w, s[1..], i);
        assert s[1..][i..i + |w|] == s[i + 1..i + 1 + |w|];
        assert OccursAt(w, s, i + 1);
      } else {
        forall i: nat | 0 < i && OccursAt(w, s, i) ensures OccursAt(w, s[1..], i - 1) {
          assert s[1..][i - 1..i - 1 + |w|] == s[i..i + |w|];
        }
      }
    }
  }

  /** A word found at some offset occurs. */
  lemma FoundAt(w: string, s: string, i: nat)
    requires OccursAt(w, s, i)
    ensures Occurs(w, s)
  {
    OccursIffSomeOffset(w, s);
  }

  /** A word with a character that the text lacks does not occur in it. */
  lemma AbsentCharRulesOut(w: string, s: string, k: nat)
    requires k < |w| && w[k] !in s
    ensures !Occurs(w, s)
  {
    OccursIffSomeOffset(w, s);
  }

  /** Lower-casing the upper-cased string gives the lower-cased string:
      case is all that `lower` forgets. */
  lemma LowerOfUpper(s: string)
    ensures LowerStr(UpperStr(s)) == LowerStr(s)
  {
    assert forall i :: 0 <= i < |s| ==> LowerStr(UpperStr(s))[i] == LowerStr(s)[i];
  }

  /** Lower-casing twice is lower-casing once. */
  lemma LowerIdempotent(s: string)
    ensures LowerStr(LowerStr(s)) == LowerStr(s)
  {
    assert forall i :: 0 <= i < |s| ==> LowerStr(LowerStr(s))[i] == LowerStr(s)[i];
  }
}
