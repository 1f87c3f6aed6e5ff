/** The two string operations the subject resolver relies on: lower-casing
    and substring search. */
module Text {

  /** ASCII lower-casing of one character. */
  function LowerChar(c: char): char {
    if 'A' <= c <= 'Z' then (c as int - 'A' as int + 'a' as int) as char else c
  }

  /** `s.lower()`, restricted to the ASCII letters. */
  function Lower(s: string): string {
    seq(|s|, i requires 0 <= i < |s| => LowerChar(s[i]))
  }

  /** `w in s` for strings: `w` occurs somewhere in `s` as a contiguous block. */
  predicate Contains(s: string, w: string)
    decreases |s|
  {
    |w| <= |s| && (s[..|w|] == w || (|s| > 0 && Contains(s[1..], w)))
  }

  /** `w` occurs in `s` starting at index `i`. */
  ghost predicate OccursAt(s: string, w: string, i: int) {
    0 <= i && i + |w| <= |s| && s[i..i + |w|] == w
  }

  /** The search finds `w` exactly when it occurs at some index. */
  lemma {:induction false} ContainsIffOccurs(s: string, w: string)
    ensures Contains(s, w) <==> exists i :: OccursAt(s, w, i)
    decreases |s|
  {
    if |w| > |s| {
      assert forall i :: !OccursAt(s, w, i);
    } else if s[..|w|] == w {
      assert OccursAt(s, w, 0);
    } else {
      assert |s| > 0;
      ContainsIffOccurs(s[1..], w);
      assert !OccursAt(s, w, 0);
      forall i | OccursAt(s, w, i)
        ensures OccursAt(s[1..], w, i - 1)
      {
        assert s[1..][i - 1..i - 1 + |w|] == s[i..i + |w|];
      }
      forall i | OccursAt(s[1..], w, i)
        ensures OccursAt(s, w, i + 1)
      {
        assert s[1..][i..i + |w|] == s[i + 1..i + 1 + |w|];
      }
    }
  }

  /** A block of a block of `s` is a block of `s`. */
  lemma ContainsTransitive(s: string, w: string, v: string)
    requires Contains(s, w) && Contains(w, v)
    ensures Contains(s, v)
  {
    ContainsIffOccurs(s, w);
    ContainsIffOccurs(w, v);
    var i :| OccursAt(s, w, i);
    var j :| OccursAt(w, v, j);
    forall k | 0 <= k < |v|
      ensures s[i + j + k] == v[k]
    {
      assert v[k] == w[j + k] == s[i..i + |w|][j + k];
    }
    assert s[i + j..i + j + |v|] == v;
    assert OccursAt(s, v, i + j);
    ContainsIffOccurs(s, v);
  }

  /** Every prefix of a word occurs in it. */
  lemma ContainsPrefix(w: string, n: nat)
    requires n <= |w|
    ensures Contains(w, w[..n])
  {
    assert OccursAt(w, w[..n], 0);
    ContainsIffOccurs(w, w[..n]);
  }
}
