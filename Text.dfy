/** Containment of one string in another, used to state what a generated text holds. */
module Text {

  /** `p` occurs in `s` starting at index `i`. */
  predicate OccursAt(s: string, p: string, i: int)
  {
    0 <= i <= |s| - |p| && s[i..i + |p|] == p
  }

  /** `p` occurs somewhere in `s` as a contiguous substring. */
  predicate Contains(s: string, p: string)
  {
    exists i | 0 <= i <= |s| - |p| :: OccursAt(s, p, i)
  }

  /** A piece placed between two texts is contained in their concatenation. */
  lemma ContainsPiece(a: string, p: string, b: string)
    ensures Contains(a + p + b, p)
  {
    assert OccursAt(a + p + b, p, |a|);
  }

  /** A piece found inside s is found inside any text that embeds s. */
  lemma ContainsWithin(a: string, s: string, b: string, p: string)
    requires Contains(s, p)
    ensures Contains(a + s + b, p)
  {
    var i :| 0 <= i <= |s| - |p| && OccursAt(s, p, i);
    assert (a + s + b)[|a| + i..|a| + i + |p|] == s[i..i + |p|];
    assert OccursAt(a + s + b, p, |a| + i);
  }

  /** Inserting x between a and b splits a + b at |a|. */
  lemma InsertAt(a: string, x: string, b: string)
    ensures |a| <= |a + b|
    ensures a + x + b == (a + b)[..|a|] + x + (a + b)[|a|..]
  {
    assert (a + b)[..|a|] == a;
    assert (a + b)[|a|..] == b;
  }

  /** Anything found in s is still found after text is appended to s. */
  lemma ContainsBefore(s: string, b: string, p: string)
    requires Contains(s, p)
    ensures Contains(s + b, p)
  {
    var i :| 0 <= i <= |s| - |p| && OccursAt(s, p, i);
    assert (s + b)[i..i + |p|] == s[i..i + |p|];
    assert OccursAt(s + b, p, i);
  }

  /** Anything found in s is still found after text is prepended to s. */
  lemma ContainsAfter(a: string, s: string, p: string)
    requires Contains(s, p)
    ensures Contains(a + s, p)
  {
    var i :| 0 <= i <= |s| - |p| && OccursAt(s, p, i);
    assert (a + s)[|a| + i..|a| + i + |p|] == s[i..i + |p|];
    assert OccursAt(a + s, p, |a| + i);
  }

  /** Every string contains itself. */
  lemma ContainsSelf(s: string)
    ensures Contains(s, s)
  {
    assert s[0..|s|] == s;
    assert OccursAt(s, s, 0);
  }

  /** r is s with x inserted at index k. */
  predicate Spliced(r: string, s: string, k: int, x: string)
  {
    0 <= k <= |s| && r == s[..k] + x + s[k..]
  }

  /** s ends with q. */
  predicate EndsWith(s: string, q: string)
  {
    |q| <= |s| && s[|s| - |q|..] == q
  }

  /** A text framed by a and b starts with a and ends with b. */
  lemma FramedOfFour(a: string, b: string, c: string, d: string)
    ensures a <= a + b + c + d
    ensures EndsWith(a + b + c + d, d)
  {
    Framed(a, b + c, d);
    assert a + (b + c) + d == a + b + c + d;
  }

  lemma Framed(a: string, m: string, b: string)
    ensures a <= a + m + b
    ensures EndsWith(a + m + b, b)
  {
    assert (a + m + b)[..|a|] == a;
    assert (a + m + b)[|a + m + b| - |b|..] == b;
  }

}
