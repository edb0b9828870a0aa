/** The two string primitives the reply rules use: `String.prototype.includes`
    and `String.prototype.toLowerCase`, on sequences of Unicode code points. */
module Text {

  /** `s.includes(p)`: whether `p` occurs in `s` as a contiguous piece. */
  function Includes(s: string, p: string): (b: bool)
    decreases |s|
  {
    if |p| > |s| then false
    else if s[..|p|] == p then true
    else Includes(s[1..], p)
  }

  /** Reference definition: `p` occurs at position `i` of `s`. */
  ghost predicate OccursAt(s: string, p: string, i: int)
  {
    0 <= i && i + |p| <= |s| && s[i..i + |p|] == p
  }

  /** `Includes` finds an occurrence exactly when there is one. */
  lemma {:induction false} IncludesIffOccurs(s: string, p: string)
    ensures Includes(s, p) <==> exists i :: OccursAt(s, p, i)
    decreases |s|
  {
    if |p| > |s| {
      forall i | OccursAt(s, p, i) ensures false { }
    } else if s[..|p|] == p {
      assert OccursAt(s, p, 0);
    } else {
      IncludesIffOccurs(s[1..], p);
      if Includes(s[1..], p) {
        var i :| OccursAt(s[1..], p, i);
        assert s[i + 1..i + 1 + |p|] == s[1..][i..i + |p|];
        assert OccursAt(s, p, i + 1);
      } else {
        forall i | OccursAt(s, p, i) ensures false {
          if i > 0 {
            assert s[1..][i - 1..i - 1 + |p|] == s[i..i + |p|];
            assert OccursAt(s[1..], p, i - 1);
          }
        }
      }
    }
  }

  /** A string contains itself wherever it is placed. */
  lemma IncludesMiddle(x: string, w: string, y: string)
    ensures Includes(x + w + y, w)
  {
    var s := x + w + y;
    assert s[|x|..|x| + |w|] == w;
    assert OccursAt(s, w, |x|);
    IncludesIffOccurs(s, w);
  }

  /** Whether `c` is an ASCII letter. */
  predicate IsAsciiLetter(c: char)
  {
    ('a' <= c <= 'z') || ('A' <= c <= 'Z')
  }

  /** Lower-casing of one code point, as far as it can yield ASCII letters:
      `A`-`Z` become `a`-`z`, U+0130 (capital I with dot above) becomes `i`
      followed by U+0307 (combining dot above), U+212A (Kelvin sign) becomes
      `k`. Every other code point is kept. */
  function LowerChar(c: char): string
  {
    if 'A' <= c <= 'Z' then [(c as int + 32) as char]
    else if c == '\U{0130}' then ['i', '\U{0307}']
    else if c == '\U{212A}' then ['k']
    else [c]
  }

  /** `s.toLowerCase()`, code point by code point. */
  function Lower(s: string): (r: string)
  {
    if s == [] then [] else LowerChar(s[0]) + Lower(s[1..])
  }

  /** Lower-casing distributes over concatenation. */
  lemma {:induction false} LowerAppend(a: string, b: string)
    ensures Lower(a + b) == Lower(a) + Lower(b)
    decreases |a|
  {
    if a == [] {
      assert a + b == b;
    } else {
      assert (a + b)[0] == a[0];
      assert (a + b)[1..] == a[1..] + b;
      LowerAppend(a[1..], b);
    }
  }

  /** Whether `LowerChar` leaves a code point as it is. */
  predicate LowerFixed(c: char)
  {
    !('A' <= c <= 'Z') && c != '\U{0130}' && c != '\U{212A}'
  }

  /** Whether a code point is left alone by `LowerChar` and is no letter at all. */
  predicate Inert(c: char)
  {
    !IsAsciiLetter(c) && LowerFixed(c)
  }

  /** A string of code points that lower-casing leaves alone is its own lower case. */
  lemma {:induction false} LowerIdentity(s: string)
    requires forall i :: 0 <= i < |s| ==> LowerFixed(s[i])
    ensures Lower(s) == s
    decreases |s|
  {
    if s != [] {
      LowerIdentity(s[1..]);
    }
  }

  /** A word that starts with an ASCII letter never occurs in a string without letters. */
  lemma NoWordInInert(s: string, w: string)
    requires forall i :: 0 <= i < |s| ==> Inert(s[i])
    requires |w| > 0 && IsAsciiLetter(w[0])
    ensures !Includes(s, w)
  {
    IncludesIffOccurs(s, w);
  }
}
