/** Small building blocks shared by every module: optional values, results,
    Python truthiness of optional strings, and the string helpers the source
    takes from Python's `str` (ASCII `lower`, substring test, prefix test). */
module Common {

  datatype Option<+T> = None | Some(value: T)

  datatype Result<+T, +E> = Ok(value: T) | Err(error: E)

  /** Python's `bool(x)` for a value that is either missing (`None`) or a string:
      false for `None` and for the empty string. */
  predicate Truthy(o: Option<string>) {
    o.Some? && o.value != ""
  }

  /** `d.get(k)` on a string-keyed dictionary. */
  function Get<V>(d: map<string, V>, k: string): (r: Option<V>)
    ensures r.Some? <==> k in d
    ensures r.Some? ==> r.value == d[k]
  {
    if k in d then Some(d[k]) else None
  }

  function LowerChar(c: char): char {
    if 'A' <= c <= 'Z' then (c as int + 32) as char else c
  }

  /** `str.lower()`, restricted to the ASCII letters. */
  function Lower(s: string): (r: string)
    ensures |r| == |s|
    ensures forall i :: 0 <= i < |s| ==> r[i] == LowerChar(s[i])
  {
    seq(|s|, i requires 0 <= i < |s| => LowerChar(s[i]))
  }

  predicate IsLower(s: string) {
    forall i :: 0 <= i < |s| ==> !('A' <= s[i] <= 'Z')
  }

  lemma LowerIsLower(s: string)
    ensures IsLower(Lower(s))
    ensures IsLower(s) ==> Lower(s) == s
  {
  }

  /** `str.startswith(p)`. */
  predicate StartsWith(s: string, p: string) {
    |p| <= |s| && s[..|p|] == p
  }

  /** Lowering a string keeps any lower-case prefix it starts with. */
  lemma LowerStartsWith(s: string, p: string)
    requires IsLower(p) && StartsWith(s, p)
    ensures StartsWith(Lower(s), p)
  {
    assert forall i :: 0 <= i < |p| ==> Lower(s)[i] == p[i] by {
      forall i | 0 <= i < |p| ensures Lower(s)[i] == p[i] {
        assert s[i] == s[..|p|][i];
      }
    }
  }

  /** Python's `w in s` for two strings. */
  predicate Contains(s: string, w: string)
    decreases |s|
  {
    StartsWith(s, w) || (s != [] && Contains(s[1..], w))
  }

  /** `w` occurs in `s` at position `i`. */
  predicate OccursAt(s: string, w: string, i: nat) {
    i + |w| <= |s| && s[i..i + |w|] == w
  }

  /** `Contains` holds exactly when `w` occurs at some position of `s`. */
  lemma {:induction false} ContainsIffOccurs(s: string, w: string)
    ensures Contains(s, w) <==> exists i: nat :: OccursAt(s, w, i)
    decreases |s|
  {
    if Contains(s, w) {
      if StartsWith(s, w) {
        assert OccursAt(s, w, 0);
      } else {
        ContainsIffOccurs(s[1..], w);
        var i: nat :| OccursAt(s[1..], w, i);
        assert s[1..][i..i + |w|] == s[i + 1..i + 1 + |w|];
        assert OccursAt(s, w, i + 1);
      }
    }
    if exists i: nat :: OccursAt(s, w, i) {
      var i: nat :| OccursAt(s, w, i);
      if i > 0 {
        assert s[1..][i - 1..i - 1 + |w|] == s[i..i + |w|];
        assert OccursAt(s[1..], w, i - 1);
        ContainsIffOccurs(s[1..], w);
      }
    }
  }

  /** A substring of `s` is a substring of any text that has `s` inside it. */
  lemma ContainsExtend(s: string, w: string, before: string, after: string)
    requires Contains(s, w)
    ensures Contains(before + s + after, w)
  {
    ContainsIffOccurs(s, w);
    var i: nat :| OccursAt(s, w, i);
    assert (before + s + after)[|before| + i..|before| + i + |w|] == s[i..i + |w|];
    assert OccursAt(before + s + after, w, |before| + i);
    ContainsIffOccurs(before + s + after, w);
  }

  /** Python's `any(w in s for w in words)`. */
  predicate ContainsAny(s: string, words: seq<string>) {
    exists k :: 0 <= k < |words| && Contains(s, words[k])
  }
}
