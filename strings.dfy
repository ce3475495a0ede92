/** The Python string operations the todo scripts rely on: `str.startswith`,
    `str.endswith`, substring containment `t in s`, and newline-terminated lines. */
module Strings {

  /** `s.startswith(p)`: `s` agrees with `p` on each of its first `|p|` characters. */
  function StartsWith(s: string, p: string): (r: bool)
    ensures r <==> |p| <= |s| && forall i :: 0 <= i < |p| ==> s[i] == p[i]
  {
    |p| <= |s| && s[..|p|] == p
  }

  /** `s.endswith(q)`: `s` agrees with `q` on each of its last `|q|` characters. */
  function EndsWith(s: string, q: string): (r: bool)
    ensures r <==> |q| <= |s| && forall i :: 0 <= i < |q| ==> s[|s| - |q| + i] == q[i]
  {
    |q| <= |s| && s[|s| - |q|..] == q
  }

  /** Python's `t in s` on strings, computed by trying every offset from the left. */
  function Contains(s: string, t: string): (r: bool)
    ensures r ==> |t| <= |s|
    ensures t == [] ==> r
    decreases |s|
  {
    if |t| > |s| then false
    else if s[..|t|] == t then true
    else Contains(s[1..], t)
  }

  /** `t` occurs in `s` starting at offset `i`. */
  ghost predicate OccursAt(s: string, t: string, i: int) {
    0 <= i && i + |t| <= |s| && s[i..i + |t|] == t
  }

  /** The reference meaning of substring containment: some offset where `t` occurs. */
  ghost predicate Occurs(s: string, t: string) {
    exists i :: OccursAt(s, t, i)
  }

  /** The scanning `Contains` agrees with the reference definition, in both directions. */
  lemma {:induction false} ContainsMeansOccurs(s: string, t: string)
    ensures Contains(s, t) <==> Occurs(s, t)
    decreases |s|
  {
    if |t| > |s| {
      assert !Occurs(s, t);
    } else if s[..|t|] == t {
      assert OccursAt(s, t, 0);
    } else {
      ContainsMeansOccurs(s[1..], t);
      if Occurs(s[1..], t) {
        var i :| OccursAt(s[1..], t, i);
        assert s[i + 1..i + 1 + |t|] == t by {
          forall k | 0 <= k < |t| ensures s[i + 1..i + 1 + |t|][k] == t[k] {
            assert t[k] == s[1..][i..i + |t|][k] == s[1..][i + k];
          }
        }
        assert OccursAt(s, t, i + 1);
      }
      if Occurs(s, t) {
        var i :| OccursAt(s, t, i);
        assert i != 0;
        assert s[1..][i - 1..i - 1 + |t|] == s[i..i + |t|];
        assert OccursAt(s[1..], t, i - 1);
      }
    }
  }

  /** A string contains every piece it is built around. */
  lemma ContainsInfix(p: string, t: string, q: string)
    ensures Contains(p + t + q, t)
  {
    var s := p + t + q;
    assert s[|p|..|p| + |t|] == t;
    assert OccursAt(s, t, |p|);
    ContainsMeansOccurs(s, t);
  }

  /** The text of `lines`, each followed by a newline. */
  function Unlines(lines: seq<string>): string {
    if lines == [] then "" else Unlines(lines[..|lines| - 1]) + lines[|lines| - 1] + "\n"
  }
}
