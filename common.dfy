/** Values shared by every part of the model: the two teams, an optional
    value (TypeScript's `T | null` / `T | undefined`), a two-team tally and
    the axis-aligned rectangles the court components hand to the renderer. */
module Common {

  datatype Option<+T> = None | Some(value: T) {
    /** TypeScript's `x ?? default`. */
    function GetOr(default: T): T {
      match this
      case Some(v) => v
      case None => default
    }
  }

  /** `Math.abs` on court coordinates. */
  function Abs(r: real): real
  {
    if r < 0.0 then -r else r
  }

  /** `'blue' | 'red'`; for a fault the team is the one that benefits. */
  datatype Team = Blue | Red

  function Other(t: Team): (o: Team)
    ensures o != t
  {
    if t == Blue then Red else Blue
  }

  /** `{ blue: number; red: number }` used for scores and counts. */
  datatype Tally = Tally(blue: int, red: int)

  /** The half of the court drawing a team plays on. */
  datatype Side = Left | Right

  /** Both court components: blue plays on the left unless the sides are
      swapped. */
  function TeamSide(team: Team, sidesSwapped: bool): (s: Side)
    ensures s == Left <==> (team == Blue) != sidesSwapped
  {
    if sidesSwapped then (if team == Blue then Right else Left)
    else (if team == Blue then Left else Right)
  }

  function Opposite(s: Side): (o: Side)
    ensures o != s
  {
    if s == Left then Right else Left
  }

  /** `{ x, y, w, h }` in the 600 x 400 court drawing. */
  datatype Rect = Rect(x: real, y: real, w: real, h: real)
}

/** Sequence helpers standing for JavaScript's `Array.prototype.filter`,
    `slice` and friends, with the facts the statistics proofs rely on. */
module Seqs {

  /** `s.filter(f)`: the elements satisfying `f`, in their original order. */
  function Filter<T>(s: seq<T>, f: T -> bool): (r: seq<T>)
    ensures |r| <= |s|
    ensures forall i :: 0 <= i < |r| ==> r[i] in s && f(r[i])
  {
    if s == [] then [] else (if f(s[0]) then [s[0]] else []) + Filter(s[1..], f)
  }

  /** Every element satisfying `f` survives the filter. */
  lemma {:induction false} FilterKeeps<T>(s: seq<T>, f: T -> bool)
    ensures forall i :: 0 <= i < |s| && f(s[i]) ==> s[i] in Filter(s, f)
  {
    if s != [] {
      FilterKeeps(s[1..], f);
      assert forall i :: 1 <= i < |s| ==> s[i] == s[1..][i - 1];
    }
  }

  /** `r` can be obtained from `s` by deleting elements (order kept). */
  predicate IsSubsequence<T(==)>(r: seq<T>, s: seq<T>)
  {
    if s == [] then r == []
    else (r != [] && r[0] == s[0] && IsSubsequence(r[1..], s[1..])) || IsSubsequence(r, s[1..])
  }

  lemma {:induction false} FilterIsSubsequence<T>(s: seq<T>, f: T -> bool)
    ensures IsSubsequence(Filter(s, f), s)
  {
    if s != [] {
      FilterIsSubsequence(s[1..], f);
      if f(s[0]) {
        assert Filter(s, f)[1..] == Filter(s[1..], f);
      } else {
        assert Filter(s, f) == Filter(s[1..], f);
      }
    }
  }

  lemma {:induction false} FilterAppend<T>(a: seq<T>, b: seq<T>, f: T -> bool)
    ensures Filter(a + b, f) == Filter(a, f) + Filter(b, f)
  {
    if a != [] {
      assert (a + b)[0] == a[0];
      assert (a + b)[1..] == a[1..] + b;
      FilterAppend(a[1..], b, f);
    } else {
      assert a + b == b;
    }
  }

  /** Filters by predicates that agree on every element are equal. */
  lemma {:induction false} FilterSame<T>(s: seq<T>, f: T -> bool, g: T -> bool)
    requires forall i :: 0 <= i < |s| ==> f(s[i]) == g(s[i])
    ensures Filter(s, f) == Filter(s, g)
  {
    if s != [] {
      FilterSame(s[1..], f, g);
    }
  }

  /** Filtering a prefix of `s` gives a prefix of the filtered `s`. */
  lemma FilterPrefix<T>(s: seq<T>, c: nat, f: T -> bool)
    requires c <= |s|
    ensures Filter(s[..c], f) <= Filter(s, f)
  {
    assert s == s[..c] + s[c..];
    FilterAppend(s[..c], s[c..], f);
  }

  /** Two predicates that never hold together split a sequence's length at most. */
  lemma {:induction false} FilterDisjointCount<T>(s: seq<T>, f: T -> bool, g: T -> bool)
    requires forall i :: 0 <= i < |s| ==> !(f(s[i]) && g(s[i]))
    ensures |Filter(s, f)| + |Filter(s, g)| <= |s|
    ensures (forall i :: 0 <= i < |s| ==> f(s[i]) || g(s[i])) ==> |Filter(s, f)| + |Filter(s, g)| == |s|
  {
    if s != [] {
      FilterDisjointCount(s[1..], f, g);
    }
  }

  /** Filtering by a stronger predicate keeps no more elements. */
  lemma {:induction false} FilterMonotone<T>(s: seq<T>, f: T -> bool, g: T -> bool)
    requires forall i :: 0 <= i < |s| ==> f(s[i]) ==> g(s[i])
    ensures |Filter(s, f)| <= |Filter(s, g)|
  {
    if s != [] {
      FilterMonotone(s[1..], f, g);
    }
  }

  /** Filtering the result of a filter by a stronger predicate is filtering once. */
  lemma {:induction false} FilterOfFilter<T>(s: seq<T>, f: T -> bool, g: T -> bool)
    requires forall i :: 0 <= i < |s| ==> g(s[i]) ==> f(s[i])
    ensures Filter(Filter(s, f), g) == Filter(s, g)
  {
    if s != [] {
      FilterOfFilter(s[1..], f, g);
      var t := Filter(s, f);
      if f(s[0]) {
        assert t == [s[0]] + Filter(s[1..], f);
        assert t[0] == s[0] && t[1..] == Filter(s[1..], f);
        assert Filter(t, g) == (if g(s[0]) then [s[0]] else []) + Filter(t[1..], g);
      } else {
        assert t == Filter(s[1..], f);
      }
    }
  }

  /** The two halves of a concatenation, read back by position. */
  lemma AppendParts<T>(a: seq<T>, b: seq<T>)
    ensures |a + b| == |a| + |b| && (a + b)[..|a|] == a
    ensures forall k :: 0 <= k < |b| ==> (a + b)[|a| + k] == b[k]
  {
  }

  /** `s.slice(0, n)` for n >= 0. */
  function Take<T>(s: seq<T>, n: nat): (r: seq<T>)
    ensures |r| == if |s| <= n then |s| else n
    ensures r <= s
  {
    if |s| <= n then s else s[..n]
  }

  /** A prefix of a subsequence of `s` is a subsequence of `s`. */
  lemma {:induction false} PrefixIsSubsequence<T>(r: seq<T>, s: seq<T>, n: nat)
    requires IsSubsequence(r, s)
    ensures IsSubsequence(Take(r, n), s)
  {
    if s != [] && |r| > n {
      if r != [] && r[0] == s[0] && IsSubsequence(r[1..], s[1..]) {
        if n > 0 {
          PrefixIsSubsequence(r[1..], s[1..], n - 1);
          assert Take(r, n)[1..] == Take(r[1..], n - 1);
        } else {
          EmptyIsSubsequence(s);
        }
      } else {
        PrefixIsSubsequence(r, s[1..], n);
      }
    }
  }

  lemma {:induction false} EmptyIsSubsequence<T>(s: seq<T>)
    ensures IsSubsequence([], s)
  {
    if s != [] {
      EmptyIsSubsequence(s[1..]);
    }
  }
}
