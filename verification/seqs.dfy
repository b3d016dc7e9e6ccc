/** Generic list operations the pages build on: `filter`, `some`, `slice(0, n)`, and the
    keyed append / toggle patterns used for saved jobs, applications and connections. */
module Seqs {

  /* ---------------- filter ---------------- */

  /** Elements of `s` satisfying `p`, in their original order (`Array.prototype.filter`). */
  function Filter<T>(s: seq<T>, p: T -> bool): (r: seq<T>)
    ensures |r| <= |s|
    ensures forall k :: 0 <= k < |r| ==> p(r[k]) && r[k] in s
    ensures forall i :: 0 <= i < |s| && p(s[i]) ==> s[i] in r
    decreases |s|
  {
    if |s| == 0 then []
    else
      assert s == [s[0]] + s[1..];
      if p(s[0]) then [s[0]] + Filter(s[1..], p) else Filter(s[1..], p)
  }

  /** `idx` lists positions of `s`, strictly increasing, whose elements spell out `r`. */
  ghost predicate Embeds<T>(r: seq<T>, s: seq<T>, idx: seq<nat>)
  {
    && |idx| == |r|
    && (forall k :: 0 <= k < |idx| ==> idx[k] < |s| && s[idx[k]] == r[k])
    && (forall k, l :: 0 <= k < l < |idx| ==> idx[k] < idx[l])
  }

  /** `r` is an order-preserving sublist of `s`. */
  ghost predicate IsSublist<T>(r: seq<T>, s: seq<T>)
  {
    exists idx :: Embeds(r, s, idx)
  }

  /** `r` consists of exactly the elements of `s` at the positions where `p` holds, in order. */
  ghost predicate SelectsExactly<T>(r: seq<T>, s: seq<T>, p: T -> bool)
  {
    exists idx :: Embeds(r, s, idx) && forall i :: i in idx <==> 0 <= i < |s| && p(s[i])
  }

  /** Every position index shifted by one (used when a list gains a new head). */
  function Shift(idx: seq<nat>): (r: seq<nat>)
    ensures |r| == |idx|
    ensures forall k :: 0 <= k < |idx| ==> r[k] == idx[k] + 1
  {
    seq(|idx|, k requires 0 <= k < |idx| => idx[k] + 1)
  }

  /** The positions of `s` where `p` holds, in increasing order. */
  function KeptIndices<T>(s: seq<T>, p: T -> bool): (idx: seq<nat>)
    ensures forall i :: i in idx <==> 0 <= i < |s| && p(s[i])
    ensures forall k, l :: 0 <= k < l < |idx| ==> idx[k] < idx[l]
    decreases |s|
  {
    if |s| == 0 then []
    else
      var rest := KeptIndices(s[1..], p);
      ShiftedPositions(s, p, rest);
      if p(s[0]) then [0] + Shift(rest) else Shift(rest)
  }

  /** The kept positions of the tail, shifted by one, are the kept positions of `s` after 0. */
  lemma ShiftedPositions<T>(s: seq<T>, p: T -> bool, rest: seq<nat>)
    requires |s| > 0
    requires forall i :: i in rest <==> 0 <= i < |s| - 1 && p(s[1..][i])
    requires forall k, l :: 0 <= k < l < |rest| ==> rest[k] < rest[l]
    ensures forall i :: i in Shift(rest) <==> 1 <= i < |s| && p(s[i])
    ensures forall k, l :: 0 <= k < l < |Shift(rest)| ==> Shift(rest)[k] < Shift(rest)[l]
  {
    var shifted := Shift(rest);
    forall i
      ensures i in shifted <==> 1 <= i < |s| && p(s[i])
    {
      if i in shifted {
        var k :| 0 <= k < |shifted| && shifted[k] == i;
        assert rest[k] in rest;
      }
      if 1 <= i < |s| && p(s[i]) {
        assert p(s[1..][i - 1]);
        var k :| 0 <= k < |rest| && rest[k] == i - 1;
        assert shifted[k] == i;
      }
    }
  }

  /** The positions kept by `KeptIndices` pick out exactly `Filter(s, p)`. */
  lemma {:induction false} FilterEmbedsKept<T>(s: seq<T>, p: T -> bool)
    ensures Embeds(Filter(s, p), s, KeptIndices(s, p))
    decreases |s|
  {
    if |s| > 0 {
      FilterEmbedsKept(s[1..], p);
      var rest := KeptIndices(s[1..], p);
      var r := Filter(s[1..], p);
      EmbedsTail(r, s, rest);
      if p(s[0]) {
        EmbedsCons(r, s, Shift(rest));
        assert Filter(s, p) == [s[0]] + r;
        assert KeptIndices(s, p) == [0] + Shift(rest);
      } else {
        assert Filter(s, p) == r;
        assert KeptIndices(s, p) == Shift(rest);
      }
    }
  }

  /** An embedding into the tail of `s` shifts to an embedding into `s`. */
  lemma EmbedsTail<T>(r: seq<T>, s: seq<T>, idx: seq<nat>)
    requires |s| > 0 && Embeds(r, s[1..], idx)
    ensures Embeds(r, s, Shift(idx))
  {
    forall k | 0 <= k < |idx|
      ensures Shift(idx)[k] < |s| && s[Shift(idx)[k]] == r[k]
    {
      assert s[1..][idx[k]] == r[k];
    }
  }

  /** An embedding that avoids position 0 extends to one that also takes the head. */
  lemma EmbedsCons<T>(r: seq<T>, s: seq<T>, idx: seq<nat>)
    requires |s| > 0 && Embeds(r, s, idx)
    requires forall k :: 0 <= k < |idx| ==> idx[k] >= 1
    ensures Embeds([s[0]] + r, s, [0] + idx)
  {
    var r', idx' := [s[0]] + r, [0] + idx;
    forall k | 0 < k < |idx'|
      ensures idx'[k] == idx[k - 1] && r'[k] == r[k - 1]
    {
    }
  }

  /** `filter` keeps exactly the matching elements, and keeps them in order. */
  lemma FilterSelectsExactly<T>(s: seq<T>, p: T -> bool)
    ensures SelectsExactly(Filter(s, p), s, p)
    ensures IsSublist(Filter(s, p), s)
  {
    FilterEmbedsKept(s, p);
  }

  /** A selection is in particular an order-preserving sublist. */
  lemma SelectsExactlyIsSublist<T>(r: seq<T>, s: seq<T>, p: T -> bool)
    requires SelectsExactly(r, s, p)
    ensures IsSublist(r, s)
  {
  }

  /** Every list is a sublist of itself. */
  lemma SublistOfSelf<T>(s: seq<T>)
    ensures IsSublist(s, s)
  {
    var idx: seq<nat> := seq(|s|, i requires 0 <= i < |s| => i);
    assert Embeds(s, s, idx);
  }

  /** Filters with predicates that agree on the elements of `s` select the same elements. */
  lemma {:induction false} FilterAgree<T>(s: seq<T>, p: T -> bool, q: T -> bool)
    requires forall i :: 0 <= i < |s| ==> p(s[i]) == q(s[i])
    ensures Filter(s, p) == Filter(s, q)
    decreases |s|
  {
    if |s| > 0 {
      FilterAgree(s[1..], p, q);
    }
  }

  /** Filtering with a predicate every element meets changes nothing. */
  lemma {:induction false} FilterKeepsAll<T>(s: seq<T>, p: T -> bool)
    requires forall i :: 0 <= i < |s| ==> p(s[i])
    ensures Filter(s, p) == s
    decreases |s|
  {
    if |s| > 0 {
      FilterKeepsAll(s[1..], p);
    }
  }

  /** Filtering with a predicate no element meets leaves nothing. */
  lemma {:induction false} FilterKeepsNone<T>(s: seq<T>, p: T -> bool)
    requires forall i :: 0 <= i < |s| ==> !p(s[i])
    ensures Filter(s, p) == []
    decreases |s|
  {
    if |s| > 0 {
      FilterKeepsNone(s[1..], p);
    }
  }

  /** Filtering distributes over concatenation. */
  lemma {:induction false} FilterAppend<T>(a: seq<T>, b: seq<T>, p: T -> bool)
    ensures Filter(a + b, p) == Filter(a, p) + Filter(b, p)
    decreases |a|
  {
    if |a| > 0 {
      assert (a + b)[0] == a[0];
      assert (a + b)[1..] == a[1..] + b;
      FilterAppend(a[1..], b, p);
      if p(a[0]) {
        assert Filter(a + b, p) == [a[0]] + (Filter(a[1..], p) + Filter(b, p));
        assert Filter(a, p) == [a[0]] + Filter(a[1..], p);
      }
    } else {
      assert a + b == b;
    }
  }

  /** Both predicates at once. */
  function And<T>(p: T -> bool, q: T -> bool): T -> bool
  {
    x => p(x) && q(x)
  }

  /** Two successive filters equal one filter on the conjunction. */
  lemma {:induction false} FilterFilter<T>(s: seq<T>, p: T -> bool, q: T -> bool)
    ensures Filter(Filter(s, p), q) == Filter(s, And(p, q))
    decreases |s|
  {
    if |s| > 0 {
      FilterFilter(s[1..], p, q);
    }
  }

  /* ---------------- some ---------------- */

  /** Whether some element satisfies `p` (`Array.prototype.some`). */
  function Any<T>(s: seq<T>, p: T -> bool): (b: bool)
    ensures b <==> exists i :: 0 <= i < |s| && p(s[i])
    decreases |s|
  {
    if |s| == 0 then false
    else if p(s[0]) then true
    else
      var rest := Any(s[1..], p);
      assert rest <==> exists i :: 1 <= i < |s| && p(s[i]) by {
        if rest {
          var j :| 0 <= j < |s[1..]| && p(s[1..][j]);
          assert p(s[j + 1]);
        }
        if exists i :: 1 <= i < |s| && p(s[i]) {
          var i :| 1 <= i < |s| && p(s[i]);
          assert p(s[1..][i - 1]);
        }
      }
      rest
  }

  /* ---------------- keyed lists ---------------- */

  /** Some element of `s` has key `k`. */
  ghost predicate HasKey<T, K>(s: seq<T>, k: K, key: T -> K)
  {
    exists i :: 0 <= i < |s| && key(s[i]) == k
  }

  /** No two elements of `s` share a key. */
  ghost predicate UniqueBy<T, K>(s: seq<T>, key: T -> K)
  {
    forall i, j :: 0 <= i < j < |s| ==> key(s[i]) != key(s[j])
  }

  /** The elements whose key is `k`, and those whose key is not. */
  function KeyIs<T, K(==)>(key: T -> K, k: K): T -> bool
  {
    y => key(y) == k
  }

  function KeyIsNot<T, K(==)>(key: T -> K, k: K): T -> bool
  {
    y => key(y) != k
  }

  /** A sublist of a list without repeated keys has none either. */
  lemma SublistKeepsUnique<T, K>(r: seq<T>, s: seq<T>, key: T -> K)
    requires IsSublist(r, s) && UniqueBy(s, key)
    ensures UniqueBy(r, key)
  {
    var idx :| Embeds(r, s, idx);
    forall i, j | 0 <= i < j < |r|
      ensures key(r[i]) != key(r[j])
    {
      assert s[idx[i]] == r[i] && s[idx[j]] == r[j];
    }
  }

  /** Appends `x` unless an element with the same key is already present
      (`if (!list.some(y => y.id === x.id)) list = [...list, x]`). */
  function AppendIfAbsent<T, K(==)>(s: seq<T>, x: T, key: T -> K): (r: seq<T>)
    ensures HasKey(r, key(x), key)
    ensures r == s <==> HasKey(s, key(x), key)
    ensures |s| <= |r| <= |s| + 1 && r[..|s|] == s
    ensures |r| == |s| + 1 ==> r[|s|] == x
    ensures UniqueBy(s, key) ==> UniqueBy(r, key)
  {
    if Any(s, KeyIs(key, key(x))) then s
    else
      var r := s + [x];
      assert key(r[|s|]) == key(x);
      r
  }

  /** Adding the same element twice has the effect of adding it once. */
  lemma AppendIfAbsentIdempotent<T, K>(s: seq<T>, x: T, key: T -> K)
    ensures AppendIfAbsent(AppendIfAbsent(s, x, key), x, key) == AppendIfAbsent(s, x, key)
  {
  }

  /** Removes every element keyed like `x` when one is present, otherwise appends `x`. */
  function Toggle<T, K(==)>(s: seq<T>, x: T, key: T -> K): (r: seq<T>)
    ensures HasKey(r, key(x), key) <==> !HasKey(s, key(x), key)
    ensures HasKey(s, key(x), key) ==> SelectsExactly(r, s, KeyIsNot(key, key(x)))
    ensures !HasKey(s, key(x), key) ==> r == s + [x]
    ensures UniqueBy(s, key) ==> UniqueBy(r, key)
  {
    if Any(s, KeyIs(key, key(x))) then
      var r := Filter(s, KeyIsNot(key, key(x)));
      FilterSelectsExactly(s, KeyIsNot(key, key(x)));
      assert UniqueBy(s, key) ==> UniqueBy(r, key) by {
        if UniqueBy(s, key) {
          SublistKeepsUnique(r, s, key);
        }
      }
      r
    else
      var r := s + [x];
      assert key(r[|s|]) == key(x);
      r
  }

  /** Toggling an element that was absent, twice, gives back the original list. */
  lemma ToggleTwiceRestores<T, K>(s: seq<T>, x: T, key: T -> K)
    requires !HasKey(s, key(x), key)
    ensures Toggle(Toggle(s, x, key), x, key) == s
  {
    FilterAppend(s, [x], KeyIsNot(key, key(x)));
    FilterKeepsAll(s, KeyIsNot(key, key(x)));
  }

  /* ---------------- slice ---------------- */

  /** The first `min(n, |s|)` elements (`s.slice(0, n)`). */
  function Take<T>(s: seq<T>, n: nat): (r: seq<T>)
    ensures |r| == if n < |s| then n else |s|
    ensures forall i :: 0 <= i < |r| ==> r[i] == s[i]
  {
    if n < |s| then s[..n] else s
  }
}
