/** Stable sorting: what it promises, and an insertion sort that keeps the promise. */
module StableSort {

  /** A strict weak order: elements that neither precede the other are tied. */
  ghost predicate StrictWeak<T(!new)>(less: (T, T) -> bool)
  {
    (forall a, b :: less(a, b) ==> !less(b, a)) && (forall a, b, c :: !less(a, b) && !less(b, c) ==> !less(a, c))
  }

  /** `perm` lists the positions of a sequence of length `n`, each once. */
  ghost predicate Permutation(perm: seq<nat>, n: nat)
  {
    |perm| == n && (forall i | 0 <= i < n :: perm[i] < n) && (forall i, j | 0 <= i < j < n :: perm[i] != perm[j]) &&
    (forall p: nat | p < n :: p in perm)
  }

  /** `a`, from position `p`, may stand before `b`, from position `q`. */
  ghost predicate MayPrecede<T(!new)>(less: (T, T) -> bool, a: T, p: nat, b: T, q: nat)
  {
    less(a, b) || (!less(b, a) && p < q)
  }

  ghost predicate InOrder<T(!new)>(less: (T, T) -> bool, r: seq<T>, perm: seq<nat>)
  {
    |perm| == |r| && forall i, j | 0 <= i < j < |r| :: MayPrecede(less, r[i], perm[i], r[j], perm[j])
  }

  /** `r` is `s` in order, tied elements in the order they had. */
  ghost predicate StablySorted<T(!new)>(s: seq<T>, less: (T, T) -> bool, r: seq<T>, perm: seq<nat>)
  {
    Permutation(perm, |s|) && |r| == |s| && (forall i | 0 <= i < |r| :: r[i] == s[perm[i]]) && InOrder(less, r, perm)
  }

  /** `r` is a stable sort of `s`. */
  ghost predicate IsStableSort<T(!new)>(s: seq<T>, less: (T, T) -> bool, r: seq<T>)
  {
    exists perm :: StablySorted(s, less, r, perm)
  }

  lemma InsertKeepsPermutation(perm: seq<nat>, n: nat, k: nat)
    requires Permutation(perm, n) && k <= n
    ensures Permutation(perm[..k] + [n] + perm[k..], n + 1)
  {
    var more := perm[..k] + [n] + perm[k..];
    forall p: nat | p < n + 1 ensures p in more {
      if p < n {
        assert p in perm;
        var i :| 0 <= i < n && perm[i] == p;
        assert more[if i < k then i else i + 1] == p;
      } else {
        assert more[k] == n;
      }
    }
  }

  method Sort<T(!new)>(s: seq<T>, less: (T, T) -> bool) returns (r: seq<T>)
    requires StrictWeak(less)
    ensures IsStableSort(s, less, r)
  {
    r := [];
    ghost var perm: seq<nat> := [];
    for i := 0 to |s|
      invariant |r| == |perm| == i && StablySorted(s[..i], less, r, perm)
    {
      var x := s[i];
      var k := |r|;
      while k > 0 && less(x, r[k - 1])
        invariant 0 <= k <= |r| && forall j | k <= j < |r| :: less(x, r[j])
      {
        k := k - 1;
      }
      InsertKeepsOrder(s[..i], less, r, perm, x, k);
      assert s[..i + 1] == s[..i] + [x];
      r := r[..k] + [x] + r[k..];
      perm := perm[..k] + [i] + perm[k..];
    }
    assert s[..|s|] == s;
    assert StablySorted(s, less, r, perm);
  }

  lemma InsertKeepsOrder<T(!new)>(s: seq<T>, less: (T, T) -> bool, r: seq<T>, perm: seq<nat>, x: T, k: nat)
    requires StrictWeak(less) && StablySorted(s, less, r, perm) && k <= |r|
    requires (forall j | k <= j < |r| :: less(x, r[j])) && (k > 0 ==> !less(x, r[k - 1]))
    ensures StablySorted(s + [x], less, r[..k] + [x] + r[k..], perm[..k] + [|s|] + perm[k..])
  {
    InsertKeepsPermutation(perm, |s|, k);
    PositionsAreInside(perm, |s|);
    hide Permutation;
    hide InOrder;
    InsertInOrder(less, r, perm, x, |s|, k);
  }

  lemma InsertInOrder<T(!new)>(less: (T, T) -> bool, r: seq<T>, perm: seq<nat>, x: T, n: nat, k: nat)
    requires StrictWeak(less) && InOrder(less, r, perm) && k <= |r| && forall i | 0 <= i < |perm| :: perm[i] < n
    requires (forall j | k <= j < |r| :: less(x, r[j])) && (k > 0 ==> !less(x, r[k - 1]))
    ensures InOrder(less, r[..k] + [x] + r[k..], perm[..k] + [n] + perm[k..])
  {
    FrontIsNotAfter(less, r, perm, x, k);
    var more, places := r[..k] + [x] + r[k..], perm[..k] + [n] + perm[k..];
    forall i, j | 0 <= i < j < |more| ensures MayPrecede(less, more[i], places[i], more[j], places[j]) {
      if i != k && j != k {
        var p, q := if i < k then i else i - 1, if j < k then j else j - 1;
        assert MayPrecede(less, r[p], perm[p], r[q], perm[q]);
      }
    }
  }

  lemma FrontIsNotAfter<T(!new)>(less: (T, T) -> bool, r: seq<T>, perm: seq<nat>, x: T, k: nat)
    requires StrictWeak(less) && InOrder(less, r, perm) && k <= |r| && (k > 0 ==> !less(x, r[k - 1]))
    ensures forall j | 0 <= j < k :: !less(x, r[j])
  {
    forall j | 0 <= j < k ensures !less(x, r[j]) {
      if j < k - 1 {
        assert MayPrecede(less, r[j], perm[j], r[k - 1], perm[k - 1]);
      }
    }
  }

  lemma PositionsAreInside(perm: seq<nat>, n: nat)
    requires Permutation(perm, n)
    ensures |perm| == n && forall i | 0 <= i < n :: perm[i] < n
  {}

  /** A sorted sequence has the elements it had. */
  lemma SortedKeepsElements<T(!new)>(s: seq<T>, less: (T, T) -> bool, r: seq<T>, perm: seq<nat>)
    requires StablySorted(s, less, r, perm)
    ensures forall x :: x in r <==> x in s
  {
    forall x | x in s ensures x in r {
      var p: nat :| p < |s| && s[p] == x;
      assert p in perm;
      var i :| 0 <= i < |perm| && perm[i] == p;
      assert r[i] == x;
    }
  }

  /** Orders that agree on the elements sort alike. */
  lemma SortedByEither<T(!new)>(s: seq<T>, less: (T, T) -> bool, other: (T, T) -> bool, r: seq<T>, perm: seq<nat>)
    requires StablySorted(s, less, r, perm)
    requires forall i, j | 0 <= i < |r| && 0 <= j < |r| :: less(r[i], r[j]) == other(r[i], r[j])
    ensures StablySorted(s, other, r, perm)
  {
    hide Permutation;
    forall i, j | 0 <= i < j < |r| ensures MayPrecede(other, r[i], perm[i], r[j], perm[j]) {
      assert MayPrecede(less, r[i], perm[i], r[j], perm[j]);
    }
  }
}
