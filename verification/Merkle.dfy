/**
 The Merkle root of a block's transactions. The loop that folds the digests in place computes
 the tree that splits its leaves at the largest power of two below their number, the shape
 defined in section 2.1 of RFC 6962.
 */
module Merkle {
  import opened Powers

  /** `pair` stands for hashing two digests, `seal` for the final checksum, `none` for no transactions. */
  datatype Hasher<!D> = Hasher(pair: (D, D) -> D, seal: D -> D, none: D)

  /** One level up: neighbours in pairs, and an odd one out as it is. */
  function Layer<D>(h: Hasher<D>, s: seq<D>): (r: seq<D>)
    ensures |r| == (|s| + 1) / 2
  {
    if |s| < 2 then s else [h.pair(s[0], s[1])] + Layer(h, s[2..])
  }

  function Root<D>(h: Hasher<D>, s: seq<D>): D
    requires s != []
    decreases |s|
  {
    if |s| == 1 then s[0] else Root(h, Layer(h, s))
  }

  /** The exponent of the largest power of two below `n`. */
  function Below(n: nat): (k: nat)
    requires n >= 2
    ensures Pow2(k) < n <= 2 * Pow2(k)
  {
    if n == 2 then 0 else Below((n + 1) / 2) + 1
  }

  lemma {:induction false} BelowUnique(n: nat, k: nat)
    requires n >= 2 && Pow2(k) < n <= 2 * Pow2(k)
    ensures k == Below(n)
  {
    if k > Below(n) { Grows(Below(n), k); } else if k < Below(n) { Grows(k, Below(n)); }
  }

  /** The tree over `s`: a perfect left part, and the rest. */
  ghost function Tree<D>(h: Hasher<D>, s: seq<D>): D
    requires s != []
    decreases |s|
  {
    if |s| == 1 then s[0]
    else
      var k := Pow2(Below(|s|));
      h.pair(Tree(h, s[..k]), Tree(h, s[k..]))
  }

  lemma {:induction false} LayerSplit<D>(h: Hasher<D>, a: seq<D>, b: seq<D>)
    requires |a| % 2 == 0
    ensures Layer(h, a + b) == Layer(h, a) + Layer(h, b)
    decreases |a|
  {
    if a == [] {
      assert a + b == b;
    } else {
      assert (a + b)[2..] == a[2..] + b;
      LayerSplit(h, a[2..], b);
    }
  }

  lemma LayerOne<D>(h: Hasher<D>, s: seq<D>)
    requires |s| < 2
    ensures Layer(h, s) == s
  {
  }

  lemma TreeOfTwo<D>(h: Hasher<D>, s: seq<D>)
    requires |s| == 2
    ensures Tree(h, Layer(h, s)) == Tree(h, s)
  {
    assert Layer(h, s) == [h.pair(s[0], s[1])];
  }

  /** A perfect tree of `2^e` leaves followed by at most as many more. */
  lemma TreeSplit<D>(h: Hasher<D>, a: seq<D>, b: seq<D>, e: nat)
    requires |a| == Pow2(e) && 1 <= |b| <= |a|
    ensures Tree(h, a + b) == h.pair(Tree(h, a), Tree(h, b))
  {
    BelowUnique(|a + b|, e);
    assert (a + b)[..|a|] == a && (a + b)[|a|..] == b;
  }

  lemma TreeOfMore<D>(h: Hasher<D>, s: seq<D>)
    requires |s| > 2
    ensures var k := Pow2(Below(|s|));
            && 2 <= k < |s|
            && Tree(h, s) == h.pair(Tree(h, s[..k]), Tree(h, s[k..]))
            && Tree(h, Layer(h, s)) == h.pair(Tree(h, Layer(h, s[..k])), Tree(h, Layer(h, s[k..])))
  {
    hide Layer, Tree, Below;
    var e := Below(|s|);
    var left, right := s[..Pow2(e)], s[Pow2(e)..];
    assert s == left + right;
    TreeSplit(h, left, right, e);
    LayersSplit(h, left, right, e);
  }

  lemma LayersSplit<D>(h: Hasher<D>, left: seq<D>, right: seq<D>, e: nat)
    requires e >= 1 && |left| == Pow2(e) && 1 <= |right| <= |left|
    ensures Tree(h, Layer(h, left + right)) == h.pair(Tree(h, Layer(h, left)), Tree(h, Layer(h, right)))
  {
    hide Layer, Tree, Pow2;
    PowStep(e);
    HalfLayers(h, left, right, Pow2(e - 1));
    TreeSplit(h, Layer(h, left), Layer(h, right), e - 1);
  }

  lemma HalfLayers<D>(h: Hasher<D>, left: seq<D>, right: seq<D>, p: nat)
    requires |left| == 2 * p && 1 <= |right| <= |left|
    ensures Layer(h, left + right) == Layer(h, left) + Layer(h, right)
    ensures |Layer(h, left)| == p && 1 <= |Layer(h, right)| <= p
  {
    hide Layer, Tree;
    LayerSplit(h, left, right);
  }

  /** Folding one level does not change the tree's value. */
  lemma {:induction false} TreeOfLayer<D>(h: Hasher<D>, s: seq<D>)
    requires |s| >= 2
    ensures Tree(h, Layer(h, s)) == Tree(h, s)
    decreases |s|
  {
    if |s| == 2 {
      TreeOfTwo(h, s);
    } else {
      TreeOfMore(h, s);
      var left, right := s[..Pow2(Below(|s|))], s[Pow2(Below(|s|))..];
      TreeOfLayer(h, left);
      if |right| >= 2 { TreeOfLayer(h, right); } else { LayerOne(h, right); }
    }
  }

  lemma {:induction false} RootIsTree<D>(h: Hasher<D>, s: seq<D>)
    requires s != []
    ensures Root(h, s) == Tree(h, s)
    decreases |s|
  {
    if |s| > 1 {
      TreeOfLayer(h, s);
      RootIsTree(h, Layer(h, s));
    }
  }

  /** `calculate_merkle_root`: the digests are overwritten level by level. */
  method CalculateRoot<D(0)>(h: Hasher<D>, digests: seq<D>) returns (root: D)
    ensures root == if digests == [] then h.none else h.seal(Tree(h, digests))
  {
    if |digests| == 0 { return h.none; }
    var ids := new D[|digests|](i requires 0 <= i < |digests| => digests[i]);
    var count := ids.Length;
    assert ids[..count] == digests;
    while count > 1
      invariant 1 <= count <= ids.Length
      invariant Root(h, ids[..count]) == Root(h, digests)
    {
      count := Fold(h, ids, count);
    }
    RootIsTree(h, digests);
    return h.seal(ids[0]);
  }

  method Fold<D>(h: Hasher<D>, ids: array<D>, count: nat) returns (k: nat)
    requires 1 < count <= ids.Length
    modifies ids
    ensures 1 <= k < count && ids[..k] == Layer(h, old(ids[..count]))
  {
    hide Layer;
    ghost var s := ids[..count];
    var max := count - count % 2;
    k := 0;
    var i := 0;
    while i < max
      invariant 0 <= i <= max && i == 2 * k
      invariant forall j :: i <= j < count ==> ids[j] == s[j]
      invariant ids[..k] == Layer(h, s[..i])
    {
      LayerPair(h, s, i);
      ids[k] := h.pair(ids[i], ids[i + 1]);
      k := k + 1;
      assert ids[..k] == ids[..k - 1] + [ids[k - 1]];
      i := i + 2;
    }
    if count % 2 == 1 {
      LayerLast(h, s);
      ids[k] := ids[max];
      k := k + 1;
      assert ids[..k] == ids[..k - 1] + [ids[k - 1]];
    } else {
      assert s[..max] == s;
    }
  }

  lemma LayerPair<D>(h: Hasher<D>, s: seq<D>, i: nat)
    requires i % 2 == 0 && i + 1 < |s|
    ensures Layer(h, s[..i + 2]) == Layer(h, s[..i]) + [h.pair(s[i], s[i + 1])]
  {
    assert s[..i + 2] == s[..i] + [s[i], s[i + 1]];
    LayerSplit(h, s[..i], [s[i], s[i + 1]]);
    assert Layer(h, [s[i], s[i + 1]]) == [h.pair(s[i], s[i + 1])];
  }

  lemma LayerLast<D>(h: Hasher<D>, s: seq<D>)
    requires |s| % 2 == 1
    ensures Layer(h, s) == Layer(h, s[..|s| - 1]) + [s[|s| - 1]]
  {
    assert s == s[..|s| - 1] + [s[|s| - 1]];
    LayerSplit(h, s[..|s| - 1], [s[|s| - 1]]);
  }
}
