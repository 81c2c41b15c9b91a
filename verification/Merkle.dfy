/** The duplicate-last Merkle root over a list of strings (src/chain/types.rs). */
module Merkle {
  import opened Bytes
  import opened Crypto

  // ---- The layered form, as the code computes it ----

  /** The index paired with `2 * i`: its right neighbour, or itself at an odd end. */
  function Right(n: nat, i: nat): (r: nat)
    requires 2 * i < n
    ensures 2 * i <= r < n
  {
    if 2 * i + 1 < n then 2 * i + 1 else 2 * i
  }

  function Concat(a: Text, b: Text): (c: Text)
    ensures |c| == |a| + |b|
  {
    a + b
  }

  function Pair(layer: seq<Digest>, i: nat): (p: Text)
    requires 2 * i < |layer|
    ensures |p| == 64
  {
    Concat(layer[2 * i], layer[Right(|layer|, i)])
  }

  function NextLayer(h: Hash, layer: seq<Digest>): (next: seq<Digest>)
    ensures |next| == (|layer| + 1) / 2
  {
    seq<Digest>((|layer| + 1) / 2, i requires 0 <= i < (|layer| + 1) / 2 => h(Pair(layer, i)))
  }

  function RootOf(h: Hash, layer: seq<Digest>): Digest
    requires layer != []
    decreases |layer|
  {
    if |layer| == 1 then layer[0] else RootOf(h, NextLayer(h, layer))
  }

  function Leaves(h: Hash, ids: seq<Text>): (l: seq<Digest>)
    ensures |l| == |ids|
  {
    seq<Digest>(|ids|, i requires 0 <= i < |ids| => h(ids[i]))
  }

  function ListRoot(h: Hash, ids: seq<Text>): (t: Text)
    ensures |t| == 64
  {
    if ids == [] then ZeroText(64) else Hex(RootOf(h, Leaves(h, ids)))
  }

  // ---- The recursive tree, as a reference ----

  /** The number of nodes at level `j` over `n` leaves: n halved j times, rounding up. */
  function Width(n: nat, j: nat): (w: nat)
    ensures n > 0 ==> w > 0
  {
    if j == 0 then n else (Width(n, j - 1) + 1) / 2
  }

  function Min(a: int, b: int): int { if a <= b then a else b }

  function Node(h: Hash, leaves: seq<Digest>, j: nat, i: nat): Digest
    requires i < Width(|leaves|, j)
  {
    if j == 0 then leaves[i] else
      h(Concat(Node(h, leaves, j - 1, 2 * i),
               Node(h, leaves, j - 1, Min(2 * i + 1, Width(|leaves|, j - 1) - 1))))
  }

  /** The number of rounds: the base-two logarithm rounded up. */
  function CeilLog2(n: nat): nat
  {
    if n <= 1 then 0 else 1 + CeilLog2((n + 1) / 2)
  }

  function Pow2(k: nat): nat { if k == 0 then 1 else 2 * Pow2(k - 1) }

  lemma {:induction false} CeilLog2IsLog(n: nat)
    requires n > 0
    ensures n <= Pow2(CeilLog2(n))
    ensures n > 1 ==> Pow2(CeilLog2(n) - 1) < n
  {
    if n > 1 {
      CeilLog2IsLog((n + 1) / 2);
    }
  }

  lemma {:induction false} WidthShift(n: nat, j: nat)
    ensures Width(n, j + 1) == Width((n + 1) / 2, j)
  {
    if j > 0 {
      WidthShift(n, j - 1);
    }
  }

  lemma {:induction false} WidthAtTop(n: nat)
    requires n > 0
    ensures Width(n, CeilLog2(n)) == 1
    ensures forall j :: 0 <= j < CeilLog2(n) ==> Width(n, j) > 1
  {
    if n > 1 {
      var m := (n + 1) / 2;
      WidthAtTop(m);
      WidthShift(n, CeilLog2(m));
      forall j | 0 <= j < CeilLog2(n) ensures Width(n, j) > 1 {
        if j > 0 {
          WidthShift(n, j - 1);
        }
      }
    }
  }

  lemma NodeUnfold(h: Hash, leaves: seq<Digest>, j: nat, i: nat, r: int)
    requires j > 0 && i < Width(|leaves|, j) && r == Min(2 * i + 1, Width(|leaves|, j - 1) - 1)
    ensures 0 <= 2 * i < Width(|leaves|, j - 1) && 0 <= r < Width(|leaves|, j - 1)
    ensures Node(h, leaves, j, i)
         == h(Concat(Node(h, leaves, j - 1, 2 * i), Node(h, leaves, j - 1, r)))
  {
  }

  lemma FirstLevel(h: Hash, layer: seq<Digest>, i: nat)
    requires 2 * i < |layer|
    ensures i < Width(|layer|, 1) && Node(h, layer, 1, i) == NextLayer(h, layer)[i]
  {
    assert Width(|layer|, 0) == |layer|;
    assert Width(|layer|, 1) == (|layer| + 1) / 2;
    var r := Min(2 * i + 1, |layer| - 1);
    NodeUnfold(h, layer, 1, i, r);
    assert Right(|layer|, i) == r;
    assert Node(h, layer, 0, 2 * i) == layer[2 * i];
    assert Node(h, layer, 0, r) == layer[r];
    assert Node(h, layer, 1, i) == h(Concat(layer[2 * i], layer[r]));
    assert NextLayer(h, layer)[i] == h(Pair(layer, i));
  }

  /** Level `j` of the tree over `next` is level `j + 1` of the tree over `layer`. */
  ghost predicate LevelsAgree(h: Hash, layer: seq<Digest>, next: seq<Digest>, j: nat) {
    && Width(|layer|, j + 1) == Width(|next|, j)
    && forall i :: 0 <= i < Width(|next|, j) ==> Node(h, layer, j + 1, i) == Node(h, next, j, i)
  }

  lemma FirstLevelsAgree(h: Hash, layer: seq<Digest>)
    ensures LevelsAgree(h, layer, NextLayer(h, layer), 0)
  {
    var next := NextLayer(h, layer);
    assert Width(|layer|, 0) == |layer| && Width(|layer|, 1) == (|layer| + 1) / 2;
    forall i | 0 <= i < |next| ensures Node(h, layer, 1, i) == Node(h, next, 0, i) {
      FirstLevel(h, layer, i);
    }
  }

  /** Nodes with equal children are equal. */
  lemma EqualChildren(h: Hash, layer: seq<Digest>, next: seq<Digest>, j: nat, i: nat)
    requires j > 0 && LevelsAgree(h, layer, next, j - 1)
    requires i < Width(|next|, j) && i < Width(|layer|, j + 1)
    ensures Node(h, layer, j + 1, i) == Node(h, next, j, i)
  {
    var r := Min(2 * i + 1, Width(|next|, j - 1) - 1);
    NodeUnfold(h, layer, j + 1, i, r);
    NodeUnfold(h, next, j, i, r);
    assert Node(h, layer, j, 2 * i) == Node(h, next, j - 1, 2 * i);
    assert Node(h, layer, j, r) == Node(h, next, j - 1, r);
  }

  lemma {:induction false} LevelShift(h: Hash, layer: seq<Digest>, j: nat)
    ensures LevelsAgree(h, layer, NextLayer(h, layer), j)
  {
    var next := NextLayer(h, layer);
    if j == 0 {
      FirstLevelsAgree(h, layer);
    } else {
      LevelShift(h, layer, j - 1);
      WidthShift(|layer|, j);
      forall i | 0 <= i < Width(|next|, j) ensures Node(h, layer, j + 1, i) == Node(h, next, j, i) {
        EqualChildren(h, layer, next, j, i);
      }
    }
  }

  /** The layered root is the top of the recursive tree. */
  lemma {:induction false} LayersBuildTheTree(h: Hash, layer: seq<Digest>)
    requires layer != []
    ensures Width(|layer|, CeilLog2(|layer|)) == 1
    ensures RootOf(h, layer) == Node(h, layer, CeilLog2(|layer|), 0)
    decreases |layer|
  {
    WidthAtTop(|layer|);
    if |layer| > 1 {
      var next := NextLayer(h, layer);
      LayersBuildTheTree(h, next);
      LevelShift(h, layer, CeilLog2(|next|));
      assert Node(h, layer, CeilLog2(|layer|), 0) == Node(h, next, CeilLog2(|next|), 0);
    }
  }

  /** The root of a non-empty list is the top of the recursive tree over its leaf digests. */
  lemma ListRootIsTreeTop(h: Hash, ids: seq<Text>)
    requires ids != []
    ensures Width(|ids|, CeilLog2(|ids|)) == 1
    ensures ListRoot(h, ids) == Hex(Node(h, Leaves(h, ids), CeilLog2(|ids|), 0))
  {
    LayersBuildTheTree(h, Leaves(h, ids));
  }

  /** Interior hashes done over `n` leaves. */
  function InteriorHashes(n: nat): nat
  {
    if n <= 1 then 0 else (n + 1) / 2 + InteriorHashes((n + 1) / 2)
  }

  lemma {:induction false} InteriorHashesBound(n: nat)
    requires n > 0
    ensures n - 1 <= InteriorHashes(n) <= n - 1 + CeilLog2(n)
  {
    if n > 1 {
      InteriorHashesBound((n + 1) / 2);
    }
  }

  /** `list_root_hex`: hash the strings, then replace the layer until one digest is left. */
  method ListRootHex(h: Hash, strings: seq<Text>)
    returns (root: Text, ghost rounds: nat, ghost hashes: nat)
    ensures root == ListRoot(h, strings)
    ensures rounds == CeilLog2(|strings|)
    ensures strings != [] ==> |strings| - 1 <= hashes <= |strings| - 1 + rounds
  {
    rounds, hashes := 0, 0;
    if |strings| == 0 {
      return ZeroText(64), 0, 0;
    }
    var layer: seq<Digest> := Leaves(h, strings);
    while |layer| > 1
      invariant layer != []
      invariant RootOf(h, layer) == RootOf(h, Leaves(h, strings))
      invariant rounds + CeilLog2(|layer|) == CeilLog2(|strings|)
      invariant hashes + InteriorHashes(|layer|) == InteriorHashes(|strings|)
      decreases |layer|
    {
      var next: seq<Digest> := [];
      var i := 0;
      while i < (|layer| + 1) / 2
        invariant i == |next| <= (|layer| + 1) / 2
        invariant forall k :: 0 <= k < i ==> next[k] == h(Pair(layer, k))
      {
        var a := layer[2 * i];
        var b := if 2 * i + 1 < |layer| then layer[2 * i + 1] else layer[2 * i];
        next := next + [h(Concat(a, b))];
        i := i + 1;
      }
      assert next == NextLayer(h, layer);
      rounds, hashes := rounds + 1, hashes + |next|;
      layer := next;
    }
    InteriorHashesBound(|strings|);
    return Hex(layer[0]), rounds, hashes;
  }

  // ---- The root by splitting, in terms of the hash alone ----

  /** A digest paired with itself `times` times over. */
  function Raised(h: Hash, d: Digest, times: nat): Digest
    decreases times
  {
    var t: Text := d;
    if times == 0 then d else Raised(h, h(t + t), times - 1)
  }

  lemma {:induction false} DepthWithin(n: nat, k: nat)
    requires 0 < n <= Pow2(k)
    ensures CeilLog2(n) <= k
  {
    if n > 1 {
      DepthWithin((n + 1) / 2, k - 1);
    }
  }

  /** Layers are replaced side by side when the first part is even. */
  lemma NextOfBoth(h: Hash, a: seq<Digest>, b: seq<Digest>)
    requires |a| % 2 == 0
    ensures NextLayer(h, a + b) == NextLayer(h, a) + NextLayer(h, b)
  {
    var n := |a| / 2;
    assert (|a + b| + 1) / 2 == n + (|b| + 1) / 2;
    forall i | 0 <= i < n + (|b| + 1) / 2
      ensures NextLayer(h, a + b)[i] == (NextLayer(h, a) + NextLayer(h, b))[i]
    {
      if i < n {
        assert Pair(a + b, i) == Pair(a, i);
      } else {
        assert Pair(a + b, i) == Pair(b, i - n);
      }
    }
  }

  lemma NextOfTwo(h: Hash, a: seq<Digest>, b: seq<Digest>)
    requires |a| == 1 && |b| == 1
    ensures NextLayer(h, a + b) == [h(Concat(a[0], b[0]))]
  {
    var next := NextLayer(h, a + b);
    assert |next| == 1 && next[0] == h(Pair(a + b, 0));
  }

  lemma NextOfOne(h: Hash, b: seq<Digest>)
    requires |b| == 1
    ensures NextLayer(h, b) == [h(Concat(b[0], b[0]))]
  {
    var next := NextLayer(h, b);
    assert |next| == 1 && next[0] == h(Pair(b, 0));
  }

  /** A single digest is raised once more per layer; a longer part climbs by itself. */
  lemma RaisedFromNext(h: Hash, b: seq<Digest>, k: nat)
    requires b != [] && k > 0 && CeilLog2(|b|) <= k && CeilLog2((|b| + 1) / 2) <= k - 1
    ensures var next := NextLayer(h, b);
      Raised(h, RootOf(h, next), k - 1 - CeilLog2(|next|)) == Raised(h, RootOf(h, b), k - CeilLog2(|b|))
  {
    if |b| == 1 {
      NextOfOne(h, b);
    }
  }

  /** The root of 2^k digests followed by at most as many more hashes the root of the first
      part, then the root of the rest, raised to the same height. */
  lemma {:induction false} RootSplits(h: Hash, a: seq<Digest>, b: seq<Digest>, k: nat)
    requires |a| == Pow2(k) && 0 < |b| <= |a|
    ensures CeilLog2(|b|) <= k
    ensures var left: Text, right: Text := RootOf(h, a), Raised(h, RootOf(h, b), k - CeilLog2(|b|));
      RootOf(h, a + b) == h(left + right)
    decreases k
  {
    DepthWithin(|b|, k);
    if k == 0 {
      NextOfTwo(h, a, b);
    } else {
      NextOfBoth(h, a, b);
      RootSplits(h, NextLayer(h, a), NextLayer(h, b), k - 1);
      RaisedFromNext(h, b, k);
    }
  }

  lemma EqualHalves(h: Hash, a: seq<Digest>, b: seq<Digest>, k: nat)
    requires |a| == Pow2(k) && 0 < |b| <= |a| && CeilLog2(|b|) == k
    ensures var left: Text, right: Text := RootOf(h, a), RootOf(h, b);
      RootOf(h, a + b) == h(left + right)
  {
    RootSplits(h, a, b, k);
  }

  lemma SmallRoots(h: Hash, x: Text, y: Text)
    ensures ListRoot(h, []) == ZeroText(64)
    ensures ListRoot(h, [x]) == Hex(h(x))
    ensures var a: Text, b: Text := h(x), h(y);
      ListRoot(h, [x, y]) == Hex(h(a + b))
  {
    assert Leaves(h, [x]) == [h(x)];
    assert Leaves(h, [x, y]) == [h(x)] + [h(y)];
    RootSplits(h, [h(x)], [h(y)], 0);
  }

  /** The odd last entry is paired with itself. */
  lemma RootOfThree(h: Hash, x: Text, y: Text, z: Text)
    ensures var a: Text, b: Text, c: Text := h(x), h(y), h(z);
      var left: Text, right: Text := h(a + b), h(c + c);
      ListRoot(h, [x, y, z]) == Hex(h(left + right))
  {
    var a, b, c := [h(x)], [h(y)], [h(z)];
    assert Leaves(h, [x, y, z]) == a + b + c;
    assert |a + b| == Pow2(1) && CeilLog2(|c|) == 0;
    RootSplits(h, a + b, c, 1);
    RootSplits(h, a, b, 0);
    assert Raised(h, h(z), 0) == h(z) && Raised(h, h(y), 0) == h(y);
    var t: Text := h(z);
    assert Raised(h, h(z), 1) == Raised(h, h(t + t), 0);
  }

  // ---- Sibling paths ----

  datatype Sibling = OnLeft(d: Digest) | OnRight(d: Digest)

  function PathOf(h: Hash, layer: seq<Digest>, k: nat): seq<Sibling>
    requires k < |layer|
    decreases |layer|
  {
    if |layer| == 1 then [] else
      [if k % 2 == 0 then OnRight(layer[Right(|layer|, k / 2)]) else OnLeft(layer[k - 1])]
      + PathOf(h, NextLayer(h, layer), k / 2)
  }

  function FoldPath(h: Hash, d: Digest, path: seq<Sibling>): Digest
    decreases |path|
  {
    var t: Text := d;
    if path == [] then d else
      FoldPath(h, match path[0] case OnRight(r) => h(t + r) case OnLeft(l) => h(l + t), path[1..])
  }

  /** Every leaf has a sibling path as long as the tree is deep, folding to the root. */
  lemma {:induction false} PathFoldsToRoot(h: Hash, layer: seq<Digest>, k: nat)
    requires k < |layer|
    ensures |PathOf(h, layer, k)| == CeilLog2(|layer|)
    ensures FoldPath(h, layer[k], PathOf(h, layer, k)) == RootOf(h, layer)
    decreases |layer|
  {
    if |layer| > 1 {
      var next := NextLayer(h, layer);
      var path := PathOf(h, layer, k);
      PathFoldsToRoot(h, next, k / 2);
      assert path[1..] == PathOf(h, next, k / 2);
      assert next[k / 2] == h(Pair(layer, k / 2));
      assert k % 2 == 0 ==> k == 2 * (k / 2);
      assert k % 2 == 1 ==> k == 2 * (k / 2) + 1;
    }
  }

  // ---- What the root commits to ----

  /** The interior preimages hashed on the way from a layer to its root. */
  ghost function InteriorInputs(h: Hash, layer: seq<Digest>): set<Text>
    decreases |layer|
  {
    if |layer| <= 1 then {} else
      (set i | 0 <= i < (|layer| + 1) / 2 :: Pair(layer, i))
      + InteriorInputs(h, NextLayer(h, layer))
  }

  /** Everything that computing the root of a list hashes. */
  ghost function HashInputs(h: Hash, ids: seq<Text>): set<Text>
  {
    (set id | id in ids) + InteriorInputs(h, Leaves(h, ids))
  }

  ghost predicate NoDuplicates(ids: seq<Text>) {
    forall i, j :: 0 <= i < j < |ids| ==> ids[i] != ids[j]
  }

  /** A transaction id: 64 base16 digits. */
  ghost predicate IdShaped(t: Text) { |t| == 64 && AllHex(t) }

  /** The leaf reached from the root by following the bits of `p` downwards, where a
      right turn off an odd end stays on the last node. */
  function LeafIndex(n: nat, p: nat): (k: nat)
    requires n > 0
    ensures k < n
  {
    if n == 1 then 0 else Min(2 * LeafIndex((n + 1) / 2, p / 2) + p % 2, n - 1)
  }

  /** Positions that name a leaf reach it. */
  lemma {:induction false} LeafIndexOfLeaf(n: nat, p: nat)
    requires p < n
    ensures LeafIndex(n, p) == p
  {
    if n > 1 {
      LeafIndexOfLeaf((n + 1) / 2, p / 2);
    }
  }

  lemma PairParts(a: Digest, b: Digest, c: Digest, d: Digest)
    requires Concat(a, b) == Concat(c, d)
    ensures a == c && b == d
  {
    Cut(a, b);
    Cut(c, d);
  }

  lemma CollisionGrows(h: Hash, small: set<Text>, large: set<Text>)
    requires small <= large
    ensures CollisionIn(h, small) ==> CollisionIn(h, large)
  {
  }

  /** Trees of one depth with one root have the same digest at every position,
      or hashing them exhibits a collision. */
  lemma {:induction false} SameRootSameLeaves(h: Hash, a: seq<Digest>, b: seq<Digest>, p: nat)
    requires a != [] && b != [] && CeilLog2(|a|) == CeilLog2(|b|)
    requires RootOf(h, a) == RootOf(h, b)
    ensures a[LeafIndex(|a|, p)] == b[LeafIndex(|b|, p)]
         || CollisionIn(h, InteriorInputs(h, a) + InteriorInputs(h, b))
    decreases |a|
  {
    if |a| > 1 && |b| > 1 {
      var a', b' := NextLayer(h, a), NextLayer(h, b);
      SameRootSameLeaves(h, a', b', p / 2);
      var inputs := InteriorInputs(h, a) + InteriorInputs(h, b);
      CollisionGrows(h, InteriorInputs(h, a') + InteriorInputs(h, b'), inputs);
      if !CollisionIn(h, inputs) {
        StepDown(h, a, b, p, inputs);
      }
    }
  }

  lemma PairIsInput(h: Hash, layer: seq<Digest>, i: nat)
    requires |layer| > 1 && i < (|layer| + 1) / 2
    ensures Pair(layer, i) in InteriorInputs(h, layer)
    ensures NextLayer(h, layer)[i] == h(Pair(layer, i))
  {
  }

  lemma LeafIndexChild(n: nat, p: nat)
    requires n > 1
    ensures var q := LeafIndex((n + 1) / 2, p / 2);
            LeafIndex(n, p) == if p % 2 == 0 then 2 * q else Right(n, q)
  {
  }

  /** Equal digests one level up have equal children, on the side `p` turns to. */
  lemma StepDown(h: Hash, a: seq<Digest>, b: seq<Digest>, p: nat, inputs: set<Text>)
    requires |a| > 1 && |b| > 1
    requires InteriorInputs(h, a) + InteriorInputs(h, b) <= inputs && !CollisionIn(h, inputs)
    requires NextLayer(h, a)[LeafIndex((|a| + 1) / 2, p / 2)]
          == NextLayer(h, b)[LeafIndex((|b| + 1) / 2, p / 2)]
    ensures a[LeafIndex(|a|, p)] == b[LeafIndex(|b|, p)]
  {
    var i, j := LeafIndex((|a| + 1) / 2, p / 2), LeafIndex((|b| + 1) / 2, p / 2);
    PairIsInput(h, a, i);
    PairIsInput(h, b, j);
    LeafIndexChild(|a|, p);
    LeafIndexChild(|b|, p);
    PairParts(a[2 * i], a[Right(|a|, i)], b[2 * j], b[Right(|b|, j)]);
  }

  /** A layer some rounds up has the same root, is hashed from the layer's own inputs,
      and is made of their digests. */
  lemma {:induction false} Climb(h: Hash, layer: seq<Digest>, rounds: nat) returns (up: seq<Digest>)
    requires layer != [] && 0 < rounds <= CeilLog2(|layer|)
    ensures up != [] && CeilLog2(|up|) == CeilLog2(|layer|) - rounds
    ensures RootOf(h, up) == RootOf(h, layer)
    ensures InteriorInputs(h, up) <= InteriorInputs(h, layer)
    ensures exists l: seq<Digest> :: |l| > 1 && up[0] == h(Pair(l, 0))
              && Pair(l, 0) in InteriorInputs(h, layer)
              && (l[0] in layer || exists x :: x in InteriorInputs(h, layer) && h(x) == l[0])
    decreases |layer|
  {
    up := NextLayer(h, layer);
    assert Pair(layer, 0) in InteriorInputs(h, layer);
    if rounds > 1 {
      var next := up;
      assert forall d :: d in next ==> exists x :: x in InteriorInputs(h, layer) && h(x) == d by {
        forall d | d in next ensures exists x :: x in InteriorInputs(h, layer) && h(x) == d {
          var i :| 0 <= i < |next| && next[i] == d;
          assert h(Pair(layer, i)) == d && Pair(layer, i) in InteriorInputs(h, layer);
        }
      }
      up := Climb(h, next, rounds - 1);
      var l: seq<Digest> :| |l| > 1 && up[0] == h(Pair(l, 0))
              && Pair(l, 0) in InteriorInputs(h, next)
              && (l[0] in next || exists x :: x in InteriorInputs(h, next) && h(x) == l[0]);
      assert Pair(l, 0) in InteriorInputs(h, layer);
    }
  }

  /** Roots of trees of different depths: the shallower tree's first leaf preimage, which
      is base16 text, would be a pair of digests. */
  lemma DifferentDepths(h: Hash, xs: seq<Text>, ys: seq<Text>)
    requires xs != [] && ys != [] && CeilLog2(|xs|) < CeilLog2(|ys|)
    requires AllHex(xs[0]) && |xs[0]| == 64
    requires RootOf(h, Leaves(h, xs)) == RootOf(h, Leaves(h, ys))
    ensures var inputs := HashInputs(h, xs) + HashInputs(h, ys);
            CollisionIn(h, inputs) || HexDigestIn(h, inputs)
  {
    var a, b := Leaves(h, xs), Leaves(h, ys);
    var inputs := HashInputs(h, xs) + HashInputs(h, ys);
    var up := Climb(h, b, CeilLog2(|ys|) - CeilLog2(|xs|));
    var l: seq<Digest> :| |l| > 1 && up[0] == h(Pair(l, 0)) && Pair(l, 0) in InteriorInputs(h, b)
              && (l[0] in b || exists x :: x in InteriorInputs(h, b) && h(x) == l[0]);
    SameFirstLeaf(h, a, up);
    DigestHasInput(h, ys, l[0]);
    CollisionGrows(h, InteriorInputs(h, a) + InteriorInputs(h, up), inputs);
    if !CollisionIn(h, inputs) {
      HexPair(h, inputs, xs[0], l);
    }
  }

  lemma SameFirstLeaf(h: Hash, a: seq<Digest>, b: seq<Digest>)
    requires a != [] && b != [] && CeilLog2(|a|) == CeilLog2(|b|) && RootOf(h, a) == RootOf(h, b)
    ensures a[0] == b[0] || CollisionIn(h, InteriorInputs(h, a) + InteriorInputs(h, b))
  {
    SameRootSameLeaves(h, a, b, 0);
    LeafIndexOfLeaf(|a|, 0);
    LeafIndexOfLeaf(|b|, 0);
  }

  /** Base16 text hashed to what a pair hashes to begins with a digest of base16 digits. */
  lemma HexPair(h: Hash, inputs: set<Text>, x: Text, l: seq<Digest>)
    requires |l| > 1 && !CollisionIn(h, inputs) && h(x) == h(Pair(l, 0)) && AllHex(x)
    requires x in inputs && Pair(l, 0) in inputs && exists y :: y in inputs && h(y) == l[0]
    ensures HexDigestIn(h, inputs)
  {
    assert x == Concat(l[0], l[Right(|l|, 0)]);
    assert x[..32] == l[0];
  }

  lemma DigestHasInput(h: Hash, ys: seq<Text>, d: Digest)
    requires d in Leaves(h, ys) || exists x :: x in InteriorInputs(h, Leaves(h, ys)) && h(x) == d
    ensures exists x :: x in HashInputs(h, ys) && h(x) == d
  {
    if d in Leaves(h, ys) {
      var i :| 0 <= i < |ys| && Leaves(h, ys)[i] == d;
      assert ys[i] in HashInputs(h, ys);
    }
  }

  /** Trees of one depth, the first list no longer than the second. */
  lemma SameDepth(h: Hash, xs: seq<Text>, ys: seq<Text>)
    requires xs != [] && |xs| <= |ys| && CeilLog2(|xs|) == CeilLog2(|ys|)
    requires NoDuplicates(xs) && NoDuplicates(ys)
    requires RootOf(h, Leaves(h, xs)) == RootOf(h, Leaves(h, ys))
    ensures xs == ys || CollisionIn(h, HashInputs(h, xs) + HashInputs(h, ys))
  {
    var a, b := Leaves(h, xs), Leaves(h, ys);
    var inputs := HashInputs(h, xs) + HashInputs(h, ys);
    CollisionGrows(h, InteriorInputs(h, a) + InteriorInputs(h, b), inputs);
    if !CollisionIn(h, inputs) {
      forall p | 0 <= p < |xs| ensures xs[p] == ys[p] {
        SameRootSameLeaves(h, a, b, p);
        LeafIndexOfLeaf(|xs|, p);
        LeafIndexOfLeaf(|ys|, p);
        assert xs[p] in inputs && ys[p] in inputs;
      }
      if |xs| < |ys| {
        // A longer list would repeat, at its first extra position, an earlier entry.
        var p := |xs|;
        var k := LeafIndex(|xs|, p);
        assert ys[k] in inputs && ys[p] in inputs && ys[k] != ys[p];
        LeafIndexOfLeaf(|ys|, p);
        SameRootSameLeaves(h, a, b, p);
        assert false;
      }
    }
  }

  /** The root binds the list: duplicate-free lists of ids with one root are equal, lengths
      included, unless the hashing itself exhibits a collision, or, for trees of different
      depths, a digest of base16 digits only, or, for empty against non-empty, a preimage
      of the all-zero digest. */
  lemma RootBindsList(h: Hash, xs: seq<Text>, ys: seq<Text>)
    requires NoDuplicates(xs) && NoDuplicates(ys)
    requires forall t :: t in xs || t in ys ==> IdShaped(t)
    requires ListRoot(h, xs) == ListRoot(h, ys)
    ensures var inputs := HashInputs(h, xs) + HashInputs(h, ys);
            || xs == ys
            || CollisionIn(h, inputs)
            || (CeilLog2(|xs|) != CeilLog2(|ys|) && HexDigestIn(h, inputs))
            || ((xs == []) != (ys == []) && ZeroPreimageIn(h, inputs))
  {
    if xs == [] && ys != [] {
      EmptyAgainstNonEmpty(h, ys);
    } else if xs != [] && ys == [] {
      EmptyAgainstNonEmpty(h, xs);
    } else if xs != [] && ys != [] {
      assert xs[0] in xs && ys[0] in ys;
      assert IdShaped(xs[0]) && IdShaped(ys[0]);
      BothNonEmpty(h, xs, ys);
    }
  }

  lemma SameText(h: Hash, xs: seq<Text>, ys: seq<Text>)
    requires xs != [] && ys != [] && ListRoot(h, xs) == ListRoot(h, ys)
    ensures RootOf(h, Leaves(h, xs)) == RootOf(h, Leaves(h, ys))
  {
    HexInjective(RootOf(h, Leaves(h, xs)), RootOf(h, Leaves(h, ys)));
  }

  lemma Commute(a: set<Text>, b: set<Text>)
    ensures a + b == b + a
  {
  }

  lemma BothNonEmpty(h: Hash, xs: seq<Text>, ys: seq<Text>)
    requires xs != [] && ys != [] && ListRoot(h, xs) == ListRoot(h, ys)
    requires NoDuplicates(xs) && NoDuplicates(ys) && IdShaped(xs[0]) && IdShaped(ys[0])
    ensures var inputs := HashInputs(h, xs) + HashInputs(h, ys);
            || xs == ys
            || CollisionIn(h, inputs)
            || (CeilLog2(|xs|) != CeilLog2(|ys|) && HexDigestIn(h, inputs))
  {
    var inputs := HashInputs(h, xs) + HashInputs(h, ys);
    SameText(h, xs, ys);
    if |xs| <= |ys| {
      NonEmptyRootBinds(h, xs, ys, inputs);
    } else {
      Commute(HashInputs(h, xs), HashInputs(h, ys));
      NonEmptyRootBinds(h, ys, xs, inputs);
    }
  }

  lemma {:induction false} CeilLog2Monotone(m: nat, n: nat)
    requires m <= n
    ensures CeilLog2(m) <= CeilLog2(n)
  {
    if m > 1 {
      CeilLog2Monotone((m + 1) / 2, (n + 1) / 2);
    }
  }

  lemma NonEmptyRootBinds(h: Hash, xs: seq<Text>, ys: seq<Text>, inputs: set<Text>)
    requires inputs == HashInputs(h, xs) + HashInputs(h, ys)
    requires xs != [] && |xs| <= |ys|
    requires NoDuplicates(xs) && NoDuplicates(ys)
    requires AllHex(xs[0]) && |xs[0]| == 64
    requires RootOf(h, Leaves(h, xs)) == RootOf(h, Leaves(h, ys))
    ensures || xs == ys
            || CollisionIn(h, inputs)
            || (CeilLog2(|xs|) != CeilLog2(|ys|) && HexDigestIn(h, inputs))
  {
    CeilLog2Monotone(|xs|, |ys|);
    if CeilLog2(|xs|) < CeilLog2(|ys|) {
      DifferentDepths(h, xs, ys);
    } else {
      SameDepth(h, xs, ys);
    }
  }

  lemma EmptyAgainstNonEmpty(h: Hash, ys: seq<Text>)
    requires ys != [] && ListRoot(h, ys) == ListRoot(h, [])
    ensures ZeroPreimageIn(h, HashInputs(h, ys))
  {
    var b := Leaves(h, ys);
    HexOfZeros(32);
    HexInjective(RootOf(h, b), Zeros(32));
    RootHasInput(h, b);
    DigestHasInput(h, ys, RootOf(h, b));
  }

  lemma {:induction false} RootHasInput(h: Hash, layer: seq<Digest>)
    requires layer != []
    ensures RootOf(h, layer) in layer
         || exists x :: x in InteriorInputs(h, layer) && h(x) == RootOf(h, layer)
    decreases |layer|
  {
    if |layer| > 1 {
      var next := NextLayer(h, layer);
      RootHasInput(h, next);
      if RootOf(h, layer) in next {
        var i :| 0 <= i < |next| && next[i] == RootOf(h, layer);
        assert Pair(layer, i) in InteriorInputs(h, layer);
      }
    }
  }

  // ---- Exactly when two lists share a root ----

  /** The number of root-to-leaf paths of a full tree as deep as the one over `n` leaves. */
  function Paths(n: nat): nat { Pow2(CeilLog2(n)) }

  /** Both lists, blown up to full trees by repeating odd ends, read the same: the same
      entry is reached from the root along every path. */
  predicate SameExpansion(xs: seq<Text>, ys: seq<Text>)
    requires xs != [] && ys != []
  {
    forall p :: 0 <= p < Paths(|xs|) ==> xs[LeafIndex(|xs|, p)] == ys[LeafIndex(|ys|, p)]
  }

  ghost predicate SamePositions(a: seq<Digest>, b: seq<Digest>)
    requires a != [] && b != []
  {
    forall p :: 0 <= p < Paths(|a|) ==> a[LeafIndex(|a|, p)] == b[LeafIndex(|b|, p)]
  }

  /** The two leaves below the node reached at `q`. */
  lemma LeafIndexPair(n: nat, q: nat)
    requires n > 1
    ensures LeafIndex(n, 2 * q) == 2 * LeafIndex((n + 1) / 2, q)
    ensures LeafIndex(n, 2 * q + 1) == Right(n, LeafIndex((n + 1) / 2, q))
  {
    assert 2 * q / 2 == q && (2 * q + 1) / 2 == q;
    LeafIndexChild(n, 2 * q);
    LeafIndexChild(n, 2 * q + 1);
  }

  lemma SameChildren(h: Hash, a: seq<Digest>, b: seq<Digest>, i: nat, j: nat)
    requires 2 * i < |a| && 2 * j < |b|
    requires a[2 * i] == b[2 * j] && a[Right(|a|, i)] == b[Right(|b|, j)]
    ensures NextLayer(h, a)[i] == NextLayer(h, b)[j]
  {
    assert Pair(a, i) == Pair(b, j);
  }

  /** Equal digests along both paths below a node give equal digests at the node. */
  lemma StepUp(h: Hash, a: seq<Digest>, b: seq<Digest>, q: nat)
    requires |a| > 1 && |b| > 1
    requires a[LeafIndex(|a|, 2 * q)] == b[LeafIndex(|b|, 2 * q)]
    requires a[LeafIndex(|a|, 2 * q + 1)] == b[LeafIndex(|b|, 2 * q + 1)]
    ensures NextLayer(h, a)[LeafIndex((|a| + 1) / 2, q)] == NextLayer(h, b)[LeafIndex((|b| + 1) / 2, q)]
  {
    LeafIndexPair(|a|, q);
    LeafIndexPair(|b|, q);
    SameChildren(h, a, b, LeafIndex((|a| + 1) / 2, q), LeafIndex((|b| + 1) / 2, q));
  }

  /** The same digests at every position of trees of one depth have the same root. */
  lemma {:induction false} SameLeavesSameRoot(h: Hash, a: seq<Digest>, b: seq<Digest>)
    requires a != [] && b != [] && CeilLog2(|a|) == CeilLog2(|b|) && SamePositions(a, b)
    ensures RootOf(h, a) == RootOf(h, b)
    decreases |a|
  {
    if |a| == 1 {
      LeafIndexOfLeaf(1, 0);
      assert a[LeafIndex(|a|, 0)] == b[LeafIndex(|b|, 0)];
    } else {
      var a', b' := NextLayer(h, a), NextLayer(h, b);
      assert Paths(|a|) == 2 * Paths(|a'|);
      forall q | 0 <= q < Paths(|a'|) ensures a'[LeafIndex(|a'|, q)] == b'[LeafIndex(|b'|, q)] {
        assert a[LeafIndex(|a|, 2 * q)] == b[LeafIndex(|b|, 2 * q)];
        assert a[LeafIndex(|a|, 2 * q + 1)] == b[LeafIndex(|b|, 2 * q + 1)];
        StepUp(h, a, b, q);
      }
      SameLeavesSameRoot(h, a', b');
    }
  }

  lemma ExpansionHashed(h: Hash, xs: seq<Text>, ys: seq<Text>)
    requires xs != [] && ys != [] && SameExpansion(xs, ys)
    ensures SamePositions(Leaves(h, xs), Leaves(h, ys))
  {
    var a, b := Leaves(h, xs), Leaves(h, ys);
    forall p | 0 <= p < Paths(|a|) ensures a[LeafIndex(|a|, p)] == b[LeafIndex(|b|, p)] {
      assert xs[LeafIndex(|xs|, p)] == ys[LeafIndex(|ys|, p)];
    }
  }

  lemma SameEntry(h: Hash, xs: seq<Text>, ys: seq<Text>, p: nat, inputs: set<Text>)
    requires xs != [] && ys != [] && CeilLog2(|xs|) == CeilLog2(|ys|)
    requires RootOf(h, Leaves(h, xs)) == RootOf(h, Leaves(h, ys))
    requires HashInputs(h, xs) <= inputs && HashInputs(h, ys) <= inputs && !CollisionIn(h, inputs)
    ensures xs[LeafIndex(|xs|, p)] == ys[LeafIndex(|ys|, p)]
  {
    var a, b := Leaves(h, xs), Leaves(h, ys);
    SameRootSameLeaves(h, a, b, p);
    CollisionGrows(h, InteriorInputs(h, a) + InteriorInputs(h, b), inputs);
    assert xs[LeafIndex(|xs|, p)] in HashInputs(h, xs);
    assert ys[LeafIndex(|ys|, p)] in HashInputs(h, ys);
  }

  /** Non-empty lists whose trees are equally deep share a root exactly when they have the
      same expansion, unless the hashing itself exhibits a collision. Any strings, with
      repetitions or without. */
  lemma SameDepthRootsIff(h: Hash, xs: seq<Text>, ys: seq<Text>)
    requires xs != [] && ys != [] && CeilLog2(|xs|) == CeilLog2(|ys|)
    ensures (ListRoot(h, xs) == ListRoot(h, ys) <==> SameExpansion(xs, ys))
         || CollisionIn(h, HashInputs(h, xs) + HashInputs(h, ys))
    ensures SameExpansion(xs, ys) ==> ListRoot(h, xs) == ListRoot(h, ys)
  {
    if SameExpansion(xs, ys) {
      ExpansionHashed(h, xs, ys);
      SameLeavesSameRoot(h, Leaves(h, xs), Leaves(h, ys));
    }
    var inputs := HashInputs(h, xs) + HashInputs(h, ys);
    if ListRoot(h, xs) == ListRoot(h, ys) && !CollisionIn(h, inputs) {
      SameText(h, xs, ys);
      forall p | 0 <= p < Paths(|xs|) ensures xs[LeafIndex(|xs|, p)] == ys[LeafIndex(|ys|, p)] {
        SameEntry(h, xs, ys, p, inputs);
      }
    }
  }

  /** Lists that no hash tells apart: both empty, or equally deep with one expansion. */
  predicate Twins(xs: seq<Text>, ys: seq<Text>) {
    || (xs == [] && ys == [])
    || (xs != [] && ys != [] && CeilLog2(|xs|) == CeilLog2(|ys|) && SameExpansion(xs, ys))
  }

  /** Lists of ids, repetitions allowed, share a root exactly when they are twins, unless the
      hashing exhibits the break that belongs to their case: a collision, or for different
      depths a digest of base16 digits only, or for empty against non-empty a preimage of
      the all-zero digest. */
  lemma RootsEqualIffTwins(h: Hash, xs: seq<Text>, ys: seq<Text>)
    requires forall t :: t in xs || t in ys ==> IdShaped(t)
    ensures Twins(xs, ys) ==> ListRoot(h, xs) == ListRoot(h, ys)
    ensures var inputs := HashInputs(h, xs) + HashInputs(h, ys);
            ListRoot(h, xs) == ListRoot(h, ys) ==>
              || Twins(xs, ys)
              || CollisionIn(h, inputs)
              || (CeilLog2(|xs|) != CeilLog2(|ys|) && HexDigestIn(h, inputs))
              || ((xs == []) != (ys == []) && ZeroPreimageIn(h, inputs))
  {
    if xs != [] && ys != [] && CeilLog2(|xs|) == CeilLog2(|ys|) {
      SameDepthRootsIff(h, xs, ys);
    } else if ListRoot(h, xs) == ListRoot(h, ys) {
      UnequalDepths(h, xs, ys);
    }
  }

  lemma UnequalDepths(h: Hash, xs: seq<Text>, ys: seq<Text>)
    requires xs == [] || ys == [] || CeilLog2(|xs|) != CeilLog2(|ys|)
    requires forall t :: t in xs || t in ys ==> IdShaped(t)
    requires ListRoot(h, xs) == ListRoot(h, ys)
    ensures var inputs := HashInputs(h, xs) + HashInputs(h, ys);
            || (xs == [] && ys == [])
            || CollisionIn(h, inputs)
            || (CeilLog2(|xs|) != CeilLog2(|ys|) && HexDigestIn(h, inputs))
            || ((xs == []) != (ys == []) && ZeroPreimageIn(h, inputs))
  {
    if xs == [] && ys != [] {
      EmptyAgainstNonEmpty(h, ys);
    } else if xs != [] && ys == [] {
      EmptyAgainstNonEmpty(h, xs);
    } else if xs != [] && ys != [] {
      assert xs[0] in xs && ys[0] in ys;
      assert IdShaped(xs[0]) && IdShaped(ys[0]);
      SameText(h, xs, ys);
      UnequalDepthsNonEmpty(h, xs, ys);
    }
  }

  lemma UnequalDepthsNonEmpty(h: Hash, xs: seq<Text>, ys: seq<Text>)
    requires xs != [] && ys != [] && CeilLog2(|xs|) != CeilLog2(|ys|)
    requires IdShaped(xs[0]) && IdShaped(ys[0])
    requires RootOf(h, Leaves(h, xs)) == RootOf(h, Leaves(h, ys))
    ensures var inputs := HashInputs(h, xs) + HashInputs(h, ys);
            CollisionIn(h, inputs) || HexDigestIn(h, inputs)
  {
    if CeilLog2(|xs|) < CeilLog2(|ys|) {
      DifferentDepths(h, xs, ys);
    } else {
      DifferentDepths(h, ys, xs);
      Commute(HashInputs(h, xs), HashInputs(h, ys));
    }
  }

  // ---- Twins of every non-power-of-two length ----

  /** `m` doubled `k` times. */
  function Scale(m: nat, k: nat): (n: nat)
    ensures m > 0 ==> n > 0
  {
    if k == 0 then m else 2 * Scale(m, k - 1)
  }

  /** `n` is `block` times an odd number of three or more, and `block` a power of two. */
  predicate OddMultiple(n: nat, block: nat) {
    if block <= 1 then block == 1 && n % 2 == 1 && n >= 3
    else block % 2 == 0 && n % 2 == 0 && OddMultiple(n / 2, block / 2)
  }

  lemma OddMultipleDoubles(n: nat, block: nat)
    requires OddMultiple(n, block)
    ensures OddMultiple(2 * n, 2 * block)
  {
    assert 2 * n / 2 == n && 2 * block / 2 == block;
  }

  lemma {:induction false} ScaleIsOddMultiple(m: nat, k: nat)
    requires m >= 3 && m % 2 == 1
    ensures OddMultiple(Scale(m, k), Pow2(k)) && 1 <= Pow2(k) < Scale(m, k)
  {
    if k > 0 {
      ScaleIsOddMultiple(m, k - 1);
      OddMultipleDoubles(Scale(m, k - 1), Pow2(k - 1));
    }
  }

  lemma DepthOfDouble(n: nat)
    requires n > 0
    ensures CeilLog2(2 * n) == CeilLog2(n) + 1
  {
    assert (2 * n + 1) / 2 == n;
  }

  lemma DoublesShareDepth(m: nat, n: nat)
    requires m > 0 && n > 0 && CeilLog2(m) == CeilLog2(n)
    ensures CeilLog2(2 * m) == CeilLog2(2 * n)
  {
    DepthOfDouble(m);
    DepthOfDouble(n);
  }

  lemma Halves(n: nat, block: nat) returns (n': nat, block': nat)
    requires OddMultiple(n, block) && block > 1
    ensures n == 2 * n' && block == 2 * block' && OddMultiple(n', block')
  {
    n', block' := n / 2, block / 2;
  }

  lemma OddAndNextShareDepth(n: nat)
    requires n % 2 == 1 && n >= 3
    ensures CeilLog2(n + 1) == CeilLog2(n)
  {
    assert (n + 1 + 1) / 2 == (n + 1) / 2;
  }

  lemma SmallestMultiple(n: nat, block: nat)
    requires OddMultiple(n, block)
    ensures n > 0 && block > 0 && (block == 1 ==> n % 2 == 1 && n >= 3)
  {
  }

  /** Repeating the last `block` leaves keeps the depth. */
  lemma {:induction false} RepeatedBlockDepth(n: nat, block: nat)
    requires OddMultiple(n, block)
    ensures n > 0 && CeilLog2(n + block) == CeilLog2(n)
  {
    SmallestMultiple(n, block);
    if block > 1 {
      var n', block' := Halves(n, block);
      RepeatedBlockDepth(n', block');
      DoublesShareDepth(n', n' + block');
    } else {
      OddAndNextShareDepth(n);
    }
  }

  /** The child of node `q` on the side `p` turns to. */
  function Child(n: nat, q: nat, p: nat): nat
    requires 2 * q < n
  {
    if p % 2 == 0 then 2 * q else Right(n, q)
  }

  /** Index `i` of a list with its last `block` entries repeated, read in the list itself. */
  function Unrepeated(i: nat, n: nat, block: nat): int { if i < n then i else i - block }

  lemma ChildrenOfRepeated(n: nat, block: nat, q: nat, p: nat)
    requires q < n + block && 0 <= Unrepeated(q, n, block) < n
    ensures Child(2 * n, Unrepeated(q, n, block), p)
         == Unrepeated(Child(2 * (n + block), q, p), 2 * n, 2 * block)
  {
  }

  lemma {:induction false} RepeatedBlockIndex(n: nat, block: nat, p: nat)
    requires OddMultiple(n, block)
    ensures n > block >= 1
    ensures LeafIndex(n, p) == Unrepeated(LeafIndex(n + block, p), n, block)
    decreases block
  {
    if block == 1 {
      RepeatedLastIndex(n, p);
    } else {
      RepeatedBlockIndex(n / 2, block / 2, p / 2);
      RepeatedDoubles(n / 2, block / 2, n, block, p);
    }
  }

  lemma RepeatedDoubles(n: nat, block: nat, n': nat, block': nat, p: nat)
    requires n > 0 && n' == 2 * n && block' == 2 * block
    requires LeafIndex(n, p / 2) == Unrepeated(LeafIndex(n + block, p / 2), n, block)
    ensures LeafIndex(n', p) == Unrepeated(LeafIndex(n' + block', p), n', block')
  {
    assert n' + block' == 2 * (n + block);
    DoubledIndex(n, p);
    DoubledIndex(n + block, p);
    ChildrenOfRepeated(n, block, LeafIndex(n + block, p / 2), p);
  }

  lemma DoubledIndex(n: nat, p: nat)
    requires n > 0
    ensures LeafIndex(2 * n, p) == Child(2 * n, LeafIndex(n, p / 2), p)
  {
    assert (2 * n + 1) / 2 == n;
    LeafIndexChild(2 * n, p);
  }

  lemma RepeatedLastIndex(m: nat, p: nat)
    requires m >= 3 && m % 2 == 1
    ensures LeafIndex(m, p) == Unrepeated(LeafIndex(m + 1, p), m, 1)
  {
    assert (m + 1 + 1) / 2 == (m + 1) / 2;
    LeafIndexChild(m, p);
    LeafIndexChild(m + 1, p);
  }

  lemma RepeatedEntry(ids: seq<Text>, block: nat, more: seq<Text>, p: nat)
    requires OddMultiple(|ids|, block) && 1 <= block < |ids| && more == ids + ids[|ids| - block..]
    ensures ids[LeafIndex(|ids|, p)] == more[LeafIndex(|more|, p)]
  {
    RepeatedBlockIndex(|ids|, block, p);
  }

  lemma RepeatedBlockExpands(ids: seq<Text>, block: nat)
    requires OddMultiple(|ids|, block) && 1 <= block < |ids|
    ensures Twins(ids, ids + ids[|ids| - block..])
  {
    var more := ids + ids[|ids| - block..];
    RepeatedBlockDepth(|ids|, block);
    forall p | 0 <= p < Paths(|ids|) ensures ids[LeafIndex(|ids|, p)] == more[LeafIndex(|more|, p)] {
      RepeatedEntry(ids, block, more, p);
    }
  }

  /** Without the no-duplicates condition binding fails for every hash: a list whose length
      is an odd multiple (three or more) of 2^k is the twin of itself followed by its last
      2^k entries once more. */
  lemma RepeatedBlockIsInvisible(h: Hash, ids: seq<Text>, m: nat, k: nat)
    requires m >= 3 && m % 2 == 1 && |ids| == Scale(m, k)
    ensures Pow2(k) < |ids|
    ensures Twins(ids, ids + ids[|ids| - Pow2(k)..])
    ensures ListRoot(h, ids + ids[|ids| - Pow2(k)..]) == ListRoot(h, ids)
  {
    ScaleIsOddMultiple(m, k);
    var more := ids + ids[|ids| - Pow2(k)..];
    RepeatedBlockExpands(ids, Pow2(k));
    SameDepthRootsIff(h, ids, more);
  }

  /** The odd case: repeating the last entry of an odd list of three or more. */
  lemma RepeatedLastIsInvisible(h: Hash, ids: seq<Text>)
    requires |ids| >= 3 && |ids| % 2 == 1
    ensures ListRoot(h, ids + [ids[|ids| - 1]]) == ListRoot(h, ids)
  {
    RepeatedBlockIsInvisible(h, ids, |ids|, 0);
    assert ids[|ids| - 1..] == [ids[|ids| - 1]];
  }
}
