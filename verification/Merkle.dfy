/** The Merkle root of a block header, for any hash function. */
module Merkle {
  import opened Common

  // ----- level by level, as the program computes it -----

  /** What is hashed for entry i of the next level; an odd last entry is paired with itself. */
  function PairText(level: seq<Bytes>, i: nat): Bytes
    requires 2 * i < |level|
  {
    level[2 * i] + level[if 2 * i + 1 < |level| then 2 * i + 1 else 2 * i]
  }

  function NextLevel(h: HashFn, level: seq<Bytes>): (next: seq<Bytes>)
    ensures |next| == (|level| + 1) / 2
  {
    seq((|level| + 1) / 2, i requires 0 <= i < (|level| + 1) / 2 => h(PairText(level, i)))
  }

  function BottomUp(h: HashFn, level: seq<Bytes>): Bytes
    requires level != []
    decreases |level|
  {
    if |level| == 1 then level[0] else BottomUp(h, NextLevel(h, level))
  }

  /** The loop over levels. */
  method MerkleRoot(h: HashFn, digests: seq<Bytes>) returns (root: Bytes)
    requires digests != []
    ensures root == BottomUp(h, digests)
  {
    var hashes := digests;
    while |hashes| > 1
      invariant hashes != [] && BottomUp(h, hashes) == BottomUp(h, digests)
      decreases |hashes|
    {
      ghost var level := hashes;
      if |hashes| % 2 != 0 {
        hashes := hashes + [hashes[|hashes| - 1]];
      }
      var newHashes: seq<Bytes> := [];
      var i := 0;
      while i < |hashes|
        invariant i % 2 == 0 && 0 <= i <= |hashes|
        invariant newHashes == NextLevel(h, level)[..i / 2]
      {
        assert hashes[i] + hashes[i + 1] == PairText(level, i / 2);
        newHashes := newHashes + [h(hashes[i] + hashes[i + 1])];
        i := i + 2;
      }
      assert newHashes == NextLevel(h, level);
      hashes := newHashes;
    }
    root := hashes[0];
  }

  // ----- the tree from the top -----

  ghost predicate IsPowerOfTwo(p: nat) {
    p == 1 || (p > 1 && p % 2 == 0 && IsPowerOfTwo(p / 2))
  }

  /** The largest power of two below n. */
  function SplitPoint(n: nat): (p: nat)
    requires n >= 2
    ensures p < n <= 2 * p && IsPowerOfTwo(p)
  {
    if n == 2 then 1 else 2 * SplitPoint((n + 1) / 2)
  }

  /** The number of levels above n leaves. */
  function Depth(n: nat): nat
    requires n >= 1
  {
    if n == 1 then 0 else 1 + Depth((n + 1) / 2)
  }

  lemma {:induction false} DepthGrows(m: nat, n: nat)
    requires 1 <= m <= n
    ensures Depth(m) <= Depth(n)
  {
    if m > 1 {
      DepthGrows((m + 1) / 2, (n + 1) / 2);
    }
  }

  /** Hash x with itself, k times. */
  function Lift(h: HashFn, x: Bytes, k: nat): Bytes
    decreases k
  {
    if k == 0 then x else Lift(h, h(x + x), k - 1)
  }

  /** Split at the largest power of two; lift the right subtree to the depth of the left one. */
  function TopDown(h: HashFn, leaves: seq<Bytes>): Bytes
    requires leaves != []
    decreases |leaves|, 0
  {
    if |leaves| == 1 then leaves[0]
    else
      var p := SplitPoint(|leaves|);
      h(TopDown(h, leaves[..p]) + RightRoot(h, leaves[p..], p))
  }

  /** The root of a right subtree, lifted to the depth of p leaves. */
  function RightRoot(h: HashFn, right: seq<Bytes>, p: nat): Bytes
    requires 1 <= |right| <= p
    decreases |right|, 1
  {
    DepthGrows(|right|, p);
    Lift(h, TopDown(h, right), Depth(p) - Depth(|right|))
  }

  lemma NextLevelSplits(h: HashFn, leaves: seq<Bytes>, p: nat)
    requires p % 2 == 0 && p <= |leaves|
    ensures NextLevel(h, leaves)[..p / 2] == NextLevel(h, leaves[..p])
    ensures NextLevel(h, leaves)[p / 2..] == NextLevel(h, leaves[p..])
  {
    forall i | 0 <= i < |NextLevel(h, leaves[p..])|
      ensures NextLevel(h, leaves)[p / 2 + i] == NextLevel(h, leaves[p..])[i]
    {
      assert PairText(leaves, p / 2 + i) == PairText(leaves[p..], i);
    }
    forall i | 0 <= i < p / 2
      ensures NextLevel(h, leaves)[i] == NextLevel(h, leaves[..p])[i]
    {
      assert PairText(leaves, i) == PairText(leaves[..p], i);
    }
  }

  lemma TopDownSplits(h: HashFn, leaves: seq<Bytes>)
    requires |leaves| >= 2
    ensures var p := SplitPoint(|leaves|);
      TopDown(h, leaves) == h(TopDown(h, leaves[..p]) + RightRoot(h, leaves[p..], p))
  {
  }

  lemma TwoLeaves(h: HashFn, leaves: seq<Bytes>)
    requires |leaves| == 2
    ensures TopDown(h, NextLevel(h, leaves)) == TopDown(h, leaves)
  {
    assert leaves[..1] == [leaves[0]] && leaves[1..] == [leaves[1]];
    assert RightRoot(h, [leaves[1]], 1) == leaves[1];
    assert PairText(leaves, 0) == leaves[0] + leaves[1];
    assert NextLevel(h, leaves) == [h(leaves[0] + leaves[1])];
  }

  lemma OneLeafOnTheRight(h: HashFn, x: Bytes, p: nat)
    requires p >= 2 && p % 2 == 0
    ensures |NextLevel(h, [x])| == 1 && RightRoot(h, NextLevel(h, [x]), p / 2) == RightRoot(h, [x], p)
  {
    assert PairText([x], 0) == x + x;
    assert NextLevel(h, [x]) == [h(x + x)];
    assert Lift(h, x, Depth(p)) == Lift(h, h(x + x), Depth(p / 2));
  }

  /** Hashing one level does not change the tree seen from the top. */
  lemma {:induction false} TopDownOfNextLevel(h: HashFn, leaves: seq<Bytes>)
    requires |leaves| >= 2
    ensures TopDown(h, NextLevel(h, leaves)) == TopDown(h, leaves)
    decreases |leaves|
  {
    hide NextLevel, TopDown, Lift, PairText;
    var next, n := NextLevel(h, leaves), |leaves|;
    if n == 2 {
      TwoLeaves(h, leaves);
    } else {
      var p := SplitPoint(n);
      var left, right := leaves[..p], leaves[p..];
      assert SplitPoint(|next|) == p / 2;
      TopDownSplits(h, leaves);
      TopDownSplits(h, next);
      NextLevelSplits(h, leaves, p);
      TopDownOfNextLevel(h, left);
      if n - p >= 2 {
        TopDownOfNextLevel(h, right);
        assert RightRoot(h, NextLevel(h, right), p / 2) == RightRoot(h, right, p);
      } else {
        assert right == [leaves[p]];
        OneLeafOnTheRight(h, leaves[p], p);
      }
    }
  }

  /** The loop over levels computes the tree, for every non-empty list of leaves. */
  lemma {:induction false} BottomUpIsTopDown(h: HashFn, leaves: seq<Bytes>)
    requires leaves != []
    ensures BottomUp(h, leaves) == TopDown(h, leaves)
    decreases |leaves|
  {
    if |leaves| > 1 {
      BottomUpIsTopDown(h, NextLevel(h, leaves));
      TopDownOfNextLevel(h, leaves);
    }
  }

  // ----- binding -----

  /** The texts that are hashed to compute the root. */
  function HashedTexts(h: HashFn, level: seq<Bytes>): set<Bytes>
    requires level != []
    decreases |level|
  {
    if |level| == 1 then {}
    else (set i | 0 <= i < (|level| + 1) / 2 :: PairText(level, i)) + HashedTexts(h, NextLevel(h, level))
  }

  ghost predicate AllDigests(digests: seq<Bytes>) {
    forall i :: 0 <= i < |digests| ==> |digests[i]| == 64
  }

  /** Pairs of 64-character digests split uniquely. */
  lemma PairsDetermineLevel(a: seq<Bytes>, b: seq<Bytes>)
    requires |a| == |b| && AllDigests(a) && AllDigests(b)
    requires forall i :: 0 <= i < (|a| + 1) / 2 ==> PairText(a, i) == PairText(b, i)
    ensures a == b
  {
    forall k | 0 <= k < |a| ensures a[k] == b[k] {
      var i := k / 2;
      var x, y := PairText(a, i), PairText(b, i);
      assert x == y;
      assert x[..64] == a[2 * i] && y[..64] == b[2 * i];
      if k == 2 * i + 1 {
        assert x[64..] == a[k] && y[64..] == b[k];
      }
    }
  }

  lemma NextLevelHolds(h: HashFn, level: seq<Bytes>)
    requires DigestsHave64Chars(h)
    ensures AllDigests(NextLevel(h, level))
  {
    forall i | 0 <= i < |NextLevel(h, level)| ensures |NextLevel(h, level)[i]| == 64 {
      assert NextLevel(h, level)[i] == h(PairText(level, i));
    }
  }

  /**
   * Binding. Equally long digest lists with the same root are equal, or two of the very texts hashed
   * for the two roots collide; the proof names them.
   */
  lemma {:induction false} RootBinds(h: HashFn, a: seq<Bytes>, b: seq<Bytes>) returns (x: Bytes, y: Bytes)
    requires DigestsHave64Chars(h) && |a| == |b| && a != [] && AllDigests(a) && AllDigests(b)
    requires BottomUp(h, a) == BottomUp(h, b)
    ensures a == b || (x in HashedTexts(h, a) && y in HashedTexts(h, b) && x != y && h(x) == h(y))
    decreases |a|
  {
    x, y := [], [];
    if |a| > 1 {
      NextLevelHolds(h, a);
      NextLevelHolds(h, b);
      x, y := RootBinds(h, NextLevel(h, a), NextLevel(h, b));
      if NextLevel(h, a) == NextLevel(h, b) {
        if i :| 0 <= i < (|a| + 1) / 2 && PairText(a, i) != PairText(b, i) {
          x, y := PairText(a, i), PairText(b, i);
          assert NextLevel(h, a)[i] == h(x) && NextLevel(h, b)[i] == h(y);
        } else {
          PairsDetermineLevel(a, b);
        }
      }
    }
  }

  // ----- binding without knowing the lengths -----

  /** The level k levels up. */
  function Up(h: HashFn, level: seq<Bytes>, k: nat): (up: seq<Bytes>)
    requires level != []
    ensures up != []
    decreases k
  {
    if k == 0 then level else Up(h, NextLevel(h, level), k - 1)
  }

  lemma {:induction false} UpIsInTheTree(h: HashFn, level: seq<Bytes>, k: nat)
    requires level != [] && k <= Depth(|level|)
    ensures BottomUp(h, Up(h, level, k)) == BottomUp(h, level)
    ensures Depth(|Up(h, level, k)|) == Depth(|level|) - k
    ensures HashedTexts(h, Up(h, level, k)) <= HashedTexts(h, level)
    decreases k
  {
    if k > 0 {
      UpIsInTheTree(h, NextLevel(h, level), k - 1);
    }
  }

  /** Above the leaves everything is the hash of two digests. */
  lemma {:induction false} UpIsHashed(h: HashFn, level: seq<Bytes>, k: nat) returns (t: Bytes)
    requires DigestsHave64Chars(h) && AllDigests(level) && level != [] && 0 < k <= Depth(|level|)
    ensures t in HashedTexts(h, level) && |t| == 128 && h(t) == Up(h, level, k)[0]
    decreases k
  {
    var next := NextLevel(h, level);
    if k == 1 {
      t := PairText(level, 0);
      assert next[0] == h(t) && Up(h, level, 1) == next;
    } else {
      NextLevelHolds(h, level);
      t := UpIsHashed(h, next, k - 1);
    }
  }

  lemma EqualPairs(level: seq<Bytes>, i: nat, j: nat)
    requires AllDigests(level) && 2 * i < |level| && 2 * j < |level| && PairText(level, i) == PairText(level, j)
    ensures level[2 * i] == level[2 * j]
  {
    assert PairText(level, i)[..64] == level[2 * i] && PairText(level, j)[..64] == level[2 * j];
  }

  /** Distinct digests make a next level of distinct digests, or two of the texts hashed for it collide. */
  lemma NextLevelDistinct(h: HashFn, level: seq<Bytes>) returns (x: Bytes, y: Bytes)
    requires AllDigests(level) && Distinct(level) && |level| > 1
    ensures Distinct(NextLevel(h, level)) || Collide(h, HashedTexts(h, level), x, y)
  {
    x, y := [], [];
    if i, j :| 0 <= i < j < (|level| + 1) / 2 && NextLevel(h, level)[i] == NextLevel(h, level)[j] {
      x, y := PairText(level, i), PairText(level, j);
      if x == y {
        EqualPairs(level, i, j);
      }
    }
  }

  lemma {:induction false} UpDistinct(h: HashFn, level: seq<Bytes>, k: nat) returns (x: Bytes, y: Bytes)
    requires DigestsHave64Chars(h) && AllDigests(level) && Distinct(level) && level != [] && k <= Depth(|level|)
    ensures AllDigests(Up(h, level, k))
    ensures Distinct(Up(h, level, k)) || Collide(h, HashedTexts(h, level), x, y)
    decreases k
  {
    x, y := [], [];
    if k > 0 {
      NextLevelHolds(h, level);
      x, y := NextLevelDistinct(h, level);
      if Distinct(NextLevel(h, level)) {
        x, y := UpDistinct(h, NextLevel(h, level), k - 1);
      } else {
        UpHolds(h, level, k);
      }
    }
  }

  lemma {:induction false} UpHolds(h: HashFn, level: seq<Bytes>, k: nat)
    requires DigestsHave64Chars(h) && AllDigests(level) && level != []
    ensures AllDigests(Up(h, level, k))
    decreases k
  {
    if k > 0 {
      NextLevelHolds(h, level);
      UpHolds(h, NextLevel(h, level), k - 1);
    }
  }

  /** Two lists of distinct digests with the same pairs are the same: a last digest paired with itself would show. */
  lemma SamePairsSameLevel(a: seq<Bytes>, b: seq<Bytes>)
    requires (|a| + 1) / 2 == (|b| + 1) / 2 && AllDigests(a) && AllDigests(b) && Distinct(a) && Distinct(b)
    requires forall i :: 0 <= i < (|a| + 1) / 2 ==> PairText(a, i) == PairText(b, i)
    ensures a == b
  {
    if |a| < |b| {
      LastPairsDiffer(a, b);
    } else if |b| < |a| {
      LastPairsDiffer(b, a);
    } else {
      PairsDetermineLevel(a, b);
    }
  }

  lemma LastPairsDiffer(a: seq<Bytes>, b: seq<Bytes>)
    requires (|a| + 1) / 2 == (|b| + 1) / 2 && |a| < |b| && AllDigests(a) && AllDigests(b) && Distinct(b)
    ensures PairText(a, (|a| - 1) / 2) != PairText(b, (|a| - 1) / 2)
  {
    var i := (|a| - 1) / 2;
    assert |a| == 2 * i + 1 && |b| == 2 * i + 2;
    var x, y := PairText(a, i), PairText(b, i);
    assert x[..64] == a[2 * i] == x[64..] && y[..64] == b[2 * i] && y[64..] == b[2 * i + 1];
  }

  /** Lists of distinct digests with trees of the same depth. */
  lemma {:induction false} SameDepthBinds(h: HashFn, a: seq<Bytes>, b: seq<Bytes>) returns (x: Bytes, y: Bytes)
    requires DigestsHave64Chars(h) && a != [] && b != [] && AllDigests(a) && AllDigests(b)
    requires Distinct(a) && Distinct(b) && Depth(|a|) == Depth(|b|) && BottomUp(h, a) == BottomUp(h, b)
    ensures a == b || Collide(h, HashedTexts(h, a) + HashedTexts(h, b), x, y)
    decreases |a|
  {
    hide Distinct, NextLevel, PairText, AllDigests;
    x, y := [], [];
    if |a| > 1 {
      var nextA, nextB := NextLevel(h, a), NextLevel(h, b);
      NextLevelHolds(h, a);
      NextLevelHolds(h, b);
      x, y := NextLevelDistinct(h, a);
      if Distinct(nextA) {
        x, y := NextLevelDistinct(h, b);
        if Distinct(nextB) {
          x, y := SameDepthBinds(h, nextA, nextB);
          if nextA == nextB {
            x, y := SameNextLevelBinds(h, a, b);
          }
        }
      }
    }
  }

  lemma SameNextLevelBinds(h: HashFn, a: seq<Bytes>, b: seq<Bytes>) returns (x: Bytes, y: Bytes)
    requires |a| > 1 && |b| > 1 && AllDigests(a) && AllDigests(b) && Distinct(a) && Distinct(b)
    requires NextLevel(h, a) == NextLevel(h, b)
    ensures a == b || Collide(h, HashedTexts(h, a) + HashedTexts(h, b), x, y)
  {
    hide Distinct;
    x, y := [], [];
    assert |NextLevel(h, a)| == |NextLevel(h, b)|;
    if i :| 0 <= i < (|a| + 1) / 2 && PairText(a, i) != PairText(b, i) {
      x, y := PairText(a, i), PairText(b, i);
      assert NextLevel(h, a)[i] == h(x) && NextLevel(h, b)[i] == h(y);
    } else {
      SamePairsSameLevel(a, b);
    }
  }

  /** One of the digests is the hash of two digests: a leaf of one tree that is a node inside the other. */
  ghost predicate LeafIsNode(h: HashFn, a: seq<Bytes>, b: seq<Bytes>, t: Bytes)
    requires a != [] && b != []
  {
    |t| == 128 && ((t in HashedTexts(h, b) && h(t) in a) || (t in HashedTexts(h, a) && h(t) in b))
  }

  /**
   * Binding for lists of any lengths. If the digests of each list are distinct, lists with the same root
   * are equal; or two of the very texts hashed for the roots collide; or a leaf of one tree is a node
   * inside the other.
   */
  lemma DistinctRootBinds(h: HashFn, a: seq<Bytes>, b: seq<Bytes>) returns (x: Bytes, y: Bytes)
    requires DigestsHave64Chars(h) && a != [] && b != [] && AllDigests(a) && AllDigests(b)
    requires Distinct(a) && Distinct(b) && BottomUp(h, a) == BottomUp(h, b)
    ensures a == b || Collide(h, HashedTexts(h, a) + HashedTexts(h, b), x, y) || LeafIsNode(h, a, b, x)
  {
    hide Distinct, AllDigests, HashedTexts, BottomUp, Depth;
    if Depth(|a|) == Depth(|b|) {
      x, y := SameDepthBinds(h, a, b);
    } else if Depth(|a|) < Depth(|b|) {
      x, y := DeeperBinds(h, a, b);
    } else {
      x, y := DeeperBinds(h, b, a);
    }
  }

  lemma DeeperBinds(h: HashFn, a: seq<Bytes>, b: seq<Bytes>) returns (x: Bytes, y: Bytes)
    requires DigestsHave64Chars(h) && a != [] && b != [] && AllDigests(a) && AllDigests(b)
    requires Distinct(a) && Distinct(b) && BottomUp(h, a) == BottomUp(h, b) && Depth(|a|) < Depth(|b|)
    ensures Collide(h, HashedTexts(h, a) + HashedTexts(h, b), x, y)
         || (|x| == 128 && x in HashedTexts(h, b) && h(x) in a)
  {
    hide Distinct, AllDigests, HashedTexts, BottomUp, Depth, Up;
    var k := Depth(|b|) - Depth(|a|);
    var up := Up(h, b, k);
    UpIsInTheTree(h, b, k);
    x, y := UpDistinct(h, b, k);
    if Distinct(up) {
      x, y := SameDepthBinds(h, a, up);
      if a == up {
        x := UpIsHashed(h, b, k);
        assert a[0] in a;
      }
    }
  }

  /** The lengths must agree: an odd list has the root of the list with its last digest repeated. */
  lemma RepeatedLastDigest(h: HashFn, a: seq<Bytes>)
    requires |a| % 2 == 1 && |a| > 1
    ensures BottomUp(h, a + [a[|a| - 1]]) == BottomUp(h, a)
  {
    hide BottomUp, NextLevel;
    var b := a + [a[|a| - 1]];
    SameTextsSameLevel(h, a, b);
    BottomUpNext(h, a);
    BottomUpNext(h, b);
  }

  lemma SameTextsSameLevel(h: HashFn, a: seq<Bytes>, b: seq<Bytes>)
    requires (|a| + 1) / 2 == (|b| + 1) / 2
    requires forall i :: 0 <= i < (|a| + 1) / 2 ==> PairText(a, i) == PairText(b, i)
    ensures NextLevel(h, a) == NextLevel(h, b)
  {
  }

  lemma BottomUpNext(h: HashFn, level: seq<Bytes>)
    requires |level| > 1
    ensures BottomUp(h, level) == BottomUp(h, NextLevel(h, level))
  {
  }
}
