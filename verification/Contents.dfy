/** What a header ID says about the transactions behind it, when nobody knows how many there are. */
module Contents {
  import opened Common
  import opened Lamport
  import opened Ledger
  import opened Merkle
  import opened Blocks

  /**
   * What a node can check of a block alone: the root in the header is the transactions' own, their
   * digests are distinct, and no transaction's text is as long as two digests.
   */
  ghost predicate Sound(h: HashFn, a: Header, txs: seq<Transaction>) {
    && a.merkleRoot == RootOf(h, txs)
    && Distinct(TxDigests(h, txs))
    && forall k :: 0 <= k < |txs| ==> |TxText(txs[k])| != 128
  }

  function TxTexts(txs: seq<Transaction>): set<Bytes> {
    set k | 0 <= k < |txs| :: TxText(txs[k])
  }

  /** All the texts that are hashed for a header ID. */
  function AllTexts(h: HashFn, a: Header, txs: seq<Transaction>): set<Bytes> {
    HeaderTexts(h, a, txs) + TxTexts(txs)
  }

  /**
   * Binding, with conditions that each node checks alone. Two sound blocks with one ID have the same
   * predecessor and the same transaction digests, or two of the very texts hashed for the ID collide. It
   * takes one more rule that tells where the header text splits: no block is empty, or all
   * predecessors' digests are equally long.
   */
  lemma SoundContentsAgree(h: HashFn, a: Header, txsA: seq<Transaction>, b: Header, txsB: seq<Transaction>)
    returns (x: Bytes, y: Bytes)
    requires DigestsHave64Chars(h) && Sound(h, a, txsA) && Sound(h, b, txsB) && a.ID(h) == b.ID(h)
    requires (txsA != [] && txsB != []) || |a.prevBlockDigest| == |b.prevBlockDigest|
    ensures (a == b && TxDigests(h, txsA) == TxDigests(h, txsB))
         || Collide(h, AllTexts(h, a, txsA) + AllTexts(h, b, txsB), x, y)
  {
    hide TxDigests, BottomUp, TxText, HashedTexts, Distinct;
    x, y := a.prevBlockDigest + a.merkleRoot, b.prevBlockDigest + b.merkleRoot;
    if x == y {
      RootHas64(h, txsA);
      RootHas64(h, txsB);
      SplitHeader(a, b);
      TxDigestsLength(h, txsA);
      TxDigestsLength(h, txsB);
      if txsA != [] && txsB != [] {
        x, y := SameRootAgree(h, a, txsA, b, txsB);
      }
    }
  }

  lemma RootHas64(h: HashFn, txs: seq<Transaction>)
    requires DigestsHave64Chars(h)
    ensures |RootOf(h, txs)| == if txs == [] then 0 else 64
  {
    if txs != [] {
      TxDigestsHold(h, txs);
      RootOfDigestsHas64(h, TxDigests(h, txs));
    }
  }

  lemma {:induction false} RootOfDigestsHas64(h: HashFn, level: seq<Bytes>)
    requires DigestsHave64Chars(h) && level != [] && AllDigests(level)
    ensures |BottomUp(h, level)| == 64
    decreases |level|
  {
    if |level| > 1 {
      NextLevelHolds(h, level);
      RootOfDigestsHas64(h, NextLevel(h, level));
    }
  }

  lemma SameRootAgree(h: HashFn, a: Header, txsA: seq<Transaction>, b: Header, txsB: seq<Transaction>)
    returns (x: Bytes, y: Bytes)
    requires DigestsHave64Chars(h) && Sound(h, a, txsA) && Sound(h, b, txsB) && a.merkleRoot == b.merkleRoot
    requires txsA != [] && txsB != []
    ensures TxDigests(h, txsA) == TxDigests(h, txsB)
         || Collide(h, AllTexts(h, a, txsA) + AllTexts(h, b, txsB), x, y)
  {
    hide TxDigests, BottomUp, TxText, HashedTexts, Distinct, AllDigests;
    TxDigestsLength(h, txsA);
    TxDigestsLength(h, txsB);
    TxDigestsHold(h, txsA);
    TxDigestsHold(h, txsB);
    var digestsA, digestsB := TxDigests(h, txsA), TxDigests(h, txsB);
    x, y := DistinctRootBinds(h, digestsA, digestsB);
    if LeafIsNode(h, digestsA, digestsB, x) {
      if x in HashedTexts(h, digestsB) && h(x) in digestsA {
        y := TextBehind(h, txsA, h(x));
      } else {
        y := TextBehind(h, txsB, h(x));
      }
    }
  }

  /** The transaction text that a digest is the hash of. */
  lemma TextBehind(h: HashFn, txs: seq<Transaction>, d: Bytes) returns (t: Bytes)
    requires d in TxDigests(h, txs) && forall k :: 0 <= k < |txs| ==> |TxText(txs[k])| != 128
    ensures t in TxTexts(txs) && h(t) == d && |t| != 128
  {
    hide TxText;
    var k :| 0 <= k < |TxDigests(h, txs)| && TxDigests(h, txs)[k] == d;
    t := TxText(txs[k]);
  }

  // ----- each condition is needed -----

  /** Without distinct digests: an odd list and the same list with its last transaction repeated have one root. */
  lemma RepetitionHidesLength(h: HashFn, txs: seq<Transaction>)
    requires |txs| % 2 == 1 && |txs| > 1
    ensures RootOf(h, txs + [txs[|txs| - 1]]) == RootOf(h, txs)
  {
    hide BottomUp, TxText;
    var more := txs + [txs[|txs| - 1]];
    RepeatedLastDigest(h, TxDigests(h, txs));
    assert TxDigests(h, more) == TxDigests(h, txs) + [TxDigests(h, txs)[|txs| - 1]];
  }

  /** Without a rule for the split: no transactions on top of R, and one transaction of root R on top of nothing. */
  lemma SplitIsNeeded(h: HashFn, tx: Transaction)
    ensures var r := RootOf(h, [tx]);
      Header(r, RootOf(h, [])).ID(h) == Header([], r).ID(h)
  {
    var r := RootOf(h, [tx]);
    assert r + [] == r == [] + r;
  }

  // Without the bound on texts: a transaction whose text is two digests looks like the node above them.

  function Ones(n: nat): seq<Output> { seq(n, _ => Output(1, 1)) }

  lemma {:induction false} TextOfOnes(n: nat)
    ensures OutputsText(Ones(n)) == seq(2 * n, _ => DIGITS[1])
  {
    if n > 0 {
      TextOfOnes(n - 1);
      assert Ones(n)[..n - 1] == Ones(n - 1);
      assert Decimal(1) == [DIGITS[1]];
    }
  }

  /** One transaction with a text of 128 digits, and two with short texts. */
  function Long(key: SigKey): Transaction { Transaction([], Ones(63), [], 0, 10, key) }
  function Short(key: SigKey, id: u32): Transaction { Transaction([], [], [], 0, id, key) }

  lemma LongText(key: SigKey)
    ensures var t := TxText(Long(key));
      |t| == 128 && t[0] == DIGITS[1] && t[1] == DIGITS[0] && t[65] == DIGITS[1]
  {
    hide OutputsText;
    TextOfOnes(63);
    assert Decimal(10) == Decimal(1) + [DIGITS[0]] && Decimal(1) == [DIGITS[1]];
    assert InputsText([]) == [];
    assert TxText(Long(key)) == [DIGITS[1], DIGITS[0]] + seq(126, _ => DIGITS[1]);
  }

  lemma ShortText(key: SigKey, id: u32)
    requires id < 10
    ensures TxText(Short(key, id)) == [DIGITS[id]]
  {
    assert InputsText([]) == [] && OutputsText([]) == [];
  }

  function Letters(c: bv8): Bytes { seq(64, _ => c) }

  /** A hash under which the two halves of t are the digests of two short texts. */
  function Arranged(t: Bytes): HashFn
    requires |t| == 128
  {
    s => if s == [DIGITS[1]] then t[..64] else if s == [DIGITS[2]] then t[64..]
         else if s == t then Letters(97) else Letters(98)
  }

  lemma ArrangedIsAHash(t: Bytes)
    requires |t| == 128
    ensures DigestsHave64Chars(Arranged(t))
  {
  }

  /** Both contents have the root of letters. */
  lemma ArrangedRoots(t: Bytes, key: SigKey)
    requires t == TxText(Long(key)) && |t| == 128
    requires TxText(Short(key, 1)) == [DIGITS[1]] && TxText(Short(key, 2)) == [DIGITS[2]]
    ensures var h, one, two := Arranged(t), [Long(key)], [Short(key, 1), Short(key, 2)];
      && TxDigests(h, one) == [Letters(97)] && TxDigests(h, two) == [t[..64], t[64..]]
      && RootOf(h, one) == RootOf(h, two) == Letters(97)
      && HashedTexts(h, TxDigests(h, one)) == {} && HashedTexts(h, TxDigests(h, two)) == {t}
  {
    hide TxText, Letters;
    var h, two, digests := Arranged(t), [Short(key, 1), Short(key, 2)], [t[..64], t[64..]];
    assert TxDigests(h, [Long(key)]) == [Letters(97)];
    assert TxDigests(h, two) == digests;
    assert PairText(digests, 0) == t[..64] + t[64..] == t;
    assert NextLevel(h, digests) == [Letters(97)];
    assert BottomUp(h, digests) == BottomUp(h, [Letters(97)]) == Letters(97);
    TextsOfTwo(h, digests);
  }

  /** Four texts with four different hashes. */
  lemma NoneCollide(t: Bytes, x: Bytes, y: Bytes)
    requires |t| == 128 && t[0] == DIGITS[1] && t[1] == DIGITS[0] && t[65] == DIGITS[1]
    requires {x, y} <= {Letters(97), t, [DIGITS[1]], [DIGITS[2]]} && x != y
    ensures Arranged(t)(x) != Arranged(t)(y)
  {
    assert t[..64][1] != t[64..][1] && t[..64][1] != Letters(97)[1] && t[..64][1] != Letters(98)[1];
    assert t[64..][1] != Letters(97)[1] && t[64..][1] != Letters(98)[1] && Letters(97)[0] != Letters(98)[0];
  }

  /**
   * For some hash, one transaction and two others have one root with distinct digests, and the texts that
   * are hashed for one header ID with either content do not collide.
   */
  lemma LongTextsAreNeeded(key: SigKey) returns (h: HashFn, one: seq<Transaction>, two: seq<Transaction>)
    ensures DigestsHave64Chars(h) && one != [] && two != []
    ensures RootOf(h, one) == RootOf(h, two) && TxDigests(h, one) != TxDigests(h, two)
    ensures Distinct(TxDigests(h, one)) && Distinct(TxDigests(h, two))
    ensures var a := Header([], RootOf(h, one));
      forall x, y :: !Collide(h, AllTexts(h, a, one) + AllTexts(h, a, two), x, y)
  {
    hide TxText, Letters, Arranged, RootOf, HashedTexts, TxDigests;
    LongText(key);
    ShortText(key, 1);
    ShortText(key, 2);
    var t := TxText(Long(key));
    h, one, two := Arranged(t), [Long(key)], [Short(key, 1), Short(key, 2)];
    ArrangedIsAHash(t);
    ArrangedRoots(t, key);
    assert t[..64][1] != t[64..][1];
    var a := Header([], RootOf(h, one));
    assert [] + Letters(97) == Letters(97);
    assert AllTexts(h, a, one) + AllTexts(h, a, two) <= {Letters(97), t, [DIGITS[1]], [DIGITS[2]]};
    forall x, y ensures !Collide(h, AllTexts(h, a, one) + AllTexts(h, a, two), x, y) {
      if {x, y} <= {Letters(97), t, [DIGITS[1]], [DIGITS[2]]} && x != y {
        NoneCollide(t, x, y);
      }
    }
  }

  lemma TextsOfTwo(h: HashFn, digests: seq<Bytes>)
    requires |digests| == 2
    ensures HashedTexts(h, digests) == {PairText(digests, 0)}
  {
    assert HashedTexts(h, NextLevel(h, digests)) == {};
  }
}
