/** Which transactions two nodes can store under one delivered block ID. */
module StoredContents {
  import opened Common
  import opened Lamport
  import opened Ledger
  import opened Blocks
  import opened BrachaRound
  import opened NodeSpec
  import opened NodeRuns
  import opened Contents

  /**
   * Two nodes that store blocks under one ID store transactions with the same digests, or two of the very
   * texts hashed for the ID collide; provided each node finds its block sound, which verification does
   * not check, and a rule tells where the header text splits.
   */
  lemma StoredContentsAgree(e: Env, s: NodeState, e': Env, s': NodeState, id: BlockHash)
    returns (x: Bytes, y: Bytes)
    requires DigestsHave64Chars(e.codec.h) && e.codec == e'.codec && StoreInv(e, s) && StoreInv(e', s')
    requires id in s.verified && id in s'.verified
    requires var b, b' := s.blkList[id], s'.blkList[id];
      && Sound(e.codec.h, b.header, b.txs) && Sound(e.codec.h, b'.header, b'.txs)
      && ((b.txs != [] && b'.txs != []) || |b.header.prevBlockDigest| == |b'.header.prevBlockDigest|)
    ensures var h, b, b' := e.codec.h, s.blkList[id], s'.blkList[id];
      || (b.header == b'.header && TxDigests(h, b.txs) == TxDigests(h, b'.txs))
      || Collide(h, AllTexts(h, b.header, b.txs) + AllTexts(h, b'.header, b'.txs), x, y)
  {
    hide RootOf, TxDigests, Mentions, AllRecorded, BlockOk, Sound, AllTexts;
    var b, b' := s.blkList[id], s'.blkList[id];
    assert StoredWell(e, b, id, s.admissions[id]) && StoredWell(e', b', id, s'.admissions[id]);
    x, y := SoundContentsAgree(e.codec.h, b.header, b.txs, b'.header, b'.txs);
  }

  // ----- a node can deliver anything that verifies -----

  /** A finalized block with these contents, as validator k sends it. */
  function Content(header: Header, txs: seq<Transaction>, key: SigKey, k: u16): BlockValue {
    BlockValue(header, txs, [], [], k, key, 0, false, false)
  }

  /** READYs for it from validators that the node hears from for the first time. */
  function Readys(header: Header, txs: seq<Transaction>, key: SigKey, count: nat): seq<Message>
    requires count <= 0x1_0000
  {
    if count == 0 then []
    else Readys(header, txs, key, count - 1) + [Message(READY, Content(header, txs, key, count - 1), count - 1, 3)]
  }

  /** A node that has just received them, with the ledger it had. */
  ghost predicate HeardReadys(e: Env, s: NodeState, a: Admission, header: Header, txs: seq<Transaction>, count: nat) {
    && s.utxolist == a.utxolist && s.walletIds == a.walletIds && s.drawn == 1
    && (forall k :: k in s.valSigKeys ==> k as nat < count)
    && Stores(s, header.ID(e.codec.h), header, txs, count)
  }

  ghost predicate Stores(s: NodeState, id: BlockHash, header: Header, txs: seq<Transaction>, count: nat) {
    if count == 0 then s.proto == INITIAL && id !in s.verified && id !in s.blkList
    else
      && s.proto == INITIAL.(ready := map[id := count])
      && id in s.verified && id in s.blkList && s.blkList[id].header == header && s.blkList[id].txs == txs
  }

  lemma HearingOneMore(
      e: Env, s: NodeState, a: Admission, header: Header, txs: seq<Transaction>, key: SigKey, count: nat)
    requires key.Complete() && count < 0x1_0000 && BlockOk(txs, a.utxolist, a.walletIds)
    requires HeardReadys(e, s, a, header, txs, count)
    ensures var m := Message(READY, Content(header, txs, key, count), count, 3);
      m.FromWire() && HeardReadys(e, Receive(e, s, m), a, header, txs, count + 1)
  {
    hide BlockOk, Recorded, SignatureOk;
    var m := Message(READY, Content(header, txs, key, count), count, 3);
    StrangersAreTrusted(e, s.valSigKeys, m.block);
    assert Accepts(e, s, m);
    if count > 0 {
      assert map[m.Id(e) := count][m.Id(e) := count + 1] == map[m.Id(e) := count + 1];
    }
  }

  lemma StrangersAreTrusted(e: Env, keys: map<u16, SigKey>, b: BlockValue)
    requires b.validatorId !in keys
    ensures SignatureOk(e, keys, b)
  {
  }

  /** A new node that has been given a ledger. */
  function WithLedger(a: Admission): NodeState {
    NEW_NODE.(utxolist := a.utxolist, walletIds := a.walletIds)
  }

  lemma {:induction false} HearingReadys(
      e: Env, a: Admission, header: Header, txs: seq<Transaction>, key: SigKey, count: nat)
    requires key.Complete() && count <= 0x1_0000 && BlockOk(txs, a.utxolist, a.walletIds)
    ensures |Readys(header, txs, key, count)| == count
    ensures forall k :: 0 <= k < count ==> Readys(header, txs, key, count)[k].FromWire()
    ensures HeardReadys(e, ReceiveAll(e, WithLedger(a), Readys(header, txs, key, count)), a, header, txs, count)
  {
    hide BlockOk, Receive, Content;
    if count > 0 {
      HearingReadys(e, a, header, txs, key, count - 1);
      var front := Readys(header, txs, key, count - 1);
      var m := Message(READY, Content(header, txs, key, count - 1), count - 1, 3);
      assert Readys(header, txs, key, count) == front + [m] && (front + [m])[..count - 1] == front;
      HearingOneMore(e, ReceiveAll(e, WithLedger(a), front), a, header, txs, key, count - 1);
    }
  }

  /** The node's life ends with this block delivered under its ID. */
  ghost predicate DeliveredAs(
      e: Env, run: seq<NodeAction>, trace: seq<NodeState>, header: Header, txs: seq<Transaction>)
  {
    && Lives(e, run, trace)
    && var t, id := trace[|trace| - 1], header.ID(e.codec.h);
       && id in t.proto.accepted && id in t.blkList
       && t.blkList[id].header == header && t.blkList[id].txs == txs
  }

  /** What it takes for a network's f to leave room for 2f+2 validators with 16-bit names. */
  ghost predicate Fits(e: Env) {
    2 * e.params.f + 2 <= 0x1_0000
  }

  /** With any ledger, a new node can deliver any header with any contents that verify: one batch, one round. */
  lemma DeliversContents(e: Env, a: Admission, header: Header, txs: seq<Transaction>, key: SigKey)
    returns (run: seq<NodeAction>, trace: seq<NodeState>)
    requires Fits(e) && BlockOk(txs, a.utxolist, a.walletIds) && key.Complete()
    ensures DeliveredAs(e, run, trace, header, txs)
  {
    hide BlockOk, Round, ReceiveAll, StoreInv, EmitAll;
    var id, msgs, s0 := header.ID(e.codec.h), Readys(header, txs, key, 2 * e.params.f + 2), WithLedger(a);
    HearingReadys(e, a, header, txs, key, 2 * e.params.f + 2);
    var s := ReceiveAll(e, s0, msgs);
    NewNodeInv(e);
    SmallChangesKeepInv(e, NEW_NODE, INITIAL, a.utxolist, a.walletIds, 1);
    ReceiveAllKeepsInv(e, s0, msgs);
    assert s.proto.ready.Keys == {id} && s.proto.echo.Keys == {};
    RoundSpeaksOfStored(e, s, [], [id]);
    RoundMeaning(e.params, s.proto, [], [id]);
    var q := Round(e.params, s.proto, [], [id]);
    EmitAllKeepsTheRest(e, s, q.sent);
    assert s.proto.ready[id] > e.params.DeliverAbove();
    assert q.delivered == Some(id);
    run := [NewLedger(a.utxolist, a.walletIds), Batch(msgs), Act([], [id])];
    trace := [NEW_NODE, s0, s, Halfway(e, s, q)];
    assert q.state.accepted == [] + [id];
  }

  // ----- each condition is needed -----

  function Empty(key: SigKey): Transaction { Transaction([], [], [], 0, 0, key) }

  const NO_LEDGER := Admission([], [])

  lemma EmptyContentsPass(txs: seq<Transaction>)
    requires forall tx :: tx in txs ==> tx.inputs == [] && tx.outputs == []
    ensures BlockOk(txs, [], [])
  {
    NoInputs(txs);
  }

  lemma {:induction false} NoInputs(txs: seq<Transaction>)
    requires forall tx :: tx in txs ==> tx.inputs == []
    ensures AllInputs(txs) == []
  {
    if txs != [] {
      NoInputs(txs[..|txs| - 1]);
    }
  }

  /** Two nodes have delivered one ID with different contents. */
  ghost predicate Differ(e: Env, e': Env, a: Header, txsA: seq<Transaction>, b: Header, txsB: seq<Transaction>) {
    && e.codec == e'.codec && a.ID(e.codec.h) == b.ID(e.codec.h) && txsA != txsB
    && (exists run, trace :: DeliveredAs(e, run, trace, a, txsA))
    && (exists run, trace :: DeliveredAs(e', run, trace, b, txsB))
  }

  lemma BothDeliver(e: Env, e': Env, a: Header, txsA: seq<Transaction>, b: Header, txsB: seq<Transaction>, key: SigKey)
    requires key.Complete() && e.codec == e'.codec && Fits(e) && Fits(e') && a.ID(e.codec.h) == b.ID(e.codec.h)
    requires BlockOk(txsA, [], []) && BlockOk(txsB, [], []) && txsA != txsB
    ensures Differ(e, e', a, txsA, b, txsB)
  {
    hide BlockOk, DeliveredAs;
    var run, trace := DeliversContents(e, NO_LEDGER, a, txsA, key);
    var run', trace' := DeliversContents(e', NO_LEDGER, b, txsB, key);
  }

  /** Without the root being the transactions' own: any header, with no transactions and with one. */
  lemma OwnRootIsNeeded(e: Env, e': Env, header: Header, key: SigKey)
    requires key.Complete() && e.codec == e'.codec && Fits(e) && Fits(e')
    ensures Differ(e, e', header, [], header, [Empty(key)])
  {
    hide BlockOk;
    EmptyContentsPass([]);
    EmptyContentsPass([Empty(key)]);
    BothDeliver(e, e', header, [], header, [Empty(key)], key);
  }

  /** Without distinct digests: three equal transactions and four have one root, their own. */
  lemma DistinctDigestsAreNeeded(e: Env, e': Env, prev: Bytes, key: SigKey)
    requires key.Complete() && e.codec == e'.codec && Fits(e) && Fits(e')
    ensures var x := Empty(key);
      var three, four := [x, x, x], [x, x, x, x];
      var header := Header(prev, RootOf(e.codec.h, three));
      header.merkleRoot == RootOf(e.codec.h, four) && Differ(e, e', header, three, header, four)
  {
    hide BlockOk, RootOf;
    var x := Empty(key);
    var three, four := [x, x, x], [x, x, x, x];
    RepetitionHidesLength(e.codec.h, three);
    assert three + [x] == four;
    EmptyContentsPass(three);
    EmptyContentsPass(four);
    var header := Header(prev, RootOf(e.codec.h, three));
    BothDeliver(e, e', header, three, header, four, key);
  }

  /** Without a rule for the split: a predecessor can be taken for a root. */
  lemma SplitRuleIsNeeded(e: Env, e': Env, key: SigKey)
    requires key.Complete() && e.codec == e'.codec && Fits(e) && Fits(e')
    ensures var h, one := e.codec.h, [Empty(key)];
      Differ(e, e', Header(RootOf(h, one), RootOf(h, [])), [], Header([], RootOf(h, one)), one)
  {
    hide BlockOk, RootOf;
    var h, one := e.codec.h, [Empty(key)];
    SplitIsNeeded(h, Empty(key));
    EmptyContentsPass([]);
    EmptyContentsPass(one);
    BothDeliver(e, e', Header(RootOf(h, one), RootOf(h, [])), [], Header([], RootOf(h, one)), one, key);
  }
}
