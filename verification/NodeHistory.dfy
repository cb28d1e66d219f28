/** What a node's store and outbox hold, read off the messages it has accepted and the counters it had. */
module NodeHistory {
  import opened Common
  import opened Lamport
  import opened Ledger
  import opened Blocks
  import opened BrachaRound
  import opened NodeSpec
  import opened KeyChain
  import opened NodeRuns

  // ----- what decides about a message -----

  /**
   * Acceptance: the sender is unknown, or the signature verifies under its last announced key; and, only
   * for an ID that has not been verified before, the transactions pass verification.
   */
  lemma AcceptedWhen(e: Env, s: NodeState, m: Message)
    ensures Receive(e, s, m).admitted == s.admitted + [m] || Receive(e, s, m).admitted == s.admitted
    ensures Receive(e, s, m).admitted == s.admitted + [m] <==>
      && (m.block.validatorId !in s.valSigKeys
          || Verdict(e.codec.h, DigestOf(e.codec, m.block), m.block.validatorSig, s.valSigKeys[m.block.validatorId])
               == 1)
      && (m.block.header.ID(e.codec.h) !in s.verified ==> BlockOk(m.block.txs, s.utxolist, s.walletIds))
  {
    hide Verdict, DigestOf, BlockOk, Recorded, FirstKept, Handle;
  }

  /** ECHOs and READYs are counted by their hash. */
  lemma {:induction false} TalliesCount(p: Proto, pkts: seq<Packet>, h: BlockHash)
    ensures Tally(HandleAll(p, pkts).echo, h) == Tally(p.echo, h) + multiset(pkts)[Packet(ECHO, h)]
    ensures Tally(HandleAll(p, pkts).ready, h) == Tally(p.ready, h) + multiset(pkts)[Packet(READY, h)]
  {
    if pkts != [] {
      var front, last := pkts[..|pkts| - 1], pkts[|pkts| - 1];
      TalliesCount(p, front, h);
      assert pkts == front + [last];
    }
  }

  /** Of several SENDs in a batch the last one is answered. */
  lemma {:induction false} LastSendCounts(p: Proto, pkts: seq<Packet>, k: nat)
    requires LastSend(pkts, k)
    ensures HandleAll(p, pkts).send == Some(pkts[k].hash)
  {
    hide Tally;
    var n := |pkts| - 1;
    if k < n {
      assert LastSend(pkts[..n], k) && pkts[n].kind != SEND;
      LastSendCounts(p, pkts[..n], k);
    }
  }

  ghost predicate LastSend(pkts: seq<Packet>, k: nat) {
    k < |pkts| && pkts[k].kind == SEND && forall j :: k < j < |pkts| ==> pkts[j].kind != SEND
  }

  // ----- the records of a block -----

  /** `from` are the positions of the accepted messages for block id, in order. */
  ghost predicate Positions(e: Env, admitted: seq<Message>, id: BlockHash, from: seq<nat>) {
    && Increasing(from) && Below(from, |admitted|)
    && forall j :: 0 <= j < |admitted| ==> (admitted[j].Id(e) == id <==> j in from)
  }

  /** A record holds the message's signature, the key it announced, its sender and its round. */
  ghost predicate RecordOf(r: BlockSignature, m: Message) {
    && r.signature == m.block.validatorSig && r.publicKey == m.block.nextKey
    && r.validatorId == m.block.validatorId && r.round == m.round % 0x1_0000
  }

  lemma {:induction false} RecordsAre(e: Env, admitted: seq<Message>, id: BlockHash) returns (from: seq<nat>)
    ensures Positions(e, admitted, id, from) && |Records(e, admitted, id)| == |from|
    ensures forall k :: 0 <= k < |from| ==> RecordOf(Records(e, admitted, id)[k], admitted[from[k]])
  {
    from := [];
    if admitted != [] {
      var n := |admitted| - 1;
      from := RecordsAre(e, admitted[..n], id);
      if admitted[n].Id(e) == id {
        var before := from;
        from := from + [n];
        assert n in from && forall j :: j in before ==> j in from;
      }
    }
  }

  // ----- the first block under an ID -----

  /** Message k is the first accepted one for block id. */
  ghost predicate FirstFor(e: Env, admitted: seq<Message>, id: BlockHash, k: nat) {
    k < |admitted| && admitted[k].Id(e) == id && forall j :: 0 <= j < k ==> admitted[j].Id(e) != id
  }

  /** What is stored under id came with message k, the first accepted one for id. */
  ghost predicate StoredFrom(e: Env, s: NodeState, id: BlockHash, k: nat) {
    FirstFor(e, s.admitted, id, k) && id in s.blkList && s.blkList[id] == s.admitted[k].block
  }

  /** Whatever came later, the stored block of every ID is that of the first message accepted for it. */
  ghost predicate FirstComeStays(e: Env, s: NodeState) {
    && (forall id :: id in s.blkList ==> exists k: nat :: StoredFrom(e, s, id, k))
    && (forall j :: 0 <= j < |s.admitted| ==> s.admitted[j].Id(e) in s.blkList)
  }

  lemma FirstStaysFirst(e: Env, admitted: seq<Message>, m: Message, id: BlockHash, k: nat)
    requires FirstFor(e, admitted, id, k)
    ensures FirstFor(e, admitted + [m], id, k) && (admitted + [m])[k] == admitted[k]
  {
  }

  lemma SameHistory(e: Env, s: NodeState, t: NodeState)
    requires FirstComeStays(e, s) && t.blkList == s.blkList && t.admitted == s.admitted
    ensures FirstComeStays(e, t)
  {
    hide FirstFor;
    forall id | id in t.blkList ensures exists k: nat :: StoredFrom(e, t, id, k) {
      var k: nat :| StoredFrom(e, s, id, k);
      assert StoredFrom(e, t, id, k);
    }
  }

  lemma ReceiveKeepsFirst(e: Env, s: NodeState, m: Message)
    requires FirstComeStays(e, s)
    ensures FirstComeStays(e, Receive(e, s, m))
  {
    hide Accepts, Recorded, Handle;
    var t := Receive(e, s, m);
    if Accepts(e, s, m) {
      forall id | id in t.blkList
        ensures exists k: nat :: StoredFrom(e, t, id, k)
      {
        if id in s.blkList {
          var k: nat :| StoredFrom(e, s, id, k);
          FirstStaysFirst(e, s.admitted, m, id, k);
          assert StoredFrom(e, t, id, k);
        } else {
          NewIsFirst(e, s, m);
          assert StoredFrom(e, t, id, |s.admitted|);
        }
      }
    } else {
      SameHistory(e, s, t);
    }
  }

  lemma NewIsFirst(e: Env, s: NodeState, m: Message)
    requires FirstComeStays(e, s) && m.Id(e) !in s.blkList
    ensures FirstFor(e, s.admitted + [m], m.Id(e), |s.admitted|)
    ensures (s.admitted + [m])[|s.admitted|] == m
  {
  }

  lemma {:induction false} BatchKeepsFirst(e: Env, s: NodeState, msgs: seq<Message>)
    requires FirstComeStays(e, s)
    ensures FirstComeStays(e, ReceiveAll(e, s, msgs))
  {
    hide Receive, FirstComeStays;
    if msgs == [] {
      SameHistory(e, s, ReceiveAll(e, s, msgs));
    } else {
      BatchKeepsFirst(e, s, msgs[..|msgs| - 1]);
      ReceiveKeepsFirst(e, ReceiveAll(e, s, msgs[..|msgs| - 1]), msgs[|msgs| - 1]);
    }
  }

  lemma StepKeepsFirst(e: Env, s: NodeState, a: NodeAction, t: NodeState)
    requires NodeStep(e, s, a, t) && FirstComeStays(e, s)
    ensures FirstComeStays(e, t)
  {
    hide ReceiveAll, FirstComeStays, Round, SignedBlock;
    match a {
      case Batch(msgs) =>
        BatchKeepsFirst(e, s, msgs);
      case Act(eo, ro) =>
        EmitAllKeepsTheRest(e, s, Round(e.params, s.proto, eo, ro).sent);
        SameHistory(e, s, t);
      case _ =>
        SameHistory(e, s, t);
    }
  }

  lemma NothingStored(e: Env, s: NodeState)
    requires s.blkList == map[] && s.admitted == []
    ensures FirstComeStays(e, s)
  {
  }

  lemma {:induction false} FirstComeStaysAlways(e: Env, run: seq<NodeAction>, trace: seq<NodeState>, i: nat)
    requires Lives(e, run, trace) && i < |trace|
    ensures FirstComeStays(e, trace[i])
  {
    hide NodeStep, FirstComeStays;
    if i == 0 {
      NothingStored(e, trace[0]);
    } else {
      FirstComeStaysAlways(e, run, trace, i - 1);
      StepKeepsFirst(e, trace[i - 1], run[i - 1], trace[i]);
    }
  }

  /**
   * In every reachable state, for every block in the store: it is the block of the first message accepted
   * for its ID, and its records are those of exactly the accepted messages for that ID, in order, each
   * with its signature, announced key, sender and round.
   */
  lemma StoreIsHistory(e: Env, run: seq<NodeAction>, trace: seq<NodeState>, i: nat, id: BlockHash)
    returns (from: seq<nat>)
    requires Lives(e, run, trace) && i < |trace| && id in trace[i].verified
    ensures var s := trace[i];
      && Positions(e, s.admitted, id, from) && from != []
      && id in s.blkList && s.blkList[id] == s.admitted[from[0]].block
      && id in s.blocks && s.blocks[id].(validatorSigs := []) == s.blkList[id]
      && |s.blocks[id].validatorSigs| == |from|
      && forall k :: 0 <= k < |from| ==> RecordOf(s.blocks[id].validatorSigs[k], s.admitted[from[k]])
  {
    hide Lives, BlockOk, Records, Mentions, RecordOf;
    var s := trace[i];
    StoreInvAlways(e, run, trace, i);
    FirstComeStaysAlways(e, run, trace, i);
    from := RecordsAre(e, s.admitted, id);
    assert StoredWell(e, s.blkList[id], id, s.admissions[id]);
    var k: nat :| StoredFrom(e, s, id, k);
    FirstPosition(e, s.admitted, id, from, k);
  }

  lemma FirstPosition(e: Env, admitted: seq<Message>, id: BlockHash, from: seq<nat>, k: nat)
    requires Positions(e, admitted, id, from) && FirstFor(e, admitted, id, k)
    ensures from != [] && from[0] == k
  {
    assert k in from;
    var i :| 0 <= i < |from| && from[i] == k;
    assert from[0] in from && from[0] < |admitted|;
  }

  // ----- what a round broadcasts -----

  /** A message of a node: from itself, with everything of the block but who signs and which key comes next. */
  ghost predicate Carries(e: Env, m: Message, b: BlockValue) {
    && m.senderId == e.id as nat && m.block.validatorId == e.id
    && m.block.header == b.header && m.block.txs == b.txs && m.block.id == b.id
    && m.block.validatorSigs == b.validatorSigs && m.block.empty == b.empty && m.block.isMutable == b.isMutable
  }

  lemma EmitCarries(e: Env, s: NodeState, kind: Kind, b: BlockValue, round: nat)
    requires s.drawn > 0
    ensures var t := Emit(e, s, kind, b, round);
      && |t.outbox| == |s.outbox| + 1 && t.outbox[..|s.outbox|] == s.outbox
      && Carries(e, t.outbox[|s.outbox|], b) && SignedWith(e, t.outbox[|s.outbox|].block, s.drawn - 1)
      && t.outbox[|s.outbox|].kind == kind && t.outbox[|s.outbox|].round == round
  {
    hide SignedWith, Signed, DigestOf, Generated;
    EmitIsSigned(e, s, kind, b, round);
    SignedBlockIs(e.codec, b, e.Pair(s.drawn - 1).priv, e.id, e.Pair(s.drawn).pub);
  }

  /** Packet k of a round becomes message k: the stored block of its hash, under the packet's kind and round. */
  ghost predicate SentAs(e: Env, s: NodeState, pkt: Packet, m: Message, key: nat)
    requires pkt.hash in s.blkList
  {
    && Carries(e, m, s.blkList[pkt.hash]) && SignedWith(e, m.block, key)
    && m.kind == pkt.kind && m.round == RoundNumber(e.params, s.proto, pkt)
  }

  lemma {:induction false} OutboxOf(e: Env, s: NodeState, pkts: seq<Packet>)
    requires s.drawn > 0 && Known(s, pkts)
    ensures var out := EmitAll(e, s, pkts).outbox;
      && |out| == |s.outbox| + |pkts| && out[..|s.outbox|] == s.outbox
      && forall k :: 0 <= k < |pkts| ==> SentAs(e, s, pkts[k], out[|s.outbox| + k], s.drawn - 1 + k)
  {
    hide Carries, SignedWith, Emit, RoundNumber;
    if pkts != [] {
      var n := |pkts| - 1;
      var front, last := pkts[..n], pkts[n];
      OutboxOf(e, s, front);
      EmitCarries(e, EmitAll(e, s, front), last.kind, s.blkList[last.hash], RoundNumber(e.params, s.proto, last));
      var before, out := EmitAll(e, s, front).outbox, EmitAll(e, s, pkts).outbox;
      assert out[..|before|] == before;
      assert out[..|s.outbox|] == before[..|s.outbox|];
      forall k | 0 <= k < n ensures SentAs(e, s, pkts[k], out[|s.outbox| + k], s.drawn - 1 + k) {
        assert SentAs(e, s, front[k], before[|s.outbox| + k], s.drawn - 1 + k);
        assert out[|s.outbox| + k] == before[|s.outbox| + k];
      }
    }
  }

  /**
   * Why a message goes out in a round that starts with counters p: an ECHO with round 1 for the batch's
   * SEND; a READY for a block not declared ready before, with round 2 if the block's ECHO counter had
   * reached the quorum, and with round 3 if it had not, but its READY counter had reached f + 1.
   */
  ghost predicate SentFor(n: nat, f: nat, p: Proto, kind: Kind, h: BlockHash, round: nat) {
    match kind
    case SEND => false
    case ECHO => round == 1 && p.send == Some(h)
    case READY =>
      && h !in p.readySent
      && if h in p.echo && p.echo[h] >= (n + f + 1) / 2 then round == 2
         else round == 3 && h in p.ready && p.ready[h] >= f + 1
  }

  lemma RoundsAreJustified(c: Params, p: Proto, eo: seq<BlockHash>, ro: seq<BlockHash>, k: nat)
    requires Enumerates(eo, p.echo.Keys) && Enumerates(ro, p.ready.Keys)
    requires k < |Round(c, p, eo, ro).sent|
    ensures var pkt := Round(c, p, eo, ro).sent[k];
      SentFor(c.n, c.f, p, pkt.kind, pkt.hash, RoundNumber(c, p, pkt))
  {
    hide Round;
    RoundMeaning(c, p, eo, ro);
    var r := Round(c, p, eo, ro);
    assert r.sent[k] in multiset(r.sent);
    assert multiset(r.sent)[r.sent[k]] > 0;
    assert r.sent[k] == Packet(r.sent[k].kind, r.sent[k].hash);
  }

  /**
   * The outbox of a round, message by message, whatever the order of the maps: the stored block of the
   * message's own ID, signed with the next key in turn, for the reason its kind and round number give.
   */
  lemma RoundOutbox(e: Env, s: NodeState, eo: seq<BlockHash>, ro: seq<BlockHash>, k: nat)
    requires StoreInv(e, s) && s.drawn > 0
    requires Enumerates(eo, s.proto.echo.Keys) && Enumerates(ro, s.proto.ready.Keys)
    requires Known(s, Round(e.params, s.proto, eo, ro).sent)
    requires |s.outbox| + k < |Halfway(e, s, Round(e.params, s.proto, eo, ro)).outbox|
    ensures var m := Halfway(e, s, Round(e.params, s.proto, eo, ro)).outbox[|s.outbox| + k];
      && m.Id(e) in s.blkList && Carries(e, m, s.blkList[m.Id(e)]) && SignedWith(e, m.block, s.drawn - 1 + k)
      && SentFor(e.params.n, e.params.f, s.proto, m.kind, m.Id(e), m.round)
  {
    hide Round, SignedWith, StoreInv, SentFor, RoundNumber;
    var pkts := Round(e.params, s.proto, eo, ro).sent;
    OutboxOf(e, s, pkts);
    RoundsAreJustified(e.params, s.proto, eo, ro, k);
    StoredUnderItsId(e, s, pkts[k].hash);
    assert SentAs(e, s, pkts[k], EmitAll(e, s, pkts).outbox[|s.outbox| + k], s.drawn - 1 + k);
  }
}
