/** Everything one node can live through, and what its store holds at every moment. */
module NodeRuns {
  import opened Lamport
  import opened Ledger
  import opened Blocks
  import opened BrachaRound
  import opened NodeSpec
  import opened KeyChain

  /** A batch may hold anything at all that decodes; blocks to be signed may be anything, even unfinished. */
  datatype NodeAction =
    | Batch(msgs: seq<Message>)
    | Act(echoOrder: seq<BlockHash>, readyOrder: seq<BlockHash>)
    | Sign(a: Signing)
    | NewLedger(utxolist: seq<UTXO>, walletIds: seq<u32>)
    | SetRunning(running: bool)
    | TakeBlocks

  const NEW_NODE := NodeState(INITIAL, map[], map[], {}, map[], [], [], 1, [], [], map[])

  /** What one action makes of a state. A round that would need a block it does not have has no successor. */
  ghost predicate NodeStep(e: Env, s: NodeState, a: NodeAction, t: NodeState) {
    s.drawn > 0 &&
    match a
    case Batch(msgs) => (forall k :: 0 <= k < |msgs| ==> msgs[k].FromWire()) && t == ReceiveAll(e, s, msgs)
    case Act(eo, ro) =>
      && Enumerates(eo, s.proto.echo.Keys) && Enumerates(ro, s.proto.ready.Keys)
      && Known(s, Round(e.params, s.proto, eo, ro).sent) && t == Halfway(e, s, Round(e.params, s.proto, eo, ro))
    case Sign(signing) => t == SignAndSend(e, s, signing)
    case NewLedger(list, ids) => t == s.(utxolist := list, walletIds := ids)
    case SetRunning(running) => t == s.(proto := s.proto.(running := running))
    case TakeBlocks => t == s.(proto := s.proto.(accepted := [], running := false))
  }

  /** `trace` is what a new node goes through during `run`. */
  ghost predicate Lives(e: Env, run: seq<NodeAction>, trace: seq<NodeState>) {
    && |trace| == |run| + 1 && trace[0] == NEW_NODE
    && forall i :: 0 <= i < |run| ==> NodeStep(e, trace[i], run[i], trace[i + 1])
  }

  // ----- rounds speak of stored blocks only -----

  ghost predicate AllIn(order: seq<BlockHash>, known: set<BlockHash>) {
    forall k :: 0 <= k < |order| ==> order[k] in known
  }

  lemma {:induction false} EchoPassKnown(c: Params, r: RoundOut, order: seq<BlockHash>, known: set<BlockHash>)
    requires KnownOut(r, known) && AllIn(order, known)
    ensures KnownOut(EchoPass(c, r, order), known)
  {
    hide KnownOut;
    if order != [] {
      var q := EchoPass(c, r, order[..|order| - 1]);
      EchoPassKnown(c, r, order[..|order| - 1], known);
      SendReadyKnown(q, order[|order| - 1], known);
    }
  }

  lemma {:induction false} ReadyPassKnown(c: Params, r: RoundOut, order: seq<BlockHash>, known: set<BlockHash>)
    requires KnownOut(r, known) && AllIn(order, known)
    ensures KnownOut(ReadyPass(c, r, order), known)
  {
    hide KnownOut;
    if order != [] {
      var h := order[|order| - 1];
      var q := ReadyPass(c, r, order[..|order| - 1]);
      ReadyPassKnown(c, r, order[..|order| - 1], known);
      SendReadyKnown(q, h, known);
      DeliverKnown(Amplify(c, q, h), h, known);
    }
  }

  lemma EnumeratedAreIn(order: seq<BlockHash>, keys: set<BlockHash>, known: set<BlockHash>)
    requires Enumerates(order, keys) && keys <= known
    ensures AllIn(order, known)
  {
    forall k | 0 <= k < |order| ensures order[k] in known {
      assert order[k] in order;
    }
  }

  lemma EchoSendKnown(p: Proto, known: set<BlockHash>)
    requires Mentions(p, known)
    ensures KnownOut(EchoSend(p.(running := true)), known)
  {
  }

  /** Whatever order the maps are iterated in, a round broadcasts and remembers stored blocks only. */
  lemma RoundSpeaksOfStored(e: Env, s: NodeState, eo: seq<BlockHash>, ro: seq<BlockHash>)
    requires StoreInv(e, s) && Enumerates(eo, s.proto.echo.Keys) && Enumerates(ro, s.proto.ready.Keys)
    ensures KnownOut(Round(e.params, s.proto, eo, ro), s.verified)
    ensures Known(s, Round(e.params, s.proto, eo, ro).sent)
  {
    hide AllStoredWell, AllRecorded, EchoPass, ReadyPass;
    EnumeratedAreIn(eo, s.proto.echo.Keys, s.verified);
    EnumeratedAreIn(ro, s.proto.ready.Keys, s.verified);
    EchoSendKnown(s.proto, s.verified);
    var r := EchoSend(s.proto.(running := true));
    EchoPassKnown(e.params, r, eo, s.verified);
    ReadyPassKnown(e.params, EchoPass(e.params, r, eo), ro, s.verified);
  }

  lemma SmallChangesKeepInv(e: Env, s: NodeState, p: Proto, utxolist: seq<UTXO>, walletIds: seq<u32>, drawn: nat)
    requires StoreInv(e, s) && Mentions(p, s.verified)
    ensures StoreInv(e, s.(proto := p, utxolist := utxolist, walletIds := walletIds, drawn := drawn))
  {
    hide StoredWell, Records, Mentions;
  }

  lemma StepKeepsInv(e: Env, s: NodeState, a: NodeAction, t: NodeState)
    requires StoreInv(e, s) && NodeStep(e, s, a, t)
    ensures StoreInv(e, t) && t.drawn > 0
  {
    hide StoreInv, ReceiveAll, Round, Emit, KnownOut, Mentions;
    match a {
      case Batch(msgs) =>
        ReceiveAllKeepsInv(e, s, msgs);
        ReceivingSendsNothing(e, s, msgs);
      case Act(eo, ro) =>
        RoundSpeaksOfStored(e, s, eo, ro);
        HalfwayKeepsInv(e, s, Round(e.params, s.proto, eo, ro));
      case Sign(x) =>
        SignKeepsInv(e, s, x);
      case NewLedger(list, ids) =>
        InvMentions(e, s);
        SmallChangesKeepInv(e, s, s.proto, list, ids, s.drawn);
      case SetRunning(running) =>
        InvMentions(e, s);
        SmallChangesKeepInv(e, s, s.proto.(running := running), s.utxolist, s.walletIds, s.drawn);
      case TakeBlocks =>
        InvMentions(e, s);
        SmallChangesKeepInv(e, s, s.proto.(accepted := [], running := false), s.utxolist, s.walletIds, s.drawn);
    }
  }

  lemma SignKeepsInv(e: Env, s: NodeState, x: Signing)
    requires StoreInv(e, s) && s.drawn > 0
    ensures StoreInv(e, SignAndSend(e, s, x)) && SignAndSend(e, s, x).drawn > 0
  {
    hide StoreInv, SignedBlock, Mentions;
    EmitKeepsInv(e, s, x.kind, x.block, x.round);
    InvMentions(e, s);
    SmallChangesKeepInv(e, s, s.proto, s.utxolist, s.walletIds, s.drawn + 1);
  }

  lemma InvMentions(e: Env, s: NodeState)
    requires StoreInv(e, s)
    ensures Mentions(s.proto, s.verified)
    ensures forall running :: Mentions(s.proto.(running := running), s.verified)
    ensures Mentions(s.proto.(accepted := [], running := false), s.verified)
  {
  }

  lemma NewNodeInv(e: Env)
    ensures StoreInv(e, NEW_NODE)
  {
  }

  /** The store's invariant holds at every moment of every life of a node. */
  lemma {:induction false} StoreInvAlways(e: Env, run: seq<NodeAction>, trace: seq<NodeState>, i: nat)
    requires Lives(e, run, trace) && i < |trace|
    ensures StoreInv(e, trace[i]) && trace[i].drawn > 0
  {
    hide StoreInv, NodeStep;
    if i == 0 {
      NewNodeInv(e);
    } else {
      StoreInvAlways(e, run, trace, i - 1);
      StepKeepsInv(e, trace[i - 1], run[i - 1], trace[i]);
    }
  }

  /**
   * In every reachable state: a hash that is counted, remembered or accepted is stored with a finalized
   * block of that header ID that passed verification when it came, and with exactly one record for each
   * message accepted for it; and no round, in whatever order, asks for a block that is not stored.
   */
  lemma StoreAnswersForEverything(e: Env, run: seq<NodeAction>, trace: seq<NodeState>, i: nat, h: BlockHash)
    requires Lives(e, run, trace) && i < |trace|
    ensures var s := trace[i];
      h in s.proto.echo || h in s.proto.ready || h in s.proto.readySent || h in s.proto.accepted ==>
        && h in s.verified && h in s.blkList && h in s.blocks && h in s.admissions
        && s.blkList[h].header.ID(e.codec.h) == h && !s.blkList[h].isMutable
        && BlockOk(s.blkList[h].txs, s.admissions[h].utxolist, s.admissions[h].walletIds)
        && s.blocks[h].validatorSigs == Records(e, s.admitted, h)
    ensures forall eo, ro ::
      Enumerates(eo, trace[i].proto.echo.Keys) && Enumerates(ro, trace[i].proto.ready.Keys) ==>
        Known(trace[i], Round(e.params, trace[i].proto, eo, ro).sent)
  {
    hide Lives, BlockOk, Records, Round;
    StoreInvAlways(e, run, trace, i);
    var s := trace[i];
    forall eo, ro | Enumerates(eo, s.proto.echo.Keys) && Enumerates(ro, s.proto.ready.Keys)
      ensures Known(s, Round(e.params, s.proto, eo, ro).sent)
    {
      RoundSpeaksOfStored(e, s, eo, ro);
    }
  }

  // ----- every life is a chain of signings -----

  lemma SentOneMore(e: Env, s: NodeState, signs: seq<Signing>, a: Signing)
    requires s.drawn > 0
    ensures Sent(e, s, signs + [a]) == SignAndSend(e, Sent(e, s, signs), a)
  {
    assert (signs + [a])[..|signs|] == signs;
  }

  /** What a round broadcasts is a list of signings. */
  lemma {:induction false} EmittingIsSigning(e: Env, s: NodeState, pkts: seq<Packet>, signs: seq<Signing>)
    returns (more: seq<Signing>)
    requires StoreInv(e, s) && s.drawn > 0 && Known(s, pkts)
    requires s.drawn == 1 + |signs| && s.outbox == Sent(e, NEW_NODE, signs).outbox
    ensures var t := EmitAll(e, s, pkts);
      t.drawn == 1 + |more| && t.outbox == Sent(e, NEW_NODE, more).outbox
  {
    hide StoreInv, SignedBlock;
    more := signs;
    if pkts != [] {
      var front, last := pkts[..|pkts| - 1], pkts[|pkts| - 1];
      more := EmittingIsSigning(e, s, front, signs);
      StoredIsFinal(e, s, last.hash);
      var a := Signing(last.kind, s.blkList[last.hash], RoundNumber(e.params, s.proto, last));
      SentOneMore(e, NEW_NODE, more, a);
      more := more + [a];
    }
  }

  lemma StoredIsFinal(e: Env, s: NodeState, id: BlockHash)
    requires StoreInv(e, s) && id in s.blkList
    ensures !s.blkList[id].isMutable
  {
    hide BlockOk, Mentions, AllRecorded;
    assert id in s.blkList.Keys;
  }

  /**
   * The outbox of every life is what some list of signings by a new node sends. So what is known of such
   * lists holds of real nodes: their messages form a chain of keys.
   */
  lemma {:induction false} LivesAreSignings(e: Env, run: seq<NodeAction>, trace: seq<NodeState>, i: nat)
    returns (signs: seq<Signing>)
    requires Lives(e, run, trace) && i < |trace|
    ensures trace[i].drawn == 1 + |signs| && trace[i].outbox == Sent(e, NEW_NODE, signs).outbox
  {
    hide StoreInv, ReceiveAll, Round, Emit;
    signs := [];
    if i > 0 {
      var s := trace[i - 1];
      signs := LivesAreSignings(e, run, trace, i - 1);
      StoreInvAlways(e, run, trace, i - 1);
      assert NodeStep(e, s, run[i - 1], trace[i]);
      match run[i - 1] {
        case Batch(msgs) =>
          ReceivingSendsNothing(e, s, msgs);
        case Act(eo, ro) =>
          signs := EmittingIsSigning(e, s, Round(e.params, s.proto, eo, ro).sent, signs);
        case Sign(a) =>
          SentOneMore(e, NEW_NODE, signs, a);
          SignsAlike(e, s, Sent(e, NEW_NODE, signs), a);
          signs := signs + [a];
        case _ =>
      }
    }
  }

  lemma SignsAlike(e: Env, s: NodeState, s': NodeState, a: Signing)
    requires s.drawn > 0 && s'.drawn == s.drawn && s'.outbox == s.outbox
    ensures SignAndSend(e, s', a).outbox == SignAndSend(e, s, a).outbox
    ensures SignAndSend(e, s, a).drawn == s.drawn + 1
  {
    hide SignedBlock, Generated;
    if !a.block.isMutable {
      assert Emit(e, s', a.kind, a.block, a.round).outbox == Emit(e, s, a.kind, a.block, a.round).outbox;
    }
  }

  /** Every message of every life is signed with the key that the sender's numbering says, in increasing order. */
  lemma LivesAreChains(e: Env, run: seq<NodeAction>, trace: seq<NodeState>, i: nat) returns (no: seq<nat>)
    requires Lives(e, run, trace) && i < |trace|
    ensures |no| == |trace[i].outbox| && Increasing(no) && Below(no, trace[i].drawn)
    ensures forall k :: 0 <= k < |no| ==> SignedWith(e, trace[i].outbox[k].block, no[k])
  {
    hide SignedWith, Lives, Sent, KeyNumbers;
    StoreInvAlways(e, run, trace, i);
    var signs := LivesAreSignings(e, run, trace, i);
    SentIsAChain(e, NEW_NODE, signs);
    no := KeyNumbers(signs);
  }
}
