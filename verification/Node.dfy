/** A Bracha node: receiving batches of messages, and acting on the thresholds. */
module BrachaNode {
  import opened Common
  import opened Lamport
  import opened Ledger
  import opened Blocks
  import opened BrachaRound
  import opened NodeSpec

  class Node {
    const codec: Codec
    /** The random bits of each key generation. */
    const coins: nat -> Coins
    const id: u16
    const n: u16
    const f: u16
    const isLead: bool

    var blkList: map<BlockHash, BlockValue>
    /** The block of this round's SEND; the empty text if there is none. */
    var sendThisRound: BlockHash
    var readyThisRound: map<BlockHash, nat>
    var echoThisRound: map<BlockHash, nat>
    var readySent: set<BlockHash>
    var utxolist: seq<UTXO>
    var walletIds: seq<u32>
    var votedHash: BlockHash
    var shouldBroadcast: bool
    var myCurrentPrivateKey: SigKey
    var myCurrentPublicKey: SigKey
    const myNextKeyPair: Signature
    /** The next public key of each validator. */
    var valSigKeys: map<u16, SigKey>
    var verifiedBlocks: set<BlockHash>
    /** Every block received, with all its signatures. */
    var blocks: map<BlockHash, BlockValue>
    var acceptedBlocks: seq<BlockHash>
    /** What was handed to the client for broadcasting. */
    var outbox: seq<Message>

    /** How many key pairs have been generated: where the random bits continue. */
    var drawn: nat

    ghost var admitted: seq<Message>
    ghost var admissions: map<BlockHash, Admission>

    function TheEnv(): Env {
      Env(codec, coins, id, Params(n, f))
    }

    function Counters(): Proto
      reads this`sendThisRound, this`echoThisRound, this`readyThisRound, this`readySent
      reads this`acceptedBlocks, this`votedHash, this`shouldBroadcast
    {
      Proto(if sendThisRound == [] then None else Some(sendThisRound), echoThisRound, readyThisRound, readySent,
            acceptedBlocks, votedHash, shouldBroadcast)
    }

    ghost function State(): NodeState
      reads this
    {
      NodeState(Counters(), blkList, blocks, verifiedBlocks, valSigKeys, utxolist, walletIds, drawn, outbox,
                admitted, admissions)
    }

    /** The next key pair is the last one drawn. */
    ghost predicate KeysReady()
      reads this`drawn, myNextKeyPair
    {
      && DigestsHave64Chars(codec.h) && drawn > 0
      && KeyPair(myNextKeyPair.privateKey, myNextKeyPair.publicKey) == TheEnv().Pair(drawn - 1)
    }

    ghost predicate Valid()
      reads this, myNextKeyPair
    {
      KeysReady() && StoreInv(TheEnv(), State())
    }

    constructor (codec: Codec, coins: nat -> Coins, id: u16, n: u16, f: u16, isLead: bool)
      requires DigestsHave64Chars(codec.h)
      ensures Valid() && fresh(myNextKeyPair)
      ensures TheEnv() == Env(codec, coins, id, Params(n, f)) && this.isLead == isLead
      ensures Counters() == INITIAL.(voted := votedHash)
      ensures State() == NodeState(Counters(), map[], map[], {}, map[], [], [], 1, [], [], map[])
    {
      this.codec, this.coins, this.id, this.n, this.f, this.isLead := codec, coins, id, n, f, isLead;
      blkList, sendThisRound, readyThisRound, echoThisRound, readySent := map[], [], map[], map[], {};
      utxolist, walletIds, shouldBroadcast := [], [], true;
      valSigKeys, verifiedBlocks, blocks, acceptedBlocks, outbox := map[], {}, map[], [], [];
      drawn, admitted, admissions := 1, [], map[];
      var pair := new Signature();
      pair.KeyGen(codec.h, coins(0));
      myNextKeyPair := pair;
    }

    /** A new ledger to verify blocks against. */
    method SetUTXOlists(utxolist: seq<UTXO>, walletIds: seq<u32>)
      requires Valid()
      modifies this`utxolist, this`walletIds
      ensures Valid() && State() == old(State()).(utxolist := utxolist, walletIds := walletIds)
    {
      hide StoreInv, Generated;
      NewLedgerKeepsInv(TheEnv(), State(), utxolist, walletIds);
      this.utxolist, this.walletIds := utxolist, walletIds;
    }

    method ClearUTXOlists()
      requires Valid()
      modifies this`utxolist
      ensures Valid() && State() == old(State()).(utxolist := [])
    {
      hide StoreInv, Generated;
      NewLedgerKeepsInv(TheEnv(), State(), [], walletIds);
      utxolist := [];
    }

    lemma KeysReadyMeans()
      requires KeysReady()
      ensures DigestsHave64Chars(codec.h) && drawn > 0
    {
    }

    // ----- receiving -----

    /** Check the signature against the key the sender announced last, and learn the key announced now. */
    method CheckBlockSig(b: BlockValue) returns (ok: bool)
      requires !b.isMutable && b.nextKey.Complete()
      modifies this`valSigKeys
      ensures ok == SignatureOk(TheEnv(), old(valSigKeys), b)
      ensures valSigKeys == Learn(old(valSigKeys), b)
    {
      hide Verdict, DigestOf;
      var block := new Block.Copy(b);
      var valid := 1;
      var o, digest := block.GetDigest(codec);
      if b.validatorId in valSigKeys {
        valid := Verify(codec.h, digest, b.validatorSig, valSigKeys[b.validatorId]);
      }
      valSigKeys := valSigKeys[b.validatorId := b.nextKey];
      ok := valid == 1;
    }

    /** Keep an accepted message's block and signature. */
    method SaveBlock(m: Message, blkHash: BlockHash)
      requires m.block.validatorId in valSigKeys && valSigKeys[m.block.validatorId] == m.block.nextKey
      modifies this`blocks, this`blkList
      ensures blocks == Recorded(old(blocks), blkHash, m)
      ensures blkList == FirstKept(old(blkList), blkHash, m.block)
    {
      var nodeId := m.block.validatorId;
      var sig := BlockSignature(m.block.validatorSig, valSigKeys[nodeId], nodeId, m.round % 0x1_0000);
      if blkHash !in blocks {
        blocks := blocks[blkHash := m.block];
      }
      var stored := new Block.Copy(blocks[blkHash]);
      stored.AddValidatorSignature(sig);
      blocks := blocks[blkHash := stored.Value()];
      if blkHash !in blkList {
        blkList := blkList[blkHash := m.block];
      }
    }

    method Count(kind: Kind, blkHash: BlockHash)
      requires blkHash != []
      modifies this`sendThisRound, this`echoThisRound, this`readyThisRound
      ensures Counters() == Handle(old(Counters()), Packet(kind, blkHash))
    {
      match kind {
        case SEND =>
          sendThisRound := blkHash;
        case ECHO =>
          if blkHash in echoThisRound {
            echoThisRound := echoThisRound[blkHash := echoThisRound[blkHash] + 1];
          } else {
            echoThisRound := echoThisRound[blkHash := 1];
          }
        case READY =>
          if blkHash in readyThisRound {
            readyThisRound := readyThisRound[blkHash := readyThisRound[blkHash] + 1];
          } else {
            readyThisRound := readyThisRound[blkHash := 1];
          }
      }
    }

    /** An accepted message is marked as verified, stored and counted. */
    method StoreMessage(m: Message, blkHash: BlockHash)
      requires blkHash == m.Id(TheEnv()) && blkHash != []
      requires m.block.validatorId in valSigKeys && valSigKeys[m.block.validatorId] == m.block.nextKey
      modifies this`verifiedBlocks, this`admissions, this`admitted
      modifies this`blocks, this`blkList, this`sendThisRound, this`echoThisRound, this`readyThisRound
      ensures State() == Store(TheEnv(), old(State()), m)
    {
      hide Handle, Recorded, FirstKept, Counters;
      ghost var s := State();
      if blkHash !in verifiedBlocks {
        admissions := admissions[blkHash := Admission(utxolist, walletIds)];
        verifiedBlocks := verifiedBlocks + {blkHash};
      }
      SaveBlock(m, blkHash);
      Count(m.kind, blkHash);
      admitted := admitted + [m];
      assert verifiedBlocks == s.verified + {blkHash};
    }

    /** One message of a batch. */
    method ReceiveMessage(m: Message)
      requires Valid() && m.FromWire()
      modifies this
      ensures Valid() && State() == Receive(TheEnv(), old(State()), m)
      ensures drawn == old(drawn)
    {
      hide StoreInv, SignatureOk, BlockOk, Store, KeysReady, Counters;
      KeysReadyMeans();
      ReceiveKeepsInv(TheEnv(), State(), m);
      StoreDrawsNoKeys(TheEnv(), State().(valSigKeys := Learn(valSigKeys, m.block)), m);
      var blkHash := m.block.header.ID(codec.h);
      var signed := CheckBlockSig(m.block);
      if !signed {
        return;
      }
      if blkHash !in verifiedBlocks {
        var block := new Block.Copy(m.block);
        var ok := block.Verify(utxolist, walletIds);
        if !ok {
          return;
        }
      }
      StoreMessage(m, blkHash);
    }

    /** Count the messages of one batch. */
    method UpdateRecvMessages(msgs: seq<Message>)
      requires Valid() && forall k :: 0 <= k < |msgs| ==> msgs[k].FromWire()
      modifies this
      ensures Valid() && State() == ReceiveAll(TheEnv(), old(State()), msgs)
    {
      hide StoreInv, Receive;
      ghost var s := State();
      sendThisRound := [];
      ForgetSend(TheEnv(), s);
      for i := 0 to |msgs|
        invariant Valid() && State() == ReceiveAll(TheEnv(), s, msgs[..i])
      {
        ReceiveMessage(msgs[i]);
        assert msgs[..i + 1][..i] == msgs[..i];
      }
      assert msgs[..|msgs|] == msgs;
    }

    // ----- sending -----

    /** Sign with the current key and announce a new one. The keys move on even if the block cannot be signed. */
    method SignBlock(block: Block) returns (o: Outcome)
      requires KeysReady()
      modifies this`myCurrentPrivateKey, this`myCurrentPublicKey, this`drawn, myNextKeyPair, block
      ensures KeysReady() && drawn == old(drawn) + 1
      ensures o.Ok? <==> !old(block.isMutable)
      ensures o.Ok? ==>
        block.Value() == SignedBlock(codec, old(block.Value()), TheEnv().Pair(old(drawn) - 1).priv, id,
                                     TheEnv().Pair(old(drawn)).pub)
      ensures myCurrentPrivateKey == old(myNextKeyPair.privateKey)
      ensures DrawnFrom(myCurrentPrivateKey, coins(old(drawn) - 1))
      ensures DrawnFrom(myNextKeyPair.privateKey, coins(old(drawn)))
      ensures o.Ok? ==>
        && block.validatorNextPublicKey == myNextKeyPair.publicKey
        && block.validatorSig == Signed(DigestOf(codec, block.Value()), myCurrentPrivateKey)
    {
      hide Generated, SignedBlock, Signed, Verdict, DigestOf, DrawnFrom;
      GeneratedIsDrawn(codec.h, coins(drawn - 1));
      GeneratedIsDrawn(codec.h, coins(drawn));
      ghost var current := TheEnv().Pair(drawn - 1);
      ghost var was := block.Value();
      GeneratedMatches(codec.h, coins(drawn - 1));
      GeneratedMatches(codec.h, coins(drawn));
      myCurrentPrivateKey := myNextKeyPair.privateKey;
      myCurrentPublicKey := myNextKeyPair.publicKey;
      myNextKeyPair.KeyGen(codec.h, coins(drawn));
      drawn := drawn + 1;
      var myNextPubKey := myNextKeyPair.publicKey;
      o := block.Sign(codec, myCurrentPrivateKey, id, myNextPubKey);
      if o.Ok? {
        var o', digest := block.GetDigest(codec);
        var verdict := Verify(codec.h, digest, block.validatorSig, myCurrentPublicKey);
        SignedBlockHasDigest(codec, was, current.priv, id, myNextPubKey);
        SignedBlockIs(codec, was, current.priv, id, myNextPubKey);
        SignedBlockVerifies(codec, was, current, id, myNextPubKey);
        assert verdict == 1;
      }
    }

    /** Sign a copy of the block and hand it to the client. */
    method BroadcastMessage(kind: Kind, b: BlockValue, round: nat) returns (o: Outcome)
      requires Valid()
      modifies this, myNextKeyPair
      ensures Valid() && (o.Ok? <==> !b.isMutable)
      ensures State() ==
        if o.Ok? then Emit(TheEnv(), old(State()), kind, b, round) else old(State()).(drawn := old(drawn) + 1)
    {
      hide StoreInv, SignedBlock, Counters;
      ghost var s := State();
      EmitKeepsInv(TheEnv(), s, kind, b, round);
      LostKeyKeepsInv(TheEnv(), s);
      var block := new Block.Copy(b);
      o := SignBlock(block);
      if o.Ok? {
        outbox := outbox + [Message(kind, block.Value(), id as nat, round)];
      }
    }

    /** The leader's SEND. */
    method Propose(bx: BlockValue) returns (o: Outcome)
      requires Valid() && isLead
      modifies this, myNextKeyPair
      ensures Valid() && (o.Ok? <==> !bx.isMutable)
      ensures State() ==
        if o.Ok? then Emit(TheEnv(), old(State()), SEND, bx, 0) else old(State()).(drawn := old(drawn) + 1)
    {
      o := BroadcastMessage(SEND, bx, 0);
    }

    // ----- one round -----

    /** This node is in the middle of a round that began in state s and has come as far as q. */
    ghost predicate At(s: NodeState, q: RoundOut)
      reads this, myNextKeyPair
    {
      && KeysReady() && StoreInv(TheEnv(), s) && s.drawn > 0
      && KnownOut(q, s.verified) && Known(s, q.sent) && State() == Halfway(TheEnv(), s, q)
    }

    /** In the middle of a round the node still answers for its store. */
    lemma AtIsValid(s: NodeState, q: RoundOut)
      requires At(s, q)
      ensures Valid() && Counters() == q.state && blkList == s.blkList && blkList.Keys == s.verified
      ensures forall h :: h in s.verified ==> !blkList[h].isMutable
    {
      hide Mentions, Records, BlockOk, KeysReady, Counters, KnownOut;
      HalfwayKeepsInv(TheEnv(), s, q);
      EmitAllKeepsTheRest(TheEnv(), s, q.sent);
    }

    /** Broadcast a READY for h and remember it. */
    method BroadcastReady(h: BlockHash, round: nat, ghost s: NodeState, ghost q: RoundOut)
      requires At(s, q) && h in s.verified
      requires round == RoundNumber(TheEnv().params, s.proto, Packet(READY, h))
      modifies this, myNextKeyPair
      ensures At(s, SendReady(q, h))
    {
      hide StoreInv, KnownOut, Mentions, KeysReady, RoundNumber, Halfway, SignedBlock;
      AtIsValid(s, q);
      SendReadyKnown(q, h, s.verified);
      HalfwayOneMore(TheEnv(), s, q, Packet(READY, h), SendReady(q, h).state);
      var o := BroadcastMessage(READY, blkList[h], round);
      readySent := readySent + {h};
    }

    /** Answer the SEND of this batch. */
    method AnswerSend(ghost s: NodeState, ghost p: Proto)
      requires p == s.proto.(running := true) && At(s, RoundOut(p, [], None))
      modifies this, myNextKeyPair
      ensures At(s, EchoSend(p))
    {
      hide StoreInv, KeysReady, SignedBlock;
      ghost var q := RoundOut(p, [], None);
      AtIsValid(s, q);
      if sendThisRound != [] {
        ghost var pkt := Packet(ECHO, sendThisRound);
        HalfwayOneMore(TheEnv(), s, q, pkt, p.(send := None));
        assert [] + [pkt] == [pkt];
        var o := BroadcastMessage(ECHO, blkList[sendThisRound], 1);
        sendThisRound := [];
      }
    }

    /** The loop over the ECHO counters, in whatever order the map is iterated. */
    method VisitEchoes(ghost s: NodeState, ghost r: RoundOut) returns (ghost order: seq<BlockHash>)
      requires At(s, r) && OnlySends(s.proto.(running := true), r) && r.delivered == None
      modifies this, myNextKeyPair
      ensures Enumerates(order, s.proto.echo.Keys)
      ensures At(s, EchoPass(TheEnv().params, r, order))
    {
      hide StoreInv, KeysReady, At, KnownOut, OnlySends;
      ghost var p, c := s.proto.(running := true), TheEnv().params;
      order := [];
      AtIsValid(s, r);
      EchoPassEffect(c, p, r, order);
      OnlySendsKeepsCounters(p, r);
      var remaining := echoThisRound.Keys;
      while remaining != {}
        invariant remaining <= p.echo.Keys && Enumerates(order, p.echo.Keys - remaining)
        invariant At(s, EchoPass(c, r, order))
      {
        var h :| h in remaining;
        ghost var q := EchoPass(c, r, order);
        EchoPassEffect(c, p, r, order);
        OnlySendsKeepsCounters(p, q);
        AtIsValid(s, q);
        AtKnows(s, q, h);
        EnumeratesOneMore(order, p.echo.Keys, remaining, h);
        OneMoreEcho(c, r, order, h);
        if echoThisRound[h] >= (n + f + 1) / 2 && h !in readySent {
          BroadcastReady(h, 2, s, q);
        }
        order := order + [h];
        remaining := remaining - {h};
      }
      assert p.echo.Keys - remaining == p.echo.Keys;
    }

    lemma AtKnows(s: NodeState, q: RoundOut, h: BlockHash)
      requires At(s, q) && (h in q.state.echo || h in q.state.ready)
      ensures h in s.verified
    {
      hide StoreInv, KeysReady;
    }

    /** Deliver h: leave the protocol loop, and forget the counters of h. */
    method AcceptBlock(h: BlockHash)
      modifies this`shouldBroadcast, this`votedHash, this`echoThisRound, this`readyThisRound, this`acceptedBlocks
      ensures Counters() == Deliver(RoundOut(old(Counters()), [], None), h).state
    {
      shouldBroadcast := false;
      votedHash := h;
      echoThisRound := echoThisRound - {h};
      readyThisRound := readyThisRound - {h};
      acceptedBlocks := acceptedBlocks + [h];
    }

    /** A delivery in the middle of a round. */
    method DeliverBlock(h: BlockHash, ghost s: NodeState, ghost q: RoundOut)
      requires At(s, q) && h in s.verified
      modifies this`shouldBroadcast, this`votedHash, this`echoThisRound, this`readyThisRound, this`acceptedBlocks
      ensures At(s, Deliver(q, h))
    {
      hide StoreInv, KnownOut, Known, KeysReady, Halfway, Counters;
      AtIsValid(s, q);
      DeliverKnown(q, h, s.verified);
      HalfwayDelivers(TheEnv(), s, q, h);
      AcceptBlock(h);
    }

    /** The loop over the READY counters; it ends at the first delivery. */
    method VisitReadies(ghost s: NodeState, ghost r: RoundOut) returns (ghost order: seq<BlockHash>)
      requires At(s, r) && OnlySends(s.proto.(running := true), r) && r.delivered == None
      requires forall h :: h in s.proto.echo && s.proto.echo[h] >= TheEnv().params.EchoQuorum() ==>
        h in r.state.readySent
      modifies this, myNextKeyPair
      ensures Enumerates(order, s.proto.ready.Keys)
      ensures At(s, ReadyPass(TheEnv().params, r, order))
    {
      hide StoreInv, KeysReady, At, KnownOut, OnlySends;
      ghost var p, c := s.proto.(running := true), TheEnv().params;
      order := [];
      AtIsValid(s, r);
      OnlySendsKeepsCounters(p, r);
      var remaining := readyThisRound.Keys;
      while remaining != {}
        invariant remaining <= p.ready.Keys && Enumerates(order, p.ready.Keys - remaining)
        invariant At(s, ReadyPass(c, r, order))
        invariant ReadyPass(c, r, order).delivered == None
      {
        var h :| h in remaining;
        ghost var q := ReadyPass(c, r, order);
        QuietReadies(c, p, r, order);
        OnlySendsKeepsCounters(p, q);
        AtIsValid(s, q);
        AtKnows(s, q, h);
        EnumeratesOneMore(order, p.ready.Keys, remaining, h);
        OneMoreReady(c, r, order, h);
        ghost var a := Amplify(c, q, h);
        if readyThisRound[h] >= f + 1 && h !in readySent {
          BroadcastReady(h, 3, s, q);
        }
        AtIsValid(s, a);
        order := order + [h];
        remaining := remaining - {h};
        if readyThisRound[h] > 2 * f + 1 {
          DeliverBlock(h, s, a);
          break;
        }
      }
      ghost var rest := Completed(order, p.ready.Keys, remaining);
      if ReadyPass(c, r, order).delivered.Some? {
        ReadyPassStops(c, r, order, rest);
      } else {
        assert order + rest == order;
      }
      order := order + rest;
    }

    /** One round: answer the SEND, act on the ECHO counters, act on the READY counters. */
    method BroadcastRound() returns (ghost echoOrder: seq<BlockHash>, ghost readyOrder: seq<BlockHash>)
      requires Valid()
      modifies this, myNextKeyPair
      ensures Valid()
      ensures Enumerates(echoOrder, old(echoThisRound).Keys) && Enumerates(readyOrder, old(readyThisRound).Keys)
      ensures var q := Round(TheEnv().params, old(Counters()), echoOrder, readyOrder);
        Known(old(State()), q.sent) && State() == Halfway(TheEnv(), old(State()), q)
    {
      hide StoreInv, At, OnlySends;
      ghost var s, c := State(), TheEnv().params;
      ghost var p := s.proto.(running := true);
      shouldBroadcast := true;
      RoundBegins(s);
      AnswerSend(s, p);
      EchoSendEffect(p);
      ghost var r := EchoSend(p);
      echoOrder := VisitEchoes(s, r);
      EchoPassEffect(c, p, r, echoOrder);
      ghost var r1 := EchoPass(c, r, echoOrder);
      readyOrder := VisitReadies(s, r1);
      AtIsValid(s, ReadyPass(c, r1, readyOrder));
      AtMeans(s, ReadyPass(c, r1, readyOrder));
    }

    /** One pass of the protocol loop: drain the queue, then one round. */
    method RunTask(msgs: seq<Message>) returns (ghost echoOrder: seq<BlockHash>, ghost readyOrder: seq<BlockHash>)
      requires Valid() && forall k :: 0 <= k < |msgs| ==> msgs[k].FromWire()
      modifies this, myNextKeyPair
      ensures Valid() && Worked(TheEnv(), old(State()), msgs, echoOrder, readyOrder, State())
    {
      hide StoreInv, ReceiveAll, Halfway, Round;
      UpdateRecvMessages(msgs);
      echoOrder, readyOrder := BroadcastRound();
    }

    /**
     * The protocol loop. `batches` are what the queue holds each time it is drained; with none left the
     * node waits. However long it runs, it ends with at most one more delivered block.
     */
    method RunProtocol(broadcast: bool, batches: seq<seq<Message>>) 
      returns (used: nat, ghost trace: seq<NodeState>, ghost orders: seq<(seq<BlockHash>, seq<BlockHash>)>)
      requires Valid()
      requires forall i, k :: 0 <= i < |batches| && 0 <= k < |batches[i]| ==> batches[i][k].FromWire()
      modifies this, myNextKeyPair
      ensures Valid() && used <= |batches| && (shouldBroadcast ==> used == |batches|)
      ensures |trace| == |orders| + 1 == used + 1 && trace[used] == State()
      ensures trace[0] == old(State()).(proto := old(Counters()).(running := broadcast))
      ensures forall i :: 0 <= i < used ==>
        Worked(TheEnv(), trace[i], batches[i], orders[i].0, orders[i].1, trace[i + 1])
      ensures acceptedBlocks == old(acceptedBlocks) + if broadcast && !shouldBroadcast then [votedHash] else []
    {
      hide StoreInv, Worked, KeysReady;
      SetRunning(TheEnv(), State(), broadcast);
      shouldBroadcast := broadcast;
      used, trace, orders := 0, [State()], [];
      while shouldBroadcast && used < |batches|
        invariant Valid() && used <= |batches| && |trace| == |orders| + 1 == used + 1 && trace[used] == State()
        invariant trace[0] == old(State()).(proto := old(Counters()).(running := broadcast))
        invariant forall i :: 0 <= i < used ==>
          Worked(TheEnv(), trace[i], batches[i], orders[i].0, orders[i].1, trace[i + 1])
        invariant !broadcast ==> !shouldBroadcast
        invariant acceptedBlocks == old(acceptedBlocks) + if broadcast && !shouldBroadcast then [votedHash] else []
        decreases |batches| - used
      {
        ghost var s := State();
        ghost var eo, ro := RunTask(batches[used]);
        WorkDelivers(TheEnv(), s, batches[used], eo, ro, State());
        used := used + 1;
        trace, orders := trace + [State()], orders + [(eo, ro)];
      }
    }

    // ----- delivered blocks -----

    /** The accepted blocks, with the signatures received for them. */
    method GetConsensusBlocks(erase: bool) returns (accepted: seq<BlockValue>)
      requires Valid()
      modifies this`acceptedBlocks, this`shouldBroadcast
      ensures Valid()
      ensures |accepted| == |old(acceptedBlocks)|
      ensures forall k :: 0 <= k < |accepted| ==>
        var id := old(acceptedBlocks)[k];
        && id in blkList && !accepted[k].isMutable && accepted[k].header.ID(codec.h) == id
        && accepted[k] == blkList[id].(validatorSigs := Records(TheEnv(), admitted, id))
      ensures State() ==
        if erase then old(State()).(proto := old(Counters()).(accepted := [], running := false)) else old(State())
    {
      hide Mentions, Records, KeysReady, BlockOk, StoreInv;
      ghost var s := State();
      accepted := [];
      for i := 0 to |acceptedBlocks|
        invariant State() == s && |accepted| == i
        invariant forall k :: 0 <= k < i ==>
          var id := s.proto.accepted[k];
          && id in s.blocks && id in s.blkList && accepted[k] == s.blocks[id] && StoredUnder(TheEnv(), s, id)
      {
        AcceptedIsStored(TheEnv(), s, i);
        accepted := accepted + [blocks[acceptedBlocks[i]]];
      }
      if erase {
        TakenKeepsInv(TheEnv(), State());
        acceptedBlocks := [];
        shouldBroadcast := false;
      }
    }

    /** The block received under this hash, with its signatures; an empty block if there is none. */
    method GetReceivedBlock(blockHash: BlockHash) returns (b: BlockValue)
      ensures blockHash in blocks ==> b == blocks[blockHash]
      ensures blockHash !in blocks ==> b.empty && b.isMutable && b.txs == []
    {
      if blockHash in blocks {
        return blocks[blockHash];
      }
      var block := new Block.Empty();
      b := block.Value();
    }

    lemma RoundBegins(s: NodeState)
      requires KeysReady() && StoreInv(TheEnv(), s) && State() == s.(proto := s.proto.(running := true))
      ensures At(s, RoundOut(s.proto.(running := true), [], None))
    {
    }

    lemma AtMeans(s: NodeState, q: RoundOut)
      requires At(s, q)
      ensures Known(s, q.sent) && State() == Halfway(TheEnv(), s, q)
    {
    }
  }

  lemma HalfwayDelivers(e: Env, s: NodeState, q: RoundOut, h: BlockHash)
    requires s.drawn > 0 && Known(s, q.sent)
    ensures Known(s, Deliver(q, h).sent)
    ensures Halfway(e, s, Deliver(q, h)) == Halfway(e, s, q).(proto := Deliver(q, h).state)
  {
  }

  lemma OnlySendsKeepsCounters(p: Proto, q: RoundOut)
    requires OnlySends(p, q)
    ensures q.state.echo == p.echo && q.state.ready == p.ready && p.readySent <= q.state.readySent
  {
  }

  lemma OneMoreEcho(c: Params, r: RoundOut, order: seq<BlockHash>, h: BlockHash)
    ensures EchoPass(c, r, order + [h]) == EchoVisit(c, EchoPass(c, r, order), h)
  {
    assert (order + [h])[..|order|] == order;
  }

  lemma OneMoreReady(c: Params, r: RoundOut, order: seq<BlockHash>, h: BlockHash)
    ensures ReadyPass(c, r, order).delivered == None ==>
      ReadyPass(c, r, order + [h]) == ReadyVisit(c, ReadyPass(c, r, order), h)
  {
    assert (order + [h])[..|order|] == order;
  }

  lemma QuietReadies(c: Params, p: Proto, r: RoundOut, order: seq<BlockHash>)
    requires OnlySends(p, r) && r.delivered == None && ReadyPass(c, r, order).delivered == None
    ensures OnlySends(p, ReadyPass(c, r, order))
    ensures r.state.readySent <= ReadyPass(c, r, order).state.readySent
  {
    hide OnlySends, ReadyPass;
    var before, a := ReadyPassEffect(c, p, r, order);
  }

  lemma StoreDrawsNoKeys(e: Env, s: NodeState, m: Message)
    ensures Store(e, s, m).drawn == s.drawn
  {
  }

  lemma AcceptedIsStored(e: Env, s: NodeState, i: nat)
    requires StoreInv(e, s) && i < |s.proto.accepted|
    ensures var id := s.proto.accepted[i];
      && id in s.blocks && id in s.blkList && StoredUnder(e, s, id)
  {
    hide BlockOk;
    assert s.proto.accepted[i] in s.proto.accepted;
  }

  /** What is stored for a block: the block, under its own ID, with the records of its messages. */
  ghost predicate StoredUnder(e: Env, s: NodeState, id: BlockHash)
    requires id in s.blocks && id in s.blkList
  {
    && s.blocks[id] == s.blkList[id].(validatorSigs := Records(e, s.admitted, id))
    && !s.blocks[id].isMutable && s.blocks[id].header.ID(e.codec.h) == id
  }

  lemma SetRunning(e: Env, s: NodeState, running: bool)
    requires StoreInv(e, s)
    ensures StoreInv(e, s.(proto := s.proto.(running := running)))
  {
    hide StoredWell, Records;
  }

  lemma TakenKeepsInv(e: Env, s: NodeState)
    requires StoreInv(e, s)
    ensures StoreInv(e, s.(proto := s.proto.(accepted := [], running := false)))
  {
    hide StoredWell, Records;
  }

  lemma NewLedgerKeepsInv(e: Env, s: NodeState, utxolist: seq<UTXO>, walletIds: seq<u32>)
    requires StoreInv(e, s)
    ensures StoreInv(e, s.(utxolist := utxolist, walletIds := walletIds))
  {
    hide StoredWell, Records, Mentions;
  }

  lemma LostKeyKeepsInv(e: Env, s: NodeState)
    requires StoreInv(e, s)
    ensures StoreInv(e, s.(drawn := s.drawn + 1))
  {
    hide StoredWell, Records;
  }
}
