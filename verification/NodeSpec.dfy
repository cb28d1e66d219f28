/** The whole state of a Bracha node as a value, and what its operations do to it. */
module NodeSpec {
  import opened Common
  import opened Lamport
  import opened Ledger
  import opened Blocks
  import opened BrachaRound
  import opened Network

  /** What stays the same for one node. `coins(i)` are the random bits of its i-th key generation. */
  datatype Env = Env(codec: Codec, coins: nat -> Coins, id: u16, params: Params) {
    /** The node's i-th key pair. */
    function Pair(i: nat): KeyPair { Generated(codec.h, coins(i)) }
  }

  datatype Message = Message(kind: Kind, block: BlockValue, senderId: nat, round: nat) {
    function Id(e: Env): BlockHash { block.header.ID(e.codec.h) }

    /** The validator that the signature is checked for. */
    function Sender(): nat { block.validatorId as nat }

    /** What decoding a received message guarantees. */
    predicate FromWire() {
      !block.isMutable && block.nextKey.Complete() && block.validatorSigs == []
    }
  }

  /** The ledger a block was verified against. */
  datatype Admission = Admission(utxolist: seq<UTXO>, walletIds: seq<u32>)

  /** `admitted` and `admissions` are history: the messages accepted, and the ledger each block passed against. */
  datatype NodeState = NodeState(
    proto: Proto,
    blkList: map<BlockHash, BlockValue>,
    blocks: map<BlockHash, BlockValue>,
    verified: set<BlockHash>,
    valSigKeys: map<u16, SigKey>,
    utxolist: seq<UTXO>,
    walletIds: seq<u32>,
    drawn: nat,
    outbox: seq<Message>,
    admitted: seq<Message>,
    admissions: map<BlockHash, Admission>)

  // ----- receiving -----

  /** A message from a validator with no known key is taken on trust. */
  predicate SignatureOk(e: Env, keys: map<u16, SigKey>, b: BlockValue) {
    b.validatorId in keys ==>
      Verdict(e.codec.h, DigestOf(e.codec, b), b.validatorSig, keys[b.validatorId]) == 1
  }

  ghost predicate Accepts(e: Env, s: NodeState, m: Message) {
    && SignatureOk(e, s.valSigKeys, m.block)
    && (m.Id(e) in s.verified || BlockOk(m.block.txs, s.utxolist, s.walletIds))
  }

  /** The record kept of a message: it holds the key announced by the message itself. */
  function Record(m: Message): BlockSignature {
    BlockSignature(m.block.validatorSig, m.block.nextKey, m.block.validatorId, m.round % 0x1_0000)
  }

  function Learn(keys: map<u16, SigKey>, b: BlockValue): map<u16, SigKey> {
    keys[b.validatorId := b.nextKey]
  }

  /** The first block that came under this ID, with one more record. */
  function Recorded(blocks: map<BlockHash, BlockValue>, id: BlockHash, m: Message): map<BlockHash, BlockValue> {
    var stored := if id in blocks then blocks[id] else m.block;
    blocks[id := stored.(validatorSigs := stored.validatorSigs + [Record(m)])]
  }

  function FirstKept(blkList: map<BlockHash, BlockValue>, id: BlockHash, b: BlockValue): map<BlockHash, BlockValue> {
    if id in blkList then blkList else blkList[id := b]
  }

  /** An accepted message is stored and counted. */
  ghost function Store(e: Env, s: NodeState, m: Message): NodeState {
    var id := m.Id(e);
    s.(verified := s.verified + {id},
       blocks := Recorded(s.blocks, id, m),
       blkList := FirstKept(s.blkList, id, m.block),
       proto := Handle(s.proto, Packet(m.kind, id)),
       admitted := s.admitted + [m],
       admissions := if id in s.verified then s.admissions
                     else s.admissions[id := Admission(s.utxolist, s.walletIds)])
  }

  /** The announced key is learnt even from a message that is dropped. */
  ghost function Receive(e: Env, s: NodeState, m: Message): NodeState {
    var learnt := s.(valSigKeys := Learn(s.valSigKeys, m.block));
    if Accepts(e, s, m) then Store(e, learnt, m) else learnt
  }

  ghost function ReceiveAll(e: Env, s: NodeState, msgs: seq<Message>): NodeState {
    if msgs == [] then s.(proto := s.proto.(send := None))
    else Receive(e, ReceiveAll(e, s, msgs[..|msgs| - 1]), msgs[|msgs| - 1])
  }

  // ----- sending -----

  /** Sign a block with the current key, announce the next one, and broadcast it. */
  function Emit(e: Env, s: NodeState, kind: Kind, b: BlockValue, round: nat): NodeState
    requires s.drawn > 0
  {
    var signed := SignedBlock(e.codec, b, e.Pair(s.drawn - 1).priv, e.id, e.Pair(s.drawn).pub);
    s.(outbox := s.outbox + [Message(kind, signed, e.id as nat, round)], drawn := s.drawn + 1)
  }

  /** The round number a message carries: 1 for ECHO, 2 for READY after an ECHO quorum, 3 after READYs. */
  function RoundNumber(c: Params, p: Proto, pkt: Packet): nat {
    if pkt.kind == ECHO then 1
    else if pkt.hash in p.echo && p.echo[pkt.hash] >= c.EchoQuorum() then 2
    else 3
  }

  ghost predicate Known(s: NodeState, pkts: seq<Packet>) {
    forall k :: 0 <= k < |pkts| ==> pkts[k].hash in s.blkList
  }

  ghost function EmitAll(e: Env, s: NodeState, pkts: seq<Packet>): (t: NodeState)
    requires s.drawn > 0 && Known(s, pkts)
    ensures t.drawn == s.drawn + |pkts| && t.blkList == s.blkList
  {
    if pkts == [] then s
    else
      var last := pkts[|pkts| - 1];
      Emit(e, EmitAll(e, s, pkts[..|pkts| - 1]), last.kind, s.blkList[last.hash],
           RoundNumber(e.params, s.proto, last))
  }

  /** The state in the middle of a round that has come as far as q. */
  ghost function Halfway(e: Env, s: NodeState, q: RoundOut): NodeState
    requires s.drawn > 0 && Known(s, q.sent)
  {
    EmitAll(e, s, q.sent).(proto := q.state)
  }

  // ----- the store -----

  /** The records of the accepted messages for block id, in the order of acceptance. */
  function Records(e: Env, admitted: seq<Message>, id: BlockHash): seq<BlockSignature> {
    if admitted == [] then []
    else
      var rest, last := Records(e, admitted[..|admitted| - 1], id), admitted[|admitted| - 1];
      if last.Id(e) == id then rest + [Record(last)] else rest
  }

  /** Every block the protocol speaks of is in the store. */
  ghost predicate Mentions(p: Proto, known: set<BlockHash>) {
    && p.echo.Keys <= known && p.ready.Keys <= known && p.readySent <= known
    && (forall h :: h in p.accepted ==> h in known)
    && (p.send.Some? ==> p.send.value in known)
  }

  /** A stored block is finalized, has the ID it is stored under, and passed verification when it came. */
  ghost predicate StoredWell(e: Env, b: BlockValue, id: BlockHash, a: Admission) {
    && !b.isMutable && b.validatorSigs == [] && b.header.ID(e.codec.h) == id
    && BlockOk(b.txs, a.utxolist, a.walletIds)
  }

  /** The keys of the four collections coincide. */
  ghost predicate SameKeys(s: NodeState) {
    s.blkList.Keys == s.verified && s.blocks.Keys == s.verified && s.admissions.Keys == s.verified
  }

  ghost predicate AllStoredWell(e: Env, s: NodeState)
    requires SameKeys(s)
  {
    forall id :: id in s.verified ==> StoredWell(e, s.blkList[id], id, s.admissions[id])
  }

  /** `blocks` holds the stored block together with one record for each message accepted for it. */
  ghost predicate AllRecorded(e: Env, s: NodeState)
    requires SameKeys(s)
  {
    && (forall id :: id in s.verified ==>
          s.blocks[id] == s.blkList[id].(validatorSigs := Records(e, s.admitted, id)))
    && (forall k :: 0 <= k < |s.admitted| ==> s.admitted[k].Id(e) in s.verified)
  }

  ghost predicate StoreInv(e: Env, s: NodeState) {
    SameKeys(s) && Mentions(s.proto, s.verified) && AllStoredWell(e, s) && AllRecorded(e, s)
  }

  lemma RecordsOneMore(e: Env, admitted: seq<Message>, m: Message, id: BlockHash)
    ensures Records(e, admitted + [m], id)
         == Records(e, admitted, id) + if m.Id(e) == id then [Record(m)] else []
  {
    assert (admitted + [m])[..|admitted|] == admitted;
  }

  lemma {:induction false} NoRecords(e: Env, admitted: seq<Message>, id: BlockHash)
    requires forall k :: 0 <= k < |admitted| ==> admitted[k].Id(e) != id
    ensures Records(e, admitted, id) == []
  {
    if admitted != [] {
      NoRecords(e, admitted[..|admitted| - 1], id);
    }
  }

  lemma HandleMentions(p: Proto, pkt: Packet, known: set<BlockHash>)
    requires Mentions(p, known)
    ensures Mentions(Handle(p, pkt), known + {pkt.hash})
  {
  }

  lemma NewBlockStoredWell(e: Env, s: NodeState, m: Message)
    requires SameKeys(s) && AllStoredWell(e, s) && m.FromWire() && m.Id(e) !in s.verified
    requires BlockOk(m.block.txs, s.utxolist, s.walletIds)
    ensures SameKeys(Store(e, s, m)) && AllStoredWell(e, Store(e, s, m))
  {
    hide StoredWell, BlockOk, Record, Handle;
    AdmittedIsStoredWell(e, m, Admission(s.utxolist, s.walletIds));
  }

  lemma NewBlockRecordedAt(e: Env, s: NodeState, m: Message, x: BlockHash)
    requires SameKeys(s) && AllRecorded(e, s) && m.FromWire() && m.Id(e) !in s.verified
    requires x in s.verified + {m.Id(e)}
    ensures var t := Store(e, s, m);
      x in t.blocks && x in t.blkList && t.blocks[x] == t.blkList[x].(validatorSigs := Records(e, t.admitted, x))
  {
    hide Record, Records, Handle;
    RecordsOneMore(e, s.admitted, m, x);
    if x == m.Id(e) {
      NoRecords(e, s.admitted, x);
    }
  }

  lemma NewBlockRecorded(e: Env, s: NodeState, m: Message)
    requires SameKeys(s) && AllRecorded(e, s) && m.FromWire() && m.Id(e) !in s.verified
    ensures SameKeys(Store(e, s, m)) && AllRecorded(e, Store(e, s, m))
  {
    hide Record, Records, Handle;
    forall x | x in s.verified + {m.Id(e)}
      ensures var t := Store(e, s, m);
        x in t.blocks && x in t.blkList && t.blocks[x] == t.blkList[x].(validatorSigs := Records(e, t.admitted, x))
    {
      NewBlockRecordedAt(e, s, m, x);
    }
  }

  /** A block that is new to the store. */
  lemma NewBlockKeepsInv(e: Env, s: NodeState, m: Message)
    requires StoreInv(e, s) && m.FromWire() && m.Id(e) !in s.verified
    requires BlockOk(m.block.txs, s.utxolist, s.walletIds)
    ensures StoreInv(e, Store(e, s, m))
  {
    hide SameKeys, AllStoredWell, AllRecorded, Mentions, BlockOk, Record, Handle;
    HandleMentions(s.proto, Packet(m.kind, m.Id(e)), s.verified);
    NewBlockStoredWell(e, s, m);
    NewBlockRecorded(e, s, m);
  }

  lemma AdmittedIsStoredWell(e: Env, m: Message, a: Admission)
    requires m.FromWire() && BlockOk(m.block.txs, a.utxolist, a.walletIds)
    ensures StoredWell(e, m.block, m.Id(e), a)
  {
  }

  /** Another message for a block of the store. */
  lemma OldBlockKeepsInv(e: Env, s: NodeState, m: Message)
    requires StoreInv(e, s) && m.Id(e) in s.verified
    ensures StoreInv(e, Store(e, s, m))
  {
    hide StoredWell, Record, Records, Mentions;
    var t, id := Store(e, s, m), m.Id(e);
    HandleMentions(s.proto, Packet(m.kind, id), s.verified);
    assert s.verified + {id} == s.verified;
    forall x | x in t.verified
      ensures t.blocks[x] == t.blkList[x].(validatorSigs := Records(e, t.admitted, x))
    {
      RecordsOneMore(e, s.admitted, m, x);
    }
  }

  lemma ReceiveKeepsInv(e: Env, s: NodeState, m: Message)
    requires StoreInv(e, s) && m.FromWire()
    ensures StoreInv(e, Receive(e, s, m))
  {
    hide BlockOk, Store, SignatureOk, Records, StoredWell, Mentions;
    if Accepts(e, s, m) {
      var learnt := s.(valSigKeys := Learn(s.valSigKeys, m.block));
      if m.Id(e) in s.verified {
        OldBlockKeepsInv(e, learnt, m);
      } else {
        NewBlockKeepsInv(e, learnt, m);
      }
    }
  }

  // ----- counting, seen through the protocol -----

  /** The messages of a batch that are accepted, as the protocol counts them. */
  ghost function Counted(e: Env, s: NodeState, msgs: seq<Message>): seq<Packet> {
    if msgs == [] then []
    else
      var front, m := msgs[..|msgs| - 1], msgs[|msgs| - 1];
      if Accepts(e, ReceiveAll(e, s, front), m) then Counted(e, s, front) + [Packet(m.kind, m.Id(e))]
      else Counted(e, s, front)
  }

  function HandleAll(p: Proto, pkts: seq<Packet>): Proto {
    if pkts == [] then p else Handle(HandleAll(p, pkts[..|pkts| - 1]), pkts[|pkts| - 1])
  }

  /** A batch does to the protocol what its accepted messages do, and nothing else. */
  lemma {:induction false} BatchCountsAccepted(e: Env, s: NodeState, msgs: seq<Message>)
    ensures ReceiveAll(e, s, msgs).proto == HandleAll(s.proto.(send := None), Counted(e, s, msgs))
    ensures ReceiveAll(e, s, msgs).utxolist == s.utxolist && ReceiveAll(e, s, msgs).walletIds == s.walletIds
  {
    hide Accepts, Handle, Record;
    if msgs != [] {
      BatchCountsAccepted(e, s, msgs[..|msgs| - 1]);
    }
  }

  function KeysAfter(keys: map<u16, SigKey>, msgs: seq<Message>): map<u16, SigKey> {
    if msgs == [] then keys else Learn(KeysAfter(keys, msgs[..|msgs| - 1]), msgs[|msgs| - 1].block)
  }

  /** Which keys are known depends on the messages processed only, not on what was accepted. */
  lemma {:induction false} KeysOfBatch(e: Env, s: NodeState, msgs: seq<Message>)
    ensures ReceiveAll(e, s, msgs).valSigKeys == KeysAfter(s.valSigKeys, msgs)
  {
    hide Accepts;
    if msgs != [] {
      KeysOfBatch(e, s, msgs[..|msgs| - 1]);
    }
  }

  /** Every message of the named validators passes its signature check when its turn comes. */
  ghost predicate SignedFrom(e: Env, keys: map<u16, SigKey>, msgs: seq<Message>, who: set<nat>) {
    forall k :: 0 <= k < |msgs| && msgs[k].Sender() in who ==>
      SignatureOk(e, KeysAfter(keys, msgs[..k]), msgs[k].block)
  }

  /** What the network model sees of a batch: what is accepted, and everything from correct validators. */
  ghost function Visible(e: Env, c: Config, s: NodeState, msgs: seq<Message>): seq<Message> {
    if msgs == [] then []
    else
      var front, m := msgs[..|msgs| - 1], msgs[|msgs| - 1];
      if Accepts(e, ReceiveAll(e, s, front), m) || m.Sender() in c.correct then Visible(e, c, s, front) + [m]
      else Visible(e, c, s, front)
  }

  /** The messages as the network of n validators sees them. */
  ghost predicate Shows(e: Env, msgs: seq<Message>, items: seq<Item>) {
    && |items| == |msgs|
    && forall k :: 0 <= k < |msgs| ==> items[k] == Item(msgs[k].Sender(), Packet(msgs[k].kind, msgs[k].Id(e)))
  }

  /**
   * At validator j, `verifies` foretells by block ID which messages of correct validators are accepted;
   * of a faulty validator's message only that, if it is accepted, its ID is one that verifies.
   */
  ghost predicate JudgedById(e: Env, c: Config, j: nat, s: NodeState, msgs: seq<Message>) {
    forall k :: 0 <= k < |msgs| ==>
      if Accepts(e, ReceiveAll(e, s, msgs[..k]), msgs[k]) then c.verifies(j, msgs[k].Id(e))
      else msgs[k].Sender() in c.correct ==> !c.verifies(j, msgs[k].Id(e))
  }

  /**
   * Refinement. The node counts a batch exactly as the network model drains its inbox. A message of a
   * faulty validator that is not accepted, be it for its signature or for its content, might as well
   * not have been sent.
   */
  lemma {:induction false} ReceiveRefinesDrain(
      e: Env, s: NodeState, msgs: seq<Message>, c: Config, j: nat, items: seq<Item>)
    requires Shows(e, Visible(e, c, s, msgs), items) && JudgedById(e, c, j, s, msgs)
    ensures ReceiveAll(e, s, msgs).proto == Drain(c, j, s.proto.(send := None), items)
  {
    hide Accepts, Handle, Record;
    if msgs != [] {
      var n := |msgs| - 1;
      var front, m := msgs[..n], msgs[n];
      JudgedBefore(e, c, j, s, msgs, n);
      if Accepts(e, ReceiveAll(e, s, front), m) || m.Sender() in c.correct {
        var last := |items| - 1;
        assert Visible(e, c, s, msgs)[last] == m;
        assert items[last] == Item(m.Sender(), Packet(m.kind, m.Id(e)));
        ReceiveRefinesDrain(e, s, front, c, j, items[..last]);
      } else {
        ReceiveRefinesDrain(e, s, front, c, j, items);
      }
    }
  }

  lemma JudgedBefore(e: Env, c: Config, j: nat, s: NodeState, msgs: seq<Message>, n: nat)
    requires JudgedById(e, c, j, s, msgs) && n <= |msgs|
    ensures JudgedById(e, c, j, s, msgs[..n])
  {
    hide Accepts, ReceiveAll;
    forall k | 0 <= k < n
      ensures
        if Accepts(e, ReceiveAll(e, s, msgs[..n][..k]), msgs[..n][k]) then c.verifies(j, msgs[..n][k].Id(e))
        else msgs[..n][k].Sender() in c.correct ==> !c.verifies(j, msgs[..n][k].Id(e))
    {
      assert msgs[..n][..k] == msgs[..k] && msgs[..n][k] == msgs[k];
    }
  }

  /**
   * What decides about one message before it comes: a correct validator's content verifies exactly if
   * its ID does. A faulty one may send any number of contents under one ID, verifying or not, as long as
   * the ID counts as verifying when one of them does.
   */
  ghost predicate ContentsById(e: Env, c: Config, j: nat, s: NodeState, msgs: seq<Message>) {
    && (forall id :: id in s.verified ==> c.verifies(j, id))
    && (forall k :: 0 <= k < |msgs| ==>
          && (BlockOk(msgs[k].block.txs, s.utxolist, s.walletIds) ==> c.verifies(j, msgs[k].Id(e)))
          && (msgs[k].Sender() in c.correct && c.verifies(j, msgs[k].Id(e)) ==>
                BlockOk(msgs[k].block.txs, s.utxolist, s.walletIds)))
  }

  lemma {:induction false} VerifiedVerify(e: Env, c: Config, j: nat, s: NodeState, msgs: seq<Message>, n: nat)
    requires ContentsById(e, c, j, s, msgs) && n <= |msgs|
    ensures forall id :: id in ReceiveAll(e, s, msgs[..n]).verified ==> c.verifies(j, id)
  {
    hide SignatureOk, BlockOk, Handle, Record;
    if n > 0 {
      VerifiedVerify(e, c, j, s, msgs, n - 1);
      BatchCountsAccepted(e, s, msgs[..n - 1]);
      assert msgs[..n][..n - 1] == msgs[..n - 1];
    }
  }

  /** Those contents, and signatures of correct validators that pass, are judged by ID. */
  lemma ContentsAreJudgedById(e: Env, c: Config, j: nat, s: NodeState, msgs: seq<Message>)
    requires ContentsById(e, c, j, s, msgs) && SignedFrom(e, s.valSigKeys, msgs, c.correct)
    ensures JudgedById(e, c, j, s, msgs)
  {
    hide SignatureOk, BlockOk, ReceiveAll;
    forall k | 0 <= k < |msgs|
      ensures
        if Accepts(e, ReceiveAll(e, s, msgs[..k]), msgs[k]) then c.verifies(j, msgs[k].Id(e))
        else msgs[k].Sender() in c.correct ==> !c.verifies(j, msgs[k].Id(e))
    {
      VerifiedVerify(e, c, j, s, msgs, k);
      KeysOfBatch(e, s, msgs[..k]);
      BatchCountsAccepted(e, s, msgs[..k]);
    }
  }

  // ----- rounds keep the store -----

  ghost predicate KnownOut(q: RoundOut, known: set<BlockHash>) {
    Mentions(q.state, known) && forall k :: 0 <= k < |q.sent| ==> q.sent[k].hash in known
  }

  lemma SendReadyKnown(q: RoundOut, h: BlockHash, known: set<BlockHash>)
    requires KnownOut(q, known) && h in known
    ensures KnownOut(SendReady(q, h), known)
  {
  }

  lemma DeliverKnown(q: RoundOut, h: BlockHash, known: set<BlockHash>)
    requires KnownOut(q, known) && h in known
    ensures KnownOut(Deliver(q, h), known)
  {
  }

  lemma EmitKeepsInv(e: Env, s: NodeState, kind: Kind, b: BlockValue, round: nat)
    requires StoreInv(e, s) && s.drawn > 0
    ensures StoreInv(e, Emit(e, s, kind, b, round))
  {
  }

  lemma {:induction false} EmitAllKeepsInv(e: Env, s: NodeState, pkts: seq<Packet>)
    requires StoreInv(e, s) && s.drawn > 0 && Known(s, pkts)
    ensures StoreInv(e, EmitAll(e, s, pkts))
  {
    hide StoreInv, Emit;
    if pkts != [] {
      EmitAllKeepsInv(e, s, pkts[..|pkts| - 1]);
      var last := pkts[|pkts| - 1];
      EmitKeepsInv(e, EmitAll(e, s, pkts[..|pkts| - 1]), last.kind, s.blkList[last.hash],
                   RoundNumber(e.params, s.proto, last));
    }
  }

  /** The store keeps its invariant at every point of a round, and every message of it is a stored block. */
  lemma HalfwayKeepsInv(e: Env, s: NodeState, q: RoundOut)
    requires StoreInv(e, s) && s.drawn > 0 && KnownOut(q, s.verified)
    ensures Known(s, q.sent) && StoreInv(e, Halfway(e, s, q))
  {
    hide Mentions, StoredWell, Records;
    EmitAllKeepsInv(e, s, q.sent);
    EmitAllKeepsTheRest(e, s, q.sent);
  }

  lemma {:induction false} EmitAllKeepsTheRest(e: Env, s: NodeState, pkts: seq<Packet>)
    requires s.drawn > 0 && Known(s, pkts)
    ensures var t := EmitAll(e, s, pkts);
      t == s.(outbox := t.outbox, drawn := t.drawn)
  {
    if pkts != [] {
      EmitAllKeepsTheRest(e, s, pkts[..|pkts| - 1]);
    }
  }

  /** One more message in the middle of a round. */
  lemma HalfwayOneMore(e: Env, s: NodeState, q: RoundOut, pkt: Packet, p: Proto)
    requires s.drawn > 0 && Known(s, q.sent) && pkt.hash in s.blkList
    ensures var r := q.(state := p, sent := q.sent + [pkt]);
      && Known(s, r.sent)
      && Halfway(e, s, r) == Emit(e, Halfway(e, s, q), pkt.kind, s.blkList[pkt.hash],
                                  RoundNumber(e.params, s.proto, pkt)).(proto := p)
  {
    hide SignedBlock;
    assert (q.sent + [pkt])[..|q.sent|] == q.sent;
  }

  /** No more blocks are looked at after a delivery. */
  lemma {:induction false} ReadyPassStops(c: Params, r: RoundOut, order: seq<BlockHash>, rest: seq<BlockHash>)
    requires ReadyPass(c, r, order).delivered.Some?
    ensures ReadyPass(c, r, order + rest) == ReadyPass(c, r, order)
  {
    if rest == [] {
      assert order + rest == order;
    } else {
      ReadyPassStops(c, r, order, rest[..|rest| - 1]);
      assert (order + rest)[..|order + rest| - 1] == order + rest[..|rest| - 1];
    }
  }

  /** Every visit order can be completed. */
  lemma {:induction false} Completed(order: seq<BlockHash>, keys: set<BlockHash>, remaining: set<BlockHash>)
    returns (rest: seq<BlockHash>)
    requires remaining <= keys && Enumerates(order, keys - remaining)
    ensures Enumerates(order + rest, keys) && (remaining == {} ==> rest == [])
    decreases |remaining|
  {
    rest := [];
    if remaining == {} {
      assert order + rest == order && keys - remaining == keys;
    } else {
      var h :| h in remaining;
      EnumeratesOneMore(order, keys, remaining, h);
      rest := Completed(order + [h], keys, remaining - {h});
      rest := [h] + rest;
      assert order + rest == order + [h] + rest[1..];
    }
  }

  lemma EnumeratesOneMore(order: seq<BlockHash>, keys: set<BlockHash>, remaining: set<BlockHash>, h: BlockHash)
    requires remaining <= keys && Enumerates(order, keys - remaining) && h in remaining
    ensures Enumerates(order + [h], keys - (remaining - {h}))
  {
    assert forall x :: x in order + [h] <==> x in order || x == h;
    assert h !in order;
  }

  // ----- one pass of the protocol loop -----

  /** From s, a batch is received and a round is made, with some iteration order of the two maps. */
  ghost predicate Worked(
      e: Env, s: NodeState, msgs: seq<Message>, echoOrder: seq<BlockHash>, readyOrder: seq<BlockHash>, t: NodeState)
  {
    var r := ReceiveAll(e, s, msgs);
    var q := Round(e.params, r.proto, echoOrder, readyOrder);
    && Enumerates(echoOrder, r.proto.echo.Keys) && Enumerates(readyOrder, r.proto.ready.Keys)
    && r.drawn > 0 && Known(r, q.sent) && t == Halfway(e, r, q)
  }

  /** While it runs, a node delivers nothing; it stops with one more delivered block. */
  lemma WorkDelivers(
      e: Env, s: NodeState, msgs: seq<Message>, echoOrder: seq<BlockHash>, readyOrder: seq<BlockHash>, t: NodeState)
    requires Worked(e, s, msgs, echoOrder, readyOrder, t)
    ensures t.proto.accepted == s.proto.accepted + if t.proto.running then [] else [t.proto.voted]
    ensures forall id :: id in t.proto.ready ==> t.proto.ready[id] <= e.params.DeliverAbove() || !t.proto.running
  {
    hide ReceiveAll, Known, Accepts;
    var r := ReceiveAll(e, s, msgs);
    BatchCountsAccepted(e, s, msgs);
    CountingAcceptsNothing(s.proto.(send := None), Counted(e, s, msgs));
    RoundMeaning(e.params, r.proto, echoOrder, readyOrder);
  }

  lemma {:induction false} CountingAcceptsNothing(p: Proto, pkts: seq<Packet>)
    ensures HandleAll(p, pkts).accepted == p.accepted && HandleAll(p, pkts).readySent == p.readySent
  {
    if pkts != [] {
      CountingAcceptsNothing(p, pkts[..|pkts| - 1]);
    }
  }

  /** The messages of an outbox as the network of n validators sees them. */
  function PacketsOf(e: Env, msgs: seq<Message>): seq<Packet> {
    seq(|msgs|, k requires 0 <= k < |msgs| => Packet(msgs[k].kind, msgs[k].Id(e)))
  }

  /** A round puts exactly the protocol's packets into the outbox, for the stored blocks of those IDs. */
  lemma {:induction false} OutboxShowsPackets(e: Env, s: NodeState, pkts: seq<Packet>)
    requires StoreInv(e, s) && s.drawn > 0 && Known(s, pkts)
    ensures var t := EmitAll(e, s, pkts);
      PacketsOf(e, t.outbox) == PacketsOf(e, s.outbox) + pkts
  {
    hide PacketsOf, Emit, StoreInv;
    if pkts == [] {
      assert PacketsOf(e, s.outbox) + pkts == PacketsOf(e, s.outbox);
    } else {
      var front, last := pkts[..|pkts| - 1], pkts[|pkts| - 1];
      OutboxShowsPackets(e, s, front);
      StoredUnderItsId(e, s, last.hash);
      EmitShowsPacket(e, EmitAll(e, s, front), last.kind, s.blkList[last.hash], RoundNumber(e.params, s.proto, last));
      assert PacketsOf(e, s.outbox) + front + [last] == PacketsOf(e, s.outbox) + pkts;
    }
  }

  lemma StoredUnderItsId(e: Env, s: NodeState, id: BlockHash)
    requires StoreInv(e, s) && id in s.blkList
    ensures s.blkList[id].header.ID(e.codec.h) == id
  {
    hide BlockOk, Mentions, AllRecorded;
    assert id in s.blkList.Keys;
  }

  lemma EmitShowsPacket(e: Env, s: NodeState, kind: Kind, b: BlockValue, round: nat)
    requires s.drawn > 0
    ensures PacketsOf(e, Emit(e, s, kind, b, round).outbox)
         == PacketsOf(e, s.outbox) + [Packet(kind, b.header.ID(e.codec.h))]
  {
    hide Signed, Generated;
  }

  /**
   * Refinement of the network model: one pass of a node's loop is one step of validator j, whose inbox
   * shows what the node accepts and everything from correct validators.
   */
  lemma NodeRefinesWork(
      e: Env, s: NodeState, msgs: seq<Message>, eo: seq<BlockHash>, ro: seq<BlockHash>, t: NodeState,
      c: Config, net: Net, j: nat)
    requires StoreInv(e, s) && Worked(e, s, msgs, eo, ro, t)
    requires forall k :: 0 <= k < |msgs| ==> msgs[k].FromWire()
    requires Shape(c, net) && j < c.n() && c.params == e.params
    requires s.proto == net.procs[j] && Shows(e, Visible(e, c, s, msgs), net.inbox[j])
    requires JudgedById(e, c, j, s, msgs)
    ensures Enumerates(eo, Drained(c, net, j).echo.Keys) && Enumerates(ro, Drained(c, net, j).ready.Keys)
    ensures var out := WorkOut(c, net, j, eo, ro);
      && t.proto == out.state
      && PacketsOf(e, t.outbox) == PacketsOf(e, s.outbox) + out.sent
  {
    hide SignatureOk, BlockOk, StoreInv, ReceiveAll, Drain, Visible, JudgedById, Shows, EmitAll;
    var r := ReceiveAll(e, s, msgs);
    ReceiveRefinesDrain(e, s, msgs, c, j, net.inbox[j]);
    ReceiveAllKeepsInv(e, s, msgs);
    OutboxShowsPackets(e, r, Round(e.params, r.proto, eo, ro).sent);
    ReceivingSendsNothing(e, s, msgs);
  }

  lemma {:induction false} ReceiveAllKeepsInv(e: Env, s: NodeState, msgs: seq<Message>)
    requires StoreInv(e, s) && forall k :: 0 <= k < |msgs| ==> msgs[k].FromWire()
    ensures StoreInv(e, ReceiveAll(e, s, msgs))
  {
    hide Receive, SameKeys, AllStoredWell, AllRecorded;
    if msgs == [] {
      ForgetSend(e, s);
    } else {
      ReceiveAllKeepsInv(e, s, msgs[..|msgs| - 1]);
      ReceiveKeepsInv(e, ReceiveAll(e, s, msgs[..|msgs| - 1]), msgs[|msgs| - 1]);
    }
  }

  lemma ForgetSend(e: Env, s: NodeState)
    requires StoreInv(e, s)
    ensures StoreInv(e, s.(proto := s.proto.(send := None)))
  {
    hide StoredWell, Records;
  }

  lemma {:induction false} ReceivingSendsNothing(e: Env, s: NodeState, msgs: seq<Message>)
    ensures ReceiveAll(e, s, msgs).outbox == s.outbox && ReceiveAll(e, s, msgs).drawn == s.drawn
  {
    hide Accepts;
    if msgs != [] {
      ReceivingSendsNothing(e, s, msgs[..|msgs| - 1]);
    }
  }
}
