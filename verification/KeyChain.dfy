/** The chain of one-time keys: every message is signed with the key that the one before it announced. */
module KeyChain {
  import opened Common
  import opened Lamport
  import opened Ledger
  import opened Blocks
  import opened BrachaRound
  import opened Network
  import opened NodeSpec

  // ----- the sender -----

  /** What a node is asked to sign and broadcast. A block that is still mutable costs a key and sends nothing. */
  datatype Signing = Signing(kind: Kind, block: BlockValue, round: nat)

  function SignAndSend(e: Env, s: NodeState, a: Signing): NodeState
    requires s.drawn > 0
  {
    if a.block.isMutable then s.(drawn := s.drawn + 1) else Emit(e, s, a.kind, a.block, a.round)
  }

  /** The outbox after some signings by a new node. */
  function Sent(e: Env, s: NodeState, run: seq<Signing>): (t: NodeState)
    requires s.drawn > 0
    ensures t.drawn == s.drawn + |run|
  {
    if run == [] then s else SignAndSend(e, Sent(e, s, run[..|run| - 1]), run[|run| - 1])
  }

  /** The number of the key each message was signed with. */
  function KeyNumbers(run: seq<Signing>): seq<nat> {
    if run == [] then []
    else
      var front := KeyNumbers(run[..|run| - 1]);
      if run[|run| - 1].block.isMutable then front else front + [|run| - 1]
  }

  /** The block is signed with key number i of its sender, and announces key number i + 1. */
  ghost predicate SignedWith(e: Env, b: BlockValue, i: nat) {
    && b.validatorId == e.id && b.nextKey == e.Pair(i + 1).pub
    && b.validatorSig == Signed(DigestOf(e.codec, b), e.Pair(i).priv)
  }

  ghost predicate Increasing(ns: seq<nat>) {
    forall i, j :: 0 <= i < j < |ns| ==> ns[i] < ns[j]
  }

  ghost predicate Below(ns: seq<nat>, n: nat) {
    forall i :: 0 <= i < |ns| ==> ns[i] < n
  }

  lemma EmitIsSigned(e: Env, s: NodeState, kind: Kind, b: BlockValue, round: nat)
    requires s.drawn > 0
    ensures var t := Emit(e, s, kind, b, round);
      && t.outbox[..|t.outbox| - 1] == s.outbox && |t.outbox| > 0
      && SignedWith(e, t.outbox[|t.outbox| - 1].block, s.drawn - 1)
  {
    hide Signed, Generated;
    var announced := b.(validatorId := e.id, nextKey := e.Pair(s.drawn).pub);
    DigestIgnoresSignature(e.codec, announced, Signed(DigestOf(e.codec, announced), e.Pair(s.drawn - 1).priv));
  }

  /** The k-th message of a new node is signed with its k-th key in use; numbers are skipped only by failed signings. */
  lemma {:induction false} SentIsAChain(e: Env, s: NodeState, run: seq<Signing>)
    requires s.drawn == 1 && s.outbox == []
    ensures var t := Sent(e, s, run);
      && |t.outbox| == |KeyNumbers(run)|
      && forall k :: 0 <= k < |t.outbox| ==> SignedWith(e, t.outbox[k].block, KeyNumbers(run)[k])
    ensures Increasing(KeyNumbers(run)) && Below(KeyNumbers(run), |run|)
  {
    hide SignedWith, Emit;
    if run != [] {
      var front, a := run[..|run| - 1], run[|run| - 1];
      SentIsAChain(e, s, front);
      if !a.block.isMutable {
        EmitIsSigned(e, Sent(e, s, front), a.kind, a.block, a.round);
      }
    }
  }

  lemma {:induction false} WithoutFailuresNoneIsSkipped(run: seq<Signing>)
    requires forall k :: 0 <= k < |run| ==> !run[k].block.isMutable
    ensures KeyNumbers(run) == seq(|run|, k => k)
  {
    if run != [] {
      WithoutFailuresNoneIsSkipped(run[..|run| - 1]);
    }
  }

  // ----- the receiver -----

  /** The position of the last message of validator `id`. */
  function LastFrom(msgs: seq<Message>, id: u16): (r: Option<nat>)
    ensures r.Some? ==> r.value < |msgs| && msgs[r.value].block.validatorId == id
    ensures forall k :: 0 <= k < |msgs| && msgs[k].block.validatorId == id ==> r.Some? && k <= r.value
  {
    if msgs == [] then None
    else if msgs[|msgs| - 1].block.validatorId == id then Some(|msgs| - 1)
    else LastFrom(msgs[..|msgs| - 1], id)
  }

  /** A receiver holds the key that the last message of each validator announced. */
  lemma {:induction false} KeyHeld(msgs: seq<Message>, id: u16)
    ensures id in KeysAfter(map[], msgs) <==> LastFrom(msgs, id).Some?
    ensures LastFrom(msgs, id).Some? ==>
      KeysAfter(map[], msgs)[id] == msgs[LastFrom(msgs, id).value].block.nextKey
  {
    if msgs != [] {
      KeyHeld(msgs[..|msgs| - 1], id);
    }
  }

  /**
   * The messages that claim to come from validator e.id were signed by it, with the keys whose numbers
   * are in `no`; other senders' messages stand between them.
   */
  ghost predicate Genuine(e: Env, msgs: seq<Message>, no: seq<nat>) {
    && |no| == |msgs|
    && forall k :: 0 <= k < |msgs| && msgs[k].block.validatorId == e.id ==> SignedWith(e, msgs[k].block, no[k])
  }

  /** The half of each key pair that a message selects. */
  function Half(key: SigKey, m: Bytes, i: nat): Bytes
    requires key.Complete() && i < 256
  {
    if BitsOf(Crop(m))[i] then key.S1[i] else key.S0[i]
  }

  ghost predicate AgreeFor(m: Bytes, a: SigKey, b: SigKey) {
    a.Complete() && b.Complete() && forall i :: 0 <= i < 256 ==> Half(a, m, i) == Half(b, m, i)
  }

  /** A signature verifies under any key that agrees with the right one where the message looks. */
  lemma VerifiesUnder(h: HashFn, pair: KeyPair, m: Bytes, key: SigKey)
    requires Matches(h, pair) && key.Complete()
    ensures Verdict(h, m, Signed(m, pair.priv), key) == 1 <==> AgreeFor(m, pair.pub, key)
  {
    hide BitsOf;
    var sig := Signed(m, pair.priv);
    forall i | 0 <= i < 256
      ensures h(sig[i]) == Half(pair.pub, m, i)
    {
    }
    if AgreeFor(m, pair.pub, key) {
      forall i | 0 <= i < 256
        ensures h(sig[i]) == if BitsOf(Crop(m))[i] then key.S1[i] else key.S0[i]
      {
        assert Half(pair.pub, m, i) == Half(key, m, i);
      }
    }
  }

  /**
   * When is a genuine message accepted? The first one always; a later one exactly when the key
   * announced by the sender's message processed just before agrees with its own key where its digest
   * looks.
   */
  lemma AcceptedExactly(r: Env, e: Env, msgs: seq<Message>, no: seq<nat>, k: nat)
    requires r.codec == e.codec && Genuine(e, msgs, no) && k < |msgs| && msgs[k].block.validatorId == e.id
    ensures SignatureOk(r, KeysAfter(map[], msgs[..k]), msgs[k].block) <==>
      match LastFrom(msgs[..k], e.id)
      case None => true
      case Some(j) => AgreeFor(DigestOf(e.codec, msgs[k].block), e.Pair(no[k]).pub, e.Pair(no[j] + 1).pub)
  {
    hide Verdict, Signed, Generated, AgreeFor, DigestOf, Matches;
    KeyHeld(msgs[..k], e.id);
    match LastFrom(msgs[..k], e.id) {
      case None =>
      case Some(j) =>
        assert msgs[j].block.validatorId == e.id && SignedWith(e, msgs[j].block, no[j]);
        PairMatches(e, no[k]);
        PairMatches(e, no[j] + 1);
        VerifiesUnder(e.codec.h, e.Pair(no[k]), DigestOf(e.codec, msgs[k].block), e.Pair(no[j] + 1).pub);
    }
  }

  lemma PairMatches(e: Env, i: nat)
    ensures Matches(e.codec.h, e.Pair(i)) && e.Pair(i).pub.Complete()
  {
    GeneratedMatches(e.codec.h, e.coins(i));
  }

  /** The sender's message processed just before was not the immediate predecessor. */
  ghost predicate AfterGap(e: Env, msgs: seq<Message>, no: seq<nat>, k: nat)
    requires k < |msgs| == |no|
  {
    match LastFrom(msgs[..k], e.id)
    case None => false
    case Some(j) => no[j] + 1 != no[k]
  }

  /** Resynchronisation: only a message right after a gap can fail its signature check. */
  lemma OnlyGapsAreRejected(r: Env, e: Env, msgs: seq<Message>, no: seq<nat>, k: nat)
    requires r.codec == e.codec && Genuine(e, msgs, no) && k < |msgs| && msgs[k].block.validatorId == e.id
    ensures SignatureOk(r, KeysAfter(map[], msgs[..k]), msgs[k].block) || AfterGap(e, msgs, no, k)
  {
    hide DigestOf, SignatureOk, Generated, BitsOf;
    AcceptedExactly(r, e, msgs, no, k);
    PairMatches(e, no[k]);
  }

  /** The messages of a new sender, as they arrive: message k is its message number pos[k]. */
  ghost predicate Arrived(e: Env, s: NodeState, run: seq<Signing>, msgs: seq<Message>, pos: seq<nat>)
    requires s.drawn == 1
  {
    && |pos| == |msgs|
    && forall k :: 0 <= k < |msgs| && msgs[k].block.validatorId == e.id ==>
         && pos[k] < |Sent(e, s, run).outbox|
         && msgs[k].block == OnWire(Sent(e, s, run).outbox[pos[k]].block)
  }

  lemma WireKeepsSignature(e: Env, b: BlockValue, i: nat)
    requires SignedWith(e, b, i)
    ensures SignedWith(e, OnWire(b), i)
  {
    hide Signed, Generated;
    assert DigestText(e.codec, OnWire(b)) == DigestText(e.codec, b);
  }

  /** The numbers of the keys that the messages of one sender were signed with, as they arrive. */
  ghost function ArrivedNumbers(e: Env, run: seq<Signing>, msgs: seq<Message>, pos: seq<nat>): seq<nat>
    requires |pos| == |msgs|
  {
    seq(|msgs|, k requires 0 <= k < |msgs| => if pos[k] < |KeyNumbers(run)| then KeyNumbers(run)[pos[k]] else 0)
  }

  /**
   * Resynchronisation, for any run of signings by a new node and any reception of its messages with
   * gaps: a message fails its check only if the sender's message processed just before is not its
   * immediate predecessor, or a signing between the two has failed.
   */
  lemma ReceptionResynchronises(
      r: Env, e: Env, s: NodeState, run: seq<Signing>, msgs: seq<Message>, pos: seq<nat>, k: nat)
    requires s.drawn == 1 && s.outbox == [] && r.codec == e.codec
    requires Arrived(e, s, run, msgs, pos) && k < |msgs| && msgs[k].block.validatorId == e.id
    requires !SignatureOk(r, KeysAfter(map[], msgs[..k]), msgs[k].block)
    ensures LastFrom(msgs[..k], e.id).Some? && pos[k] < |KeyNumbers(run)|
    ensures var j := LastFrom(msgs[..k], e.id).value;
      && pos[j] < |KeyNumbers(run)|
      && (pos[j] + 1 != pos[k] || exists i :: KeyNumbers(run)[pos[j]] < i < KeyNumbers(run)[pos[k]] && FailedAt(run, i))
  {
    hide SignatureOk, SignedWith, KeyNumbers;
    SentIsAChain(e, s, run);
    var no := ArrivedNumbers(e, run, msgs, pos);
    forall i | 0 <= i < |msgs| && msgs[i].block.validatorId == e.id
      ensures SignedWith(e, msgs[i].block, no[i])
    {
      WireKeepsSignature(e, Sent(e, s, run).outbox[pos[i]].block, no[i]);
    }
    OnlyGapsAreRejected(r, e, msgs, no, k);
    var j := LastFrom(msgs[..k], e.id).value;
    if pos[j] + 1 == pos[k] {
      NumbersInBetweenFailed(run, pos[j]);
      assert FailedAt(run, no[j] + 1);
    }
  }

  /** If no signing failed, only a gap in the reception makes a message fail. */
  lemma WithoutFailuresOnlyGapsReject(
      r: Env, e: Env, s: NodeState, run: seq<Signing>, msgs: seq<Message>, pos: seq<nat>, k: nat)
    requires s.drawn == 1 && s.outbox == [] && r.codec == e.codec
    requires forall i :: 0 <= i < |run| ==> !run[i].block.isMutable
    requires Arrived(e, s, run, msgs, pos) && k < |msgs| && msgs[k].block.validatorId == e.id
    requires !SignatureOk(r, KeysAfter(map[], msgs[..k]), msgs[k].block)
    ensures LastFrom(msgs[..k], e.id).Some? && pos[LastFrom(msgs[..k], e.id).value] + 1 != pos[k]
  {
    hide SignatureOk, Arrived, KeyNumbers;
    ReceptionResynchronises(r, e, s, run, msgs, pos, k);
    WithoutFailuresNoneIsSkipped(run);
  }

  /** Signing i of the run cost a key and sent nothing. */
  ghost predicate FailedAt(run: seq<Signing>, i: nat) {
    i < |run| && run[i].block.isMutable
  }

  /** A number skipped between two consecutive messages belongs to a failed signing. */
  lemma {:induction false} NumbersInBetweenFailed(run: seq<Signing>, p: nat)
    requires p + 1 < |KeyNumbers(run)|
    ensures var a, b := KeyNumbers(run)[p], KeyNumbers(run)[p + 1];
      a < b <= |run| && forall i :: a < i < b ==> FailedAt(run, i)
  {
    var front := run[..|run| - 1];
    NumbersAreBelow(run);
    NumbersAreBelow(front);
    if p + 1 < |KeyNumbers(front)| {
      NumbersInBetweenFailed(front, p);
      var a, b := KeyNumbers(run)[p], KeyNumbers(run)[p + 1];
      forall i | a < i < b ensures FailedAt(run, i) {
        assert FailedAt(front, i);
      }
    } else {
      AfterTheLastAllFailed(front);
      var a, b := KeyNumbers(run)[p], KeyNumbers(run)[p + 1];
      forall i | a < i < b ensures FailedAt(run, i) {
        assert FailedAt(front, i);
      }
    }
  }

  lemma {:induction false} NumbersAreBelow(run: seq<Signing>)
    ensures Below(KeyNumbers(run), |run|)
  {
    if run != [] {
      NumbersAreBelow(run[..|run| - 1]);
    }
  }

  lemma {:induction false} AfterTheLastAllFailed(run: seq<Signing>)
    requires KeyNumbers(run) != []
    ensures forall i :: KeyNumbers(run)[|KeyNumbers(run)| - 1] < i < |run| ==> FailedAt(run, i)
  {
    var front, n := run[..|run| - 1], |run| - 1;
    if run[n].block.isMutable {
      AfterTheLastAllFailed(front);
      forall i | KeyNumbers(run)[|KeyNumbers(run)| - 1] < i < |run| ensures FailedAt(run, i) {
        assert i < n ==> FailedAt(front, i);
      }
    }
  }

  // ----- counting -----

  ghost function Rejections(r: Env, id: u16, msgs: seq<Message>): nat {
    if msgs == [] then 0
    else
      var front, m := msgs[..|msgs| - 1], msgs[|msgs| - 1];
      Rejections(r, id, front)
      + if m.block.validatorId == id && !SignatureOk(r, KeysAfter(map[], front), m.block) then 1 else 0
  }

  ghost function Gaps(e: Env, msgs: seq<Message>, no: seq<nat>): nat
    requires |no| == |msgs|
  {
    if msgs == [] then 0
    else
      var n := |msgs| - 1;
      Gaps(e, msgs[..n], no[..n])
      + if msgs[n].block.validatorId == e.id && AfterGap(e, msgs, no, n) then 1 else 0
  }

  /** A sender loses at most one message to each gap, however its messages are interleaved with others'. */
  lemma {:induction false} RejectionsAtMostGaps(r: Env, e: Env, msgs: seq<Message>, no: seq<nat>)
    requires r.codec == e.codec && Genuine(e, msgs, no)
    ensures Rejections(r, e.id, msgs) <= Gaps(e, msgs, no)
  {
    hide SignatureOk, SignedWith, AfterGap;
    if msgs != [] {
      var n := |msgs| - 1;
      RejectionsAtMostGaps(r, e, msgs[..n], no[..n]);
      if msgs[n].block.validatorId == e.id {
        OnlyGapsAreRejected(r, e, msgs, no, n);
      }
    }
  }

  // ----- no losses -----

  function Ids(senders: map<u16, Env>): set<nat> {
    set id | id in senders :: id as nat
  }

  /**
   * The messages of these senders are genuine, and none is missing in between. Other validators may
   * send what they like.
   */
  ghost predicate Lossless(senders: map<u16, Env>, codec: Codec, msgs: seq<Message>, no: seq<nat>) {
    && |no| == |msgs|
    && (forall id :: id in senders ==> senders[id].id == id && senders[id].codec == codec)
    && forall k :: 0 <= k < |msgs| && msgs[k].block.validatorId in senders ==>
         && SignedWith(senders[msgs[k].block.validatorId], msgs[k].block, no[k])
         && !AfterGap(senders[msgs[k].block.validatorId], msgs, no, k)
  }

  /** First-in first-out queues that lose nothing: no message of these senders is ever rejected. */
  lemma LosslessIsAccepted(r: Env, senders: map<u16, Env>, msgs: seq<Message>, no: seq<nat>)
    requires Lossless(senders, r.codec, msgs, no)
    ensures SignedFrom(r, map[], msgs, Ids(senders))
  {
    hide SignatureOk, AfterGap, SignedWith;
    forall k | 0 <= k < |msgs| && msgs[k].Sender() in Ids(senders)
      ensures SignatureOk(r, KeysAfter(map[], msgs[..k]), msgs[k].block)
    {
      var e := senders[msgs[k].block.validatorId];
      assert Genuine(e, msgs, no);
      OnlyGapsAreRejected(r, e, msgs, no, k);
    }
  }

  lemma {:induction false} KeysAfterAppend(keys: map<u16, SigKey>, a: seq<Message>, b: seq<Message>)
    ensures KeysAfter(keys, a + b) == KeysAfter(KeysAfter(keys, a), b)
  {
    if b == [] {
      assert a + b == a;
    } else {
      KeysAfterAppend(keys, a, b[..|b| - 1]);
      assert (a + b)[..|a + b| - 1] == a + b[..|b| - 1];
    }
  }

  /** So in every batch of such a reception the messages of these senders pass. */
  lemma LosslessBatch(r: Env, senders: map<u16, Env>, before: seq<Message>, batch: seq<Message>, no: seq<nat>)
    requires Lossless(senders, r.codec, before + batch, no)
    ensures SignedFrom(r, KeysAfter(map[], before), batch, Ids(senders))
  {
    hide SignatureOk, Lossless;
    LosslessIsAccepted(r, senders, before + batch, no);
    forall k | 0 <= k < |batch| && batch[k].Sender() in Ids(senders)
      ensures SignatureOk(r, KeysAfter(KeysAfter(map[], before), batch[..k]), batch[k].block)
    {
      KeysAfterAppend(map[], before, batch[..k]);
      assert (before + batch)[..|before| + k] == before + batch[..k];
      assert (before + batch)[|before| + k] == batch[k];
    }
  }

  /**
   * And so, if the correct validators are among these senders and the contents are judged by ID, the
   * node refines the network model on every batch.
   */
  lemma LosslessBatchIsJudgedById(
      r: Env, senders: map<u16, Env>, before: seq<Message>, batch: seq<Message>, no: seq<nat>,
      c: Config, j: nat, s: NodeState)
    requires Lossless(senders, r.codec, before + batch, no) && c.correct <= Ids(senders)
    requires s.valSigKeys == KeysAfter(map[], before) && ContentsById(r, c, j, s, batch)
    ensures JudgedById(r, c, j, s, batch)
  {
    hide SignatureOk, Lossless, ContentsById, JudgedById;
    LosslessBatch(r, senders, before, batch, no);
    ContentsAreJudgedById(r, c, j, s, batch);
  }
}
