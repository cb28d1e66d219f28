/** What the signatures of a node show of the random bits it drew: no key is used for two messages. */
module Draws {
  import opened Lamport
  import opened Blocks
  import opened NodeSpec
  import opened KeyChain
  import opened NodeRuns

  /** The secrets of key i are the bits drawn for key i. */
  lemma KeyIsItsDraw(e: Env, i: nat)
    ensures DrawnFrom(e.Pair(i).priv, e.coins(i))
  {
    hide DrawnFrom, Generated;
    GeneratedIsDrawn(e.codec.h, e.coins(i));
  }

  lemma DifferentDrawsDifferentKeys(e: Env, i: nat, j: nat)
    requires e.coins(i) != e.coins(j)
    ensures e.Pair(i).priv != e.Pair(j).priv
  {
    hide Generated;
    DifferentDrawsDiffer(e.codec.h, e.coins(i), e.coins(j));
  }

  /**
   * A block's signature, place by place: the bits drawn for that place of the key, the second ones where
   * the digest has a bit and the first ones elsewhere.
   */
  ghost predicate ShowsDraws(e: Env, b: BlockValue, coins: Coins) {
    && |b.validatorSig| == 256
    && forall k :: 0 <= k < 256 ==>
         BitsOf(b.validatorSig[k]) == if HasBit(DigestOf(e.codec, b), k) then coins[k].1 else coins[k].0
  }

  /** The announced key, place by place: the hashes of the secrets packed from the bits drawn. */
  ghost predicate AnnouncesDraws(e: Env, b: BlockValue, coins: Coins) {
    && b.nextKey.Complete()
    && forall k :: 0 <= k < 256 ==>
         && b.nextKey.S0[k] == e.codec.h(TextOf(coins[k].0))
         && b.nextKey.S1[k] == e.codec.h(TextOf(coins[k].1))
  }

  lemma SignatureShowsDraws(e: Env, b: BlockValue, i: nat)
    requires SignedWith(e, b, i)
    ensures ShowsDraws(e, b, e.coins(i)) && AnnouncesDraws(e, b, e.coins(i + 1))
  {
    hide BitsOf, HasBit, DigestOf, Signed, TextOf, Generated;
    KeyIsItsDraw(e, i);
    var key := e.Pair(i).priv;
    SignedByMask(DigestOf(e.codec, b), key, 0);
    forall k | 0 <= k < 256
      ensures BitsOf(b.validatorSig[k])
           == if HasBit(DigestOf(e.codec, b), k) then e.coins(i)[k].1 else e.coins(i)[k].0
    {
      SignedByMask(DigestOf(e.codec, b), key, k);
    }
    PublicHashesDraws(e.codec.h, e.coins(i + 1));
  }

  /** Message k is signed with what was drawn for key no[k], and announces what was drawn for the key after it. */
  ghost predicate AllShowDraws(e: Env, msgs: seq<Message>, no: seq<nat>) {
    && |no| == |msgs|
    && forall k :: 0 <= k < |msgs| ==>
         ShowsDraws(e, msgs[k].block, e.coins(no[k])) && AnnouncesDraws(e, msgs[k].block, e.coins(no[k] + 1))
  }

  /** The messages of a new node, for any run of signings: the draws move on with every message. */
  lemma SentShowsDraws(e: Env, s: NodeState, run: seq<Signing>)
    requires s.drawn == 1 && s.outbox == []
    ensures AllShowDraws(e, Sent(e, s, run).outbox, KeyNumbers(run))
    ensures Increasing(KeyNumbers(run)) && Below(KeyNumbers(run), |run|)
  {
    hide SignedWith, ShowsDraws, AnnouncesDraws, Sent, KeyNumbers;
    SentIsAChain(e, s, run);
    var msgs := Sent(e, s, run).outbox;
    forall k | 0 <= k < |msgs|
      ensures ShowsDraws(e, msgs[k].block, e.coins(KeyNumbers(run)[k]))
      ensures AnnouncesDraws(e, msgs[k].block, e.coins(KeyNumbers(run)[k] + 1))
    {
      SignatureShowsDraws(e, msgs[k].block, KeyNumbers(run)[k]);
    }
  }

  /** The same for everything that a node broadcasts during its life. */
  lemma LivesShowDraws(e: Env, run: seq<NodeAction>, trace: seq<NodeState>, i: nat) returns (no: seq<nat>)
    requires Lives(e, run, trace) && i < |trace|
    ensures AllShowDraws(e, trace[i].outbox, no) && Increasing(no) && Below(no, trace[i].drawn)
  {
    hide SignedWith, ShowsDraws, AnnouncesDraws, Lives;
    no := LivesAreChains(e, run, trace, i);
    forall k | 0 <= k < |no|
      ensures ShowsDraws(e, trace[i].outbox[k].block, e.coins(no[k]))
      ensures AnnouncesDraws(e, trace[i].outbox[k].block, e.coins(no[k] + 1))
    {
      SignatureShowsDraws(e, trace[i].outbox[k].block, no[k]);
    }
  }

  /**
   * One-time keys: two messages of a node's life are signed with the same private key exactly if the
   * random bits drawn for two different key numbers were the same.
   */
  lemma NoKeyTwice(e: Env, run: seq<NodeAction>, trace: seq<NodeState>, i: nat)
    returns (no: seq<nat>, keys: seq<SigKey>)
    requires Lives(e, run, trace) && i < |trace|
    ensures |keys| == |no| == |trace[i].outbox| && Increasing(no) && Below(no, trace[i].drawn)
    ensures forall k :: 0 <= k < |keys| ==>
      trace[i].outbox[k].block.validatorSig == Signed(DigestOf(e.codec, trace[i].outbox[k].block), keys[k])
    ensures forall j, k :: 0 <= j < |keys| && 0 <= k < |keys| ==>
      (keys[j] == keys[k] <==> e.coins(no[j]) == e.coins(no[k]))
  {
    hide Lives, Signed, DigestOf, Generated;
    no := LivesAreChains(e, run, trace, i);
    keys := seq(|no|, k requires 0 <= k < |no| => e.Pair(no[k]).priv);
    forall j, k | 0 <= j < |keys| && 0 <= k < |keys|
      ensures keys[j] == keys[k] <==> e.coins(no[j]) == e.coins(no[k])
    {
      if e.coins(no[j]) != e.coins(no[k]) {
        DifferentDrawsDifferentKeys(e, no[j], no[k]);
      }
    }
    forall k | 0 <= k < |no|
      ensures trace[i].outbox[k].block.validatorSig == Signed(DigestOf(e.codec, trace[i].outbox[k].block), keys[k])
    {
      assert SignedWith(e, trace[i].outbox[k].block, no[k]);
    }
  }
}
