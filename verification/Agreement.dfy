/** Safety of the protocol over every run: agreement, and no delivery from nothing. */
module Agreement {
  import opened BrachaRound
  import opened Network
  import opened Invariants
  import opened Faults

  /** Validator i has committed itself to block h: it sent READY for it, or delivered it. */
  ghost predicate Committed(s: Net, i: nat, h: BlockHash) {
    && i < |s.procs| && i < |s.log|
    && (h in s.procs[i].readySent || h in s.log[i])
  }

  // ----- agreement -----

  /** Some correct validator has drained ECHOs for h from a quorum of distinct validators. */
  ghost predicate EchoQuorumBehind(c: Config, s: Net, h: BlockHash)
    requires Shape(c, s)
  {
    exists k :: k in c.correct && 0 <= k < c.n()
      && |Senders(s.seen[k], Packet(ECHO, h))| >= c.params.EchoQuorum()
  }

  ghost predicate ReadysHaveQuorums(c: Config, s: Net)
    requires Shape(c, s)
  {
    forall i, h :: i in c.correct && 0 <= i < c.n() && h in s.procs[i].readySent ==> EchoQuorumBehind(c, s, h)
  }

  lemma QuorumStays(c: Config, s: Net, a: Action, h: BlockHash)
    requires Shape(c, s) && Enabled(c, s, a) && EchoQuorumBehind(c, s, h)
    ensures EchoQuorumBehind(c, Apply(c, s, a), h)
  {
    var t := Apply(c, s, a);
    var k :| k in c.correct && 0 <= k < c.n() && |Senders(s.seen[k], Packet(ECHO, h))| >= c.params.EchoQuorum();
    forall x | x in s.seen[k] ensures x in t.seen[k] {
    }
    SubsetSize(Senders(s.seen[k], Packet(ECHO, h)), Senders(t.seen[k], Packet(ECHO, h)));
  }

  lemma ReadysHaveQuorumsStep(c: Config, s: Net, a: Action)
    requires Shape(c, s) && Enabled(c, s, a) && Inv(c, s) && c.Valid()
    requires FaultyOnce(c, Apply(c, s, a)) && OneSend(c, Apply(c, s, a))
    requires ReadysHaveQuorums(c, s)
    ensures ReadysHaveQuorums(c, Apply(c, s, a))
  {
    var t := Apply(c, s, a);
    forall i, h | i in c.correct && 0 <= i < c.n() && h in t.procs[i].readySent
      ensures EchoQuorumBehind(c, t, h)
    {
      if h in s.procs[i].readySent {
        QuorumStays(c, s, a, h);
      } else {
        FreshReady(c, s, i, a.echoOrder, a.readyOrder, h);
        if k :| k in c.correct && k < c.n() && h in s.procs[k].readySent {
          QuorumStays(c, s, a, h);
        } else {
          InvStep(c, s, a);
          EchoSenders(c, t, i, h);
        }
      }
    }
  }

  lemma {:induction false} ReadysHaveQuorumsAlways(c: Config, run: seq<Action>)
    requires Exec(c, run).Some? && c.Valid()
    requires FaultyOnce(c, Exec(c, run).value) && OneSend(c, Exec(c, run).value)
    ensures ReadysHaveQuorums(c, Exec(c, run).value)
  {
    if run != [] {
      var s, a := Exec(c, run[..|run| - 1]).value, run[|run| - 1];
      FaultsEarlier(c, s, a);
      ReadysHaveQuorumsAlways(c, run[..|run| - 1]);
      InvAlways(c, run[..|run| - 1]);
      ReadysHaveQuorumsStep(c, s, a);
    }
  }

  /** The numbers for which runs can split the correct validators: each half makes a quorum with the faulty ones. */
  predicate CanSplit(p: Params) {
    p.f >= 1 && p.n >= p.f + 2 && (p.n + p.f) % 2 == 0
  }

  /** Two ECHO quorums share a correct validator, unless halves of them can make one with the faulty ones. */
  lemma QuorumsMeetUnlessSplit(c: Config, k: nat, a: set<nat>, b: set<nat>) returns (i: nat)
    requires c.Valid() && !CanSplit(c.params) && c.f() >= 1 && k in c.correct
    requires a <= Validators(c.n()) && b <= Validators(c.n())
    requires |a| >= c.params.EchoQuorum() && |b| >= c.params.EchoQuorum()
    ensures i in a && i in b && i in c.correct
  {
    if (c.n() + c.f()) % 2 == 1 {
      i := QuorumsMeet(c, a, b);
    } else {
      i := k;
      InEverySetOfN(c.n(), a, k);
      InEverySetOfN(c.n(), b, k);
    }
  }

  lemma InEverySetOfN(n: nat, a: set<nat>, k: nat)
    requires a <= Validators(n) && |a| >= n && k < n
    ensures k in a
  {
    ValidatorsSize(n);
    if k !in a {
      SubsetSize(a, Validators(n) - {k});
    }
  }

  /** A correct validator of an ECHO quorum for h has drained a SEND for h. */
  lemma EchoedAfterSend(c: Config, s: Net, i: nat, k: nat, h: BlockHash) returns (from: nat, x: nat)
    requires Shape(c, s) && Inv(c, s) && i in c.correct && i < c.n() && k < c.n()
    requires i in Senders(s.seen[k], Packet(ECHO, h))
    ensures Count(s.seen[i], Packet(SEND, h)) >= 1
    ensures IsSend(c, s, from, i, x) && Hist(s, from, i)[x] == Packet(SEND, h)
  {
    SeenWasBroadcast(c, s, i, k, Packet(ECHO, h));
    assert EchoAnswersSend(s.seen[i], s.bcast[i]);
    assert multiset(s.bcast[i])[Packet(ECHO, h)] >= 1;
    var item := CountWitness(s.seen[i], Packet(SEND, h));
    assert item.from in Senders(s.seen[i], Packet(SEND, h));
    from := item.from;
    x := SendPosition(c, s, i, from, h);
  }

  /** Without faulty validators every SEND is a broadcast of the leader. */
  lemma SendIsTheLeaders(c: Config, s: Net, i: nat, from: nat, x: nat)
    requires Shape(c, s) && Inv(c, s) && c.Valid() && c.f() == 0 && i in c.correct && i < c.n()
    requires IsSend(c, s, from, i, x)
    ensures from == c.leader && c.leader < c.n() && c.leader in c.correct && Hist(s, from, i) == s.bcast[c.leader]
  {
    assert c.correct <= Validators(c.n());
    InEverySetOfN(c.n(), c.correct, from);
    assert ReadyOnce(c, from, s.procs[from], s.bcast[from]);
    assert multiset(s.bcast[from])[Hist(s, from, i)[x]] >= 1;
    assert Hist(s, from, i)[x] == Packet(SEND, Hist(s, from, i)[x].hash);
  }

  /** Without faulty validators both blocks come from the one leader, which has sent one SEND. */
  lemma OneLeaderOneBlock(c: Config, s: Net, k: nat, h: BlockHash, k': nat, h': BlockHash)
    requires Shape(c, s) && Inv(c, s) && c.Valid() && c.f() == 0 && OneSend(c, s) && k < c.n() && k' < c.n()
    requires Senders(s.seen[k], Packet(ECHO, h)) != {} && Senders(s.seen[k'], Packet(ECHO, h')) != {}
    ensures h == h'
  {
    hide Inv, Hist, Senders;
    var i := AnEchoer(c, s, k, h);
    var i' := AnEchoer(c, s, k', h');
    var from, x := EchoedAfterSend(c, s, i, k, h);
    var from', x' := EchoedAfterSend(c, s, i', k', h');
    SendIsTheLeaders(c, s, i, from, x);
    SendIsTheLeaders(c, s, i', from', x');
    assert IsSend(c, s, c.leader, i, x) && IsSend(c, s, c.leader, i, x');
  }

  lemma AnEchoer(c: Config, s: Net, k: nat, h: BlockHash) returns (i: nat)
    requires Shape(c, s) && Inv(c, s) && c.Valid() && c.f() == 0 && k < c.n()
    requires Senders(s.seen[k], Packet(ECHO, h)) != {}
    ensures i in Senders(s.seen[k], Packet(ECHO, h)) && i in c.correct && i < c.n()
  {
    SendersAreValidators(c, s, k, Packet(ECHO, h));
    i :| i in Senders(s.seen[k], Packet(ECHO, h));
    assert c.correct <= Validators(c.n());
    InEverySetOfN(c.n(), c.correct, i);
  }

  /** Two blocks with ECHO quorums are the same: some correct validator echoed both, or one leader sent both. */
  lemma QuorumsNameOneBlock(c: Config, s: Net, h: BlockHash, h': BlockHash)
    requires Shape(c, s) && Inv(c, s) && c.Valid() && !CanSplit(c.params)
    requires OneSend(c, s)
    requires EchoQuorumBehind(c, s, h) && EchoQuorumBehind(c, s, h')
    ensures h == h'
  {
    hide Inv, OneSend, Senders, Hist;
    InvIsFifo(c, s);
    var k :| k in c.correct && 0 <= k < c.n() && |Senders(s.seen[k], Packet(ECHO, h))| >= c.params.EchoQuorum();
    var k' :| k' in c.correct && 0 <= k' < c.n() && |Senders(s.seen[k'], Packet(ECHO, h'))| >= c.params.EchoQuorum();
    var a, b := Senders(s.seen[k], Packet(ECHO, h)), Senders(s.seen[k'], Packet(ECHO, h'));
    if c.f() == 0 {
      OneLeaderOneBlock(c, s, k, h, k', h');
    } else {
      SendersAreValidators(c, s, k, Packet(ECHO, h));
      SendersAreValidators(c, s, k', Packet(ECHO, h'));
      var i := QuorumsMeetUnlessSplit(c, k, a, b);
      var from, x := EchoedAfterSend(c, s, i, k, h);
      var from', x' := EchoedAfterSend(c, s, i, k', h');
      OneSendOneBlock(c, s, i, h, h');
    }
  }

  lemma InvIsFifo(c: Config, s: Net)
    requires Shape(c, s) && Inv(c, s)
    ensures Fifo(c, s)
  {
  }

  /**
   * Agreement. When n+f is odd, or f is 0, or n is at most f+1, no run lets two correct validators send
   * READY for, or deliver, different blocks, even if a faulty leader sends them different blocks.
   */
  lemma CorrectValidatorsAgree(c: Config, run: seq<Action>, i: nat, h: BlockHash, i': nat, h': BlockHash)
    requires Exec(c, run).Some? && c.Valid() && !CanSplit(c.params)
    requires FaultyOnce(c, Exec(c, run).value) && OneSend(c, Exec(c, run).value)
    requires i in c.correct && i' in c.correct
    requires Committed(Exec(c, run).value, i, h) && Committed(Exec(c, run).value, i', h')
    ensures h == h'
  {
    var s := Exec(c, run).value;
    InvAlways(c, run);
    ReadysHaveQuorumsAlways(c, run);
    assert Acted(c, s.procs[i], s.log[i]) && Acted(c, s.procs[i'], s.log[i']);
    QuorumsNameOneBlock(c, s, h, h');
  }

  // ----- no delivery from nothing -----

  ghost predicate ReadysWereProposed(c: Config, s: Net)
    requires Shape(c, s) && c.leader < c.n()
  {
    forall i, h :: i in c.correct && 0 <= i < c.n() && h in s.procs[i].readySent ==>
      Packet(SEND, h) in s.bcast[c.leader]
  }

  /** Messages of faulty validators only: the counter counts senders. */
  lemma FaultySendersAreCounted(c: Config, s: Net, j: nat, pkt: Packet)
    requires Shape(c, s) && Fifo(c, s) && FaultyOnce(c, s) && j in c.correct && j < c.n() && pkt.kind != SEND
    requires Senders(s.seen[j], pkt) * c.correct == {}
    ensures Count(s.seen[j], pkt) == |Senders(s.seen[j], pkt)|
  {
    hide Hist, Count;
    var senders := Senders(s.seen[j], pkt);
    SendersAreValidators(c, s, j, pkt);
    assert forall k :: Item(k, pkt) in s.seen[j] ==> k in senders;
    assert forall k :: k in senders && k in c.correct ==> k in senders * c.correct;
    forall k: nat ensures multiset(s.seen[j])[Item(k, pkt)] <= 1 {
      if k in senders {
        assert multiset(Hist(s, k, j))[pkt] <= 1;
        HistCount(c, s, k, j, pkt);
      }
    }
    CountIsSenders(s.seen[j], pkt);
  }

  /** An ECHO quorum includes a correct validator: the faulty ones alone are at most f. */
  lemma QuorumHasCorrect(c: Config, s: Net, j: nat, pkt: Packet) returns (i: nat)
    requires Shape(c, s) && Fifo(c, s) && c.Valid() && c.n() > c.f() && FaultyOnce(c, s)
    requires j in c.correct && j < c.n() && pkt.kind == ECHO && Count(s.seen[j], pkt) >= c.params.EchoQuorum()
    ensures i in c.correct && i < c.n() && i in Senders(s.seen[j], pkt)
  {
    hide Fifo, FaultyOnce, Senders, Count;
    var senders := Senders(s.seen[j], pkt);
    if senders * c.correct == {} {
      FaultySendersAreCounted(c, s, j, pkt);
      SendersAreValidators(c, s, j, pkt);
      i := SomeoneIsCorrect(c, senders);
    } else {
      i :| i in senders * c.correct;
    }
  }

  lemma QuorumWasProposed(c: Config, s: Net, j: nat, h: BlockHash)
    requires Shape(c, s) && Inv(c, s) && c.Valid() && c.n() > c.f() && c.leader in c.correct
    requires FaultyOnce(c, s) && OnlyLeaderSends(c, s)
    requires j in c.correct && j < c.n() && Count(s.seen[j], Packet(ECHO, h)) >= c.params.EchoQuorum()
    ensures Packet(SEND, h) in s.bcast[c.leader]
  {
    var i := QuorumHasCorrect(c, s, j, Packet(ECHO, h));
    SeenWasBroadcast(c, s, i, j, Packet(ECHO, h));
    assert EchoAnswersSend(s.seen[i], s.bcast[i]);
    assert multiset(s.bcast[i])[Packet(ECHO, h)] >= 1;
    var x := CountWitness(s.seen[i], Packet(SEND, h));
    assert x.from in Senders(s.seen[i], Packet(SEND, h));
    var at := SendPosition(c, s, i, x.from, h);
    assert Packet(SEND, h) in Hist(s, x.from, i);
  }

  lemma ReadysWereProposedStep(c: Config, s: Net, a: Action)
    requires Shape(c, s) && Enabled(c, s, a) && Inv(c, s) && c.Valid() && c.n() > c.f() && c.leader in c.correct
    requires FaultyOnce(c, Apply(c, s, a)) && OnlyLeaderSends(c, Apply(c, s, a))
    requires ReadysWereProposed(c, s)
    ensures ReadysWereProposed(c, Apply(c, s, a))
  {
    var t := Apply(c, s, a);
    assert s.bcast[c.leader] <= t.bcast[c.leader];
    forall i, h | i in c.correct && 0 <= i < c.n() && h in t.procs[i].readySent
      ensures Packet(SEND, h) in t.bcast[c.leader]
    {
      if h !in s.procs[i].readySent {
        FreshReady(c, s, i, a.echoOrder, a.readyOrder, h);
        if !exists k :: k in c.correct && k < c.n() && h in s.procs[k].readySent {
          InvStep(c, s, a);
          QuorumWasProposed(c, t, i, h);
        }
      }
    }
  }

  lemma {:induction false} ReadysWereProposedAlways(c: Config, run: seq<Action>)
    requires Exec(c, run).Some? && c.Valid() && c.n() > c.f() && c.leader in c.correct
    requires FaultyOnce(c, Exec(c, run).value) && OnlyLeaderSends(c, Exec(c, run).value)
    ensures ReadysWereProposed(c, Exec(c, run).value)
  {
    if run != [] {
      var s, a := Exec(c, run[..|run| - 1]).value, run[|run| - 1];
      FaultsEarlier(c, s, a);
      ReadysWereProposedAlways(c, run[..|run| - 1]);
      InvAlways(c, run[..|run| - 1]);
      ReadysWereProposedStep(c, s, a);
    }
  }

  /** No delivery from nothing: what a correct validator commits itself to, the correct leader proposed. */
  lemma CommittedWasProposed(c: Config, run: seq<Action>, i: nat, h: BlockHash)
    requires Exec(c, run).Some? && c.Valid() && c.n() > c.f() && c.leader in c.correct
    requires FaultyOnce(c, Exec(c, run).value) && OnlyLeaderSends(c, Exec(c, run).value)
    requires i in c.correct && Committed(Exec(c, run).value, i, h)
    ensures Packet(SEND, h) in Exec(c, run).value.bcast[c.leader]
  {
    var s := Exec(c, run).value;
    InvAlways(c, run);
    ReadysWereProposedAlways(c, run);
    assert Acted(c, s.procs[i], s.log[i]);
  }

  // ----- how often a block is delivered -----

  /** Every delivery of h has used up 2f+2 of the READYs drained for h, over any run and any restarts. */
  lemma DeliveriesArePaidFor(c: Config, run: seq<Action>, j: nat, h: BlockHash)
    requires Exec(c, run).Some? && j in c.correct && j < c.n()
    ensures var s := Exec(c, run).value;
      (2 * c.f() + 2) * multiset(s.log[j])[h] + Tally(s.procs[j].ready, h) <= Count(s.seen[j], Packet(READY, h))
  {
    hide Spent, Exec;
    var s := Exec(c, run).value;
    InvAlways(c, run);
    PaidFor(c, s, j, h);
    SpentIs(c.f(), multiset(s.log[j])[h]);
  }

  lemma PaidFor(c: Config, s: Net, j: nat, h: BlockHash)
    requires Shape(c, s) && Inv(c, s) && j in c.correct && j < c.n()
    ensures Spent(c.f(), multiset(s.log[j])[h]) + Tally(s.procs[j].ready, h) <= Count(s.seen[j], Packet(READY, h))
  {
    assert Accounted(c, j, s.procs[j], s.seen[j], s.log[j], h);
  }

  /** With n <= 4f+3 no validator delivers a block twice, however often it restarts. */
  lemma DeliveredAtMostOnce(c: Config, run: seq<Action>, j: nat, h: BlockHash)
    requires Exec(c, run).Some? && c.Valid() && j in c.correct && c.n() <= 4 * c.f() + 3
    requires FaultyOnce(c, Exec(c, run).value)
    ensures multiset(Exec(c, run).value.log[j])[h] <= 1
  {
    var s := Exec(c, run).value;
    InvAlways(c, run);
    assert Accounted(c, j, s.procs[j], s.seen[j], s.log[j], h);
    ReadySenders(c, s, j, h);
    ValidatorsSize(c.n());
    SubsetSize(Senders(s.seen[j], Packet(READY, h)), Validators(c.n()));
    SpentOnTwo(c.f());
    if multiset(s.log[j])[h] >= 2 {
      SpentAtLeast(c.f(), 2, multiset(s.log[j])[h]);
    }
  }
}
