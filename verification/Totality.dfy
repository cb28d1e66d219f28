/** Liveness of the protocol: what every quiescent state of every run looks like. */
module Totality {
  import opened BrachaRound
  import opened Network
  import opened Invariants
  import opened Faults
  import opened Agreement

  /** Each correct validator has nothing left to drain, or has left its loop after delivering. */
  ghost predicate Quiescent(c: Config, s: Net)
    requires Shape(c, s)
  {
    forall j :: j in c.correct && 0 <= j < c.n() ==>
      (!s.procs[j].running && s.log[j] != []) || NothingLeft(c, s, j)
  }

  ghost predicate NothingLeft(c: Config, s: Net, j: nat)
    requires Shape(c, s) && j < c.n()
  {
    s.inbox[j] == [] && forall i :: 0 <= i < c.n() ==> s.wires[i][j] == []
  }

  /** Every message to a correct validator names block h. */
  ghost predicate SingleBlock(c: Config, s: Net, h: BlockHash)
    requires Shape(c, s)
  {
    forall i, j, pkt :: 0 <= i < c.n() && j in c.correct && 0 <= j < c.n() && pkt in Hist(s, i, j) ==> pkt.hash == h
  }

  ghost predicate ReadyOnlyFor(c: Config, s: Net, h: BlockHash)
    requires Shape(c, s)
  {
    forall i :: i in c.correct && 0 <= i < c.n() ==> s.procs[i].readySent <= {h}
  }

  ghost predicate VerifiesEverywhere(c: Config, h: BlockHash) {
    forall j :: j in c.correct ==> c.verifies(j, h)
  }

  /** The validators that have sent READY for h. */
  ghost function ReadyFor(c: Config, s: Net, h: BlockHash): set<nat>
    requires Shape(c, s)
  {
    set i | i in c.correct && 0 <= i < c.n() && h in s.procs[i].readySent
  }

  /** At a validator that has drained everything, every broadcast of a correct one has arrived. */
  lemma DrainedHasAll(c: Config, s: Net, j: nat, i: nat, pkt: Packet)
    requires Shape(c, s) && Fifo(c, s) && j < c.n() && NothingLeft(c, s, j)
    requires i in c.correct && i < c.n() && pkt in s.bcast[i]
    ensures i in Senders(s.seen[j], pkt)
  {
    HistCount(c, s, i, j, pkt);
    assert multiset(s.bcast[i])[pkt] >= 1;
    assert Item(i, pkt) in s.seen[j];
  }

  /** A drained validator that has not delivered has counted every correct READY for h. */
  lemma CountsCorrectReadys(c: Config, s: Net, j: nat, h: BlockHash)
    requires Shape(c, s) && Inv(c, s) && j in c.correct && j < c.n()
    requires NothingLeft(c, s, j) && s.log[j] == [] && c.verifies(j, h)
    ensures Tally(s.procs[j].ready, h) >= |ReadyFor(c, s, h)|
  {
    var pkt := Packet(READY, h);
    forall i | i in ReadyFor(c, s, h) ensures i in Senders(s.seen[j], pkt) {
      assert ReadyOnce(c, i, s.procs[i], s.bcast[i]);
      assert multiset(s.bcast[i])[pkt] == 1;
      DrainedHasAll(c, s, j, i, pkt);
    }
    SubsetSize(ReadyFor(c, s, h), Senders(s.seen[j], pkt));
    CountAtLeastSenders(s.seen[j], pkt);
    assert Accounted(c, j, s.procs[j], s.seen[j], s.log[j], h);
  }

  /** Behind a delivery stand 2f+2 validators, at least f+2 of them correct. */
  lemma DeliveryNeedsReadys(c: Config, s: Net, k: nat, h: BlockHash)
    requires Shape(c, s) && Inv(c, s) && c.Valid() && FaultyOnce(c, s)
    requires k in c.correct && k < c.n() && h in s.log[k]
    ensures |ReadyFor(c, s, h)| >= c.f() + 2
  {
    var pkt := Packet(READY, h);
    var senders := Senders(s.seen[k], pkt);
    assert Accounted(c, k, s.procs[k], s.seen[k], s.log[k], h);
    assert multiset(s.log[k])[h] >= 1;
    SpentAtLeast(c.f(), 1, multiset(s.log[k])[h]);
    ReadySenders(c, s, k, h);
    AllButFAreCorrect(c, senders);
    forall i | i in senders * c.correct ensures i in ReadyFor(c, s, h) {
      SeenWasBroadcast(c, s, i, k, pkt);
      assert ReadyOnce(c, i, s.procs[i], s.bcast[i]);
      assert multiset(s.bcast[i])[pkt] >= 1;
    }
    SubsetSize(senders * c.correct, ReadyFor(c, s, h));
  }

  /** What a correct validator has delivered is h, if READYs were sent only for h. */
  lemma DeliveredIs(c: Config, s: Net, j: nat, h: BlockHash)
    requires Shape(c, s) && Inv(c, s) && ReadyOnlyFor(c, s, h)
    requires j in c.correct && j < c.n() && s.log[j] != []
    ensures h in s.log[j] && h in s.procs[j].readySent
  {
    assert Acted(c, s.procs[j], s.log[j]);
    assert s.log[j][0] in s.procs[j].readySent;
    assert s.log[j][0] == h;
  }

  /** f+1 correct READYs reach every drained validator, so it has sent READY too. */
  lemma EveryoneIsReady(c: Config, s: Net, h: BlockHash)
    requires Shape(c, s) && Inv(c, s) && Quiescent(c, s) && ReadyOnlyFor(c, s, h) && VerifiesEverywhere(c, h)
    requires |ReadyFor(c, s, h)| >= c.params.AmplifyAt()
    ensures forall j :: j in c.correct && 0 <= j < c.n() ==> h in s.procs[j].readySent
  {
    forall j | j in c.correct && 0 <= j < c.n() ensures h in s.procs[j].readySent {
      if s.log[j] != [] {
        DeliveredIs(c, s, j, h);
      } else {
        CountsCorrectReadys(c, s, j, h);
        assert Acted(c, s.procs[j], s.log[j]);
      }
    }
  }

  /** When every correct validator has sent READY for h, none is left without delivering it. */
  lemma ReadyEverywhereDelivers(c: Config, s: Net, j: nat, h: BlockHash)
    requires Shape(c, s) && Inv(c, s) && c.Valid() && c.n() >= 3 * c.f() + 2
    requires Quiescent(c, s) && ReadyOnlyFor(c, s, h) && VerifiesEverywhere(c, h)
    requires forall i :: i in c.correct && 0 <= i < c.n() ==> h in s.procs[i].readySent
    requires j in c.correct && j < c.n()
    ensures h in s.log[j]
  {
    assert Acted(c, s.procs[j], s.log[j]);
    if s.log[j] == [] {
      assert ReadyFor(c, s, h) == c.correct;
      CountsCorrectReadys(c, s, j, h);
      assert false;
    }
    DeliveredIs(c, s, j, h);
  }

  /** Totality: once one correct validator has delivered, no quiescent state leaves another behind. */
  lemma DeliveredByOneThenByAll(c: Config, run: seq<Action>, k: nat, j: nat, h: BlockHash)
    requires Exec(c, run).Some? && c.Valid() && c.n() >= 3 * c.f() + 2
    requires FaultyOnce(c, Exec(c, run).value) && Quiescent(c, Exec(c, run).value)
    requires ReadyOnlyFor(c, Exec(c, run).value, h) && VerifiesEverywhere(c, h)
    requires k in c.correct && j in c.correct && h in Exec(c, run).value.log[k]
    ensures h in Exec(c, run).value.log[j]
  {
    var s := Exec(c, run).value;
    InvAlways(c, run);
    DeliveryNeedsReadys(c, s, k, h);
    EveryoneIsReady(c, s, h);
    ReadyEverywhereDelivers(c, s, j, h);
  }

  lemma SingleBlockReadys(c: Config, s: Net, h: BlockHash)
    requires Shape(c, s) && Inv(c, s) && SingleBlock(c, s, h)
    ensures ReadyOnlyFor(c, s, h)
  {
    forall i, x | i in c.correct && 0 <= i < c.n() && x in s.procs[i].readySent ensures x == h {
      assert ReadyOnce(c, i, s.procs[i], s.bcast[i]);
      assert multiset(s.bcast[i])[Packet(READY, x)] == 1;
      assert Packet(READY, x) in Hist(s, i, i);
    }
  }

  /** Totality with a single block in play, however often it is proposed. */
  lemma TotalityOfOneBlock(c: Config, run: seq<Action>, k: nat, j: nat, h: BlockHash)
    requires Exec(c, run).Some? && c.Valid() && c.n() >= 3 * c.f() + 2
    requires FaultyOnce(c, Exec(c, run).value) && Quiescent(c, Exec(c, run).value)
    requires SingleBlock(c, Exec(c, run).value, h) && VerifiesEverywhere(c, h)
    requires k in c.correct && j in c.correct && h in Exec(c, run).value.log[k]
    ensures h in Exec(c, run).value.log[j]
  {
    InvAlways(c, run);
    SingleBlockReadys(c, Exec(c, run).value, h);
    DeliveredByOneThenByAll(c, run, k, j, h);
  }

  /** Totality with any number of blocks in play, from agreement and one SEND per validator. */
  lemma TotalityFromAgreement(c: Config, run: seq<Action>, k: nat, j: nat, h: BlockHash)
    requires Exec(c, run).Some? && c.Valid() && c.n() >= 3 * c.f() + 2 && !CanSplit(c.params)
    requires FaultyOnce(c, Exec(c, run).value) && OneSend(c, Exec(c, run).value)
    requires Quiescent(c, Exec(c, run).value) && VerifiesEverywhere(c, h)
    requires k in c.correct && j in c.correct && h in Exec(c, run).value.log[k]
    ensures h in Exec(c, run).value.log[j]
  {
    var s := Exec(c, run).value;
    forall i, x | i in c.correct && 0 <= i < c.n() && x in s.procs[i].readySent ensures x == h {
      CorrectValidatorsAgree(c, run, i, x, k, h);
    }
    DeliveredByOneThenByAll(c, run, k, j, h);
  }

  /** Block h is all that the leader has proposed, however often. */
  ghost predicate ProposedOnly(c: Config, s: Net, h: BlockHash)
    requires Shape(c, s) && c.leader < c.n()
  {
    && Packet(SEND, h) in s.bcast[c.leader]
    && forall x :: Packet(SEND, x) in s.bcast[c.leader] ==> x == h
  }

  /** Whatever a correct validator echoes was proposed by the leader, if SENDs come from the leader only. */
  lemma EchoedWasProposed(c: Config, s: Net, i: nat, e: BlockHash)
    requires Shape(c, s) && Inv(c, s) && OnlyLeaderSends(c, s) && c.leader in c.correct && c.leader < c.n()
    requires i in c.correct && i < c.n() && Packet(ECHO, e) in s.bcast[i]
    ensures Packet(SEND, e) in s.bcast[c.leader]
  {
    assert EchoAnswersSend(s.seen[i], s.bcast[i]);
    assert multiset(s.bcast[i])[Packet(ECHO, e)] >= 1;
    var x := CountWitness(s.seen[i], Packet(SEND, e));
    assert x.from in Senders(s.seen[i], Packet(SEND, e));
    var at := SendPosition(c, s, i, x.from, e);
    assert Packet(SEND, e) in Hist(s, x.from, i);
  }

  /** A drained validator has counted the ECHO of every correct one. */
  lemma AllEchoed(c: Config, s: Net, j: nat, h: BlockHash)
    requires Shape(c, s) && Inv(c, s) && c.Valid() && c.n() >= 3 * c.f() + 2
    requires c.leader in c.correct && OnlyLeaderSends(c, s) && ProposedOnly(c, s, h)
    requires VerifiesEverywhere(c, h) && Quiescent(c, s)
    requires forall i :: i in c.correct && 0 <= i < c.n() ==> s.log[i] == []
    requires j in c.correct && j < c.n()
    ensures h in s.procs[j].readySent
  {
    var pkt := Packet(ECHO, h);
    forall i | i in c.correct ensures i in Senders(s.seen[j], pkt) {
      DrainedHasAll(c, s, i, c.leader, Packet(SEND, h));
      CountMember(s.seen[i], Item(c.leader, Packet(SEND, h)));
      assert SendIsAnswered(c, i, s.seen[i], s.bcast[i]) && c.verifies(i, h);
      var e :| Packet(ECHO, e) in s.bcast[i];
      EchoedWasProposed(c, s, i, e);
      DrainedHasAll(c, s, j, i, pkt);
    }
    SubsetSize(c.correct, Senders(s.seen[j], pkt));
    CountAtLeastSenders(s.seen[j], pkt);
    assert Accounted(c, j, s.procs[j], s.seen[j], s.log[j], h);
    assert Acted(c, s.procs[j], s.log[j]);
  }

  /**
   * Validity: the one block that a correct leader has proposed, if it verifies at every correct
   * validator, has been delivered by every correct validator in every quiescent state, whatever the
   * faulty validators echo and declare themselves ready for.
   */
  lemma ProposedIsDelivered(c: Config, run: seq<Action>, j: nat, h: BlockHash)
    requires Exec(c, run).Some? && c.Valid() && c.n() >= 3 * c.f() + 2
    requires FaultyOnce(c, Exec(c, run).value) && OnlyLeaderSends(c, Exec(c, run).value)
    requires Quiescent(c, Exec(c, run).value) && VerifiesEverywhere(c, h)
    requires c.leader in c.correct && ProposedOnly(c, Exec(c, run).value, h)
    requires j in c.correct
    ensures h in Exec(c, run).value.log[j]
  {
    var s := Exec(c, run).value;
    InvAlways(c, run);
    forall i, x | i in c.correct && 0 <= i < c.n() && x in s.procs[i].readySent ensures x == h {
      CommittedWasProposed(c, run, i, x);
    }
    if k :| k in c.correct && 0 <= k < c.n() && s.log[k] != [] {
      DeliveredIs(c, s, k, h);
      DeliveredByOneThenByAll(c, run, k, j, h);
    } else {
      forall i | i in c.correct && 0 <= i < c.n() ensures h in s.procs[i].readySent {
        AllEchoed(c, s, i, h);
      }
      ReadyEverywhereDelivers(c, s, j, h);
    }
  }

  /** The bound is exact: with f silent validators and n <= 3f+1, no run delivers anything. */
  lemma TooFewToDeliver(c: Config, run: seq<Action>, j: nat)
    requires Exec(c, run).Some? && c.Valid() && |c.correct| + c.f() == c.n() && c.n() <= 3 * c.f() + 1
    requires forall i, k, h :: 0 <= i < c.n() && i !in c.correct && 0 <= k < c.n() ==>
               Packet(READY, h) !in Hist(Exec(c, run).value, i, k)
    requires j in c.correct
    ensures Exec(c, run).value.log[j] == []
  {
    var s := Exec(c, run).value;
    InvAlways(c, run);
    if s.log[j] != [] {
      var h := s.log[j][0];
      DeliveryCountsCorrect(c, s, j, h);
    }
  }

  lemma DeliveryCountsCorrect(c: Config, s: Net, j: nat, h: BlockHash)
    requires Shape(c, s) && Inv(c, s) && c.Valid() && j in c.correct && j < c.n() && h in s.log[j]
    requires forall i, k :: 0 <= i < c.n() && i !in c.correct && k in c.correct && 0 <= k < c.n() ==>
               Packet(READY, h) !in Hist(s, i, k)
    ensures |c.correct| >= 2 * c.f() + 2
  {
    var pkt := Packet(READY, h);
    forall i | 0 <= i < c.n() ensures multiset(Hist(s, i, j))[pkt] <= if i in c.correct then 1 else 0 {
      if i in c.correct {
        assert ReadyOnce(c, i, s.procs[i], s.bcast[i]);
      } else {
        assert pkt !in Hist(s, i, j);
      }
    }
    OnceEachIfHistOnce(c, s, j, pkt);
    CountIsSenders(s.seen[j], pkt);
    SendersAreValidators(c, s, j, pkt);
    forall i | i in Senders(s.seen[j], pkt) ensures i in c.correct {
      assert multiset(s.seen[j])[Item(i, pkt)] >= 1;
      HistCount(c, s, i, j, pkt);
    }
    SubsetSize(Senders(s.seen[j], pkt), c.correct);
    assert Accounted(c, j, s.procs[j], s.seen[j], s.log[j], h);
    assert multiset(s.log[j])[h] >= 1;
    SpentAtLeast(c.f(), 1, multiset(s.log[j])[h]);
  }
}
