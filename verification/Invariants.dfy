/** What every reachable state of the network satisfies, whatever the faulty validators inject. */
module Invariants {
  import opened Common
  import opened BrachaRound
  import opened Network

  // ----- counting -----

  function Packets(items: seq<Item>): seq<Packet> {
    seq(|items|, k requires 0 <= k < |items| => items[k].pkt)
  }

  /** How many of the items carry this packet, whoever sent them. */
  function Count(items: seq<Item>, pkt: Packet): nat {
    multiset(Packets(items))[pkt]
  }

  lemma CountAppend(a: seq<Item>, b: seq<Item>, pkt: Packet)
    ensures Count(a + b, pkt) == Count(a, pkt) + Count(b, pkt)
  {
    assert Packets(a + b) == Packets(a) + Packets(b);
  }

  lemma CountSnoc(a: seq<Item>, x: Item, pkt: Packet)
    ensures Count(a + [x], pkt) == Count(a, pkt) + if x.pkt == pkt then 1 else 0
  {
    assert Packets(a + [x]) == Packets(a) + [x.pkt];
  }

  lemma CountMember(a: seq<Item>, x: Item)
    requires x in a
    ensures Count(a, x.pkt) >= 1
  {
    var k :| 0 <= k < |a| && a[k] == x;
    assert Packets(a)[k] == x.pkt;
    assert x.pkt in Packets(a);
  }

  lemma CountWitness(a: seq<Item>, pkt: Packet) returns (x: Item)
    requires Count(a, pkt) >= 1
    ensures x in a && x.pkt == pkt
  {
    assert pkt in Packets(a);
    var k :| 0 <= k < |a| && Packets(a)[k] == pkt;
    x := a[k];
  }

  /** The distinct senders of a packet. */
  ghost function Senders(items: seq<Item>, pkt: Packet): set<nat> {
    set x | x in items && x.pkt == pkt :: x.from
  }

  lemma SendersSnoc(a: seq<Item>, x: Item, pkt: Packet)
    ensures Senders(a + [x], pkt) == Senders(a, pkt) + if x.pkt == pkt then {x.from} else {}
  {
    forall i ensures i in Senders(a + [x], pkt) <==> i in Senders(a, pkt) + if x.pkt == pkt then {x.from} else {} {
      if i in Senders(a, pkt) {
        var y :| y in a && y.pkt == pkt && y.from == i;
        assert y in a + [x];
      }
      if x.pkt == pkt && x.from == i {
        assert x in a + [x];
      }
    }
  }

  /** The counters count messages; there are at least as many as senders. */
  lemma {:induction false} CountAtLeastSenders(items: seq<Item>, pkt: Packet)
    ensures Count(items, pkt) >= |Senders(items, pkt)|
  {
    if items != [] {
      var front, x := items[..|items| - 1], items[|items| - 1];
      assert items == front + [x];
      CountAtLeastSenders(front, pkt);
      CountSnoc(front, x, pkt);
      SendersSnoc(front, x, pkt);
    }
  }

  /** No sender has sent this packet more than once. */
  ghost predicate OnceEach(items: seq<Item>, pkt: Packet) {
    forall i :: multiset(items)[Item(i, pkt)] <= 1
  }

  lemma {:induction false} CountIsSenders(items: seq<Item>, pkt: Packet)
    requires OnceEach(items, pkt)
    ensures Count(items, pkt) == |Senders(items, pkt)|
  {
    if items != [] {
      var front, x := items[..|items| - 1], items[|items| - 1];
      assert items == front + [x];
      assert multiset(items) == multiset(front) + multiset{x};
      CountIsSenders(front, pkt);
      CountSnoc(front, x, pkt);
      SendersSnoc(front, x, pkt);
      if x.pkt == pkt {
        assert multiset(items)[x] == multiset(front)[x] + 1;
        assert x !in front;
      }
    }
  }

  /** How often j has drained a packet of i is how often that packet is in i's part of the traffic. */
  lemma {:induction false} FromCount(items: seq<Item>, i: nat, pkt: Packet)
    ensures multiset(From(items, i))[pkt] == multiset(items)[Item(i, pkt)]
  {
    if items != [] {
      var front, x := items[..|items| - 1], items[|items| - 1];
      assert items == front + [x];
      assert multiset(items) == multiset(front) + multiset{x};
      FromCount(front, i, pkt);
    }
  }

  lemma HistCount(c: Config, s: Net, i: nat, j: nat, pkt: Packet)
    requires Shape(c, s) && i < c.n() && j < c.n()
    ensures multiset(s.seen[j])[Item(i, pkt)] <= multiset(Hist(s, i, j))[pkt]
    ensures s.inbox[j] == [] && s.wires[i][j] == []
      ==> multiset(s.seen[j])[Item(i, pkt)] == multiset(Hist(s, i, j))[pkt]
  {
    FromAppend(s.seen[j], s.inbox[j], i);
    FromCount(s.seen[j], i, pkt);
  }

  // ----- draining a batch -----

  lemma {:induction false} DrainEffect(c: Config, j: nat, p: Proto, items: seq<Item>, h: BlockHash)
    ensures var q := Drain(c, j, p, items);
      && q.readySent == p.readySent && q.accepted == p.accepted && q.running == p.running && q.voted == p.voted
      && Tally(q.echo, h) == Tally(p.echo, h) + (if c.verifies(j, h) then Count(items, Packet(ECHO, h)) else 0)
      && Tally(q.ready, h) == Tally(p.ready, h) + (if c.verifies(j, h) then Count(items, Packet(READY, h)) else 0)
  {
    if items != [] {
      var front, x := items[..|items| - 1], items[|items| - 1];
      assert items == front + [x];
      DrainEffect(c, j, p, front, h);
      CountSnoc(front, x, Packet(ECHO, h));
      CountSnoc(front, x, Packet(READY, h));
    }
  }

  /** The batch's SEND is its last accepted one. */
  lemma {:induction false} DrainSend(c: Config, j: nat, p: Proto, items: seq<Item>)
    requires p.send == None
    ensures var q := Drain(c, j, p, items);
      && (q.send.Some? ==> Count(items, Packet(SEND, q.send.value)) >= 1)
      && (q.send.None? ==> forall h :: c.verifies(j, h) ==> Count(items, Packet(SEND, h)) == 0)
  {
    if items != [] {
      var front, x := items[..|items| - 1], items[|items| - 1];
      assert items == front + [x];
      DrainSend(c, j, p, front);
      forall pkt ensures Count(items, pkt) == Count(front, pkt) + if x.pkt == pkt then 1 else 0 {
        CountSnoc(front, x, pkt);
      }
    }
  }

  // ----- the invariants of one correct validator: its state p against its history -----

  /** Its READYs are its `ready_sent_`, one each, and it sends SENDs only as the leader. */
  ghost predicate ReadyOnce(c: Config, j: nat, p: Proto, bcast: seq<Packet>) {
    && (forall h :: multiset(bcast)[Packet(READY, h)] == if h in p.readySent then 1 else 0)
    && (j != c.leader ==> forall h :: multiset(bcast)[Packet(SEND, h)] == 0)
  }

  /** Every ECHO answers a SEND it has drained, one for one. */
  ghost predicate EchoAnswersSend(seen: seq<Item>, bcast: seq<Packet>) {
    forall h :: multiset(bcast)[Packet(ECHO, h)] <= Count(seen, Packet(SEND, h))
  }

  /** It has answered some SEND of every batch that held an acceptable one. */
  ghost predicate SendIsAnswered(c: Config, j: nat, seen: seq<Item>, bcast: seq<Packet>) {
    (exists h :: c.verifies(j, h) && Count(seen, Packet(SEND, h)) >= 1) ==> HasEchoed(bcast)
  }

  ghost predicate HasEchoed(bcast: seq<Packet>) {
    exists h :: Packet(ECHO, h) in bcast
  }

  /** The READYs that k deliveries of a block have used up. */
  function Spent(f: nat, k: nat): nat {
    if k == 0 then 0 else Spent(f, k - 1) + 2 * f + 2
  }

  lemma {:induction false} SpentIs(f: nat, k: nat)
    ensures Spent(f, k) == (2 * f + 2) * k
  {
    if k > 0 {
      SpentIs(f, k - 1);
      assert (2 * f + 2) * k == (2 * f + 2) * (k - 1) + (2 * f + 2);
    }
  }

  lemma SpentOnTwo(f: nat)
    ensures Spent(f, 2) == 4 * f + 4
  {
    assert Spent(f, 1) == 2 * f + 2;
  }

  lemma {:induction false} SpentAtLeast(f: nat, m: nat, k: nat)
    requires m <= k
    ensures Spent(f, m) <= Spent(f, k)
  {
    if m < k {
      SpentAtLeast(f, m, k - 1);
    }
  }

  /** The counters against the history: deliveries have used up 2f+2 READYs each. */
  ghost predicate Accounted(c: Config, j: nat, p: Proto, seen: seq<Item>, log: seq<BlockHash>, h: BlockHash) {
    var delivered := multiset(log)[h];
    && Tally(p.echo, h) <= Count(seen, Packet(ECHO, h))
    && Tally(p.ready, h) + Spent(c.f(), delivered) <= Count(seen, Packet(READY, h))
    && (c.verifies(j, h) && delivered == 0 ==>
          && Tally(p.echo, h) == Count(seen, Packet(ECHO, h))
          && Tally(p.ready, h) == Count(seen, Packet(READY, h)))
  }

  /** It has sent READY for what it delivered, and has left no threshold unanswered before its first delivery. */
  ghost predicate Acted(c: Config, p: Proto, log: seq<BlockHash>) {
    && (forall h :: h in log ==> h in p.readySent)
    && (log == [] ==>
          && p.running
          && (forall h :: h in p.echo && p.echo[h] >= c.params.EchoQuorum() ==> h in p.readySent)
          && (forall h :: h in p.ready && p.ready[h] >= c.params.AmplifyAt() ==> h in p.readySent)
          && (forall h :: h in p.ready ==> p.ready[h] <= c.params.DeliverAbove()))
  }

  ghost predicate NodeInv(c: Config, j: nat, p: Proto, seen: seq<Item>, bcast: seq<Packet>, log: seq<BlockHash>) {
    && ReadyOnce(c, j, p, bcast)
    && EchoAnswersSend(seen, bcast)
    && SendIsAnswered(c, j, seen, bcast)
    && (forall h :: Accounted(c, j, p, seen, log, h))
    && Acted(c, p, log)
  }

  ghost predicate Inv(c: Config, s: Net)
    requires Shape(c, s)
  {
    && Fifo(c, s)
    && forall j :: j in c.correct && j < c.n() ==> NodeInv(c, j, s.procs[j], s.seen[j], s.bcast[j], s.log[j])
  }

  lemma InvStart(c: Config)
    ensures Inv(c, Start(c))
  {
  }

  // ----- one working validator -----

  /** Its state p drains `items` and then makes a round with result r. */
  ghost predicate Works(c: Config, j: nat, p: Proto, items: seq<Item>, r: RoundOut) {
    var q := Drain(c, j, p.(send := None), items);
    && RoundSends(q, r) && RoundVotes(c.params, q, r) && RoundDelivery(c.params, q, r)
  }

  function Logged(log: seq<BlockHash>, r: RoundOut): seq<BlockHash> {
    log + if r.delivered.Some? then [r.delivered.value] else []
  }

  lemma ReadyOnceWork(c: Config, j: nat, p: Proto, bcast: seq<Packet>, items: seq<Item>, r: RoundOut)
    requires ReadyOnce(c, j, p, bcast) && Works(c, j, p, items, r)
    ensures ReadyOnce(c, j, r.state, bcast + r.sent)
  {
    DrainEffect(c, j, p.(send := None), items, []);
    assert multiset(bcast + r.sent) == multiset(bcast) + multiset(r.sent);
  }

  lemma EchoAnswersSendWork(
      c: Config, j: nat, p: Proto, seen: seq<Item>, bcast: seq<Packet>, items: seq<Item>, r: RoundOut)
    requires EchoAnswersSend(seen, bcast) && Works(c, j, p, items, r)
    ensures EchoAnswersSend(seen + items, bcast + r.sent)
  {
    DrainSend(c, j, p.(send := None), items);
    assert multiset(bcast + r.sent) == multiset(bcast) + multiset(r.sent);
    forall h
      ensures Count(seen + items, Packet(SEND, h)) == Count(seen, Packet(SEND, h)) + Count(items, Packet(SEND, h))
    {
      CountAppend(seen, items, Packet(SEND, h));
    }
  }

  lemma SendIsAnsweredWork(
      c: Config, j: nat, p: Proto, seen: seq<Item>, bcast: seq<Packet>, items: seq<Item>, r: RoundOut)
    requires SendIsAnswered(c, j, seen, bcast) && Works(c, j, p, items, r)
    ensures SendIsAnswered(c, j, seen + items, bcast + r.sent)
  {
    if h :| c.verifies(j, h) && Count(seen + items, Packet(SEND, h)) >= 1 {
      var q := Drain(c, j, p.(send := None), items);
      DrainSend(c, j, p.(send := None), items);
      CountAppend(seen, items, Packet(SEND, h));
      if q.send.Some? {
        assert multiset(r.sent)[Packet(ECHO, q.send.value)] == 1;
        assert Packet(ECHO, q.send.value) in bcast + r.sent;
      } else {
        var e :| Packet(ECHO, e) in bcast;
        assert Packet(ECHO, e) in bcast + r.sent;
      }
    }
  }

  lemma AccountedWork(
      c: Config, j: nat, p: Proto, seen: seq<Item>, log: seq<BlockHash>, items: seq<Item>, r: RoundOut, h: BlockHash)
    requires Accounted(c, j, p, seen, log, h) && Works(c, j, p, items, r)
    ensures Accounted(c, j, r.state, seen + items, Logged(log, r), h)
  {
    DrainEffect(c, j, p.(send := None), items, h);
    CountAppend(seen, items, Packet(ECHO, h));
    CountAppend(seen, items, Packet(READY, h));
    var q := Drain(c, j, p.(send := None), items);
    match r.delivered {
      case None =>
        assert Logged(log, r) == log;
      case Some(d) =>
        assert multiset(Logged(log, r)) == multiset(log) + multiset{d};
        assert multiset(Logged(log, r))[h] == multiset(log)[h] + if h == d then 1 else 0;
        assert Tally(r.state.echo, h) == if h == d then 0 else Tally(q.echo, h);
        assert Tally(r.state.ready, h) == if h == d then 0 else Tally(q.ready, h);
    }
  }

  lemma ActedWork(c: Config, j: nat, p: Proto, log: seq<BlockHash>, items: seq<Item>, r: RoundOut)
    requires Acted(c, p, log) && Works(c, j, p, items, r)
    ensures Acted(c, r.state, Logged(log, r))
  {
    DrainEffect(c, j, p.(send := None), items, []);
  }

  lemma NodeInvWork(
      c: Config, j: nat, p: Proto, seen: seq<Item>, bcast: seq<Packet>, log: seq<BlockHash>,
      items: seq<Item>, r: RoundOut)
    requires NodeInv(c, j, p, seen, bcast, log) && Works(c, j, p, items, r)
    ensures NodeInv(c, j, r.state, seen + items, bcast + r.sent, Logged(log, r))
  {
    ReadyOnceWork(c, j, p, bcast, items, r);
    EchoAnswersSendWork(c, j, p, seen, bcast, items, r);
    SendIsAnsweredWork(c, j, p, seen, bcast, items, r);
    ActedWork(c, j, p, log, items, r);
    forall h ensures Accounted(c, j, r.state, seen + items, Logged(log, r), h) {
      AccountedWork(c, j, p, seen, log, items, r, h);
    }
  }

  lemma WorkWorks(c: Config, s: Net, j: nat, eo: seq<BlockHash>, ro: seq<BlockHash>)
    requires Shape(c, s) && Enabled(c, s, Work(j, eo, ro))
    ensures Works(c, j, s.procs[j], s.inbox[j], WorkOut(c, s, j, eo, ro))
    ensures s.procs[j].readySent <= WorkOut(c, s, j, eo, ro).state.readySent
  {
    RoundMeaning(c.params, Drained(c, s, j), eo, ro);
    DrainEffect(c, j, s.procs[j].(send := None), s.inbox[j], []);
  }

  // ----- every step -----

  lemma NodeInvPropose(c: Config, p: Proto, seen: seq<Item>, bcast: seq<Packet>, log: seq<BlockHash>, h: BlockHash)
    requires NodeInv(c, c.leader, p, seen, bcast, log)
    ensures NodeInv(c, c.leader, p, seen, bcast + [Packet(SEND, h)], log)
  {
    assert multiset(bcast + [Packet(SEND, h)]) == multiset(bcast) + multiset{Packet(SEND, h)};
    if HasEchoed(bcast) {
      var e :| Packet(ECHO, e) in bcast;
      assert Packet(ECHO, e) in bcast + [Packet(SEND, h)];
    }
  }

  lemma NodeInvIdle(
      c: Config, j: nat, p: Proto, q: Proto, seen: seq<Item>, bcast: seq<Packet>, log: seq<BlockHash>)
    requires NodeInv(c, j, p, seen, bcast, log)
    requires q.echo == p.echo && q.ready == p.ready && q.readySent == p.readySent && (p.running ==> q.running)
    ensures NodeInv(c, j, q, seen, bcast, log)
  {
    forall h ensures Accounted(c, j, q, seen, log, h) {
      assert Accounted(c, j, p, seen, log, h);
    }
  }

  lemma NodeInvStep(c: Config, s: Net, a: Action, k: nat)
    requires Shape(c, s) && Enabled(c, s, a) && k < c.n()
    requires NodeInv(c, k, s.procs[k], s.seen[k], s.bcast[k], s.log[k])
    ensures var t := Apply(c, s, a); NodeInv(c, k, t.procs[k], t.seen[k], t.bcast[k], t.log[k])
  {
    var t := Apply(c, s, a);
    if a.Work? && a.node == k {
      WorkWorks(c, s, k, a.echoOrder, a.readyOrder);
      NodeInvWork(c, k, s.procs[k], s.seen[k], s.bcast[k], s.log[k], s.inbox[k],
                  WorkOut(c, s, k, a.echoOrder, a.readyOrder));
    } else if a.Propose? && c.leader == k {
      NodeInvPropose(c, s.procs[k], s.seen[k], s.bcast[k], s.log[k], a.block);
    } else {
      NodeInvIdle(c, k, s.procs[k], t.procs[k], s.seen[k], s.bcast[k], s.log[k]);
    }
  }

  lemma InvStep(c: Config, s: Net, a: Action)
    requires Shape(c, s) && Enabled(c, s, a) && Inv(c, s)
    ensures Inv(c, Apply(c, s, a))
  {
    FifoStep(c, s, a);
    forall k | k in c.correct && k < c.n()
      ensures var t := Apply(c, s, a); NodeInv(c, k, t.procs[k], t.seen[k], t.bcast[k], t.log[k])
    {
      NodeInvStep(c, s, a, k);
    }
  }

  /** The invariants hold in every state of every run. */
  lemma {:induction false} InvAlways(c: Config, run: seq<Action>)
    requires Exec(c, run).Some?
    ensures Inv(c, Exec(c, run).value)
  {
    if run == [] {
      InvStart(c);
    } else {
      InvAlways(c, run[..|run| - 1]);
      InvStep(c, Exec(c, run[..|run| - 1]).value, run[|run| - 1]);
    }
  }
}
