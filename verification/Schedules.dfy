/**
 * Runs in which f faulty validators work on 2g correct ones: what they can slip in, what they can hold
 * back, and what follows for a validator that has received enough, all within the fault model.
 */
module Schedules {
  import opened Common
  import opened BrachaRound
  import opened Network
  import opened Invariants
  import opened Faults
  import opened Agreement
  import opened Termination

  /**
   * 2g correct validators, f faulty ones after them, the first of which leads. The first g correct
   * validators are to be won for block a, the others for block b.
   */
  datatype Plot = Plot(g: nat, f: nat, a: BlockHash, b: BlockHash) {
    function N(): nat { 2 * g + f }

    function C(): Config {
      Config(Params(N(), f), Validators(2 * g), 2 * g, (j, h) => true)
    }

    /** The block that validator j is told about. */
    function BlockFor(j: nat): BlockHash { if j < g then a else b }
  }

  ghost predicate Plotted(x: Plot) {
    x.g >= 1 && x.f >= 1 && x.a != x.b
  }

  lemma PlotIsValid(x: Plot)
    requires Plotted(x)
    ensures x.C().Valid() && CanSplit(x.C().params) && x.C().params.EchoQuorum() == x.g + x.f
    ensures x.C().leader < x.N() && forall i :: i in x.C().correct <==> 0 <= i < 2 * x.g
  {
    ValidatorsSize(2 * x.g);
  }

  // ----- staying within the fault model -----

  /** The only SENDs are first messages of the leader. */
  ghost predicate FirstSends(x: Plot, s: Net)
    requires Shape(x.C(), s)
  {
    forall i, j, k :: 0 <= j < 2 * x.g && IsSend(x.C(), s, i, j, k) ==> i == 2 * x.g && k == 0
  }

  /** The state that a run ends in, within the fault model of agreement. */
  ghost predicate Achieved(x: Plot, run: seq<Action>, s: Net) {
    && Exec(x.C(), run) == Some(s) && Shape(x.C(), s) && Inv(x.C(), s)
    && FaultyOnce(x.C(), s) && FirstSends(x, s)
  }

  lemma ExecOneMore(c: Config, run: seq<Action>, s: Net, a: Action)
    requires Exec(c, run) == Some(s) && Enabled(c, s, a)
    ensures Exec(c, run + [a]) == Some(Apply(c, s, a))
  {
    assert (run + [a])[..|run|] == run;
  }

  lemma WorkSendsNoSend(c: Config, s: Net, a: Action, k: nat)
    requires Shape(c, s) && Enabled(c, s, a) && a.Work? && k < |WorkOut(c, s, a.node, a.echoOrder, a.readyOrder).sent|
    ensures WorkOut(c, s, a.node, a.echoOrder, a.readyOrder).sent[k].kind != SEND
  {
    var r := WorkOut(c, s, a.node, a.echoOrder, a.readyOrder);
    RoundMeaning(c.params, Drained(c, s, a.node), a.echoOrder, a.readyOrder);
    assert r.sent[k] == Packet(r.sent[k].kind, r.sent[k].hash);
    assert multiset(r.sent)[Packet(r.sent[k].kind, r.sent[k].hash)] >= 1;
  }

  /** One more step, if what it adds is within the fault model. */
  lemma OneStep(x: Plot, run: seq<Action>, s: Net, a: Action) returns (t: Net)
    requires Plotted(x) && Achieved(x, run, s) && Enabled(x.C(), s, a) && (a.Transfer? || a.Work? || a.Inject?)
    requires a.Inject? ==>
      if a.pkt.kind == SEND then a.from == 2 * x.g && Hist(s, a.from, a.dest) == []
      else a.pkt !in Hist(s, a.from, a.dest)
    ensures t == Apply(x.C(), s, a) && Achieved(x, run + [a], t)
  {
    hide FaultyOnce, FirstSends, Inv;
    t := Apply(x.C(), s, a);
    ExecOneMore(x.C(), run, s, a);
    InvAlways(x.C(), run + [a]);
    StaysOnce(x, s, a);
    StaysFirst(x, s, a);
  }

  lemma StaysOnce(x: Plot, s: Net, a: Action)
    requires Plotted(x) && Shape(x.C(), s) && FaultyOnce(x.C(), s) && Enabled(x.C(), s, a)
    requires a.Transfer? || a.Work? || a.Inject?
    requires a.Inject? && a.pkt.kind != SEND ==> a.pkt !in Hist(s, a.from, a.dest)
    ensures FaultyOnce(x.C(), Apply(x.C(), s, a))
  {
    hide Apply, Hist, WorkOut;
    var c, t := x.C(), Apply(x.C(), s, a);
    forall i, j, pkt: Packet |
      0 <= i < c.n() && i !in c.correct && j in c.correct && 0 <= j < c.n() && pkt.kind != SEND
      ensures multiset(Hist(t, i, j))[pkt] <= 1
    {
      HistStep(c, s, a, i, j);
      if a.Inject? && (i, j) == (a.from, a.dest) && pkt == a.pkt {
        assert multiset(Hist(s, i, j))[pkt] == 0;
      }
    }
  }

  lemma StaysFirst(x: Plot, s: Net, a: Action)
    requires Plotted(x) && Shape(x.C(), s) && FirstSends(x, s) && Enabled(x.C(), s, a)
    requires a.Transfer? || a.Work? || a.Inject?
    requires a.Inject? && a.pkt.kind == SEND ==> a.from == 2 * x.g && Hist(s, a.from, a.dest) == []
    ensures FirstSends(x, Apply(x.C(), s, a))
  {
    hide Apply, Hist, WorkOut;
    var c, t := x.C(), Apply(x.C(), s, a);
    forall i: nat, j: nat, k: nat | j < 2 * x.g && IsSend(c, t, i, j, k)
      ensures i == 2 * x.g && k == 0
    {
      HistStep(c, s, a, i, j);
      if k < |Hist(s, i, j)| {
        assert IsSend(c, s, i, j, k);
      } else if a.Work? && i == a.node {
        WorkSendsNoSend(c, s, a, k - |Hist(s, i, j)|);
      }
    }
  }

  lemma AchievedIsFair(x: Plot, run: seq<Action>, s: Net)
    requires Plotted(x) && Achieved(x, run, s)
    ensures FaultyOnce(x.C(), s) && OneSend(x.C(), s)
  {
    PlotIsValid(x);
  }

  // ----- what the plotters and the network do -----

  function FromEach(lo: nat, hi: nat, pkt: Packet): seq<Item>
    decreases hi
  {
    if hi <= lo then [] else FromEach(lo, hi - 1, pkt) + [Item(hi - 1, pkt)]
  }

  lemma {:induction false} InFromEach(lo: nat, hi: nat, pkt: Packet, y: Item)
    ensures y in FromEach(lo, hi, pkt) <==> y.pkt == pkt && lo <= y.from < hi
    decreases hi
  {
    if hi > lo {
      InFromEach(lo, hi - 1, pkt, y);
    }
  }

  lemma {:induction false} FromHas(items: seq<Item>, i: nat, pkt: Packet)
    ensures pkt in From(items, i) <==> Item(i, pkt) in items
  {
    if items != [] {
      FromHas(items[..|items| - 1], i, pkt);
      assert items == items[..|items| - 1] + [items[|items| - 1]];
    }
  }

  function WithInbox(s: Net, j: nat, more: seq<Item>): Net
    requires j < |s.inbox|
  {
    s.(inbox := s.inbox[j := s.inbox[j] + more])
  }

  /** A faulty validator slips one new message into the inbox of j. */
  lemma SlipIn(x: Plot, run: seq<Action>, s: Net, k: nat, j: nat, pkt: Packet) returns (run': seq<Action>, t: Net)
    requires Plotted(x) && Achieved(x, run, s) && 2 * x.g <= k < x.N() && j < 2 * x.g && s.wires[k][j] == []
    requires if pkt.kind == SEND then k == 2 * x.g && s.seen[j] + s.inbox[j] == []
             else Item(k, pkt) !in s.seen[j] + s.inbox[j]
    ensures Achieved(x, run', t) && t == WithInbox(s, j, [Item(k, pkt)])
  {
    hide Achieved, Apply, Hist;
    PlotIsValid(x);
    AchievedShape(x, run, s);
    NothingOnTheWire(s, k, j, pkt);
    InjectThenTransfer(x.C(), s, k, j, pkt);
    var s1 := OneStep(x, run, s, Inject(k, j, pkt));
    run' := run + [Inject(k, j, pkt)];
    t := OneStep(x, run', s1, Transfer(k, j));
    run' := run' + [Transfer(k, j)];
  }

  lemma NothingOnTheWire(s: Net, k: nat, j: nat, pkt: Packet)
    requires j < |s.seen| && j < |s.inbox| && k < |s.wires| && j < |s.wires[k]| && s.wires[k][j] == []
    ensures pkt in Hist(s, k, j) <==> Item(k, pkt) in s.seen[j] + s.inbox[j]
    ensures s.seen[j] + s.inbox[j] == [] ==> Hist(s, k, j) == []
  {
    FromHas(s.seen[j] + s.inbox[j], k, pkt);
    assert Hist(s, k, j) == From(s.seen[j] + s.inbox[j], k);
  }

  lemma InjectThenTransfer(c: Config, s: Net, k: nat, j: nat, pkt: Packet)
    requires Shape(c, s) && k < c.n() && j < c.n() && k !in c.correct && s.wires[k][j] == []
    ensures Enabled(c, Apply(c, s, Inject(k, j, pkt)), Transfer(k, j))
    ensures Apply(c, Apply(c, s, Inject(k, j, pkt)), Transfer(k, j)) == WithInbox(s, j, [Item(k, pkt)])
  {
    var s1 := Apply(c, s, Inject(k, j, pkt));
    var t := Apply(c, s1, Transfer(k, j));
    assert s1.wires[k][j] == [pkt] && [pkt][1..] == [];
    assert forall l :: 0 <= l < c.n() ==> t.wires[k][l] == s.wires[k][l];
    assert t.wires[k] == s.wires[k];
    assert t.wires == s.wires;
  }

  lemma AchievedShape(x: Plot, run: seq<Action>, s: Net)
    requires Achieved(x, run, s)
    ensures Shape(x.C(), s) && Inv(x.C(), s) && Fifo(x.C(), s)
  {
  }

  /** All faulty validators do so. */
  lemma {:induction false} SlipInAll(x: Plot, run: seq<Action>, s: Net, hi: nat, j: nat, pkt: Packet)
    returns (run': seq<Action>, t: Net)
    requires Plotted(x) && Achieved(x, run, s) && 2 * x.g <= hi <= x.N() && j < 2 * x.g && pkt.kind != SEND
    requires forall k :: 2 * x.g <= k < hi ==> s.wires[k][j] == [] && Item(k, pkt) !in s.seen[j] + s.inbox[j]
    ensures Achieved(x, run', t) && t == WithInbox(s, j, FromEach(2 * x.g, hi, pkt))
    decreases hi
  {
    hide Achieved, FromEach, WithInbox;
    AchievedShape(x, run, s);
    if hi > 2 * x.g {
      var run1, s1 := SlipInAll(x, run, s, hi - 1, j, pkt);
      var k := hi - 1;
      NewToTheInbox(x, s, k, j, pkt);
      run', t := SlipIn(x, run1, s1, k, j, pkt);
    } else {
      run', t := run, s;
      NoneToTheInbox(x, s, j, pkt);
    }
  }

  lemma NewToTheInbox(x: Plot, s: Net, k: nat, j: nat, pkt: Packet)
    requires Shape(x.C(), s) && j < 2 * x.g <= k < x.N() && s.wires[k][j] == []
    requires Item(k, pkt) !in s.seen[j] + s.inbox[j]
    ensures var s1 := WithInbox(s, j, FromEach(2 * x.g, k, pkt));
      && Shape(x.C(), s1) && s1.wires[k][j] == [] && Item(k, pkt) !in s1.seen[j] + s1.inbox[j]
      && WithInbox(s1, j, [Item(k, pkt)]) == WithInbox(s, j, FromEach(2 * x.g, k + 1, pkt))
  {
    var some, all := FromEach(2 * x.g, k, pkt), FromEach(2 * x.g, k + 1, pkt);
    InFromEach(2 * x.g, k, pkt, Item(k, pkt));
    assert all == some + [Item(k, pkt)];
    assert s.inbox[j] + some + [Item(k, pkt)] == s.inbox[j] + all;
  }

  lemma NoneToTheInbox(x: Plot, s: Net, j: nat, pkt: Packet)
    requires Shape(x.C(), s) && j < 2 * x.g
    ensures WithInbox(s, j, FromEach(2 * x.g, 2 * x.g, pkt)) == s
  {
    assert s.inbox[j] + [] == s.inbox[j];
    assert s.inbox[j := s.inbox[j]] == s.inbox;
  }

  /** What feeding validator j from a set of validators leaves as it was. */
  ghost predicate OnlyFed(x: Plot, s: Net, t: Net, j: nat, lo: nat, hi: nat)
    requires Shape(x.C(), s) && Shape(x.C(), t) && j < x.N()
  {
    && t.procs == s.procs && t.seen == s.seen && t.bcast == s.bcast && t.log == s.log
    && (forall l :: 0 <= l < x.N() && l != j ==> t.inbox[l] == s.inbox[l])
    && (forall k, l :: 0 <= k < x.N() && 0 <= l < x.N() ==>
          t.wires[k][l] == if l == j && lo <= k < hi then [] else s.wires[k][l])
    && s.inbox[j] <= t.inbox[j]
    && (forall y :: y in t.inbox[j] ==>
          y in s.inbox[j] || (lo <= y.from < hi && y.from < x.N() && y.pkt in s.wires[y.from][j]))
  }

  /** Everything that waits at validator k for validator j arrives. */
  lemma {:induction false} Feed(x: Plot, run: seq<Action>, s: Net, k: nat, j: nat) returns (run': seq<Action>, t: Net)
    requires Plotted(x) && Achieved(x, run, s) && k < x.N() && j < x.N()
    ensures Achieved(x, run', t) && Shape(x.C(), s) && Shape(x.C(), t) && OnlyFed(x, s, t, j, k, k + 1)
    decreases |s.wires[k][j]|
  {
    hide Achieved, Apply, OnlyFed;
    AchievedShape(x, run, s);
    if s.wires[k][j] != [] {
      TransferShortens(x, s, k, j);
      var s1 := OneStep(x, run, s, Transfer(k, j));
      AchievedShape(x, run + [Transfer(k, j)], s1);
      run', t := Feed(x, run + [Transfer(k, j)], s1, k, j);
      AchievedShape(x, run', t);
      FedAfterTransfer(x, s, s1, t, k, j);
    } else {
      run', t := run, s;
      NothingFed(x, s, k, j);
    }
  }

  lemma TransferShortens(x: Plot, s: Net, k: nat, j: nat)
    requires Shape(x.C(), s) && k < x.N() && j < x.N() && s.wires[k][j] != []
    ensures Enabled(x.C(), s, Transfer(k, j))
    ensures |Apply(x.C(), s, Transfer(k, j)).wires[k][j]| < |s.wires[k][j]|
  {
  }

  lemma NothingFed(x: Plot, s: Net, k: nat, j: nat)
    requires Shape(x.C(), s) && k < x.N() && j < x.N() && s.wires[k][j] == []
    ensures OnlyFed(x, s, s, j, k, k + 1)
  {
  }

  lemma FedAfterTransfer(x: Plot, s: Net, s1: Net, t: Net, k: nat, j: nat)
    requires Shape(x.C(), s) && Shape(x.C(), s1) && Shape(x.C(), t) && k < x.N() && j < x.N()
    requires Enabled(x.C(), s, Transfer(k, j)) && s1 == Apply(x.C(), s, Transfer(k, j))
    requires OnlyFed(x, s1, t, j, k, k + 1)
    ensures OnlyFed(x, s, t, j, k, k + 1)
  {
  }

  lemma {:induction false} FeedAll(x: Plot, run: seq<Action>, s: Net, lo: nat, hi: nat, j: nat)
    returns (run': seq<Action>, t: Net)
    requires Plotted(x) && Achieved(x, run, s) && lo <= hi <= x.N() && j < x.N()
    ensures Achieved(x, run', t) && Shape(x.C(), s) && Shape(x.C(), t) && OnlyFed(x, s, t, j, lo, hi)
    decreases hi
  {
    hide Achieved;
    AchievedShape(x, run, s);
    run', t := run, s;
    if lo < hi {
      var run1, s1 := FeedAll(x, run, s, lo, hi - 1, j);
      run', t := Feed(x, run1, s1, hi - 1, j);
      FedTwice(x, s, s1, t, j, lo, hi);
    }
  }

  lemma FedTwice(x: Plot, s: Net, s1: Net, t: Net, j: nat, lo: nat, hi: nat)
    requires Shape(x.C(), s) && Shape(x.C(), s1) && Shape(x.C(), t) && j < x.N() && lo < hi <= x.N()
    requires OnlyFed(x, s, s1, j, lo, hi - 1) && OnlyFed(x, s1, t, j, hi - 1, hi)
    ensures OnlyFed(x, s, t, j, lo, hi)
  {
  }

  /** After feeding, everything a correct validator k has broadcast has reached j. */
  lemma FedHasAll(x: Plot, s: Net, k: nat, j: nat, pkt: Packet)
    requires Plotted(x) && Shape(x.C(), s) && Fifo(x.C(), s) && k < 2 * x.g && j < x.N()
    requires s.wires[k][j] == [] && pkt in s.bcast[k]
    ensures Item(k, pkt) in s.seen[j] + s.inbox[j]
  {
    PlotIsValid(x);
    FromHas(s.seen[j] + s.inbox[j], k, pkt);
    assert From(s.seen[j] + s.inbox[j], k) + [] == From(s.seen[j] + s.inbox[j], k);
    assert Hist(s, k, j) == s.bcast[k];
  }

  /** Validator j makes a round; this is what it leaves as it was. */
  ghost predicate OnlyWorked(x: Plot, s: Net, t: Net, j: nat)
    requires Shape(x.C(), s) && Shape(x.C(), t) && j < x.N()
  {
    && (forall l :: 0 <= l < x.N() && l != j ==>
          t.procs[l] == s.procs[l] && t.inbox[l] == s.inbox[l] && t.seen[l] == s.seen[l]
          && t.bcast[l] == s.bcast[l] && t.log[l] == s.log[l] && t.wires[l] == s.wires[l])
    && t.inbox[j] == [] && t.seen[j] == s.seen[j] + s.inbox[j]
    && s.bcast[j] <= t.bcast[j] && s.procs[j].readySent <= t.procs[j].readySent
  }

  lemma WorkOnly(x: Plot, s: Net, j: nat, eo: seq<BlockHash>, ro: seq<BlockHash>)
    requires Plotted(x) && Shape(x.C(), s) && j < 2 * x.g && Enabled(x.C(), s, Work(j, eo, ro))
    ensures OnlyWorked(x, s, Apply(x.C(), s, Work(j, eo, ro)), j)
  {
    var c := x.C();
    RoundMeaning(c.params, Drained(c, s, j), eo, ro);
    var p := s.procs[j].(send := None);
    DrainEffect(c, j, p, s.inbox[j], []);
    assert Drained(c, s, j).readySent == s.procs[j].readySent;
  }

  /** Validator j makes a round in any order. */
  lemma AnyRound(x: Plot, run: seq<Action>, s: Net, j: nat) returns (run': seq<Action>, t: Net)
    requires Plotted(x) && Achieved(x, run, s) && j < 2 * x.g && s.inbox[j] != [] && s.procs[j].running
    ensures Achieved(x, run', t) && Shape(x.C(), s) && Shape(x.C(), t) && OnlyWorked(x, s, t, j)
  {
    hide Achieved;
    PlotIsValid(x);
    AchievedShape(x, run, s);
    var c := x.C();
    var eo := Enumeration(Drained(c, s, j).echo.Keys);
    var ro := Enumeration(Drained(c, s, j).ready.Keys);
    t := OneStep(x, run, s, Work(j, eo, ro));
    run' := run + [Work(j, eo, ro)];
    WorkOnly(x, s, j, eo, ro);
  }

  // ----- what a validator that has not delivered has done -----

  /** A validator with fewer than 2f+2 READY senders has not delivered. */
  lemma FewReadysNoDelivery(x: Plot, run: seq<Action>, s: Net, j: nat, few: set<nat>)
    requires Plotted(x) && Achieved(x, run, s) && Shape(x.C(), s) && j < 2 * x.g && |few| <= 2 * x.f + 1
    requires forall y :: y in s.seen[j] && y.pkt.kind == READY ==> y.from in few
    ensures s.log[j] == [] && s.procs[j].running
  {
    PlotIsValid(x);
    var c := x.C();
    assert Acted(c, s.procs[j], s.log[j]);
    if s.log[j] != [] {
      var h := s.log[j][0];
      assert multiset(s.log[j])[h] >= 1;
      assert Accounted(c, j, s.procs[j], s.seen[j], s.log[j], h);
      SpentAtLeast(x.f, 1, multiset(s.log[j])[h]);
      ReadySenders(c, s, j, h);
      SubsetSize(Senders(s.seen[j], Packet(READY, h)), few);
    }
  }

  /** Enough ECHOs or READYs for h, and no delivery: the validator has sent READY for h. */
  lemma EnoughForReady(x: Plot, run: seq<Action>, s: Net, j: nat, h: BlockHash, enough: set<nat>, kind: Kind)
    requires Plotted(x) && Achieved(x, run, s) && Shape(x.C(), s) && j < 2 * x.g && s.log[j] == []
    requires (kind == ECHO && |enough| >= x.g + x.f) || (kind == READY && |enough| >= x.f + 1)
    requires forall k :: k in enough ==> Item(k, Packet(kind, h)) in s.seen[j]
    ensures h in s.procs[j].readySent
  {
    hide Senders, Count, NodeInv, FaultyOnce, FirstSends, Fifo, Exec, Between;
    PlotIsValid(x);
    EnoughSenders(s.seen[j], enough, Packet(kind, h));
    UndeliveredHasActed(x.C(), j, s.procs[j], s.seen[j], s.bcast[j], s.log[j], h);
  }

  lemma EnoughSenders(seen: seq<Item>, enough: set<nat>, pkt: Packet)
    requires forall k :: k in enough ==> Item(k, pkt) in seen
    ensures Count(seen, pkt) >= |enough|
  {
    forall k | k in enough ensures k in Senders(seen, pkt) {
      assert Item(k, pkt) in seen;
    }
    SubsetSize(enough, Senders(seen, pkt));
    CountAtLeastSenders(seen, pkt);
  }

  lemma UndeliveredHasActed(
      c: Config, j: nat, p: Proto, seen: seq<Item>, bcast: seq<Packet>, log: seq<BlockHash>, h: BlockHash)
    requires NodeInv(c, j, p, seen, bcast, log) && log == [] && c.verifies(j, h)
    ensures Count(seen, Packet(ECHO, h)) >= c.params.EchoQuorum() > 0 ==> h in p.readySent
    ensures Count(seen, Packet(READY, h)) >= c.params.AmplifyAt() ==> h in p.readySent
  {
    hide Count, Spent;
    assert Accounted(c, j, p, seen, log, h) && Acted(c, p, log);
  }
}
