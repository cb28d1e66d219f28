/** The network comes to rest: a bound on every run of transfers and rounds, and what rest means. */
module Termination {
  import opened Common
  import opened BrachaRound
  import opened Network
  import opened Invariants
  import opened Faults
  import opened Totality

  /**
   * The steps by which a network left alone gets on: a message moves, or a validator drains messages. A
   * round on an empty inbox is not one of them; it stands for a batch of which every message was rejected.
   */
  predicate Internal(s: Net, a: Action) {
    a.Transfer? || (a.Work? && a.node < |s.inbox| && s.inbox[a.node] != [])
  }

  ghost predicate Steps(c: Config, s: Net, run: seq<Action>)
    requires Shape(c, s)
    decreases |run|
  {
    run == [] || (Internal(s, run[0]) && Enabled(c, s, run[0]) && Steps(c, Apply(c, s, run[0]), run[1..]))
  }

  // ----- sums -----

  function Sum(s: seq<nat>): nat {
    if s == [] then 0 else Sum(s[..|s| - 1]) + s[|s| - 1]
  }

  /** Entry j changes by itself, and every entry grows by x. */
  lemma {:induction false} SumChange(a: seq<nat>, b: seq<nat>, j: nat, x: nat)
    requires |a| == |b| && forall k :: 0 <= k < |a| && k != j ==> b[k] == a[k] + x
    ensures if j < |a| then Sum(b) + a[j] + x == Sum(a) + b[j] + Times(|a|, x) else Sum(b) == Sum(a) + Times(|a|, x)
  {
    if a != [] {
      SumChange(a[..|a| - 1], b[..|b| - 1], j, x);
    }
  }

  function Times(n: nat, x: nat): nat {
    if n == 0 then 0 else Times(n - 1, x) + x
  }

  lemma {:induction false} TimesIs(n: nat, x: nat)
    ensures Times(n, x) == n * x
  {
    if n > 0 {
      TimesIs(n - 1, x);
      assert n * x == (n - 1) * x + x;
    }
  }

  lemma {:induction false} TimesAdd(n: nat, x: nat, y: nat)
    ensures Times(n, x + y) == Times(n, x) + Times(n, y)
  {
    if n > 0 {
      TimesAdd(n - 1, x, y);
    }
  }

  lemma TimesDouble(n: nat, x: nat)
    ensures Times(2 * n, x) == Times(n, 2 * x)
  {
    TimesIs(2 * n, x);
    TimesIs(n, 2 * x);
  }

  lemma {:induction false} TimesZero(n: nat)
    ensures Times(n, 0) == 0
  {
    if n > 0 {
      TimesZero(n - 1);
    }
  }

  // ----- the measure -----

  /** A SEND can still cause an ECHO to everyone; a message on a wire has one more step to make. */
  function Weight(n: nat, pkt: Packet): nat {
    if pkt.kind == SEND then 2 * n + 1 else 1
  }

  function WireWeight(n: nat, pkts: seq<Packet>): nat {
    if pkts == [] then 0 else WireWeight(n, pkts[..|pkts| - 1]) + Weight(n, pkts[|pkts| - 1]) + 1
  }

  function InboxWeight(n: nat, items: seq<Item>): nat {
    if items == [] then 0 else InboxWeight(n, items[..|items| - 1]) + Weight(n, items[|items| - 1].pkt)
  }

  function IncomingWeights(c: Config, s: Net, j: nat): seq<nat>
    requires Shape(c, s) && j < c.n()
  {
    seq(c.n(), i requires 0 <= i < c.n() => WireWeight(c.n(), s.wires[i][j]))
  }

  /** What validator j has still to do; `u` holds every block hash in play. */
  ghost function NodeWeight(c: Config, s: Net, u: set<BlockHash>, j: nat): nat
    requires Shape(c, s) && j < c.n()
  {
    Sum(IncomingWeights(c, s, j)) + InboxWeight(c.n(), s.inbox[j]) + Todo(c.n(), |u - s.procs[j].readySent|)
  }

  /** Marking a block still costs one message to each of n validators. */
  function Todo(n: nat, blocks: nat): nat {
    Times(2 * n, blocks)
  }

  ghost function NodeWeights(c: Config, s: Net, u: set<BlockHash>): seq<nat>
    requires Shape(c, s)
  {
    seq(c.n(), j requires 0 <= j < c.n() => NodeWeight(c, s, u, j))
  }

  ghost function Measure(c: Config, s: Net, u: set<BlockHash>): nat
    requires Shape(c, s)
  {
    Sum(NodeWeights(c, s, u))
  }

  /** Every hash that is counted or on its way is in `u`. */
  ghost predicate InPlay(c: Config, s: Net, u: set<BlockHash>)
    requires Shape(c, s)
  {
    && (forall j :: 0 <= j < c.n() ==> s.procs[j].echo.Keys <= u && s.procs[j].ready.Keys <= u)
    && (forall j, x :: 0 <= j < c.n() && x in s.inbox[j] ==> x.pkt.hash in u)
    && (forall i, j, pkt :: 0 <= i < c.n() && 0 <= j < c.n() && pkt in s.wires[i][j] ==> pkt.hash in u)
  }

  /** Every state has such a finite set. */
  lemma SomethingIsInPlay(c: Config, s: Net) returns (u: set<BlockHash>)
    requires Shape(c, s)
    ensures InPlay(c, s, u)
  {
    var counted := set j, h | 0 <= j < c.n() && h in s.procs[j].echo.Keys + s.procs[j].ready.Keys :: h;
    var waiting := set j, x | 0 <= j < c.n() && x in s.inbox[j] :: x.pkt.hash;
    var sent := set i, j, pkt | 0 <= i < c.n() && 0 <= j < c.n() && pkt in s.wires[i][j] :: pkt.hash;
    u := counted + waiting + sent;
    forall j | 0 <= j < c.n() ensures s.procs[j].echo.Keys <= u && s.procs[j].ready.Keys <= u {
      forall h | h in s.procs[j].echo.Keys + s.procs[j].ready.Keys ensures h in counted {
      }
    }
  }

  // ----- weights of queues -----

  lemma {:induction false} WireWeightAppend(n: nat, a: seq<Packet>, b: seq<Packet>)
    ensures WireWeight(n, a + b) == WireWeight(n, a) + WireWeight(n, b)
  {
    if b == [] {
      assert a + b == a;
    } else {
      WireWeightAppend(n, a, b[..|b| - 1]);
      assert (a + b)[..|a + b| - 1] == a + b[..|b| - 1];
    }
  }

  lemma {:induction false} WireWeightNoSend(n: nat, out: seq<Packet>)
    requires forall pkt :: pkt in out ==> pkt.kind != SEND
    ensures WireWeight(n, out) == 2 * |out|
  {
    if out != [] {
      WireWeightNoSend(n, out[..|out| - 1]);
    }
  }

  lemma {:induction false} InboxWeightBound(n: nat, items: seq<Item>)
    ensures InboxWeight(n, items) >= |items|
    ensures (exists x :: x in items && x.pkt.kind == SEND) ==> InboxWeight(n, items) >= 2 * n + 1
  {
    if items != [] {
      InboxWeightBound(n, items[..|items| - 1]);
      assert items == items[..|items| - 1] + [items[|items| - 1]];
    }
  }

  // ----- one step -----

  /** Moving one message from the wire to the inbox takes one off. */
  lemma TransferNodeWeights(c: Config, s: Net, u: set<BlockHash>, i: nat, j: nat)
    requires Shape(c, s) && Enabled(c, s, Transfer(i, j))
    ensures var t := Apply(c, s, Transfer(i, j));
      forall k :: 0 <= k < c.n() ==>
        NodeWeight(c, t, u, k) + (if k == j then 1 else 0) == NodeWeight(c, s, u, k)
  {
    var t := Apply(c, s, Transfer(i, j));
    var w := s.wires[i][j];
    assert w == [w[0]] + w[1..];
    WireWeightAppend(c.n(), [w[0]], w[1..]);
    assert [w[0]][..0] == [];
    assert WireWeight(c.n(), [w[0]]) == Weight(c.n(), w[0]) + 1;
    SumChange(IncomingWeights(c, s, j), IncomingWeights(c, t, j), i, 0);
    TimesZero(c.n());
    assert t.inbox[j][..|t.inbox[j]| - 1] == s.inbox[j];
    forall k | 0 <= k < c.n() && k != j ensures NodeWeight(c, t, u, k) == NodeWeight(c, s, u, k) {
      assert IncomingWeights(c, t, k) == IncomingWeights(c, s, k);
    }
  }

  lemma TransferDrops(c: Config, s: Net, u: set<BlockHash>, i: nat, j: nat)
    requires Shape(c, s) && Enabled(c, s, Transfer(i, j))
    ensures Measure(c, Apply(c, s, Transfer(i, j)), u) < Measure(c, s, u)
  {
    TransferNodeWeights(c, s, u, i, j);
    TimesZero(c.n());
    SumChange(NodeWeights(c, s, u), NodeWeights(c, Apply(c, s, Transfer(i, j)), u), j, 0);
  }

  lemma {:induction false} DrainKeys(c: Config, j: nat, p: Proto, items: seq<Item>, u: set<BlockHash>)
    requires p.echo.Keys <= u && p.ready.Keys <= u && forall x :: x in items ==> x.pkt.hash in u
    ensures Drain(c, j, p, items).echo.Keys <= u && Drain(c, j, p, items).ready.Keys <= u
  {
    if items != [] {
      assert items == items[..|items| - 1] + [items[|items| - 1]];
      DrainKeys(c, j, p, items[..|items| - 1], u);
    }
  }

  lemma RoundStaysInPlay(c: Config, s: Net, u: set<BlockHash>, j: nat, eo: seq<BlockHash>, ro: seq<BlockHash>)
    requires Shape(c, s) && Enabled(c, s, Work(j, eo, ro)) && InPlay(c, s, u)
    ensures var r := WorkOut(c, s, j, eo, ro);
      && (forall pkt :: pkt in r.sent ==> pkt.kind != SEND && pkt.hash in u)
      && r.state.echo.Keys <= u && r.state.ready.Keys <= u
      && s.procs[j].readySent <= r.state.readySent && r.state.readySent - s.procs[j].readySent <= u
  {
    var p, q := s.procs[j].(send := None), Drained(c, s, j);
    RoundMeaning(c.params, q, eo, ro);
    DrainEffect(c, j, p, s.inbox[j], []);
    DrainSend(c, j, p, s.inbox[j]);
    DrainKeys(c, j, p, s.inbox[j], u);
    SentHashes(c, p, q, s.inbox[j], WorkOut(c, s, j, eo, ro), u, j);
  }

  /** A round broadcasts no more than the messages it has drained pay for. */
  lemma RoundIsPaidFor(c: Config, s: Net, u: set<BlockHash>, j: nat, eo: seq<BlockHash>, ro: seq<BlockHash>)
    requires Shape(c, s) && Enabled(c, s, Work(j, eo, ro)) && InPlay(c, s, u)
    ensures var r := WorkOut(c, s, j, eo, ro);
      Times(c.n(), 2 * |r.sent|) + Todo(c.n(), |u - r.state.readySent|) + (if s.inbox[j] != [] then 1 else 0)
        <= InboxWeight(c.n(), s.inbox[j]) + Todo(c.n(), |u - s.procs[j].readySent|)
  {
    var q, after := Drained(c, s, j), WorkOut(c, s, j, eo, ro).state.readySent;
    var before := s.procs[j].readySent;
    var send := DrainedSend(c, s, j);
    InboxWeightBound(c.n(), s.inbox[j]);
    RoundStaysInPlay(c, s, u, j, eo, ro);
    RoundCount(c.params, q, eo, ro);
    SetDrop(before, after, u);
    Pay(c.n(), |WorkOut(c, s, j, eo, ro).sent|, send, |before|, |after|, |u - before|, |u - after|,
        InboxWeight(c.n(), s.inbox[j]));
  }

  lemma DrainedSend(c: Config, s: Net, j: nat) returns (send: nat)
    requires Shape(c, s) && j < c.n()
    ensures send == if Drained(c, s, j).send.Some? then 1 else 0
    ensures send == 1 ==> exists x :: x in s.inbox[j] && x.pkt.kind == SEND
    ensures Drained(c, s, j).readySent == s.procs[j].readySent
  {
    var q := Drained(c, s, j);
    DrainSend(c, j, s.procs[j].(send := None), s.inbox[j]);
    DrainEffect(c, j, s.procs[j].(send := None), s.inbox[j], []);
    send := 0;
    if q.send.Some? {
      var x := CountWitness(s.inbox[j], Packet(SEND, q.send.value));
      send := 1;
    }
  }

  lemma Pay(n: nat, sent: nat, send: nat, before: nat, after: nat, todoBefore: nat, todoAfter: nat, inbox: nat)
    requires sent + before == after + send && send <= 1 && before <= after
    requires todoBefore == todoAfter + (after - before)
    requires send == 1 ==> inbox >= 2 * n + 1
    ensures Times(n, 2 * sent) + Todo(n, todoAfter) + (if inbox >= 1 then 1 else 0) <= inbox + Todo(n, todoBefore)
  {
    var marked := after - before;
    TimesAdd(n, 2 * marked, 2 * send);
    TimesAdd(2 * n, todoAfter, marked);
    TimesDouble(n, marked);
    TimesIs(n, 2 * send);
  }

  lemma SetDrop<T>(a: set<T>, b: set<T>, u: set<T>)
    requires a <= b && b - a <= u
    ensures |b| >= |a| && |u - a| == |u - b| + (|b| - |a|)
  {
    assert b == a + (b - a);
    assert u - a == (u - b) + (b - a);
  }

  lemma SentHashes(c: Config, p: Proto, q: Proto, items: seq<Item>, r: RoundOut, u: set<BlockHash>, j: nat)
    requires c.n() > 0 && RoundSends(q, r) && RoundVotes(c.params, q, r) && q.echo.Keys <= u && q.ready.Keys <= u
    requires q.send.Some? ==> Count(items, Packet(SEND, q.send.value)) >= 1
    requires forall x :: x in items ==> x.pkt.hash in u
    ensures forall pkt :: pkt in r.sent ==> pkt.kind != SEND && pkt.hash in u
    ensures r.state.readySent - q.readySent <= u
  {
    forall h | h in r.state.readySent - q.readySent ensures h in u {
      assert Justified(c.params, q, h);
    }
    if q.send.Some? {
      var x := CountWitness(items, Packet(SEND, q.send.value));
    }
    forall pkt | pkt in r.sent ensures pkt.kind != SEND && pkt.hash in u {
      assert multiset(r.sent)[Packet(pkt.kind, pkt.hash)] >= 1;
    }
  }

  lemma WorkIncoming(c: Config, s: Net, j: nat, r: RoundOut, k: nat)
    requires Shape(c, s) && j < c.n() && k < c.n() && forall pkt :: pkt in r.sent ==> pkt.kind != SEND
    ensures Sum(IncomingWeights(c, AfterWork(c, s, j, r), k)) == Sum(IncomingWeights(c, s, k)) + 2 * |r.sent|
  {
    WireWeightNoSend(c.n(), r.sent);
    WireWeightAppend(c.n(), s.wires[j][k], r.sent);
    TimesZero(c.n());
    SumChange(IncomingWeights(c, s, k), IncomingWeights(c, AfterWork(c, s, j, r), k), j, 0);
  }

  /** What a round does to the weight of each validator. */
  lemma WorkNodeWeights(
      c: Config, s: Net, u: set<BlockHash>, j: nat, eo: seq<BlockHash>, ro: seq<BlockHash>, k: nat)
    requires Shape(c, s) && Enabled(c, s, Work(j, eo, ro)) && InPlay(c, s, u) && k < c.n()
    ensures var r := WorkOut(c, s, j, eo, ro);
      var t := AfterWork(c, s, j, r);
      if k != j then NodeWeight(c, t, u, k) == NodeWeight(c, s, u, k) + 2 * |r.sent|
      else
        NodeWeight(c, t, u, j) + InboxWeight(c.n(), s.inbox[j]) + Todo(c.n(), |u - s.procs[j].readySent|)
          == NodeWeight(c, s, u, j) + 2 * |r.sent| + Todo(c.n(), |u - r.state.readySent|)
  {
    hide WorkOut, IncomingWeights, Todo;
    RoundStaysInPlay(c, s, u, j, eo, ro);
    WorkIncoming(c, s, j, WorkOut(c, s, j, eo, ro), k);
  }

  /** A round uses up some of the measure, or leaves it as it is when there was nothing to drain. */
  lemma WorkDrops(c: Config, s: Net, u: set<BlockHash>, j: nat, eo: seq<BlockHash>, ro: seq<BlockHash>)
    requires Shape(c, s) && Enabled(c, s, Work(j, eo, ro)) && InPlay(c, s, u)
    ensures Measure(c, Apply(c, s, Work(j, eo, ro)), u) + (if s.inbox[j] != [] then 1 else 0) <= Measure(c, s, u)
  {
    hide WorkOut, NodeWeight, Todo, InboxWeight, InPlay;
    var r := WorkOut(c, s, j, eo, ro);
    var t := AfterWork(c, s, j, r);
    RoundIsPaidFor(c, s, u, j, eo, ro);
    forall k | 0 <= k < c.n() && k != j ensures NodeWeights(c, t, u)[k] == NodeWeights(c, s, u)[k] + 2 * |r.sent| {
      WorkNodeWeights(c, s, u, j, eo, ro, k);
    }
    WorkNodeWeights(c, s, u, j, eo, ro, j);
    SumChange(NodeWeights(c, s, u), NodeWeights(c, t, u), j, 2 * |r.sent|);
  }

  lemma InPlayStays(c: Config, s: Net, u: set<BlockHash>, a: Action)
    requires Shape(c, s) && Internal(s, a) && Enabled(c, s, a) && InPlay(c, s, u)
    ensures InPlay(c, Apply(c, s, a), u)
  {
    var t := Apply(c, s, a);
    match a {
      case Work(j, eo, ro) =>
        RoundStaysInPlay(c, s, u, j, eo, ro);
      case Transfer(i, j) =>
        assert s.wires[i][j][0] in s.wires[i][j];
    }
  }

  /** Quiescence: left alone, the network makes at most `Measure` steps. */
  lemma {:induction false} NetworkComesToRest(c: Config, s: Net, u: set<BlockHash>, run: seq<Action>)
    requires Shape(c, s) && InPlay(c, s, u) && Steps(c, s, run)
    ensures |run| <= Measure(c, s, u)
    decreases |run|
  {
    if run != [] {
      var a := run[0];
      InPlayStays(c, s, u, a);
      match a {
        case Transfer(i, j) => TransferDrops(c, s, u, i, j);
        case Work(j, eo, ro) => WorkDrops(c, s, u, j, eo, ro);
      }
      NetworkComesToRest(c, Apply(c, s, a), u, run[1..]);
    }
  }

  /** Every state has a bound on what can happen from there on, whatever the schedule. */
  lemma EveryRunIsBounded(c: Config, s: Net) returns (bound: nat)
    requires Shape(c, s)
    ensures forall run :: Steps(c, s, run) ==> |run| <= bound
  {
    var u := SomethingIsInPlay(c, s);
    bound := Measure(c, s, u);
    forall run | Steps(c, s, run) ensures |run| <= bound {
      NetworkComesToRest(c, s, u, run);
    }
  }

  // ----- whole runs -----

  /** Every block hash that was proposed or injected. */
  function Named(run: seq<Action>): set<BlockHash> {
    if run == [] then {}
    else
      match run[|run| - 1]
      case Propose(h) => Named(run[..|run| - 1]) + {h}
      case Inject(_, _, pkt) => Named(run[..|run| - 1]) + {pkt.hash}
      case _ => Named(run[..|run| - 1])
  }

  /** How many proposals and injections a run contains. */
  function Outside(run: seq<Action>): nat {
    if run == [] then 0
    else Outside(run[..|run| - 1]) + if run[|run| - 1].Propose? || run[|run| - 1].Inject? then 1 else 0
  }

  /** How many of a run's steps move or drain messages. */
  ghost function Moves(c: Config, run: seq<Action>): nat {
    if run == [] then 0
    else
      var front, a := run[..|run| - 1], run[|run| - 1];
      Moves(c, front) + if Exec(c, front).Some? && Internal(Exec(c, front).value, a) then 1 else 0
  }

  /** What one proposal or injection can set off: no more than a SEND on every wire. */
  function Charge(n: nat): nat { Times(n, 2 * n + 2) }

  ghost predicate Names(u: set<BlockHash>, a: Action) {
    match a
    case Propose(h) => h in u
    case Inject(_, _, pkt) => pkt.hash in u
    case _ => true
  }

  lemma InPlayStaysOn(c: Config, s: Net, u: set<BlockHash>, a: Action)
    requires Shape(c, s) && Enabled(c, s, a) && InPlay(c, s, u) && Names(u, a)
    ensures InPlay(c, Apply(c, s, a), u)
  {
    var t := Apply(c, s, a);
    match a {
      case Work(j, eo, ro) =>
        RoundStaysInPlay(c, s, u, j, eo, ro);
      case Transfer(i, j) =>
        assert s.wires[i][j][0] in s.wires[i][j];
      case _ =>
    }
  }

  lemma OneMoreOnTheWire(c: Config, s: Net, t: Net, u: set<BlockHash>, i: nat, j: nat, pkt: Packet)
    requires Shape(c, s) && Shape(c, t) && i < c.n() && j < c.n()
    requires t.wires[i][j] == s.wires[i][j] + [pkt]
    requires forall k :: 0 <= k < c.n() && k != i ==> t.wires[k][j] == s.wires[k][j]
    requires t.inbox[j] == s.inbox[j] && t.procs[j].readySent == s.procs[j].readySent
    ensures NodeWeight(c, t, u, j) <= NodeWeight(c, s, u, j) + 2 * c.n() + 2
  {
    WireWeightAppend(c.n(), s.wires[i][j], [pkt]);
    assert [pkt][..0] == [];
    assert WireWeight(c.n(), [pkt]) == Weight(c.n(), pkt) + 1;
    TimesZero(c.n());
    SumChange(IncomingWeights(c, s, j), IncomingWeights(c, t, j), i, 0);
  }

  lemma ProposeAdds(c: Config, s: Net, u: set<BlockHash>, h: BlockHash)
    requires Shape(c, s) && Enabled(c, s, Propose(h))
    ensures Measure(c, Apply(c, s, Propose(h)), u) <= Measure(c, s, u) + Charge(c.n())
  {
    hide NodeWeight;
    var t := Apply(c, s, Propose(h));
    forall j | 0 <= j < c.n() ensures NodeWeights(c, t, u)[j] <= NodeWeights(c, s, u)[j] + (2 * c.n() + 2) {
      OneMoreOnTheWire(c, s, t, u, c.leader, j, Packet(SEND, h));
    }
    SumGrows(NodeWeights(c, s, u), NodeWeights(c, t, u), 2 * c.n() + 2);
  }

  lemma {:induction false} SumGrows(a: seq<nat>, b: seq<nat>, x: nat)
    requires |a| == |b| && forall k :: 0 <= k < |a| ==> b[k] <= a[k] + x
    ensures Sum(b) <= Sum(a) + Times(|a|, x)
  {
    if a != [] {
      SumGrows(a[..|a| - 1], b[..|b| - 1], x);
    }
  }

  lemma InjectAdds(c: Config, s: Net, u: set<BlockHash>, i: nat, j: nat, pkt: Packet)
    requires Shape(c, s) && Enabled(c, s, Inject(i, j, pkt))
    ensures Measure(c, Apply(c, s, Inject(i, j, pkt)), u) <= Measure(c, s, u) + Charge(c.n())
  {
    hide NodeWeight;
    var t := Apply(c, s, Inject(i, j, pkt));
    OneMoreOnTheWire(c, s, t, u, i, j, pkt);
    forall k | 0 <= k < c.n() && k != j ensures NodeWeights(c, t, u)[k] == NodeWeights(c, s, u)[k] {
      UnmovedNodeWeight(c, s, t, u, k);
    }
    TimesZero(c.n());
    SumChange(NodeWeights(c, s, u), NodeWeights(c, t, u), j, 0);
    assert Times(c.n(), 2 * c.n() + 2) == Times(c.n() - 1, 2 * c.n() + 2) + (2 * c.n() + 2);
  }

  lemma UnmovedNodeWeight(c: Config, s: Net, t: Net, u: set<BlockHash>, k: nat)
    requires Shape(c, s) && Shape(c, t) && k < c.n()
    requires forall i :: 0 <= i < c.n() ==> t.wires[i][k] == s.wires[i][k]
    requires t.inbox[k] == s.inbox[k] && t.procs[k].readySent == s.procs[k].readySent
    ensures NodeWeight(c, t, u, k) == NodeWeight(c, s, u, k)
  {
    assert IncomingWeights(c, t, k) == IncomingWeights(c, s, k);
  }

  /** What one step of a run does to the measure. */
  lemma StepCharge(c: Config, s: Net, u: set<BlockHash>, a: Action)
    requires Shape(c, s) && Enabled(c, s, a) && InPlay(c, s, u)
    ensures Measure(c, Apply(c, s, a), u) + (if Internal(s, a) then 1 else 0)
         <= Measure(c, s, u) + if a.Propose? || a.Inject? then Charge(c.n()) else 0
  {
    hide Measure, InPlay, Charge;
    match a {
      case Propose(h) => ProposeAdds(c, s, u, h);
      case Inject(i, j, pkt) => InjectAdds(c, s, u, i, j, pkt);
      case Transfer(i, j) => TransferDrops(c, s, u, i, j);
      case Work(j, eo, ro) => WorkDrops(c, s, u, j, eo, ro);
      case Restart(_) => SameMeasure(c, s, a, u);
      case TakeBlocks(_) => SameMeasure(c, s, a, u);
    }
  }

  lemma SameMeasure(c: Config, s: Net, a: Action, u: set<BlockHash>)
    requires Shape(c, s) && Enabled(c, s, a) && (a.Restart? || a.TakeBlocks?)
    ensures Measure(c, Apply(c, s, a), u) == Measure(c, s, u)
  {
    hide NodeWeight;
    var t := Apply(c, s, a);
    forall k | 0 <= k < c.n() ensures NodeWeights(c, t, u)[k] == NodeWeights(c, s, u)[k] {
      UnmovedNodeWeight(c, s, t, u, k);
    }
    assert NodeWeights(c, t, u) == NodeWeights(c, s, u);
  }

  lemma {:induction false} SumOfEqual(a: seq<nat>, x: nat)
    requires forall k :: 0 <= k < |a| ==> a[k] == x
    ensures Sum(a) == Times(|a|, x)
  {
    if a != [] {
      SumOfEqual(a[..|a| - 1], x);
    }
  }

  lemma StartMeasure(c: Config, u: set<BlockHash>)
    ensures InPlay(c, Start(c), u)
    ensures Measure(c, Start(c), u) == Times(c.n(), Times(2 * c.n(), |u|))
  {
    hide NodeWeight, Times, Sum;
    var s := Start(c);
    forall j | 0 <= j < c.n() ensures NodeWeights(c, s, u)[j] == Times(2 * c.n(), |u|) {
      StartNodeWeight(c, u, j);
    }
    SumOfEqual(NodeWeights(c, s, u), Times(2 * c.n(), |u|));
  }

  lemma StartNodeWeight(c: Config, u: set<BlockHash>, j: nat)
    requires j < c.n()
    ensures NodeWeight(c, Start(c), u, j) == Times(2 * c.n(), |u|)
  {
    hide Times, Sum;
    assert u - Start(c).procs[j].readySent == u;
    SumOfEqual(IncomingWeights(c, Start(c), j), 0);
    TimesZero(c.n());
  }

  lemma {:induction false} RunCharge(c: Config, run: seq<Action>, u: set<BlockHash>)
    requires Exec(c, run).Some? && Named(run) <= u
    ensures InPlay(c, Exec(c, run).value, u)
    ensures Moves(c, run) + Measure(c, Exec(c, run).value, u)
         <= Measure(c, Start(c), u) + Times(Outside(run), Charge(c.n()))
  {
    hide Measure, InPlay, Charge, Internal;
    if run == [] {
      StartMeasure(c, u);
    } else {
      var front, a := run[..|run| - 1], run[|run| - 1];
      RunCharge(c, front, u);
      StepCharge(c, Exec(c, front).value, u, a);
      InPlayStaysOn(c, Exec(c, front).value, u, a);
    }
  }

  lemma {:induction false} FewNamed(run: seq<Action>)
    ensures |Named(run)| <= Outside(run)
  {
    if run != [] {
      FewNamed(run[..|run| - 1]);
    }
  }

  /**
   * A uniform bound: in every run, restarts and pick-ups of blocks included, the steps that move or drain
   * messages number at most 4n(n+1) for each proposal and injection.
   */
  lemma MovesAreBounded(c: Config, run: seq<Action>)
    requires Exec(c, run).Some?
    ensures Moves(c, run) <= Outside(run) * (4 * c.n() * (c.n() + 1))
  {
    hide Measure, Moves, Exec;
    var n, k, names := c.n(), Outside(run), |Named(run)|;
    RunCharge(c, run, Named(run));
    StartMeasure(c, Named(run));
    FewNamed(run);
    TimesIs(2 * n, names);
    TimesIs(n, 2 * n * names);
    TimesIs(n, 2 * n + 2);
    TimesIs(k, n * (2 * n + 2));
    Arithmetic(n, k, names);
  }

  lemma Arithmetic(n: nat, k: nat, names: nat)
    requires names <= k
    ensures n * (2 * n * names) + k * (n * (2 * n + 2)) <= k * (4 * n * (n + 1))
  {
    assert n * (2 * n * names) == 2 * n * n * names;
    assert 2 * n * n * names <= 2 * n * n * k;
    assert k * (n * (2 * n + 2)) == 2 * n * n * k + 2 * n * k;
    assert k * (4 * n * (n + 1)) == 4 * n * n * k + 4 * n * k;
  }

  // ----- rest is quiescence -----

  ghost predicate AtRest(c: Config, s: Net)
    requires Shape(c, s)
  {
    forall a :: Internal(s, a) ==> !Enabled(c, s, a)
  }

  lemma {:induction false} Enumeration(keys: set<BlockHash>) returns (order: seq<BlockHash>)
    ensures Enumerates(order, keys)
    decreases |keys|
  {
    order := [];
    if keys != {} {
      var h :| h in keys;
      var rest := Enumeration(keys - {h});
      order := rest + [h];
    }
  }

  /** In every reachable state where no step is left, the network is quiescent. */
  lemma RestIsQuiescence(c: Config, run: seq<Action>)
    requires Exec(c, run).Some? && AtRest(c, Exec(c, run).value)
    ensures Quiescent(c, Exec(c, run).value)
  {
    var s := Exec(c, run).value;
    InvAlways(c, run);
    forall j | j in c.correct && 0 <= j < c.n()
      ensures (!s.procs[j].running && s.log[j] != []) || NothingLeft(c, s, j)
    {
      forall i | 0 <= i < c.n() ensures s.wires[i][j] == [] {
        assert !Enabled(c, s, Transfer(i, j));
      }
      assert Acted(c, s.procs[j], s.log[j]);
      var eo := Enumeration(Drained(c, s, j).echo.Keys);
      var ro := Enumeration(Drained(c, s, j).ready.Keys);
      assert Internal(s, Work(j, eo, ro)) ==> !Enabled(c, s, Work(j, eo, ro));
    }
  }

  /** Validity in full: when the network has come to rest, everyone has delivered the leader's block. */
  lemma AtRestEveryoneHasDelivered(c: Config, run: seq<Action>, j: nat, h: BlockHash)
    requires Exec(c, run).Some? && c.Valid() && c.n() >= 3 * c.f() + 2
    requires FaultyOnce(c, Exec(c, run).value) && OnlyLeaderSends(c, Exec(c, run).value)
    requires AtRest(c, Exec(c, run).value) && VerifiesEverywhere(c, h)
    requires c.leader in c.correct && ProposedOnly(c, Exec(c, run).value, h)
    requires j in c.correct
    ensures h in Exec(c, run).value.log[j]
  {
    RestIsQuiescence(c, run);
    ProposedIsDelivered(c, run, j, h);
  }
}
