/** n validators, the queues between them, and every run they can make. */
module Network {
  import opened Common
  import opened BrachaRound

  /** `verifies(j, h)`: the block with hash `h` passes verification at validator `j`. */
  datatype Config = Config(
    params: Params,
    correct: set<nat>,
    leader: nat,
    verifies: (nat, BlockHash) -> bool)
  {
    function n(): nat { params.n }
    function f(): nat { params.f }

    /** The correct validators are validators, and at most f validators are not correct. */
    ghost predicate Valid() {
      (forall i :: i in correct ==> i < n()) && |correct| + f() >= n()
    }
  }

  datatype Item = Item(from: nat, pkt: Packet)

  /**
   * `wires[i][j]` is the queue validator i keeps for validator j, and `inbox[j]` is the receiving
   * queue of validator j. `seen`, `bcast` and `log` are history: what j has drained from its inbox,
   * what i has broadcast, and what j has delivered, since the start and across restarts.
   */
  datatype Net = Net(
    procs: seq<Proto>,
    wires: seq<seq<seq<Packet>>>,
    inbox: seq<seq<Item>>,
    seen: seq<seq<Item>>,
    bcast: seq<seq<Packet>>,
    log: seq<seq<BlockHash>>)

  datatype Action =
    | Propose(block: BlockHash)
    | Inject(from: nat, dest: nat, pkt: Packet)
    | Transfer(from: nat, dest: nat)
    | Work(node: nat, echoOrder: seq<BlockHash>, readyOrder: seq<BlockHash>)
    | Restart(node: nat)
    | TakeBlocks(node: nat)

  ghost predicate Shape(c: Config, s: Net) {
    && |s.procs| == |s.wires| == |s.inbox| == |s.seen| == |s.bcast| == |s.log| == c.n()
    && forall i :: 0 <= i < c.n() ==> |s.wires[i]| == c.n()
  }

  function Start(c: Config): Net {
    var n := c.n();
    Net(seq(n, _ => INITIAL), seq(n, _ => seq(n, _ => [])), seq(n, _ => []), seq(n, _ => []),
        seq(n, _ => []), seq(n, _ => []))
  }

  // ----- the steps -----

  /** Count the accepted ones of the drained messages, in their order. */
  function Drain(c: Config, j: nat, p: Proto, items: seq<Item>): Proto {
    if items == [] then p
    else
      var q := Drain(c, j, p, items[..|items| - 1]);
      var pkt := items[|items| - 1].pkt;
      if c.verifies(j, pkt.hash) then Handle(q, pkt) else q
  }

  /** Validator j's counters when its round starts. */
  function Drained(c: Config, s: Net, j: nat): Proto
    requires j < |s.procs| && j < |s.inbox|
  {
    Drain(c, j, s.procs[j].(send := None), s.inbox[j])
  }

  /** Validator i puts `out` in its queue for every validator. */
  function Push(c: Config, wires: seq<seq<seq<Packet>>>, i: nat, out: seq<Packet>): seq<seq<seq<Packet>>>
    requires i < |wires| && |wires[i]| == c.n()
  {
    wires[i := seq(c.n(), j requires 0 <= j < c.n() => wires[i][j] + out)]
  }

  function Broadcast(c: Config, s: Net, i: nat, out: seq<Packet>): Net
    requires Shape(c, s) && i < c.n()
  {
    s.(wires := Push(c, s.wires, i, out), bcast := s.bcast[i := s.bcast[i] + out])
  }

  ghost predicate Enabled(c: Config, s: Net, a: Action)
    requires Shape(c, s)
  {
    match a
    case Propose(_) => c.leader in c.correct && c.leader < c.n()
    case Inject(i, j, _) => i < c.n() && j < c.n() && i !in c.correct
    case Transfer(i, j) => i < c.n() && j < c.n() && s.wires[i][j] != []
    case Work(j, eo, ro) =>
      && j in c.correct && j < c.n() && s.procs[j].running
      && Enumerates(eo, Drained(c, s, j).echo.Keys) && Enumerates(ro, Drained(c, s, j).ready.Keys)
    case Restart(j) => j in c.correct && j < c.n() && !s.procs[j].running
    case TakeBlocks(j) => j in c.correct && j < c.n() && !s.procs[j].running
  }

  function WorkOut(c: Config, s: Net, j: nat, eo: seq<BlockHash>, ro: seq<BlockHash>): RoundOut
    requires j < |s.procs| && j < |s.inbox|
  {
    Round(c.params, Drained(c, s, j), eo, ro)
  }

  function AfterWork(c: Config, s: Net, j: nat, r: RoundOut): Net
    requires Shape(c, s) && j < c.n()
  {
    Broadcast(c, s, j, r.sent).(
      procs := s.procs[j := r.state],
      inbox := s.inbox[j := []],
      seen := s.seen[j := s.seen[j] + s.inbox[j]],
      log := s.log[j := s.log[j] + if r.delivered.Some? then [r.delivered.value] else []])
  }

  ghost function Apply(c: Config, s: Net, a: Action): (t: Net)
    requires Shape(c, s) && Enabled(c, s, a)
    ensures Shape(c, t)
  {
    match a
    case Propose(h) => Broadcast(c, s, c.leader, [Packet(SEND, h)])
    case Inject(i, j, pkt) => s.(wires := s.wires[i := s.wires[i][j := s.wires[i][j] + [pkt]]])
    case Transfer(i, j) =>
      s.(wires := s.wires[i := s.wires[i][j := s.wires[i][j][1..]]],
         inbox := s.inbox[j := s.inbox[j] + [Item(i, s.wires[i][j][0])]])
    case Work(j, eo, ro) => AfterWork(c, s, j, WorkOut(c, s, j, eo, ro))
    case Restart(j) => s.(procs := s.procs[j := s.procs[j].(running := true)])
    case TakeBlocks(j) => s.(procs := s.procs[j := s.procs[j].(accepted := [])])
  }

  /** The state a run ends in; None when some step of it was not possible. */
  ghost function Exec(c: Config, run: seq<Action>): (r: Option<Net>)
    ensures r.Some? ==> Shape(c, r.value)
  {
    if run == [] then Some(Start(c))
    else
      match Exec(c, run[..|run| - 1])
      case None => None
      case Some(s) => if Enabled(c, s, run[|run| - 1]) then Some(Apply(c, s, run[|run| - 1])) else None
  }

  // ----- what travelled from i to j -----

  /** The messages of sender i among `items`, in their order. */
  function From(items: seq<Item>, i: nat): seq<Packet> {
    if items == [] then []
    else
      var rest := From(items[..|items| - 1], i);
      var last := items[|items| - 1];
      if last.from == i then rest + [last.pkt] else rest
  }

  /** Everything i has put in its queue for j: drained by j, waiting at j, or waiting at i. */
  function Hist(s: Net, i: nat, j: nat): seq<Packet>
    requires j < |s.seen| && j < |s.inbox| && i < |s.wires| && j < |s.wires[i]|
  {
    From(s.seen[j] + s.inbox[j], i) + s.wires[i][j]
  }

  lemma {:induction false} FromAppend(a: seq<Item>, b: seq<Item>, i: nat)
    ensures From(a + b, i) == From(a, i) + From(b, i)
  {
    if b == [] {
      assert a + b == a;
    } else {
      FromAppend(a, b[..|b| - 1], i);
      assert (a + b)[..|a + b| - 1] == a + b[..|b| - 1];
    }
  }

  /** Queues are first-in first-out and lose, duplicate and reorder nothing; senders are validators. */
  ghost predicate Fifo(c: Config, s: Net)
    requires Shape(c, s)
  {
    && (forall j, x :: 0 <= j < c.n() && x in s.seen[j] + s.inbox[j] ==> x.from < c.n())
    && forall i, j :: i in c.correct && i < c.n() && 0 <= j < c.n() ==> Hist(s, i, j) == s.bcast[i]
  }

  /** What one step adds to the traffic from i to j. */
  ghost function Added(c: Config, s: Net, a: Action, i: nat, j: nat): seq<Packet>
    requires Shape(c, s) && Enabled(c, s, a)
  {
    match a
    case Propose(h) => if i == c.leader then [Packet(SEND, h)] else []
    case Inject(i', j', pkt) => if (i, j) == (i', j') then [pkt] else []
    case Work(w, eo, ro) => if i == w then WorkOut(c, s, w, eo, ro).sent else []
    case _ => []
  }

  lemma HistTransfer(c: Config, s: Net, a: Action, i: nat, j: nat)
    requires Shape(c, s) && Enabled(c, s, a) && a.Transfer? && i < c.n() && j < c.n()
    ensures Hist(Apply(c, s, a), i, j) == Hist(s, i, j)
  {
    if j == a.dest {
      var l := Item(a.from, s.wires[a.from][j][0]);
      assert s.seen[j] + (s.inbox[j] + [l]) == s.seen[j] + s.inbox[j] + [l];
      FromAppend(s.seen[j] + s.inbox[j], [l], i);
      FromOne(l, i);
      assert s.wires[a.from][j] == [l.pkt] + s.wires[a.from][j][1..];
    }
  }

  lemma FromOne(l: Item, i: nat)
    ensures From([l], i) == if l.from == i then [l.pkt] else []
  {
    assert [l][..0] == [];
  }

  lemma HistStep(c: Config, s: Net, a: Action, i: nat, j: nat)
    requires Shape(c, s) && Enabled(c, s, a) && i < c.n() && j < c.n()
    ensures Hist(Apply(c, s, a), i, j) == Hist(s, i, j) + Added(c, s, a, i, j)
  {
    hide From, WorkOut;
    var t := Apply(c, s, a);
    if a.Transfer? {
      HistTransfer(c, s, a, i, j);
    } else {
      assert t.seen[j] + t.inbox[j] == s.seen[j] + s.inbox[j];
      assert t.wires[i][j] == s.wires[i][j] + Added(c, s, a, i, j);
    }
  }

  lemma FifoStep(c: Config, s: Net, a: Action)
    requires Shape(c, s) && Enabled(c, s, a) && Fifo(c, s)
    ensures Fifo(c, Apply(c, s, a))
  {
    var t := Apply(c, s, a);
    if a.Work? {
      assert t.seen[a.node] + t.inbox[a.node] == s.seen[a.node] + s.inbox[a.node];
    }
    forall i, j | i in c.correct && i < c.n() && 0 <= j < c.n()
      ensures Hist(t, i, j) == t.bcast[i]
    {
      HistStep(c, s, a, i, j);
    }
  }
}
