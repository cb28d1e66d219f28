/**
 * n nodes joined by the queues between them: every run of it is a run of the network model, so that the
 * network's theorems speak of the nodes' own accepted blocks.
 */
module Composition {
  import opened Common
  import opened Ledger
  import opened Blocks
  import opened BrachaRound
  import opened Network
  import opened Invariants
  import opened Faults
  import opened Agreement
  import opened NodeSpec
  import opened NodeRuns
  import opened KeyChain
  import opened Comms

  /** The nodes' fixed data; the validators of `config.correct` run the program. */
  datatype Cast = Cast(config: Config, codec: Codec, envs: seq<Env>) {
    function n(): nat { config.n() }

    ghost predicate Valid() {
      && config.Valid() && |envs| == n()
      && forall i :: 0 <= i < n() ==>
           envs[i].id as nat == i && envs[i].params == config.params && envs[i].codec == codec
    }
  }

  datatype Post = Post(from: nat, m: Message)

  /**
   * `told[i][j]` is history: what a correct i has sent to j, and what j has accepted from a faulty i.
   */
  datatype World = World(
    nodes: seq<NodeState>,
    wires: seq<seq<seq<Message>>>,
    inbox: seq<seq<Post>>,
    told: seq<seq<seq<Packet>>>)

  /** A faulty validator may forge any message that decodes, under its own name. */
  datatype Deed =
    | Suggest(block: BlockValue)
    | Forge(from: nat, dest: nat, m: Message)
    | Move(from: nat, dest: nat)
    | Turn(node: nat, echoOrder: seq<BlockHash>, readyOrder: seq<BlockHash>)
    | Resume(node: nat)
    | PickUp(node: nat)
    | Update(node: nat, utxolist: seq<UTXO>, walletIds: seq<u32>)

  ghost predicate Formed(x: Cast, w: World) {
    && |w.nodes| == |w.wires| == |w.inbox| == |w.told| == x.n()
    && (forall i :: 0 <= i < x.n() ==> |w.wires[i]| == x.n() && |w.told[i]| == x.n())
  }

  function Opening(x: Cast): World {
    var n := x.n();
    World(seq(n, _ => NEW_NODE), seq(n, _ => seq(n, _ => [])), seq(n, _ => []), seq(n, _ => seq(n, _ => [])))
  }

  // ----- what can happen -----

  function Pkt(x: Cast, m: Message): Packet {
    Packet(m.kind, m.block.header.ID(x.codec.h))
  }

  function Pkts(x: Cast, ms: seq<Message>): seq<Packet> {
    seq(|ms|, k requires 0 <= k < |ms| => Pkt(x, ms[k]))
  }

  function Mail(posts: seq<Post>): seq<Message> {
    seq(|posts|, k requires 0 <= k < |posts| => posts[k].m)
  }

  /** What a node has just broadcast, as it arrives. */
  function NewLetters(s: NodeState, t: NodeState): seq<Message>
    requires |s.outbox| <= |t.outbox|
  {
    WireAll(t.outbox[|s.outbox|..])
  }

  /** Node i has become t, and has put `letters` into its queue for everyone. */
  function Broadcasted(x: Cast, w: World, i: nat, t: NodeState, letters: seq<Message>): World
    requires Formed(x, w) && i < x.n()
  {
    w.(nodes := w.nodes[i := t],
       wires := w.wires[i := seq(x.n(), j requires 0 <= j < x.n() => w.wires[i][j] + letters)],
       told := w.told[i := seq(x.n(), j requires 0 <= j < x.n() => w.told[i][j] + Pkts(x, letters))])
  }

  /** The state a batch leaves behind. */
  ghost function Received(x: Cast, w: World, j: nat, n: nat): NodeState
    requires Formed(x, w) && j < x.n() && j < |x.envs| && n <= |w.inbox[j]|
  {
    ReceiveAll(x.envs[j], w.nodes[j], Mail(w.inbox[j])[..n])
  }

  /** What j accepts from validator i among the first n messages of its batch. */
  ghost function AcceptedFrom(x: Cast, w: World, j: nat, i: nat, n: nat): seq<Packet>
    requires Formed(x, w) && j < x.n() && j < |x.envs| && n <= |w.inbox[j]|
  {
    if n == 0 then []
    else
      var rest, p := AcceptedFrom(x, w, j, i, n - 1), w.inbox[j][n - 1];
      if p.from == i && Accepts(x.envs[j], Received(x, w, j, n - 1), p.m) then rest + [Pkt(x, p.m)] else rest
  }

  /** The batch is on record: for each faulty sender, what j accepts from it. */
  ghost function OnRecord(x: Cast, w: World, j: nat): (told: seq<seq<seq<Packet>>>)
    requires Formed(x, w) && j < x.n() && j < |x.envs|
    ensures |told| == x.n() && forall i :: 0 <= i < x.n() ==> |told[i]| == x.n()
  {
    seq(x.n(), i requires 0 <= i < x.n() =>
      if i in x.config.correct then w.told[i]
      else w.told[i][j := w.told[i][j] + AcceptedFrom(x, w, j, i, |w.inbox[j]|)])
  }

  ghost predicate CanTurn(x: Cast, w: World, j: nat, eo: seq<BlockHash>, ro: seq<BlockHash>)
    requires Formed(x, w) && j < x.n() && j < |x.envs|
  {
    var e, r := x.envs[j], Received(x, w, j, |w.inbox[j]|);
    && Enumerates(eo, r.proto.echo.Keys) && Enumerates(ro, r.proto.ready.Keys)
    && r.drawn > 0 && Known(r, Round(e.params, r.proto, eo, ro).sent)
  }

  /** The state a round ends in. */
  ghost function AfterTurn(x: Cast, w: World, j: nat, eo: seq<BlockHash>, ro: seq<BlockHash>): NodeState
    requires Formed(x, w) && j < x.n() && j < |x.envs| && CanTurn(x, w, j, eo, ro)
  {
    var e, r := x.envs[j], Received(x, w, j, |w.inbox[j]|);
    Halfway(e, r, Round(e.params, r.proto, eo, ro))
  }

  ghost predicate Possible(x: Cast, w: World, d: Deed)
    requires x.Valid() && Formed(x, w)
  {
    match d
    case Suggest(_) => x.config.leader in x.config.correct && w.nodes[x.config.leader].drawn > 0
    case Forge(i, j, m) => i < x.n() && j < x.n() && i !in x.config.correct && m.FromWire() && m.Sender() == i
    case Move(i, j) => i < x.n() && j < x.n() && w.wires[i][j] != []
    case Turn(j, eo, ro) => j in x.config.correct && w.nodes[j].proto.running && CanTurn(x, w, j, eo, ro)
    case Resume(j) => j in x.config.correct && !w.nodes[j].proto.running
    case PickUp(j) => j in x.config.correct && !w.nodes[j].proto.running
    case Update(j, _, _) => j in x.config.correct
  }

  ghost function After(x: Cast, w: World, d: Deed): (v: World)
    requires x.Valid() && Formed(x, w) && Possible(x, w, d)
    ensures Formed(x, v)
  {
    match d
    case Suggest(b) =>
      var i := x.config.leader;
      var t := SignAndSend(x.envs[i], w.nodes[i], Signing(SEND, b, 0));
      Broadcasted(x, w, i, t, NewLetters(w.nodes[i], t))
    case Forge(i, j, m) => w.(wires := w.wires[i := w.wires[i][j := w.wires[i][j] + [m]]])
    case Move(i, j) =>
      w.(wires := w.wires[i := w.wires[i][j := w.wires[i][j][1..]]],
         inbox := w.inbox[j := w.inbox[j] + [Post(i, w.wires[i][j][0])]])
    case Turn(j, eo, ro) =>
      var t := AfterTurn(x, w, j, eo, ro);
      TurnGrowsOutbox(x, w, j, eo, ro);
      Broadcasted(x, w.(inbox := w.inbox[j := []], told := OnRecord(x, w, j)), j, t, NewLetters(w.nodes[j], t))
    case Resume(j) => WithProto(w, j, w.nodes[j].proto.(running := true))
    case PickUp(j) => WithProto(w, j, w.nodes[j].proto.(accepted := []))
    case Update(j, list, ids) => w.(nodes := w.nodes[j := w.nodes[j].(utxolist := list, walletIds := ids)])
  }

  function WithProto(w: World, j: nat, p: Proto): World
    requires j < |w.nodes|
  {
    w.(nodes := w.nodes[j := w.nodes[j].(proto := p)])
  }

  lemma TurnGrowsOutbox(x: Cast, w: World, j: nat, eo: seq<BlockHash>, ro: seq<BlockHash>)
    requires Formed(x, w) && j < x.n() && j < |x.envs| && CanTurn(x, w, j, eo, ro)
    ensures var t := AfterTurn(x, w, j, eo, ro);
      && w.nodes[j].outbox <= t.outbox
      && forall k :: |w.nodes[j].outbox| <= k < |t.outbox| ==>
           t.outbox[k].block.validatorId == x.envs[j].id && t.outbox[k].block.nextKey.Complete()
  {
    hide ReceiveAll, Round;
    var e, r := x.envs[j], Received(x, w, j, |w.inbox[j]|);
    ReceivingSendsNothing(e, w.nodes[j], Mail(w.inbox[j])[..|w.inbox[j]|]);
    EmittedWell(e, r, Round(e.params, r.proto, eo, ro).sent);
  }

  /** What a node emits carries its name and a complete next key. */
  lemma {:induction false} EmittedWell(e: Env, s: NodeState, pkts: seq<Packet>)
    requires s.drawn > 0 && Known(s, pkts)
    ensures var t := EmitAll(e, s, pkts);
      && s.outbox <= t.outbox
      && forall k :: |s.outbox| <= k < |t.outbox| ==>
           t.outbox[k].block.validatorId == e.id && t.outbox[k].block.nextKey.Complete()
  {
    if pkts != [] {
      var front := pkts[..|pkts| - 1];
      EmittedWell(e, s, front);
      PairMatches(e, EmitAll(e, s, front).drawn);
    }
  }

  /**
   * The world a list of deeds ends in; None when one of them was not possible, or when a node did not
   * judge what it drained by block ID.
   */
  ghost function Story(x: Cast, deeds: seq<Deed>): (r: Option<World>)
    requires x.Valid()
    ensures r.Some? ==> Formed(x, r.value)
  {
    if deeds == [] then Some(Opening(x))
    else
      match Story(x, deeds[..|deeds| - 1])
      case None => None
      case Some(w) =>
        var d := deeds[|deeds| - 1];
        if Possible(x, w, d) && Judged(x, w, d) then Some(After(x, w, d)) else None
  }

  ghost predicate Judged(x: Cast, w: World, d: Deed)
    requires x.Valid() && Formed(x, w)
  {
    d.Turn? && d.node < x.n() ==> JudgedById(x.envs[d.node], x.config, d.node, w.nodes[d.node], Mail(w.inbox[d.node]))
  }

  // ----- the world stays orderly -----

  ghost predicate WellSent(i: nat, m: Message) {
    m.FromWire() && m.Sender() == i
  }

  /** What every world keeps: stores are in order, and letters carry their senders' names. */
  ghost predicate Orderly(x: Cast, w: World)
    requires x.Valid() && Formed(x, w)
  {
    && (forall j :: j in x.config.correct ==> StoreInv(x.envs[j], w.nodes[j]) && w.nodes[j].drawn > 0)
    && (forall i, j, k :: 0 <= i < x.n() && 0 <= j < x.n() && 0 <= k < |w.wires[i][j]| ==>
          WellSent(i, w.wires[i][j][k]))
    && (forall j, k :: 0 <= j < x.n() && 0 <= k < |w.inbox[j]| ==>
          w.inbox[j][k].from < x.n() && WellSent(w.inbox[j][k].from, w.inbox[j][k].m))
  }

  lemma LettersWellSent(x: Cast, i: nat, s: NodeState, t: NodeState)
    requires x.Valid() && i < x.n() && s.outbox <= t.outbox
    requires forall k :: |s.outbox| <= k < |t.outbox| ==>
      t.outbox[k].block.validatorId == x.envs[i].id && t.outbox[k].block.nextKey.Complete()
    ensures forall k :: 0 <= k < |NewLetters(s, t)| ==> WellSent(i, NewLetters(s, t)[k])
  {
    forall k | 0 <= k < |NewLetters(s, t)| ensures WellSent(i, NewLetters(s, t)[k]) {
      assert NewLetters(s, t)[k] == Wire(t.outbox[|s.outbox| + k]);
    }
  }

  lemma BroadcastedOrderly(x: Cast, w: World, i: nat, t: NodeState, letters: seq<Message>)
    requires x.Valid() && Formed(x, w) && Orderly(x, w) && i < x.n()
    requires StoreInv(x.envs[i], t) && t.drawn > 0
    requires forall k :: 0 <= k < |letters| ==> WellSent(i, letters[k])
    ensures Orderly(x, Broadcasted(x, w, i, t, letters))
  {
    hide StoreInv, WellSent, Pkts;
  }

  lemma SuggestOrderly(x: Cast, w: World, b: BlockValue)
    requires x.Valid() && Formed(x, w) && Orderly(x, w) && Possible(x, w, Suggest(b))
    ensures Orderly(x, After(x, w, Suggest(b)))
  {
    hide StoreInv, WellSent, Pkts, NewLetters;
    var i := x.config.leader;
    var e, s := x.envs[i], w.nodes[i];
    var t := SignAndSend(e, s, Signing(SEND, b, 0));
    SignKeepsInv(e, s, Signing(SEND, b, 0));
    PairMatches(e, s.drawn);
    LettersWellSent(x, i, s, t);
    BroadcastedOrderly(x, w, i, t, NewLetters(s, t));
  }

  lemma MailFromWire(x: Cast, w: World, j: nat)
    requires x.Valid() && Formed(x, w) && Orderly(x, w) && j < x.n()
    ensures forall k :: 0 <= k < |Mail(w.inbox[j])| ==>
      Mail(w.inbox[j])[k].FromWire() && Mail(w.inbox[j])[k].Sender() == w.inbox[j][k].from
  {
    forall k | 0 <= k < |w.inbox[j]| ensures WellSent(w.inbox[j][k].from, w.inbox[j][k].m) {
    }
  }

  lemma TurnKeepsStore(x: Cast, w: World, j: nat, eo: seq<BlockHash>, ro: seq<BlockHash>)
    requires x.Valid() && Formed(x, w) && Orderly(x, w) && Possible(x, w, Turn(j, eo, ro))
    ensures StoreInv(x.envs[j], AfterTurn(x, w, j, eo, ro)) && AfterTurn(x, w, j, eo, ro).drawn > 0
  {
    hide StoreInv, ReceiveAll, Round, KnownOut;
    var e, s, msgs := x.envs[j], w.nodes[j], Mail(w.inbox[j]);
    assert msgs[..|w.inbox[j]|] == msgs;
    var r := ReceiveAll(e, s, msgs);
    MailFromWire(x, w, j);
    ReceiveAllKeepsInv(e, s, msgs);
    RoundSpeaksOfStored(e, r, eo, ro);
    HalfwayKeepsInv(e, r, Round(e.params, r.proto, eo, ro));
  }

  lemma TurnOrderly(x: Cast, w: World, j: nat, eo: seq<BlockHash>, ro: seq<BlockHash>)
    requires x.Valid() && Formed(x, w) && Orderly(x, w) && Possible(x, w, Turn(j, eo, ro))
    ensures Orderly(x, After(x, w, Turn(j, eo, ro)))
  {
    hide StoreInv, WellSent, AfterTurn, CanTurn, OnRecord, Pkts, NewLetters;
    TurnKeepsStore(x, w, j, eo, ro);
    TurnGrowsOutbox(x, w, j, eo, ro);
    var t := AfterTurn(x, w, j, eo, ro);
    LettersWellSent(x, j, w.nodes[j], t);
    BroadcastedOrderly(x, w.(inbox := w.inbox[j := []], told := OnRecord(x, w, j)), j, t, NewLetters(w.nodes[j], t));
  }

  lemma AfterOrderly(x: Cast, w: World, d: Deed)
    requires x.Valid() && Formed(x, w) && Orderly(x, w) && Possible(x, w, d)
    ensures Orderly(x, After(x, w, d))
  {
    hide StoreInv, WellSent, CanTurn, AfterTurn;
    match d {
      case Suggest(b) => SuggestOrderly(x, w, b);
      case Turn(j, eo, ro) => TurnOrderly(x, w, j, eo, ro);
      case Forge(i, j, m) => ForgedIsWellSent(i, m);
      case Move(i, j) =>
      case Resume(j) =>
        SetProtoKeepsInv(x.envs[j], w.nodes[j]);
      case PickUp(j) =>
        SetProtoKeepsInv(x.envs[j], w.nodes[j]);
      case Update(j, list, ids) =>
        InvMentions(x.envs[j], w.nodes[j]);
        SmallChangesKeepInv(x.envs[j], w.nodes[j], w.nodes[j].proto, list, ids, w.nodes[j].drawn);
    }
  }

  lemma ForgedIsWellSent(i: nat, m: Message)
    ensures WellSent(i, m) <==> m.FromWire() && m.Sender() == i
  {
  }

  lemma SetProtoKeepsInv(e: Env, s: NodeState)
    requires StoreInv(e, s)
    ensures StoreInv(e, s.(proto := s.proto.(running := true)))
    ensures StoreInv(e, s.(proto := s.proto.(accepted := [])))
  {
    hide StoredWell, Records;
  }

  // ----- the world as the network model sees it -----

  /** What of validator i has arrived at a node and waits to be drained. */
  function Unread(x: Cast, posts: seq<Post>, i: nat): seq<Packet> {
    if posts == [] then []
    else if posts[0].from == i then [Pkt(x, posts[0].m)] + Unread(x, posts[1..], i)
    else Unread(x, posts[1..], i)
  }

  /**
   * The network model moves a message into an inbox only when the node drains it, and lets a faulty
   * validator inject one only when it is accepted.
   */
  ghost predicate Mirrors(x: Cast, w: World, s: Net)
    requires x.Valid() && Formed(x, w)
  {
    && Shape(x.config, s)
    && (forall j :: j in x.config.correct ==> s.procs[j] == w.nodes[j].proto)
    && (forall j :: 0 <= j < x.n() ==> s.inbox[j] == [])
    && (forall i, j :: 0 <= i < x.n() && 0 <= j < x.n() ==>
          s.wires[i][j] == Queued(x, w.inbox[j], w.wires[i][j], i))
    && (forall i, j :: 0 <= i < x.n() && 0 <= j < x.n() ==> Hist(s, i, j) == w.told[i][j])
  }

  /** What the network model has waiting from i at a node: what has arrived, and what is on its way. */
  function Queued(x: Cast, posts: seq<Post>, wire: seq<Message>, i: nat): seq<Packet> {
    if i in x.config.correct then Unread(x, posts, i) + Pkts(x, wire) else []
  }

  lemma PktsAppend(x: Cast, a: seq<Message>, b: seq<Message>)
    ensures Pkts(x, a + b) == Pkts(x, a) + Pkts(x, b)
  {
  }

  lemma {:induction false} UnreadSnoc(x: Cast, posts: seq<Post>, p: Post, i: nat)
    ensures Unread(x, posts + [p], i) == Unread(x, posts, i) + if p.from == i then [Pkt(x, p.m)] else []
  {
    if posts == [] {
      assert [] + [p] == [p] && [p][1..] == [];
    } else {
      UnreadSnoc(x, posts[1..], p, i);
      assert (posts + [p])[1..] == posts[1..] + [p];
    }
  }

  lemma OpeningMirrors(x: Cast)
    requires x.Valid()
    ensures Mirrors(x, Opening(x), Start(x.config)) && Orderly(x, Opening(x))
  {
    var w, s := Opening(x), Start(x.config);
    forall j | j in x.config.correct ensures StoreInv(x.envs[j], w.nodes[j]) {
      NewNodeInv(x.envs[j]);
    }
    forall i, j | 0 <= i < x.n() && 0 <= j < x.n() ensures Hist(s, i, j) == w.told[i][j] {
    }
  }

  lemma ExecOneMore(c: Config, run: seq<Action>, s: Net, a: Action)
    requires Exec(c, run) == Some(s) && Enabled(c, s, a)
    ensures Exec(c, run + [a]) == Some(Apply(c, s, a))
  {
    assert (run + [a])[..|run|] == run;
  }

  // ----- deeds that the network model does not see -----

  /** Moving a message from the wire to the inbox does not change what is queued. */
  lemma QueuedMoves(x: Cast, posts: seq<Post>, m: Message, rest: seq<Message>, i: nat, from: nat)
    ensures Queued(x, posts + [Post(from, m)], rest, from) == Queued(x, posts, [m] + rest, from)
    ensures i != from ==> forall wire :: Queued(x, posts + [Post(from, m)], wire, i) == Queued(x, posts, wire, i)
  {
    hide Unread;
    UnreadSnoc(x, posts, Post(from, m), from);
    UnreadSnoc(x, posts, Post(from, m), i);
    PktsAppend(x, [m], rest);
    assert Pkts(x, [m]) == [Pkt(x, m)];
    assert Unread(x, posts, from) + [Pkt(x, m)] + Pkts(x, rest)
        == Unread(x, posts, from) + ([Pkt(x, m)] + Pkts(x, rest));
    assert Unread(x, posts, i) + [] == Unread(x, posts, i);
  }

  lemma MoveMirrors(x: Cast, w: World, s: Net, i: nat, j: nat)
    requires x.Valid() && Formed(x, w) && Mirrors(x, w, s) && Possible(x, w, Move(i, j))
    ensures Mirrors(x, After(x, w, Move(i, j)), s)
  {
    hide Queued, Hist;
    var v, m, rest := After(x, w, Move(i, j)), w.wires[i][j][0], w.wires[i][j][1..];
    assert w.wires[i][j] == [m] + rest;
    forall k, l | 0 <= k < x.n() && 0 <= l < x.n()
      ensures s.wires[k][l] == Queued(x, v.inbox[l], v.wires[k][l], k)
    {
      assert s.wires[k][l] == Queued(x, w.inbox[l], w.wires[k][l], k);
      QueuedMoves(x, w.inbox[j], m, rest, k, i);
    }
  }

  lemma ForgeMirrors(x: Cast, w: World, s: Net, i: nat, j: nat, m: Message)
    requires x.Valid() && Formed(x, w) && Mirrors(x, w, s) && Possible(x, w, Forge(i, j, m))
    ensures Mirrors(x, After(x, w, Forge(i, j, m)), s)
  {
    hide Unread, Hist, Pkts;
    var v := After(x, w, Forge(i, j, m));
    forall k, l | 0 <= k < x.n() && 0 <= l < x.n()
      ensures s.wires[k][l] == Queued(x, v.inbox[l], v.wires[k][l], k)
    {
      assert s.wires[k][l] == Queued(x, w.inbox[l], w.wires[k][l], k);
    }
  }

  // ----- broadcasting -----

  lemma WireKeepsPkt(x: Cast, m: Message)
    ensures Pkt(x, Wire(m)) == Pkt(x, m)
  {
  }

  /** What the network model sees of a broadcast. */
  lemma NewLettersPkts(x: Cast, i: nat, s: NodeState, t: NodeState, out: seq<Packet>)
    requires x.Valid() && i < x.n() && s.outbox <= t.outbox
    requires PacketsOf(x.envs[i], t.outbox) == PacketsOf(x.envs[i], s.outbox) + out
    ensures Pkts(x, NewLetters(s, t)) == out
  {
    var letters, e, n := NewLetters(s, t), x.envs[i], |s.outbox|;
    assert |PacketsOf(e, t.outbox)| == |t.outbox| && |PacketsOf(e, s.outbox)| == n;
    assert |letters| == |out|;
    forall k | 0 <= k < |out| ensures out[k] == Pkt(x, letters[k]) {
      assert PacketsOf(e, t.outbox)[n + k] == out[k];
      assert letters[k] == Wire(t.outbox[n + k]);
      WireKeepsPkt(x, t.outbox[n + k]);
    }
  }

  /** What is broadcast is queued. */
  lemma QueuedAppend(x: Cast, posts: seq<Post>, wire: seq<Message>, letters: seq<Message>, i: nat)
    requires i in x.config.correct
    ensures Queued(x, posts, wire + letters, i) == Queued(x, posts, wire, i) + Pkts(x, letters)
  {
    hide Unread, Pkts;
    PktsAppend(x, wire, letters);
    assert Unread(x, posts, i) + Pkts(x, wire) + Pkts(x, letters)
        == Unread(x, posts, i) + (Pkts(x, wire) + Pkts(x, letters));
  }

  /** A broadcast of the world against the broadcast of a proposal. */
  lemma ProposeMirrors(x: Cast, w: World, s: Net, h: BlockHash, q: NodeState, letters: seq<Message>)
    requires x.Valid() && Formed(x, w) && Mirrors(x, w, s) && Enabled(x.config, s, Propose(h))
    requires Pkts(x, letters) == [Packet(SEND, h)] && q.proto == w.nodes[x.config.leader].proto
    ensures Mirrors(x, Broadcasted(x, w, x.config.leader, q, letters), Apply(x.config, s, Propose(h)))
  {
    hide Queued, Hist, Pkts;
    var i, t := x.config.leader, Apply(x.config, s, Propose(h));
    var v := Broadcasted(x, w, i, q, letters);
    forall k, j | 0 <= k < x.n() && 0 <= j < x.n()
      ensures t.wires[k][j] == Queued(x, v.inbox[j], v.wires[k][j], k)
      ensures Hist(t, k, j) == v.told[k][j]
    {
      assert s.wires[k][j] == Queued(x, w.inbox[j], w.wires[k][j], k) && Hist(s, k, j) == w.told[k][j];
      QueuedAppend(x, w.inbox[j], w.wires[i][j], letters, i);
      HistStep(x.config, s, Propose(h), k, j);
      assert Hist(s, k, j) + [] == Hist(s, k, j);
    }
  }

  lemma BroadcastNothing(x: Cast, w: World, i: nat, t: NodeState)
    requires Formed(x, w) && i < x.n()
    ensures Broadcasted(x, w, i, t, []) == w.(nodes := w.nodes[i := t])
  {
    var v := Broadcasted(x, w, i, t, []);
    assert Pkts(x, []) == [];
    assert forall j :: 0 <= j < x.n() ==> v.wires[i][j] == w.wires[i][j] && v.told[i][j] == w.told[i][j];
    assert v.wires[i] == w.wires[i] && v.told[i] == w.told[i];
    assert v.wires == w.wires && v.told == w.told;
  }

  lemma SuggestMirrors(x: Cast, w: World, run: seq<Action>, s: Net, b: BlockValue) returns (run': seq<Action>, t: Net)
    requires x.Valid() && Formed(x, w) && Orderly(x, w) && Exec(x.config, run) == Some(s) && Mirrors(x, w, s)
    requires Possible(x, w, Suggest(b))
    ensures Exec(x.config, run') == Some(t) && Mirrors(x, After(x, w, Suggest(b)), t)
  {
    hide Exec, Unread, Hist, SignedBlock, PacketsOf, StoreInv, Pkts, Orderly;
    var i := x.config.leader;
    var e, p := x.envs[i], w.nodes[i];
    var q := SignAndSend(e, p, Signing(SEND, b, 0));
    if b.isMutable {
      run', t := run, s;
      assert NewLetters(p, q) == [];
      BroadcastNothing(x, w, i, q);
    } else {
      var h := b.header.ID(e.codec.h);
      ExecOneMore(x.config, run, s, Propose(h));
      run', t := run + [Propose(h)], Apply(x.config, s, Propose(h));
      EmitShowsPacket(e, p, SEND, b, 0);
      NewLettersPkts(x, i, p, q, [Packet(SEND, h)]);
      ProposeMirrors(x, w, s, h, q, NewLetters(p, q));
    }
  }

  // ----- a turn: the network model drains the same batch -----

  /** The network has followed j through the first n messages of its batch. */
  ghost predicate Following(x: Cast, w: World, s: Net, t: Net, j: nat, n: nat)
    requires x.Valid() && Formed(x, w) && j < x.n() && n <= |w.inbox[j]| && Shape(x.config, s)
  {
    && Shape(x.config, t) && t.procs == s.procs
    && (forall l :: 0 <= l < x.n() && l != j ==> t.inbox[l] == [])
    && Shows(x.envs[j], Visible(x.envs[j], x.config, w.nodes[j], Mail(w.inbox[j])[..n]), t.inbox[j])
    && (forall i, l :: 0 <= i < x.n() && 0 <= l < x.n() ==>
          t.wires[i][l] == Queued(x, if l == j then w.inbox[j][n..] else w.inbox[l], w.wires[i][l], i))
    && (forall i, l :: 0 <= i < x.n() && 0 <= l < x.n() ==> Hist(t, i, l) == ToldUpTo(x, w, s, j, n, i, l))
  }

  /** The traffic when j has drained the first n messages of its batch. */
  ghost function ToldUpTo(x: Cast, w: World, s: Net, j: nat, n: nat, i: nat, l: nat): seq<Packet>
    requires Formed(x, w) && |x.envs| == x.n() && j < x.n() && n <= |w.inbox[j]| && Shape(x.config, s)
    requires i < x.n() && l < x.n()
  {
    if l == j && i !in x.config.correct then Hist(s, i, l) + AcceptedFrom(x, w, j, i, n) else Hist(s, i, l)
  }

  /** One more message of the batch adds to the traffic if a faulty validator's message is accepted. */
  lemma ToldNext(x: Cast, w: World, s: Net, j: nat, n: nat, i: nat, l: nat)
    requires Formed(x, w) && |x.envs| == x.n() && j < x.n() && n < |w.inbox[j]| && Shape(x.config, s)
    requires i < x.n() && l < x.n()
    ensures var p := w.inbox[j][n];
      ToldUpTo(x, w, s, j, n + 1, i, l) == ToldUpTo(x, w, s, j, n, i, l)
        + if l == j && i == p.from && i !in x.config.correct && Accepts(x.envs[j], Received(x, w, j, n), p.m)
          then [Pkt(x, p.m)] else []
  {
    hide Hist, Accepts, Received;
  }

  lemma FollowingStarts(x: Cast, w: World, s: Net, j: nat)
    requires x.Valid() && Formed(x, w) && Mirrors(x, w, s) && j < x.n()
    ensures Following(x, w, s, s, j, 0)
  {
    hide Hist, Unread, Pkts;
    assert Mail(w.inbox[j])[..0] == [] && w.inbox[j][0..] == w.inbox[j];
    forall i, l | 0 <= i < x.n() && 0 <= l < x.n() ensures Hist(s, i, l) == ToldUpTo(x, w, s, j, 0, i, l) {
      assert Hist(s, i, l) + [] == Hist(s, i, l);
    }
  }

  /** One more message that the network model sees. */
  lemma VisibleNext(x: Cast, w: World, j: nat, n: nat, items: seq<Item>)
    requires x.Valid() && Formed(x, w) && Orderly(x, w) && j < x.n() && n < |w.inbox[j]|
    requires Shows(x.envs[j], Visible(x.envs[j], x.config, w.nodes[j], Mail(w.inbox[j])[..n]), items)
    ensures var p, e := w.inbox[j][n], x.envs[j];
      Shows(e, Visible(e, x.config, w.nodes[j], Mail(w.inbox[j])[..n + 1]),
            if p.from in x.config.correct || Accepts(e, Received(x, w, j, n), p.m)
            then items + [Item(p.from, Pkt(x, p.m))] else items)
  {
    hide Accepts, ReceiveAll, Orderly;
    MailFromWire(x, w, j);
    assert Mail(w.inbox[j])[..n + 1][..n] == Mail(w.inbox[j])[..n];
    assert Mail(w.inbox[j])[n].Sender() == w.inbox[j][n].from;
  }

  /** What is queued when the next message has been drained. */
  lemma QueuedNext(x: Cast, posts: seq<Post>, n: nat, wire: seq<Message>, i: nat)
    requires n < |posts|
    ensures Queued(x, posts[n..], wire, i)
         == (if i in x.config.correct && posts[n].from == i then [Pkt(x, posts[n].m)] else [])
            + Queued(x, posts[n + 1..], wire, i)
  {
    hide Pkts;
    assert posts[n..][1..] == posts[n + 1..];
    var rest := Unread(x, posts[n + 1..], i);
    assert [Pkt(x, posts[n].m)] + rest + Pkts(x, wire) == [Pkt(x, posts[n].m)] + (rest + Pkts(x, wire));
  }

  /** A correct validator's message: it moves from the wire into the inbox. */
  lemma FollowCorrect(x: Cast, w: World, s: Net, run: seq<Action>, t: Net, j: nat, n: nat)
    returns (run': seq<Action>, t': Net)
    requires x.Valid() && Formed(x, w) && Orderly(x, w) && Shape(x.config, s) && j < x.n() && n < |w.inbox[j]|
    requires Exec(x.config, run) == Some(t) && Following(x, w, s, t, j, n)
    requires w.inbox[j][n].from in x.config.correct
    ensures Exec(x.config, run') == Some(t') && Following(x, w, s, t', j, n + 1)
  {
    hide Exec, Queued, Hist, Orderly, Visible, Accepts, Shows, Received, ToldUpTo;
    var c, p := x.config, w.inbox[j][n];
    var a := Transfer(p.from, j);
    QueuedNext(x, w.inbox[j], n, w.wires[p.from][j], p.from);
    assert t.wires[p.from][j] == [Pkt(x, p.m)] + Queued(x, w.inbox[j][n + 1..], w.wires[p.from][j], p.from);
    ExecOneMore(c, run, t, a);
    run', t' := run + [a], Apply(c, t, a);
    VisibleNext(x, w, j, n, t.inbox[j]);
    forall i, l | 0 <= i < x.n() && 0 <= l < x.n()
      ensures t'.wires[i][l] == Queued(x, if l == j then w.inbox[j][n + 1..] else w.inbox[l], w.wires[i][l], i)
      ensures Hist(t', i, l) == ToldUpTo(x, w, s, j, n + 1, i, l)
    {
      assert t.wires[i][l] == Queued(x, if l == j then w.inbox[j][n..] else w.inbox[l], w.wires[i][l], i);
      QueuedNext(x, w.inbox[j], n, w.wires[i][j], i);
      HistStep(c, t, a, i, l);
      ToldNext(x, w, s, j, n, i, l);
    }
  }

  /** A faulty validator's message that is accepted: it is injected now. */
  lemma FollowAccepted(x: Cast, w: World, s: Net, run: seq<Action>, t: Net, j: nat, n: nat)
    returns (run': seq<Action>, t': Net)
    requires x.Valid() && Formed(x, w) && Orderly(x, w) && Shape(x.config, s) && j < x.n() && n < |w.inbox[j]|
    requires Exec(x.config, run) == Some(t) && Following(x, w, s, t, j, n)
    requires w.inbox[j][n].from !in x.config.correct && Accepts(x.envs[j], Received(x, w, j, n), w.inbox[j][n].m)
    ensures Exec(x.config, run') == Some(t') && Following(x, w, s, t', j, n + 1)
  {
    hide Exec, Queued, Hist, Visible, Accepts, Shows, Received, Apply, Enabled, ToldUpTo, StoreInv, WellSent;
    var c, p := x.config, w.inbox[j][n];
    var pkt := Pkt(x, p.m);
    assert p.from < x.n() && t.wires[p.from][j] == [] by {
      FaultyQueueIsEmpty(x, w.inbox[j][n..], w.wires[p.from][j], p.from);
    }
    InjectThenTransfer(c, t, p.from, j, pkt);
    ExecOneMore(c, run, t, Inject(p.from, j, pkt));
    var t1 := Apply(c, t, Inject(p.from, j, pkt));
    ExecOneMore(c, run + [Inject(p.from, j, pkt)], t1, Transfer(p.from, j));
    run', t' := run + [Inject(p.from, j, pkt)] + [Transfer(p.from, j)], Apply(c, t1, Transfer(p.from, j));
    VisibleNext(x, w, j, n, t.inbox[j]);
    forall i, l | 0 <= i < x.n() && 0 <= l < x.n()
      ensures t'.wires[i][l] == Queued(x, if l == j then w.inbox[j][n + 1..] else w.inbox[l], w.wires[i][l], i)
      ensures Hist(t', i, l) == ToldUpTo(x, w, s, j, n + 1, i, l)
    {
      assert t.wires[i][l] == Queued(x, if l == j then w.inbox[j][n..] else w.inbox[l], w.wires[i][l], i);
      QueuedNext(x, w.inbox[j], n, w.wires[i][j], i);
      ToldNext(x, w, s, j, n, i, l);
    }
  }

  lemma FaultyQueueIsEmpty(x: Cast, posts: seq<Post>, wire: seq<Message>, i: nat)
    requires i !in x.config.correct
    ensures Queued(x, posts, wire, i) == []
  {
  }

  lemma InjectThenTransfer(c: Config, s: Net, i: nat, j: nat, pkt: Packet)
    requires Shape(c, s) && i < c.n() && j < c.n() && i !in c.correct && s.wires[i][j] == []
    ensures Enabled(c, s, Inject(i, j, pkt)) && Enabled(c, Apply(c, s, Inject(i, j, pkt)), Transfer(i, j))
    ensures var t := Apply(c, Apply(c, s, Inject(i, j, pkt)), Transfer(i, j));
      && t == s.(inbox := s.inbox[j := s.inbox[j] + [Item(i, pkt)]])
      && forall k, l :: 0 <= k < c.n() && 0 <= l < c.n() ==>
           Hist(t, k, l) == Hist(s, k, l) + if (k, l) == (i, j) then [pkt] else []
  {
    hide Hist;
    var s1 := Apply(c, s, Inject(i, j, pkt));
    var t := Apply(c, s1, Transfer(i, j));
    assert s1.wires[i][j] == [pkt] && [pkt][1..] == [];
    assert forall l :: 0 <= l < c.n() ==> t.wires[i][l] == s.wires[i][l];
    assert t.wires[i] == s.wires[i];
    assert t.wires == s.wires;
    forall k, l | 0 <= k < c.n() && 0 <= l < c.n()
      ensures Hist(t, k, l) == Hist(s, k, l) + if (k, l) == (i, j) then [pkt] else []
    {
      HistStep(c, s, Inject(i, j, pkt), k, l);
      HistStep(c, s1, Transfer(i, j), k, l);
      assert Hist(s1, k, l) + [] == Hist(s1, k, l);
    }
  }

  /** A faulty validator's message that is dropped: it might as well not have been sent. */
  lemma FollowDropped(x: Cast, w: World, s: Net, t: Net, j: nat, n: nat)
    requires x.Valid() && Formed(x, w) && Orderly(x, w) && Shape(x.config, s) && j < x.n() && n < |w.inbox[j]|
    requires Following(x, w, s, t, j, n)
    requires w.inbox[j][n].from !in x.config.correct && !Accepts(x.envs[j], Received(x, w, j, n), w.inbox[j][n].m)
    ensures Following(x, w, s, t, j, n + 1)
  {
    hide Queued, Hist, Orderly, Visible, Accepts, Shows, Received, ToldUpTo;
    VisibleNext(x, w, j, n, t.inbox[j]);
    forall i, l | 0 <= i < x.n() && 0 <= l < x.n()
      ensures t.wires[i][l] == Queued(x, if l == j then w.inbox[j][n + 1..] else w.inbox[l], w.wires[i][l], i)
      ensures Hist(t, i, l) == ToldUpTo(x, w, s, j, n + 1, i, l)
    {
      assert t.wires[i][l] == Queued(x, if l == j then w.inbox[j][n..] else w.inbox[l], w.wires[i][l], i);
      QueuedNext(x, w.inbox[j], n, w.wires[i][j], i);
      ToldNext(x, w, s, j, n, i, l);
    }
  }

  lemma {:induction false} Follow(x: Cast, w: World, run: seq<Action>, s: Net, j: nat, n: nat)
    returns (run': seq<Action>, t: Net)
    requires x.Valid() && Formed(x, w) && Orderly(x, w) && j < x.n() && n <= |w.inbox[j]|
    requires Exec(x.config, run) == Some(s) && Mirrors(x, w, s)
    ensures Exec(x.config, run') == Some(t) && Following(x, w, s, t, j, n)
  {
    hide Exec, Following, Orderly, Accepts, Mirrors;
    MirrorsShape(x, w, s);
    if n == 0 {
      FollowingStarts(x, w, s, j);
      run', t := run, s;
    } else {
      var run1, t1 := Follow(x, w, run, s, j, n - 1);
      if w.inbox[j][n - 1].from in x.config.correct {
        run', t := FollowCorrect(x, w, s, run1, t1, j, n - 1);
      } else if Accepts(x.envs[j], Received(x, w, j, n - 1), w.inbox[j][n - 1].m) {
        run', t := FollowAccepted(x, w, s, run1, t1, j, n - 1);
      } else {
        FollowDropped(x, w, s, t1, j, n - 1);
        run', t := run1, t1;
      }
    }
  }

  lemma MirrorsShape(x: Cast, w: World, s: Net)
    requires x.Valid() && Formed(x, w) && Mirrors(x, w, s)
    ensures Shape(x.config, s)
  {
  }

  /** With the whole batch in the inbox, the network model's round is the node's. */
  lemma TurnRefinesWork(x: Cast, w: World, s: Net, t: Net, j: nat, eo: seq<BlockHash>, ro: seq<BlockHash>)
    requires x.Valid() && Formed(x, w) && Orderly(x, w) && Mirrors(x, w, s) && Possible(x, w, Turn(j, eo, ro))
    requires Judged(x, w, Turn(j, eo, ro)) && Following(x, w, s, t, j, |w.inbox[j]|)
    ensures Enabled(x.config, t, Work(j, eo, ro))
    ensures var q, out := AfterTurn(x, w, j, eo, ro), WorkOut(x.config, t, j, eo, ro);
      && w.nodes[j].outbox <= q.outbox && q.proto == out.state
      && Pkts(x, NewLetters(w.nodes[j], q)) == out.sent
  {
    hide StoreInv, ReceiveAll, Round, JudgedById, Shows, Visible, Unread, Pkts, Hist, WorkOut, Drained, PacketsOf;
    var e, p, msgs, q := x.envs[j], w.nodes[j], Mail(w.inbox[j]), AfterTurn(x, w, j, eo, ro);
    MailFromWire(x, w, j);
    assert msgs[..|w.inbox[j]|] == msgs;
    assert Worked(e, p, msgs, eo, ro, q);
    NodeRefinesWork(e, p, msgs, eo, ro, q, x.config, t, j);
    TurnGrowsOutbox(x, w, j, eo, ro);
    NewLettersPkts(x, j, p, q, WorkOut(x.config, t, j, eo, ro).sent);
  }

  lemma TurnMirrors(x: Cast, w: World, run: seq<Action>, s: Net, j: nat, eo: seq<BlockHash>, ro: seq<BlockHash>)
    returns (run': seq<Action>, t: Net)
    requires x.Valid() && Formed(x, w) && Orderly(x, w) && Exec(x.config, run) == Some(s) && Mirrors(x, w, s)
    requires Possible(x, w, Turn(j, eo, ro)) && Judged(x, w, Turn(j, eo, ro))
    ensures Exec(x.config, run') == Some(t) && Mirrors(x, After(x, w, Turn(j, eo, ro)), t)
  {
    hide Exec, Orderly, AfterTurn, CanTurn, JudgedById, Following, OnRecord, Pkts, Unread, Hist, WorkOut, Drained;
    var run1, s1 := Follow(x, w, run, s, j, |w.inbox[j]|);
    TurnRefinesWork(x, w, s, s1, j, eo, ro);
    ExecOneMore(x.config, run1, s1, Work(j, eo, ro));
    run', t := run1 + [Work(j, eo, ro)], Apply(x.config, s1, Work(j, eo, ro));
    WorkMirrors(x, w, s, s1, j, eo, ro, AfterTurn(x, w, j, eo, ro));
  }

  lemma WorkMirrors(
      x: Cast, w: World, s: Net, s1: Net, j: nat, eo: seq<BlockHash>, ro: seq<BlockHash>, q: NodeState)
    requires x.Valid() && Formed(x, w) && Mirrors(x, w, s) && j in x.config.correct
    requires Following(x, w, s, s1, j, |w.inbox[j]|) && Enabled(x.config, s1, Work(j, eo, ro))
    requires w.nodes[j].outbox <= q.outbox && q.proto == WorkOut(x.config, s1, j, eo, ro).state
    requires Pkts(x, NewLetters(w.nodes[j], q)) == WorkOut(x.config, s1, j, eo, ro).sent
    ensures Mirrors(x, Broadcasted(x, w.(inbox := w.inbox[j := []], told := OnRecord(x, w, j)), j, q,
                                   NewLetters(w.nodes[j], q)), Apply(x.config, s1, Work(j, eo, ro)))
  {
    hide Queued, Hist, Pkts, WorkOut, NewLetters, Shows, Visible, ToldUpTo, OnRecord;
    var c, t := x.config, Apply(x.config, s1, Work(j, eo, ro));
    var letters, out := NewLetters(w.nodes[j], q), WorkOut(x.config, s1, j, eo, ro).sent;
    var u := w.(inbox := w.inbox[j := []], told := OnRecord(x, w, j));
    var v := Broadcasted(x, u, j, q, letters);
    assert w.inbox[j][|w.inbox[j]|..] == [];
    forall i, l | 0 <= i < x.n() && 0 <= l < x.n()
      ensures t.wires[i][l] == Queued(x, v.inbox[l], v.wires[i][l], i)
      ensures Hist(t, i, l) == v.told[i][l]
    {
      assert s1.wires[i][l] == Queued(x, u.inbox[l], w.wires[i][l], i);
      QueuedAppend(x, u.inbox[l], w.wires[j][l], letters, j);
      HistStep(c, s1, Work(j, eo, ro), i, l);
      OnRecordIs(x, w, s, j, i, l);
    }
  }

  lemma OnRecordIs(x: Cast, w: World, s: Net, j: nat, i: nat, l: nat)
    requires x.Valid() && Formed(x, w) && Mirrors(x, w, s) && j < x.n() && i < x.n() && l < x.n()
    ensures OnRecord(x, w, j)[i][l] == ToldUpTo(x, w, s, j, |w.inbox[j]|, i, l)
  {
    hide Hist, AcceptedFrom, Queued;
    assert Hist(s, i, l) == w.told[i][l];
  }

  /** A step that adds nothing to the traffic. */
  lemma SameHist(c: Config, s: Net, a: Action)
    requires Shape(c, s) && Enabled(c, s, a) && (a.Restart? || a.TakeBlocks?)
    ensures forall i, j :: 0 <= i < c.n() && 0 <= j < c.n() ==> Hist(Apply(c, s, a), i, j) == Hist(s, i, j)
  {
    hide Hist, Apply;
    forall i, j | 0 <= i < c.n() && 0 <= j < c.n() ensures Hist(Apply(c, s, a), i, j) == Hist(s, i, j) {
      HistStep(c, s, a, i, j);
      assert Hist(s, i, j) + [] == Hist(s, i, j);
    }
  }

  lemma ResumeMirrors(x: Cast, w: World, s: Net, j: nat)
    requires x.Valid() && Formed(x, w) && Mirrors(x, w, s) && Possible(x, w, Resume(j))
    ensures Enabled(x.config, s, Restart(j)) && Mirrors(x, After(x, w, Resume(j)), Apply(x.config, s, Restart(j)))
  {
    hide Unread, Hist, Pkts;
    SameHist(x.config, s, Restart(j));
  }

  lemma PickUpMirrors(x: Cast, w: World, s: Net, j: nat)
    requires x.Valid() && Formed(x, w) && Mirrors(x, w, s) && Possible(x, w, PickUp(j))
    ensures var a := Action.TakeBlocks(j);
      Enabled(x.config, s, a) && Mirrors(x, After(x, w, PickUp(j)), Apply(x.config, s, a))
  {
    hide Unread, Hist, Pkts;
    SameHist(x.config, s, Action.TakeBlocks(j));
  }

  lemma UpdateMirrors(x: Cast, w: World, s: Net, d: Deed)
    requires x.Valid() && Formed(x, w) && Mirrors(x, w, s) && Possible(x, w, d) && d.Update?
    ensures Mirrors(x, After(x, w, d), s)
  {
    hide Unread, Hist, Pkts;
  }

  /** Each deed is some steps of the network model: none, one, or the draining of a batch and a round. */
  lemma DeedMirrors(x: Cast, w: World, run: seq<Action>, s: Net, d: Deed) returns (run': seq<Action>, t: Net)
    requires x.Valid() && Formed(x, w) && Orderly(x, w) && Exec(x.config, run) == Some(s) && Mirrors(x, w, s)
    requires Possible(x, w, d) && Judged(x, w, d)
    ensures Exec(x.config, run') == Some(t) && Mirrors(x, After(x, w, d), t)
  {
    hide Exec, Mirrors, Possible, After, Orderly, Judged;
    MirrorsShape(x, w, s);
    run', t := run, s;
    match d {
      case Suggest(b) => run', t := SuggestMirrors(x, w, run, s, b);
      case Turn(j, eo, ro) => run', t := TurnMirrors(x, w, run, s, j, eo, ro);
      case Resume(j) =>
        ResumeMirrors(x, w, s, j);
        ExecOneMore(x.config, run, s, Restart(j));
        run', t := run + [Restart(j)], Apply(x.config, s, Restart(j));
      case PickUp(j) =>
        PickUpMirrors(x, w, s, j);
        ExecOneMore(x.config, run, s, Action.TakeBlocks(j));
        run', t := run + [Action.TakeBlocks(j)], Apply(x.config, s, Action.TakeBlocks(j));
      case Forge(i, j, m) => ForgeMirrors(x, w, s, i, j, m);
      case Move(i, j) => MoveMirrors(x, w, s, i, j);
      case Update(_, _, _) => UpdateMirrors(x, w, s, d);
    }
  }

  /**
   * Refinement of whole runs. Whatever happens to the nodes and their queues is a run of the network
   * model, in which each correct validator has its node's counters, and what a correct validator has sent
   * and what was accepted from a faulty one is all the traffic.
   */
  lemma {:induction false} EveryStoryIsARun(x: Cast, deeds: seq<Deed>) returns (run: seq<Action>, s: Net)
    requires x.Valid() && Story(x, deeds).Some?
    ensures Orderly(x, Story(x, deeds).value)
    ensures Exec(x.config, run) == Some(s) && Mirrors(x, Story(x, deeds).value, s)
  {
    hide Exec, Mirrors, Possible, After, Orderly, Judged;
    if deeds == [] {
      OpeningMirrors(x);
      run, s := [], Start(x.config);
      EmptyRun(x.config);
    } else {
      var front, d := deeds[..|deeds| - 1], deeds[|deeds| - 1];
      var run0, s0 := EveryStoryIsARun(x, front);
      var w := Story(x, front).value;
      AfterOrderly(x, w, d);
      run, s := DeedMirrors(x, w, run0, s0, d);
    }
  }

  lemma EmptyRun(c: Config)
    ensures Exec(c, []) == Some(Start(c))
  {
  }

  // ----- agreement of the nodes themselves -----

  /** The fault model, said of the world: from each faulty validator one ECHO and READY for each block is accepted. */
  ghost predicate HeardOnce(x: Cast, w: World)
    requires Formed(x, w)
  {
    forall i, j, pkt: Packet ::
      0 <= i < x.n() && i !in x.config.correct && j in x.config.correct && 0 <= j < x.n() && pkt.kind != SEND ==>
      multiset(w.told[i][j])[pkt] <= 1
  }

  ghost predicate ToldSend(x: Cast, w: World, i: nat, j: nat, k: nat)
    requires Formed(x, w) && j < x.n()
  {
    i < x.n() && k < |w.told[i][j]| && w.told[i][j][k].kind == SEND
  }

  /** And each correct one is told one SEND at most. */
  ghost predicate ToldOneSend(x: Cast, w: World)
    requires Formed(x, w)
  {
    forall j, i, i', k, k' ::
      j in x.config.correct && 0 <= j < x.n() && ToldSend(x, w, i, j, k) && ToldSend(x, w, i', j, k') ==>
        i == i' && k == k'
  }

  lemma MirrorsFaults(x: Cast, w: World, s: Net)
    requires x.Valid() && Formed(x, w) && Mirrors(x, w, s)
    ensures HeardOnce(x, w) ==> FaultyOnce(x.config, s)
    ensures ToldOneSend(x, w) ==> OneSend(x.config, s)
  {
    hide Hist, Unread, Pkts;
    forall i, j, k | 0 <= i < x.n() && 0 <= j < x.n()
      ensures IsSend(x.config, s, i, j, k) <==> ToldSend(x, w, i, j, k)
    {
    }
  }

  /** What waits to be picked up has been voted for. */
  lemma {:induction false} AcceptedWasVotedFor(c: Config, run: seq<Action>, j: nat)
    requires Exec(c, run).Some? && j < c.n()
    ensures forall h :: h in Exec(c, run).value.procs[j].accepted ==> h in Exec(c, run).value.procs[j].readySent
  {
    if run != [] {
      var s, a := Exec(c, run[..|run| - 1]).value, run[|run| - 1];
      AcceptedWasVotedFor(c, run[..|run| - 1], j);
      if a.Work? && a.node == j {
        RoundMeaning(c.params, Drained(c, s, j), a.echoOrder, a.readyOrder);
        DrainEffect(c, j, s.procs[j].(send := None), s.inbox[j], []);
      }
    }
  }

  /**
   * Agreement, of the nodes' own accepted blocks: for the n and f where agreement holds, no story lets two
   * correct nodes accept different block hashes.
   */
  lemma AcceptedBlocksAgree(x: Cast, deeds: seq<Deed>, i: nat, h: BlockHash, i': nat, h': BlockHash)
    requires x.Valid() && Story(x, deeds).Some? && !CanSplit(x.config.params)
    requires HeardOnce(x, Story(x, deeds).value) && ToldOneSend(x, Story(x, deeds).value)
    requires i in x.config.correct && h in Story(x, deeds).value.nodes[i].proto.accepted
    requires i' in x.config.correct && h' in Story(x, deeds).value.nodes[i'].proto.accepted
    ensures h == h'
  {
    hide Exec, Story, HeardOnce, ToldOneSend, Hist, FaultyOnce, OneSend;
    var run, s := EveryStoryIsARun(x, deeds);
    MirrorsFaults(x, Story(x, deeds).value, s);
    AcceptedWasVotedFor(x.config, run, i);
    AcceptedWasVotedFor(x.config, run, i');
    assert Committed(s, i, h) && Committed(s, i', h');
    CorrectValidatorsAgree(x.config, run, i, h, i', h');
  }
}
