/** One protocol round of a Bracha node: counting a message, and acting on the thresholds. */
module BrachaRound {
  import opened Common

  type BlockHash = Bytes

  datatype Kind = SEND | ECHO | READY

  datatype Packet = Packet(kind: Kind, hash: BlockHash)

  /** The part of a node's state that the protocol reads and writes. */
  datatype Proto = Proto(
    send: Option<BlockHash>,
    echo: map<BlockHash, nat>,
    ready: map<BlockHash, nat>,
    readySent: set<BlockHash>,
    accepted: seq<BlockHash>,
    voted: BlockHash,
    running: bool)

  const INITIAL := Proto(None, map[], map[], {}, [], [], true)

  /** The number of validators and the number of them that may be faulty. */
  datatype Params = Params(n: nat, f: nat) {
    function EchoQuorum(): nat { (n + f + 1) / 2 }
    function AmplifyAt(): nat { f + 1 }
    function DeliverAbove(): nat { 2 * f + 1 }
  }

  function Tally(m: map<BlockHash, nat>, h: BlockHash): nat {
    if h in m then m[h] else 0
  }

  /** Count one accepted message. */
  function Handle(p: Proto, pkt: Packet): Proto {
    match pkt.kind
    case SEND => p.(send := Some(pkt.hash))
    case ECHO => p.(echo := p.echo[pkt.hash := Tally(p.echo, pkt.hash) + 1])
    case READY => p.(ready := p.ready[pkt.hash := Tally(p.ready, pkt.hash) + 1])
  }

  /** `order` is one order in which an unordered map with these keys may be iterated. */
  ghost predicate Enumerates(order: seq<BlockHash>, keys: set<BlockHash>) {
    && (forall h :: h in order <==> h in keys)
    && (forall i, j :: 0 <= i < j < |order| ==> order[i] != order[j])
  }

  /** What a round leaves behind: the state, what was broadcast, and the block it delivered. */
  datatype RoundOut = RoundOut(state: Proto, sent: seq<Packet>, delivered: Option<BlockHash>)

  /** The answer to the batch's SEND. */
  function EchoSend(p: Proto): RoundOut {
    match p.send
    case None => RoundOut(p, [], None)
    case Some(h) => RoundOut(p.(send := None), [Packet(ECHO, h)], None)
  }

  /** The loop over the ECHO counters, after visiting `order`. */
  function EchoPass(c: Params, r: RoundOut, order: seq<BlockHash>): RoundOut {
    if order == [] then r
    else
      var q := EchoPass(c, r, order[..|order| - 1]);
      EchoVisit(c, q, order[|order| - 1])
  }

  function EchoVisit(c: Params, q: RoundOut, h: BlockHash): RoundOut {
    if Tally(q.state.echo, h) >= c.EchoQuorum() && h !in q.state.readySent
    then SendReady(q, h)
    else q
  }

  function SendReady(q: RoundOut, h: BlockHash): RoundOut {
    q.(state := q.state.(readySent := q.state.readySent + {h}), sent := q.sent + [Packet(READY, h)])
  }

  /** The loop over the READY counters, after visiting `order`; it stops at the first delivery. */
  function ReadyPass(c: Params, r: RoundOut, order: seq<BlockHash>): RoundOut {
    if order == [] then r
    else
      var q := ReadyPass(c, r, order[..|order| - 1]);
      if q.delivered.Some? then q else ReadyVisit(c, q, order[|order| - 1])
  }

  /** The state of the READY loop after the amplification test of one visit. */
  function Amplify(c: Params, q: RoundOut, h: BlockHash): RoundOut {
    if Tally(q.state.ready, h) >= c.AmplifyAt() && h !in q.state.readySent then SendReady(q, h) else q
  }

  function ReadyVisit(c: Params, q: RoundOut, h: BlockHash): RoundOut {
    var a := Amplify(c, q, h);
    if Tally(a.state.ready, h) > c.DeliverAbove() then Deliver(a, h) else a
  }

  function Deliver(a: RoundOut, h: BlockHash): RoundOut {
    RoundOut(
      a.state.(running := false, voted := h, echo := a.state.echo - {h}, ready := a.state.ready - {h},
               accepted := a.state.accepted + [h]),
      a.sent,
      Some(h))
  }

  /** One call of `broadcastRound`. */
  function Round(c: Params, p: Proto, echoOrder: seq<BlockHash>, readyOrder: seq<BlockHash>): RoundOut {
    ReadyPass(c, EchoPass(c, EchoSend(p.(running := true)), echoOrder), readyOrder)
  }

  // ----- what a round does, whatever the iteration order -----

  /** Between the two loops: nothing but `readySent` and the outgoing messages has moved. */
  ghost predicate OnlySends(p: Proto, r: RoundOut) {
    && r.state.echo == p.echo && r.state.ready == p.ready && r.state.accepted == p.accepted
    && r.state.voted == p.voted && r.state.running && r.state.send == None
    && p.readySent <= r.state.readySent
    && (forall h :: multiset(r.sent)[Packet(READY, h)] == if h in r.state.readySent - p.readySent then 1 else 0)
    && (forall h :: multiset(r.sent)[Packet(ECHO, h)] == if p.send == Some(h) then 1 else 0)
    && (forall h :: multiset(r.sent)[Packet(SEND, h)] == 0)
  }

  /** The blocks among those visited whose counter has reached `t`. */
  ghost function Reached(m: map<BlockHash, nat>, visited: seq<BlockHash>, t: nat): set<BlockHash> {
    set h | h in visited && Tally(m, h) >= t
  }

  lemma ReachedOneMore(m: map<BlockHash, nat>, visited: seq<BlockHash>, h: BlockHash, t: nat)
    ensures Reached(m, visited + [h], t) == Reached(m, visited, t) + if Tally(m, h) >= t then {h} else {}
  {
    assert forall x :: x in visited + [h] <==> x in visited || x == h;
  }

  lemma SendReadyOnlySends(p: Proto, q: RoundOut, h: BlockHash)
    requires OnlySends(p, q) && h !in q.state.readySent
    ensures OnlySends(p, SendReady(q, h))
  {
  }

  lemma EchoSendEffect(p: Proto)
    ensures OnlySends(p, EchoSend(p.(running := true)))
    ensures EchoSend(p).delivered == None && EchoSend(p).state.readySent == p.readySent
  {
  }

  lemma {:induction false} EchoPassEffect(c: Params, p: Proto, r: RoundOut, order: seq<BlockHash>)
    requires OnlySends(p, r) && r.delivered == None
    ensures var q := EchoPass(c, r, order);
      && OnlySends(p, q) && q.delivered == None
      && q.state.readySent == r.state.readySent + Reached(p.echo, order, c.EchoQuorum())
  {
    if order != [] {
      var front, h := order[..|order| - 1], order[|order| - 1];
      assert order == front + [h];
      EchoPassEffect(c, p, r, front);
      ReachedOneMore(p.echo, front, h, c.EchoQuorum());
    }
  }

  /** A READY of this round is justified by one of the two counters. */
  ghost predicate Justified(c: Params, p: Proto, h: BlockHash) {
    (h in p.echo && p.echo[h] >= c.EchoQuorum()) || (h in p.ready && p.ready[h] >= c.AmplifyAt())
  }

  lemma AmplifyEffect(c: Params, p: Proto, q: RoundOut, h: BlockHash)
    requires OnlySends(p, q)
    ensures var a := Amplify(c, q, h);
      && OnlySends(p, a) && a.delivered == q.delivered
      && a.state.readySent == q.state.readySent + if Tally(p.ready, h) >= c.AmplifyAt() then {h} else {}
  {
    if h !in q.state.readySent {
      SendReadyOnlySends(p, q, h);
    }
  }

  /** The READY loop up to a point where it has not delivered. */
  ghost predicate QuietSoFar(c: Params, p: Proto, r: RoundOut, visited: seq<BlockHash>, q: RoundOut) {
    && OnlySends(p, q) && q.delivered == None
    && q.state.readySent == r.state.readySent + Reached(p.ready, visited, c.AmplifyAt())
    && forall h :: h in visited ==> Tally(p.ready, h) <= c.DeliverAbove()
  }

  /** The READY loop when it delivers `d`: `d` is the first counter above 2f+1 in its order. */
  ghost predicate DeliversAfter(c: Params, p: Proto, r: RoundOut, before: seq<BlockHash>, a: RoundOut, d: BlockHash) {
    && Tally(p.ready, d) > c.DeliverAbove()
    && (forall h :: h in before ==> Tally(p.ready, h) <= c.DeliverAbove())
    && OnlySends(p, a)
    && a.state.readySent == r.state.readySent + Reached(p.ready, before, c.AmplifyAt()) + {d}
  }

  lemma {:induction false} ReadyPassEffect(c: Params, p: Proto, r: RoundOut, order: seq<BlockHash>)
    returns (before: seq<BlockHash>, a: RoundOut)
    requires OnlySends(p, r) && r.delivered == None
    ensures var q := ReadyPass(c, r, order);
      match q.delivered
      case None => QuietSoFar(c, p, r, order, q)
      case Some(d) => before + [d] <= order && DeliversAfter(c, p, r, before, a, d) && q == Deliver(a, d)
  {
    before, a := [], r;
    if order != [] {
      var front, h := order[..|order| - 1], order[|order| - 1];
      assert order == front + [h];
      before, a := ReadyPassEffect(c, p, r, front);
      var q := ReadyPass(c, r, front);
      if q.delivered == None {
        AmplifyEffect(c, p, q, h);
        ReachedOneMore(p.ready, front, h, c.AmplifyAt());
        before, a := front, Amplify(c, q, h);
      }
    }
  }

  /** What one round broadcasts: an ECHO for its SEND, and one READY for each block it marks. */
  ghost predicate RoundSends(p: Proto, r: RoundOut) {
    && p.readySent <= r.state.readySent && r.state.send == None
    && (forall h :: multiset(r.sent)[Packet(READY, h)] == if h in r.state.readySent - p.readySent then 1 else 0)
    && (forall h :: multiset(r.sent)[Packet(ECHO, h)] == if p.send == Some(h) then 1 else 0)
    && (forall h :: multiset(r.sent)[Packet(SEND, h)] == 0)
  }

  /** Every READY has a cause, and every ECHO quorum has its READY. */
  ghost predicate RoundVotes(c: Params, p: Proto, r: RoundOut) {
    && (forall h :: h in r.state.readySent - p.readySent ==> Justified(c, p, h))
    && (forall h :: h in p.echo && p.echo[h] >= c.EchoQuorum() ==> h in r.state.readySent)
  }

  /** The round delivers one block whose counter is above 2f+1, or no counter is above 2f+1. */
  ghost predicate RoundDelivery(c: Params, p: Proto, r: RoundOut) {
    match r.delivered
    case None =>
      && r.state.echo == p.echo && r.state.ready == p.ready
      && r.state.running && r.state.accepted == p.accepted && r.state.voted == p.voted
      && (forall h :: h in p.ready && p.ready[h] >= c.AmplifyAt() ==> h in r.state.readySent)
      && (forall h :: h in p.ready ==> p.ready[h] <= c.DeliverAbove())
    case Some(d) =>
      && d in p.ready && p.ready[d] > c.DeliverAbove() && d in r.state.readySent
      && r.state.echo == p.echo - {d} && r.state.ready == p.ready - {d}
      && !r.state.running && r.state.accepted == p.accepted + [d] && r.state.voted == d
  }

  /** What one round does, for every order in which the two maps may be iterated. */
  lemma RoundMeaning(c: Params, p: Proto, echoOrder: seq<BlockHash>, readyOrder: seq<BlockHash>)
    requires Enumerates(echoOrder, p.echo.Keys) && Enumerates(readyOrder, p.ready.Keys)
    ensures var r := Round(c, p, echoOrder, readyOrder);
      RoundSends(p, r) && RoundVotes(c, p, r) && RoundDelivery(c, p, r)
  {
    var p1 := p.(running := true);
    EchoSendEffect(p1);
    EchoPassEffect(c, p1, EchoSend(p1), echoOrder);
    var r1 := EchoPass(c, EchoSend(p1), echoOrder);
    var before, a := ReadyPassEffect(c, p1, r1, readyOrder);
    var r := ReadyPass(c, r1, readyOrder);
    if r.delivered == None {
      QuietRound(c, p, echoOrder, readyOrder, r1, r);
    } else {
      DeliveringRound(c, p, echoOrder, readyOrder, r1, before, a, r.delivered.value);
    }
  }

  lemma QuietRound(
      c: Params, p: Proto, echoOrder: seq<BlockHash>, readyOrder: seq<BlockHash>, r1: RoundOut, r: RoundOut)
    requires Enumerates(echoOrder, p.echo.Keys) && Enumerates(readyOrder, p.ready.Keys)
    requires r1.state.readySent == p.readySent + Reached(p.echo, echoOrder, c.EchoQuorum())
    requires QuietSoFar(c, p.(running := true), r1, readyOrder, r)
    ensures RoundSends(p, r) && RoundVotes(c, p, r) && RoundDelivery(c, p, r)
  {
  }

  lemma DeliveringRound(
      c: Params, p: Proto, echoOrder: seq<BlockHash>, readyOrder: seq<BlockHash>, r1: RoundOut,
      before: seq<BlockHash>, a: RoundOut, d: BlockHash)
    requires Enumerates(echoOrder, p.echo.Keys) && Enumerates(readyOrder, p.ready.Keys)
    requires r1.state.readySent == p.readySent + Reached(p.echo, echoOrder, c.EchoQuorum())
    requires before + [d] <= readyOrder && DeliversAfter(c, p.(running := true), r1, before, a, d)
    ensures var r := Deliver(a, d);
      RoundSends(p, r) && RoundVotes(c, p, r) && RoundDelivery(c, p, r)
  {
    assert d == (before + [d])[|before|];
    assert d in readyOrder;
  }

  // ----- how many messages a round broadcasts -----

  lemma {:induction false} EchoPassCount(c: Params, r: RoundOut, order: seq<BlockHash>)
    ensures var q := EchoPass(c, r, order);
      |q.sent| + |r.state.readySent| == |r.sent| + |q.state.readySent|
  {
    if order != [] {
      EchoPassCount(c, r, order[..|order| - 1]);
    }
  }

  lemma {:induction false} ReadyPassCount(c: Params, r: RoundOut, order: seq<BlockHash>)
    ensures var q := ReadyPass(c, r, order);
      |q.sent| + |r.state.readySent| == |r.sent| + |q.state.readySent|
  {
    if order != [] {
      ReadyPassCount(c, r, order[..|order| - 1]);
    }
  }

  /** One message for the batch's SEND, and one for each block newly marked. */
  lemma RoundCount(c: Params, p: Proto, echoOrder: seq<BlockHash>, readyOrder: seq<BlockHash>)
    ensures var r := Round(c, p, echoOrder, readyOrder);
      |r.sent| + |p.readySent| == |r.state.readySent| + if p.send.Some? then 1 else 0
  {
    var p1 := p.(running := true);
    EchoPassCount(c, EchoSend(p1), echoOrder);
    ReadyPassCount(c, EchoPass(c, EchoSend(p1), echoOrder), readyOrder);
  }
}
