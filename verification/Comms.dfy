/** The queues between validators: one for each destination at the sender, and one at the receiver. */
module Comms {
  import opened Common
  import opened Blocks
  import opened NodeSpec

  type Address = string

  function Copies(m: Message, n: nat): seq<Message> {
    seq(n, _ => m)
  }

  /** How often an address is listed. */
  function Listed(servers: seq<Address>, a: Address): nat {
    multiset(servers)[a]
  }

  lemma {:induction false} ListedOnce(servers: seq<Address>, a: Address)
    requires forall i, j :: 0 <= i < j < |servers| ==> servers[i] != servers[j]
    ensures Listed(servers, a) == if a in servers then 1 else 0
  {
    if servers != [] {
      var n := |servers| - 1;
      assert servers == servers[..n] + [servers[n]];
      ListedOnce(servers[..n], a);
    }
  }

  class ValidatorClient {
    const servers: seq<Address>
    const leader: Address
    var messageQueues: map<Address, seq<Message>>

    /** Every server has a queue. */
    ghost predicate Valid()
      reads this
    {
      forall a :: a in servers ==> a in messageQueues
    }

    /**
     * One empty queue for each address; an address listed twice has one queue. The number of servers is
     * kept in eight bits, so from 256 servers on some have none.
     */
    constructor (servers: seq<Address>, leader: Address)
      ensures this.servers == servers && this.leader == leader
      ensures forall a :: a in messageQueues <==> a in servers[..|servers| % 256]
      ensures forall a :: a in messageQueues ==> messageQueues[a] == []
      ensures |servers| < 256 ==> Valid()
    {
      this.servers, this.leader := servers, leader;
      messageQueues := map[];
      new;
      var numServers := |servers| % 256;
      for i := 0 to numServers
        invariant forall a :: a in messageQueues <==> a in servers[..i]
        invariant forall a :: a in messageQueues ==> messageQueues[a] == []
      {
        messageQueues := messageQueues[servers[i] := []];
      }
      assert |servers| < 256 ==> servers[..numServers] == servers;
    }

    /** The message goes to the end of every server's queue, once for each time the server is listed. */
    method Broadcast(m: Message)
      requires Valid()
      modifies this`messageQueues
      ensures Valid() && messageQueues.Keys == old(messageQueues).Keys
      ensures forall a :: a in messageQueues ==>
        messageQueues[a] == old(messageQueues)[a] + Copies(m, Listed(servers, a))
    {
      for i := 0 to |servers|
        invariant Valid() && messageQueues.Keys == old(messageQueues).Keys
        invariant forall a :: a in messageQueues ==>
          messageQueues[a] == old(messageQueues)[a] + Copies(m, Listed(servers[..i], a))
      {
        assert servers[..i + 1] == servers[..i] + [servers[i]];
        var queue := messageQueues[servers[i]];
        messageQueues := messageQueues[servers[i] := queue + [m]];
      }
      assert servers[..|servers|] == servers;
    }

    method SendToLeader(m: Message)
      requires leader in messageQueues
      modifies this`messageQueues
      ensures messageQueues == old(messageQueues)[leader := old(messageQueues)[leader] + [m]]
    {
      messageQueues := messageQueues[leader := messageQueues[leader] + [m]];
    }

    /** One pass of a sender thread's loop: the first message of its queue, if there is one. */
    method TakeNext(address: Address) returns (m: Option<Message>)
      requires address in messageQueues
      modifies this`messageQueues
      ensures address in messageQueues && (m.None? <==> old(messageQueues)[address] == [])
      ensures m.None? ==> messageQueues == old(messageQueues)
      ensures m.Some? ==>
        && old(messageQueues)[address] == [m.value] + messageQueues[address]
        && messageQueues == old(messageQueues)[address := messageQueues[address]]
    {
      if messageQueues[address] == [] {
        return None;
      }
      m := Some(messageQueues[address][0]);
      messageQueues := messageQueues[address := messageQueues[address][1..]];
    }
  }

  class ChatService {
    /** The consensus messages received and not yet collected. */
    var mq: seq<Message>

    constructor ()
      ensures mq == []
    {
      mq := [];
    }

    method Push(m: Message)
      modifies this
      ensures mq == old(mq) + [m]
    {
      mq := mq + [m];
    }

    method NewConsensusMessages() returns (some: bool)
      ensures some <==> mq != []
    {
      some := mq != [];
    }

    /** Append everything in the queue to `msgList`, in order, and leave the queue empty. */
    method GetMessages(msgList: seq<Message>) returns (some: bool, all: seq<Message>)
      modifies this
      ensures some == (old(mq) != []) && all == msgList + old(mq) && mq == []
    {
      all := msgList;
      if mq == [] {
        return false, all;
      }
      while mq != []
        invariant all + mq == msgList + old(mq)
        decreases |mq|
      {
        all, mq := all + [mq[0]], mq[1..];
      }
      some := true;
    }
  }

  datatype CallStatus = CREATE | START_PROCESS | FINISH

  /** The handler of one Talk call. */
  class CallDataTalk {
    const server: ChatService
    var status: CallStatus
    ghost var pushed: seq<Message>

    /** A handler has put its message into the queue once, when it has finished; not before. */
    ghost predicate Valid()
      reads this
    {
      status != CREATE && |pushed| == if status == FINISH then 1 else 0
    }

    /** A new handler waits for the next call at once. */
    constructor (server: ChatService)
      ensures Valid() && this.server == server && status == START_PROCESS
    {
      this.server := server;
      status := CREATE;
      pushed := [];
      new;
      status := START_PROCESS;
    }

    /** A call has come: hand over to a new handler, and queue the message. A finished handler is deleted. */
    method Proceed(request: Message) returns (next: Option<CallDataTalk>, deleted: bool)
      requires Valid()
      modifies this, server
      ensures Valid() && status == FINISH && deleted == (old(status) == FINISH)
      ensures next.Some? <==> !deleted
      ensures next.Some? ==> fresh(next.value) && next.value.Valid() && next.value.status == START_PROCESS
      ensures server.mq == old(server.mq) + if deleted then [] else [request]
      ensures pushed == old(pushed) + if deleted then [] else [request]
    {
      next, deleted := None, false;
      if status == START_PROCESS {
        var handler := new CallDataTalk(server);
        next := Some(handler);
        server.Push(request);
        pushed := pushed + [request];
        status := FINISH;
      } else {
        deleted := true;
      }
    }
  }

  // ----- one sender, one receiver, any schedule -----

  function Wire(m: Message): Message {
    m.(block := OnWire(m.block))
  }

  function WireAll(ms: seq<Message>): seq<Message> {
    seq(|ms|, k requires 0 <= k < |ms| => Wire(ms[k]))
  }

  /** Encoding refuses mutable blocks and incomplete keys; what arrives is as the receiver expects it. */
  lemma WireIsFromWire(m: Message)
    requires !m.block.isMutable && m.block.nextKey.Complete()
    ensures Wire(m).FromWire()
  {
  }

  datatype Event = Say(m: Message) | Carry | Collect

  /** What the receiver was told, each message `copies` times. */
  function Said(schedule: seq<Event>, copies: nat): seq<Message> {
    if schedule == [] then []
    else
      var front, last := Said(schedule[..|schedule| - 1], copies), schedule[|schedule| - 1];
      if last.Say? then front + Copies(last.m, copies) else front
  }

  /** What arrives says what was said; only the collected signatures stay behind. */
  ghost predicate Says(w: Message, m: Message) {
    && w.kind == m.kind && w.senderId == m.senderId && w.round == m.round
    && w.block.header == m.block.header && w.block.txs == m.block.txs && w.block.id == m.block.id
    && w.block.validatorId == m.block.validatorId && w.block.validatorSig == m.block.validatorSig
    && w.block.nextKey == m.block.nextKey && w.block.validatorSigs == []
  }

  ghost predicate AllSay(ws: seq<Message>, ms: seq<Message>) {
    |ws| <= |ms| && forall k :: 0 <= k < |ws| ==> Says(ws[k], ms[k])
  }

  lemma WiredSay(ws: seq<Message>, rest: seq<Message>, ms: seq<Message>)
    requires ws + rest == WireAll(ms)
    ensures AllSay(ws, ms)
  {
    forall k | 0 <= k < |ws| ensures Says(ws[k], ms[k]) {
      assert (ws + rest)[k] == WireAll(ms)[k];
    }
  }

  lemma WireAllAppend(a: seq<Message>, b: seq<Message>)
    ensures WireAll(a + b) == WireAll(a) + WireAll(b)
  {
  }

  lemma OneMoreEvent(schedule: seq<Event>, copies: nat, i: nat)
    requires i < |schedule|
    ensures Said(schedule[..i + 1], copies)
         == Said(schedule[..i], copies) + if schedule[i].Say? then Copies(schedule[i].m, copies) else []
  {
    assert schedule[..i + 1][..i] == schedule[..i];
  }

  /**
   * However sending, carrying and collecting interleave: what was collected, what waits at the receiver
   * and what waits at the sender make up what was said, in order, each message as often as the receiver
   * is listed: once, if the addresses are distinct. What has arrived says what was said.
   */
  method Channel(client: ValidatorClient, server: ChatService, address: Address, schedule: seq<Event>)
    returns (collected: seq<Message>)
    requires client.Valid() && address in client.servers
    requires client.messageQueues[address] == [] && server.mq == []
    modifies client`messageQueues, server
    ensures client.Valid()
    ensures collected + server.mq + WireAll(client.messageQueues[address])
         == WireAll(Said(schedule, Listed(client.servers, address)))
    ensures AllSay(collected + server.mq, Said(schedule, Listed(client.servers, address)))
  {
    ghost var copies := Listed(client.servers, address);
    collected := [];
    assert schedule[..0] == [];
    for i := 0 to |schedule|
      invariant client.Valid()
      invariant collected + server.mq + WireAll(client.messageQueues[address]) == WireAll(Said(schedule[..i], copies))
    {
      hide Said, WireAll, Wire, Copies;
      ghost var before, queue := collected + server.mq, client.messageQueues[address];
      OneMoreEvent(schedule, copies, i);
      match schedule[i] {
        case Say(m) =>
          client.Broadcast(m);
          ghost var more := Copies(m, copies);
          WireAllAppend(queue, more);
          WireAllAppend(Said(schedule[..i], copies), more);
          assert before + WireAll(queue) + WireAll(more) == before + (WireAll(queue) + WireAll(more));
        case Carry =>
          var m := client.TakeNext(address);
          if m.Some? {
            server.Push(Wire(m.value));
            WireAllAppend([m.value], client.messageQueues[address]);
            WireOne(m.value);
            ghost var rest := WireAll(client.messageQueues[address]);
            assert collected + server.mq == before + [Wire(m.value)];
            assert before + ([Wire(m.value)] + rest) == before + [Wire(m.value)] + rest;
          }
          assert Said(schedule[..i], copies) + [] == Said(schedule[..i], copies);
        case Collect =>
          var some, all := server.GetMessages(collected);
          collected := all;
          assert collected + server.mq == before;
          assert Said(schedule[..i], copies) + [] == Said(schedule[..i], copies);
      }
    }
    assert schedule[..|schedule|] == schedule;
    WiredSay(collected + server.mq, WireAll(client.messageQueues[address]), Said(schedule, copies));
  }

  lemma WireOne(m: Message)
    ensures WireAll([m]) == [Wire(m)]
  {
  }
}
