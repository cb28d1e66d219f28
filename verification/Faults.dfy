/** The fault model, and the sets of validators behind the thresholds. */
module Faults {
  import opened Common
  import opened BrachaRound
  import opened Network
  import opened Invariants

  /** A faulty validator gets at most one ECHO and one READY per block through to each correct validator. */
  ghost predicate FaultyOnce(c: Config, s: Net)
    requires Shape(c, s)
  {
    forall i, j, pkt: Packet ::
      0 <= i < c.n() && i !in c.correct && j in c.correct && 0 <= j < c.n() && pkt.kind != SEND ==>
      multiset(Hist(s, i, j))[pkt] <= 1
  }

  /** At most one SEND is on its way to, or has reached, each correct validator. */
  ghost predicate OneSend(c: Config, s: Net)
    requires Shape(c, s)
  {
    forall j, i, i', x, x' ::
      (j in c.correct && 0 <= j < c.n() && IsSend(c, s, i, j, x) && IsSend(c, s, i', j, x')) ==>
        i == i' && x == x'
  }

  ghost predicate IsSend(c: Config, s: Net, i: nat, j: nat, x: nat)
    requires Shape(c, s) && j < c.n()
  {
    i < c.n() && x < |Hist(s, i, j)| && Hist(s, i, j)[x].kind == SEND
  }

  /** Nobody but the leader sends SENDs. */
  ghost predicate OnlyLeaderSends(c: Config, s: Net)
    requires Shape(c, s)
  {
    forall i, j, h :: 0 <= i < c.n() && i != c.leader && j in c.correct && 0 <= j < c.n() ==>
      Packet(SEND, h) !in Hist(s, i, j)
  }

  /** Traffic only grows, so an assumption about a run's end holds all through the run. */
  lemma FaultsEarlier(c: Config, s: Net, a: Action)
    requires Shape(c, s) && Enabled(c, s, a)
    ensures FaultyOnce(c, Apply(c, s, a)) ==> FaultyOnce(c, s)
    ensures OneSend(c, Apply(c, s, a)) ==> OneSend(c, s)
    ensures OnlyLeaderSends(c, Apply(c, s, a)) ==> OnlyLeaderSends(c, s)
  {
    var t := Apply(c, s, a);
    forall i, j | 0 <= i < c.n() && 0 <= j < c.n()
      ensures Hist(s, i, j) <= Hist(t, i, j)
      ensures multiset(Hist(s, i, j)) <= multiset(Hist(t, i, j))
    {
      HistStep(c, s, a, i, j);
      assert multiset(Hist(t, i, j)) == multiset(Hist(s, i, j)) + multiset(Added(c, s, a, i, j));
    }
    forall i: nat, j: nat, x: nat | j < c.n() && IsSend(c, s, i, j, x)
      ensures IsSend(c, t, i, j, x)
    {
      assert Hist(s, i, j)[x] == Hist(t, i, j)[x];
    }
    forall i, j, pkt | 0 <= i < c.n() && 0 <= j < c.n() && pkt in Hist(s, i, j)
      ensures pkt in Hist(t, i, j)
    {
      assert multiset(Hist(s, i, j))[pkt] >= 1;
      assert pkt in multiset(Hist(t, i, j));
    }
  }

  // ----- sets of validators -----

  /** The validators from lo to hi. */
  function Between(lo: nat, hi: nat): (part: set<nat>)
    ensures forall i :: i in part <==> lo <= i < hi
    decreases hi
  {
    if hi <= lo then {} else Between(lo, hi - 1) + {hi - 1}
  }

  lemma {:induction false} BetweenSize(lo: nat, hi: nat)
    requires lo <= hi
    ensures |Between(lo, hi)| == hi - lo
    decreases hi
  {
    if hi > lo {
      BetweenSize(lo, hi - 1);
      assert hi - 1 !in Between(lo, hi - 1);
      assert Between(lo, hi) == Between(lo, hi - 1) + {hi - 1};
    }
  }

  function Validators(n: nat): (all: set<nat>)
    ensures forall i :: i in all <==> 0 <= i < n
  {
    Between(0, n)
  }

  lemma ValidatorsSize(n: nat)
    ensures |Validators(n)| == n
  {
    BetweenSize(0, n);
  }

  lemma UnionSize<T>(a: set<T>, b: set<T>)
    requires a !! b
    ensures |a + b| == |a| + |b|
  {
  }

  lemma SubsetSize<T>(a: set<T>, b: set<T>)
    requires a <= b
    ensures |a| <= |b|
  {
    assert b == a + (b - a);
  }

  /** More than f validators include a correct one. */
  lemma SomeoneIsCorrect(c: Config, a: set<nat>) returns (i: nat)
    requires c.Valid() && a <= Validators(c.n()) && |a| > c.f()
    ensures i in a && i in c.correct
  {
    Overlap(c.n(), a, c.correct);
    i :| i in a * c.correct;
  }

  /** Of any set of validators at most f are not correct. */
  lemma AllButFAreCorrect(c: Config, a: set<nat>)
    requires c.Valid() && a <= Validators(c.n())
    ensures |a * c.correct| + c.f() >= |a|
  {
    Overlap(c.n(), a, c.correct);
  }

  /** Two ECHO quorums overlap in at least 2q-n validators. */
  lemma Overlap(n: nat, a: set<nat>, b: set<nat>)
    requires a <= Validators(n) && b <= Validators(n)
    ensures |a * b| + n >= |a| + |b|
  {
    ValidatorsSize(n);
    SubsetSize(a + b, Validators(n));
    assert |a + b| + |a * b| == |a| + |b|;
  }

  /** The property of the quorum size that agreement rests on. */
  ghost predicate QuorumsShareACorrect(p: Params) {
    forall correct: set<nat>, a: set<nat>, b: set<nat> ::
      correct <= Validators(p.n) && |correct| + p.f >= p.n
      && a <= Validators(p.n) && b <= Validators(p.n)
      && |a| >= p.EchoQuorum() && |b| >= p.EchoQuorum()
      ==> a * b * correct != {}
  }

  lemma QuorumsMeet(c: Config, a: set<nat>, b: set<nat>) returns (i: nat)
    requires c.Valid() && (c.n() + c.f()) % 2 == 1
    requires a <= Validators(c.n()) && b <= Validators(c.n())
    requires |a| >= c.params.EchoQuorum() && |b| >= c.params.EchoQuorum()
    ensures i in a && i in b && i in c.correct
  {
    Overlap(c.n(), a, b);
    i := SomeoneIsCorrect(c, a * b);
  }

  /** For even n+f, two halves of the correct validators each make a quorum with the faulty ones. */
  lemma QuorumsMiss(p: Params)
    returns (correct: set<nat>, left: set<nat>, right: set<nat>)
    requires p.f <= p.n && (p.n + p.f) % 2 == 0
    ensures correct <= Validators(p.n) && |correct| + p.f >= p.n
    ensures left <= Validators(p.n) && right <= Validators(p.n)
    ensures |left| >= p.EchoQuorum() && |right| >= p.EchoQuorum()
    ensures left * right * correct == {}
  {
    hide Between, Validators;
    var half := (p.n - p.f) / 2;
    var faulty := Validators(p.f);
    ValidatorsSize(p.f);
    var a, b := Between(p.f, p.f + half), Between(p.f + half, p.n);
    BetweenSize(p.f, p.f + half);
    BetweenSize(p.f + half, p.n);
    left, right, correct := faulty + a, faulty + b, a + b;
    UnionSize(faulty, a);
    UnionSize(faulty, b);
    UnionSize(a, b);
  }

  /** The rounding of the ECHO quorum is harmless exactly when n+f is odd. */
  lemma QuorumsMeetExactly(p: Params)
    requires p.f <= p.n
    ensures QuorumsShareACorrect(p) <==> (p.n + p.f) % 2 == 1
  {
    if (p.n + p.f) % 2 == 1 {
      forall correct: set<nat>, a: set<nat>, b: set<nat> |
        correct <= Validators(p.n) && |correct| + p.f >= p.n
        && a <= Validators(p.n) && b <= Validators(p.n)
        && |a| >= p.EchoQuorum() && |b| >= p.EchoQuorum()
        ensures a * b * correct != {}
      {
        var i := QuorumsMeet(Config(p, correct, 0, (j, h) => true), a, b);
        assert i in a * b * correct;
      }
    } else {
      var correct, left, right := QuorumsMiss(p);
    }
  }

  // ----- who is behind a counter -----

  lemma SendersAreValidators(c: Config, s: Net, j: nat, pkt: Packet)
    requires Shape(c, s) && Fifo(c, s) && j < c.n()
    ensures Senders(s.seen[j], pkt) <= Validators(c.n())
  {
    forall i | i in Senders(s.seen[j], pkt) ensures i < c.n() {
      var x :| x in s.seen[j] && x.pkt == pkt && x.from == i;
      assert x in s.seen[j] + s.inbox[j];
    }
  }

  /** What a correct validator has drained from a correct one was broadcast by it. */
  lemma SeenWasBroadcast(c: Config, s: Net, i: nat, j: nat, pkt: Packet)
    requires Shape(c, s) && Fifo(c, s) && i in c.correct && i < c.n() && j < c.n()
    requires i in Senders(s.seen[j], pkt)
    ensures pkt in s.bcast[i]
  {
    assert Item(i, pkt) in s.seen[j];
    assert multiset(s.seen[j])[Item(i, pkt)] >= 1;
    HistCount(c, s, i, j, pkt);
    assert pkt in multiset(Hist(s, i, j));
  }

  lemma OnceEachIfHistOnce(c: Config, s: Net, j: nat, pkt: Packet)
    requires Shape(c, s) && Fifo(c, s) && j < c.n()
    requires forall i :: 0 <= i < c.n() ==> multiset(Hist(s, i, j))[pkt] <= 1
    ensures OnceEach(s.seen[j], pkt)
  {
    SendersAreValidators(c, s, j, pkt);
    assert forall i :: Item(i, pkt) in s.seen[j] ==> i in Senders(s.seen[j], pkt);
    forall i: nat ensures multiset(s.seen[j])[Item(i, pkt)] <= 1 {
      if i in Senders(s.seen[j], pkt) {
        HistCount(c, s, i, j, pkt);
      }
    }
  }

  /** READY counters count validators. */
  lemma ReadySenders(c: Config, s: Net, j: nat, h: BlockHash)
    requires Shape(c, s) && Inv(c, s) && FaultyOnce(c, s) && j in c.correct && j < c.n()
    ensures Count(s.seen[j], Packet(READY, h)) == |Senders(s.seen[j], Packet(READY, h))|
    ensures Senders(s.seen[j], Packet(READY, h)) <= Validators(c.n())
  {
    OnceEachIfHistOnce(c, s, j, Packet(READY, h));
    CountIsSenders(s.seen[j], Packet(READY, h));
    SendersAreValidators(c, s, j, Packet(READY, h));
  }

  lemma {:induction false} AtMostOnce<T>(s: seq<T>, x: T)
    requires forall a, b :: 0 <= a < b < |s| ==> !(s[a] == x && s[b] == x)
    ensures multiset(s)[x] <= 1
  {
    if s != [] {
      var front := s[..|s| - 1];
      assert s == front + [s[|s| - 1]];
      AtMostOnce(front, x);
      if s[|s| - 1] == x {
        assert forall a :: 0 <= a < |front| ==> front[a] == s[a] != x;
      }
    }
  }

  /** At most one SEND reaches j: it drains at most one, and all it drains name one block. */
  lemma OneSendSeen(c: Config, s: Net, j: nat, h: BlockHash)
    requires Shape(c, s) && Fifo(c, s) && OneSend(c, s) && j in c.correct && j < c.n()
    ensures Count(s.seen[j], Packet(SEND, h)) <= 1
  {
    var pkt := Packet(SEND, h);
    forall i | 0 <= i < c.n() ensures multiset(Hist(s, i, j))[pkt] <= 1 {
      forall a, b | 0 <= a < b < |Hist(s, i, j)| ensures !(Hist(s, i, j)[a] == pkt && Hist(s, i, j)[b] == pkt) {
        if Hist(s, i, j)[a] == pkt && Hist(s, i, j)[b] == pkt {
          assert IsSend(c, s, i, j, a) && IsSend(c, s, i, j, b);
        }
      }
      AtMostOnce(Hist(s, i, j), pkt);
    }
    OnceEachIfHistOnce(c, s, j, pkt);
    CountIsSenders(s.seen[j], pkt);
    var senders := Senders(s.seen[j], pkt);
    if |senders| > 1 {
      var i :| i in senders;
      assert |senders - {i}| > 0;
      var k :| k in senders - {i};
      var x := SendPosition(c, s, j, i, h);
      var y := SendPosition(c, s, j, k, h);
      assert false;
    }
  }

  lemma SendPosition(c: Config, s: Net, j: nat, i: nat, h: BlockHash) returns (x: nat)
    requires Shape(c, s) && Fifo(c, s) && j < c.n() && i in Senders(s.seen[j], Packet(SEND, h))
    ensures IsSend(c, s, i, j, x) && Hist(s, i, j)[x] == Packet(SEND, h)
  {
    SendersAreValidators(c, s, j, Packet(SEND, h));
    assert Item(i, Packet(SEND, h)) in s.seen[j];
    assert multiset(s.seen[j])[Item(i, Packet(SEND, h))] >= 1;
    HistCount(c, s, i, j, Packet(SEND, h));
    assert Packet(SEND, h) in multiset(Hist(s, i, j));
    x :| x < |Hist(s, i, j)| && Hist(s, i, j)[x] == Packet(SEND, h);
  }

  lemma OneSendOneBlock(c: Config, s: Net, j: nat, h: BlockHash, h': BlockHash)
    requires Shape(c, s) && Fifo(c, s) && OneSend(c, s) && j in c.correct && j < c.n()
    requires Count(s.seen[j], Packet(SEND, h)) >= 1 && Count(s.seen[j], Packet(SEND, h')) >= 1
    ensures h == h'
  {
    var a := CountWitness(s.seen[j], Packet(SEND, h));
    var b := CountWitness(s.seen[j], Packet(SEND, h'));
    assert a.from in Senders(s.seen[j], Packet(SEND, h)) && b.from in Senders(s.seen[j], Packet(SEND, h'));
    var x := SendPosition(c, s, j, a.from, h);
    var y := SendPosition(c, s, j, b.from, h');
  }

  /** With one SEND per validator, ECHO counters count validators too. */
  lemma EchoSenders(c: Config, s: Net, j: nat, h: BlockHash)
    requires Shape(c, s) && Inv(c, s) && FaultyOnce(c, s) && OneSend(c, s) && j in c.correct && j < c.n()
    ensures Count(s.seen[j], Packet(ECHO, h)) == |Senders(s.seen[j], Packet(ECHO, h))|
  {
    forall i | 0 <= i < c.n() ensures multiset(Hist(s, i, j))[Packet(ECHO, h)] <= 1 {
      if i in c.correct {
        OneSendSeen(c, s, i, h);
        assert EchoAnswersSend(s.seen[i], s.bcast[i]);
      }
    }
    OnceEachIfHistOnce(c, s, j, Packet(ECHO, h));
    CountIsSenders(s.seen[j], Packet(ECHO, h));
  }

  /** A READY a correct validator has just sent has an ECHO quorum behind it, or an earlier correct READY. */
  lemma FreshReady(c: Config, s: Net, j: nat, eo: seq<BlockHash>, ro: seq<BlockHash>, h: BlockHash)
    requires Shape(c, s) && Enabled(c, s, Work(j, eo, ro)) && Inv(c, s) && c.Valid()
    requires FaultyOnce(c, Apply(c, s, Work(j, eo, ro)))
    requires h in WorkOut(c, s, j, eo, ro).state.readySent && h !in s.procs[j].readySent
    ensures Count(s.seen[j] + s.inbox[j], Packet(ECHO, h)) >= c.params.EchoQuorum()
            || exists i :: i in c.correct && i < c.n() && h in s.procs[i].readySent
  {
    var t := Apply(c, s, Work(j, eo, ro));
    var p := s.procs[j].(send := None);
    InvStep(c, s, Work(j, eo, ro));
    WorkWorks(c, s, j, eo, ro);
    DrainEffect(c, j, p, s.inbox[j], h);
    assert Accounted(c, j, s.procs[j], s.seen[j], s.log[j], h);
    CountAppend(s.seen[j], s.inbox[j], Packet(ECHO, h));
    CountAppend(s.seen[j], s.inbox[j], Packet(READY, h));
    assert Justified(c.params, Drained(c, s, j), h);
    if Tally(Drained(c, s, j).ready, h) >= c.params.AmplifyAt() {
      ReadySenders(c, t, j, h);
      var i := SomeoneIsCorrect(c, Senders(t.seen[j], Packet(READY, h)));
      assert Item(i, Packet(READY, h)) in s.seen[j] + s.inbox[j];
      FromCount(s.seen[j] + s.inbox[j], i, Packet(READY, h));
      assert Packet(READY, h) in multiset(From(s.seen[j] + s.inbox[j], i));
      assert Packet(READY, h) in Hist(s, i, j);
      assert ReadyOnce(c, i, s.procs[i], s.bcast[i]);
      assert multiset(s.bcast[i])[Packet(READY, h)] >= 1;
    }
  }
}
