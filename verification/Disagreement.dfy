/**
 * When agreement fails: for the numbers of validators where it can, runs in which a faulty leader
 * wins two halves of the correct validators for two blocks.
 */
module Disagreement {
  import opened Common
  import opened BrachaRound
  import opened Network
  import opened Invariants
  import opened Faults
  import opened Agreement
  import opened Termination
  import opened Schedules

  // ----- first, everyone echoes -----

  /** The first i correct validators have echoed their blocks, and nothing has been received but SENDs. */
  ghost predicate Echoed(x: Plot, s: Net, i: nat)
    requires Shape(x.C(), s)
  {
    && (forall j :: 0 <= j < 2 * x.g ==> s.procs[j] == INITIAL && s.inbox[j] == [] && s.log[j] == [])
    && (forall j :: 0 <= j < 2 * x.g && j < i ==> s.seen[j] == [Item(2 * x.g, Packet(SEND, x.BlockFor(j)))])
    && (forall j :: i <= j < 2 * x.g ==> s.seen[j] == [])
    && (forall k, j :: 0 <= k < x.N() && 0 <= j < x.N() ==>
          s.wires[k][j] == if k < i then [Packet(ECHO, x.BlockFor(k))] else [])
  }

  lemma EchoRound(x: Plot, j: nat, h: BlockHash)
    ensures Drain(x.C(), j, INITIAL.(send := None), [Item(2 * x.g, Packet(SEND, h))]) == INITIAL.(send := Some(h))
    ensures Round(x.C().params, INITIAL.(send := Some(h)), [], []) == RoundOut(INITIAL, [Packet(ECHO, h)], None)
  {
    var items := [Item(2 * x.g, Packet(SEND, h))];
    assert items[..0] == [];
  }

  /** The state after validator i has echoed h. */
  function AfterEcho(x: Plot, s: Net, i: nat, h: BlockHash): Net
    requires Shape(x.C(), s) && i < x.N()
  {
    s.(wires := Push(x.C(), s.wires, i, [Packet(ECHO, h)]), inbox := s.inbox[i := []],
       seen := s.seen[i := s.seen[i] + s.inbox[i]], bcast := s.bcast[i := s.bcast[i] + [Packet(ECHO, h)]])
  }

  lemma WorkEchoes(x: Plot, s: Net, i: nat, h: BlockHash)
    requires Plotted(x) && Shape(x.C(), s) && i < 2 * x.g
    requires s.procs[i] == INITIAL && s.inbox[i] == [Item(2 * x.g, Packet(SEND, h))]
    ensures Enabled(x.C(), s, Work(i, [], [])) && Apply(x.C(), s, Work(i, [], [])) == AfterEcho(x, s, i, h)
  {
    hide Drain, Round;
    PlotIsValid(x);
    EchoRound(x, i, h);
    assert s.procs[i := INITIAL] == s.procs;
    assert s.log[i] + [] == s.log[i];
    assert s.log[i := s.log[i]] == s.log;
  }

  lemma EchoedNext(x: Plot, s: Net, i: nat)
    requires Plotted(x) && Shape(x.C(), s) && i < 2 * x.g && Echoed(x, s, i)
    ensures var s1 := WithInbox(s, i, [Item(2 * x.g, Packet(SEND, x.BlockFor(i)))]);
      Shape(x.C(), s1) && Echoed(x, AfterEcho(x, s1, i, x.BlockFor(i)), i + 1)
  {
  }

  /** Validator i is told its block, and echoes it. */
  lemma EchoNext(x: Plot, run: seq<Action>, s: Net, i: nat) returns (run': seq<Action>, t: Net)
    requires Plotted(x) && Achieved(x, run, s) && i < 2 * x.g && Shape(x.C(), s) && Echoed(x, s, i)
    ensures Achieved(x, run', t) && Shape(x.C(), t) && Echoed(x, t, i + 1)
  {
    hide Achieved, Apply, Enabled, AfterEcho;
    PlotIsValid(x);
    var h := x.BlockFor(i);
    assert s.seen[i] + s.inbox[i] == [];
    var run1, s1 := SlipIn(x, run, s, 2 * x.g, i, Packet(SEND, h));
    assert s1.inbox[i] == [Item(2 * x.g, Packet(SEND, h))];
    EchoedNext(x, s, i);
    WorkEchoes(x, s1, i, h);
    t := OneStep(x, run1, s1, Work(i, [], []));
    run' := run1 + [Work(i, [], [])];
    AchievedShape(x, run', t);
  }

  lemma {:induction false} EveryoneEchoes(x: Plot, i: nat) returns (run: seq<Action>, s: Net)
    requires Plotted(x) && i <= 2 * x.g
    ensures Achieved(x, run, s) && Shape(x.C(), s) && Echoed(x, s, i)
  {
    hide Achieved;
    if i == 0 {
      run, s := [], Start(x.C());
      StartIsReached(x);
    } else {
      run, s := EveryoneEchoes(x, i - 1);
      run, s := EchoNext(x, run, s, i - 1);
    }
  }

  lemma StartIsReached(x: Plot)
    requires Plotted(x)
    ensures Achieved(x, [], Start(x.C())) && Shape(x.C(), Start(x.C())) && Echoed(x, Start(x.C()), 0)
  {
    var c, s := x.C(), Start(x.C());
    InvStart(c);
    forall i, j | 0 <= i < c.n() && 0 <= j < c.n() ensures Hist(s, i, j) == [] {
    }
  }

  // ----- then each block wins one validator -----

  /** Nothing waits at j, which has received no READY. */
  ghost predicate Untouched(x: Plot, s: Net, j: nat)
    requires Shape(x.C(), s) && j < 2 * x.g
  {
    && s.inbox[j] == [] && s.log[j] == [] && s.procs[j].running
    && (forall y :: y in s.seen[j] ==> y.pkt.kind != READY)
    && (forall k :: 2 * x.g <= k < x.N() ==> s.wires[k][j] == [])
  }

  /** The ECHOs of a half have arrived at j, and nothing but SENDs before them. */
  ghost predicate HalfIsIn(x: Plot, s: Net, j: nat, lo: nat, h: BlockHash)
    requires Shape(x.C(), s) && j < 2 * x.g
  {
    && (forall k :: lo <= k < lo + x.g ==> Item(k, Packet(ECHO, h)) in s.seen[j] + s.inbox[j])
    && (forall y :: y in s.seen[j] + s.inbox[j] ==> y.pkt.kind == SEND || (y.pkt.kind == ECHO && y.from < 2 * x.g))
    && (forall k :: 2 * x.g <= k < x.N() ==> s.wires[k][j] == [])
    && s.log[j] == [] && s.procs[j].running
  }

  /** j has the ECHOs of half the correct validators and of all faulty ones, and no READY. */
  ghost predicate QuorumIsIn(x: Plot, s: Net, j: nat, lo: nat, h: BlockHash)
    requires Shape(x.C(), s) && j < 2 * x.g
  {
    && (forall k :: k in Between(lo, lo + x.g) + Between(2 * x.g, x.N()) ==>
          Item(k, Packet(ECHO, h)) in s.seen[j] + s.inbox[j])
    && (forall y :: y in s.seen[j] + s.inbox[j] ==> y.pkt.kind != READY)
    && (forall k :: 2 * x.g <= k < x.N() ==> s.wires[k][j] == [])
    && s.inbox[j] != [] && s.procs[j].running
  }

  lemma FaultyEchoesToo(x: Plot, s: Net, j: nat, lo: nat, h: BlockHash)
    requires Plotted(x) && Shape(x.C(), s) && j < 2 * x.g && HalfIsIn(x, s, j, lo, h)
    ensures var t := WithInbox(s, j, FromEach(2 * x.g, x.N(), Packet(ECHO, h)));
      Shape(x.C(), t) && QuorumIsIn(x, t, j, lo, h)
  {
    var all := FromEach(2 * x.g, x.N(), Packet(ECHO, h));
    var t := WithInbox(s, j, all);
    forall y ensures y in all <==> y.pkt == Packet(ECHO, h) && 2 * x.g <= y.from < x.N() {
      InFromEach(2 * x.g, x.N(), Packet(ECHO, h), y);
    }
    assert Item(2 * x.g, Packet(ECHO, h)) in all;
    assert t.seen[j] + t.inbox[j] == s.seen[j] + s.inbox[j] + all;
  }

  lemma QuorumMeans(x: Plot, s: Net, j: nat, lo: nat, h: BlockHash)
    requires Shape(x.C(), s) && j < 2 * x.g && QuorumIsIn(x, s, j, lo, h)
    ensures forall k :: k in Between(lo, lo + x.g) + Between(2 * x.g, x.N()) ==>
      Item(k, Packet(ECHO, h)) in s.seen[j] + s.inbox[j]
    ensures forall y :: y in s.seen[j] + s.inbox[j] ==> y.pkt.kind != READY
    ensures forall k :: 2 * x.g <= k < x.N() ==> s.wires[k][j] == []
    ensures s.inbox[j] != [] && s.procs[j].running
  {
  }

  lemma WorkedMeans(x: Plot, s: Net, t: Net, j: nat)
    requires Shape(x.C(), s) && Shape(x.C(), t) && j < 2 * x.g && OnlyWorked(x, s, t, j)
    ensures t.seen[j] == s.seen[j] + s.inbox[j] && t.inbox[j] == []
    ensures forall k :: 2 * x.g <= k < x.N() ==> t.wires[k] == s.wires[k]
    ensures s.procs[j].readySent <= t.procs[j].readySent && Apart(x, s, t, j)
  {
  }

  lemma QuorumWins(x: Plot, run: seq<Action>, s: Net, j: nat, lo: nat, h: BlockHash) returns (run': seq<Action>, t: Net)
    requires Plotted(x) && Achieved(x, run, s) && Shape(x.C(), s) && j < 2 * x.g && lo + x.g <= 2 * x.g
    requires QuorumIsIn(x, s, j, lo, h)
    ensures Achieved(x, run', t) && Shape(x.C(), t) && OnlyWorked(x, s, t, j)
    ensures h in t.procs[j].readySent && Untouched(x, t, j)
  {
    hide Achieved, QuorumIsIn, OnlyWorked, Between;
    PlotIsValid(x);
    QuorumMeans(x, s, j, lo, h);
    run', t := AnyRound(x, run, s, j);
    WorkedMeans(x, s, t, j);
    FewReadysNoDelivery(x, run', t, j, {});
    var half, rest := Between(lo, lo + x.g), Between(2 * x.g, x.N());
    BetweenSize(lo, lo + x.g);
    BetweenSize(2 * x.g, x.N());
    UnionSize(half, rest);
    EnoughForReady(x, run', t, j, h, half + rest, ECHO);
  }

  /** Validator j has changed; what concerns the others has not, but for messages of j. */
  ghost predicate Apart(x: Plot, s: Net, t: Net, j: nat)
    requires Shape(x.C(), s) && Shape(x.C(), t)
  {
    && (forall k, l :: 0 <= k < x.N() && 0 <= l < x.N() && k != j && l != j ==> t.wires[k][l] == s.wires[k][l])
    && (forall l :: 0 <= l < x.N() && l != j ==>
          t.procs[l] == s.procs[l] && t.inbox[l] == s.inbox[l] && t.seen[l] == s.seen[l] && t.log[l] == s.log[l])
  }

  /** The validators from lo on, g of them, and the faulty ones win validator j for h. */
  lemma Win(x: Plot, run: seq<Action>, s: Net, j: nat, lo: nat, h: BlockHash) returns (run': seq<Action>, t: Net)
    requires Plotted(x) && Achieved(x, run, s) && Shape(x.C(), s) && j < 2 * x.g && lo + x.g <= 2 * x.g
    requires Untouched(x, s, j) && forall y :: y in s.seen[j] ==> y.pkt.kind == SEND
    requires forall k :: lo <= k < lo + x.g ==> s.wires[k][j] == [Packet(ECHO, h)]
    ensures Achieved(x, run', t) && Shape(x.C(), t) && h in t.procs[j].readySent
    ensures Untouched(x, t, j) && Apart(x, s, t, j)
  {
    hide Achieved, QuorumIsIn, Untouched, Apart;
    var run1, s1 := HearHalf(x, run, s, j, lo, h);
    run', t := WinHalf(x, run1, s1, j, lo, h);
    ApartTwice(x, s, s1, t, j);
  }

  lemma ApartTwice(x: Plot, s: Net, s1: Net, t: Net, j: nat)
    requires Shape(x.C(), s) && Shape(x.C(), s1) && Shape(x.C(), t) && Apart(x, s, s1, j) && Apart(x, s1, t, j)
    ensures Apart(x, s, t, j)
  {
  }

  lemma FedIsApart(x: Plot, s: Net, t: Net, j: nat, lo: nat, hi: nat)
    requires Shape(x.C(), s) && Shape(x.C(), t) && j < x.N() && OnlyFed(x, s, t, j, lo, hi)
    ensures Apart(x, s, t, j)
  {
  }

  /** First the ECHOs of the half arrive. */
  lemma HearHalf(x: Plot, run: seq<Action>, s: Net, j: nat, lo: nat, h: BlockHash) returns (run': seq<Action>, t: Net)
    requires Plotted(x) && Achieved(x, run, s) && Shape(x.C(), s) && j < 2 * x.g && lo + x.g <= 2 * x.g
    requires Untouched(x, s, j) && forall y :: y in s.seen[j] ==> y.pkt.kind == SEND
    requires forall k :: lo <= k < lo + x.g ==> s.wires[k][j] == [Packet(ECHO, h)]
    ensures Achieved(x, run', t) && Shape(x.C(), t) && HalfIsIn(x, t, j, lo, h) && Apart(x, s, t, j)
  {
    hide Achieved, HalfIsIn, Untouched, OnlyFed, Apart;
    run', t := FeedAll(x, run, s, lo, lo + x.g, j);
    HalfHasArrived(x, run, s, run', t, j, lo, h);
    FedIsHalfIn(x, s, t, j, lo, h);
    FedIsApart(x, s, t, j, lo, lo + x.g);
  }

  /** Then those of the faulty validators, which make a quorum. */
  lemma WinHalf(x: Plot, run: seq<Action>, s: Net, j: nat, lo: nat, h: BlockHash) returns (run': seq<Action>, t: Net)
    requires Plotted(x) && Achieved(x, run, s) && Shape(x.C(), s) && j < 2 * x.g && lo + x.g <= 2 * x.g
    requires HalfIsIn(x, s, j, lo, h)
    ensures Achieved(x, run', t) && Shape(x.C(), t) && h in t.procs[j].readySent
    ensures Untouched(x, t, j) && Apart(x, s, t, j)
  {
    hide Achieved, HalfIsIn, QuorumIsIn, OnlyWorked, Untouched, FromEach;
    HalfIsInMeans(x, s, j, lo, h);
    FaultyEchoesToo(x, s, j, lo, h);
    var run1, s1 := SlipInAll(x, run, s, x.N(), j, Packet(ECHO, h));
    run', t := QuorumWins(x, run1, s1, j, lo, h);
    WorkedMeans(x, s1, t, j);
  }

  lemma FedIsHalfIn(x: Plot, s: Net, s1: Net, j: nat, lo: nat, h: BlockHash)
    requires Shape(x.C(), s) && Shape(x.C(), s1) && j < 2 * x.g && lo + x.g <= 2 * x.g
    requires Untouched(x, s, j) && forall y :: y in s.seen[j] ==> y.pkt.kind == SEND
    requires forall k :: lo <= k < lo + x.g ==> s.wires[k][j] == [Packet(ECHO, h)]
    requires OnlyFed(x, s, s1, j, lo, lo + x.g)
    requires forall k :: lo <= k < lo + x.g ==> Item(k, Packet(ECHO, h)) in s1.seen[j] + s1.inbox[j]
    ensures HalfIsIn(x, s1, j, lo, h)
  {
  }

  lemma HalfIsInMeans(x: Plot, s: Net, j: nat, lo: nat, h: BlockHash)
    requires Shape(x.C(), s) && j < 2 * x.g && HalfIsIn(x, s, j, lo, h)
    ensures forall k :: 2 * x.g <= k < x.N() ==>
      s.wires[k][j] == [] && Item(k, Packet(ECHO, h)) !in s.seen[j] + s.inbox[j]
  {
  }

  lemma HalfHasArrived(x: Plot, run: seq<Action>, s: Net, run1: seq<Action>, s1: Net, j: nat, lo: nat, h: BlockHash)
    requires Plotted(x) && Achieved(x, run, s) && Achieved(x, run1, s1) && Shape(x.C(), s) && Shape(x.C(), s1)
    requires j < 2 * x.g && lo + x.g <= 2 * x.g && OnlyFed(x, s, s1, j, lo, lo + x.g)
    requires forall k :: lo <= k < lo + x.g ==> s.wires[k][j] == [Packet(ECHO, h)]
    ensures forall k :: lo <= k < lo + x.g ==> Item(k, Packet(ECHO, h)) in s1.seen[j] + s1.inbox[j]
  {
    PlotIsValid(x);
    forall k | lo <= k < lo + x.g ensures Item(k, Packet(ECHO, h)) in s1.seen[j] + s1.inbox[j] {
      assert Hist(s, k, j) == s.bcast[k];
      assert Packet(ECHO, h) in s.wires[k][j];
      FedHasAll(x, s1, k, j, Packet(ECHO, h));
    }
  }

  /** Every correct validator is untouched by READYs, and each block has won its validator. */
  ghost predicate BothWon(x: Plot, s: Net)
    requires Shape(x.C(), s) && Plotted(x)
  {
    && (forall j :: 0 <= j < 2 * x.g ==> Untouched(x, s, j))
    && x.a in s.procs[0].readySent && x.b in s.procs[x.g].readySent
  }

  lemma EchoedIsUntouched(x: Plot, s: Net, j: nat)
    requires Plotted(x) && Shape(x.C(), s) && Echoed(x, s, 2 * x.g) && j < 2 * x.g
    ensures Untouched(x, s, j) && forall y :: y in s.seen[j] ==> y.pkt.kind == SEND
  {
  }

  lemma ApartIsUntouched(x: Plot, s: Net, t: Net, j: nat, l: nat)
    requires Plotted(x) && Shape(x.C(), s) && Shape(x.C(), t) && Apart(x, s, t, j)
    requires j < 2 * x.g && l < 2 * x.g && l != j && Untouched(x, s, l)
    ensures Untouched(x, t, l)
  {
  }

  /** Block a wins validator 0 with the first half, block b wins validator g with the second. */
  lemma WinBoth(x: Plot) returns (run: seq<Action>, s: Net)
    requires Plotted(x)
    ensures Achieved(x, run, s) && Shape(x.C(), s) && BothWon(x, s)
  {
    hide Achieved, Untouched;
    var run0, s0 := EveryoneEchoes(x, 2 * x.g);
    forall j | 0 <= j < 2 * x.g
      ensures Untouched(x, s0, j) && forall y :: y in s0.seen[j] ==> y.pkt.kind == SEND
    {
      EchoedIsUntouched(x, s0, j);
    }
    var run1, s1 := Win(x, run0, s0, 0, 0, x.a);
    forall j | 0 < j < 2 * x.g ensures Untouched(x, s1, j) {
      ApartIsUntouched(x, s0, s1, 0, j);
    }
    run, s := Win(x, run1, s1, x.g, x.g, x.b);
    forall j | 0 <= j < 2 * x.g && j != x.g ensures Untouched(x, s, j) {
      ApartIsUntouched(x, s1, s, x.g, j);
    }
  }

  // ----- then everyone amplifies both -----

  /** j has sent READY for both blocks without delivering, and has every faulty READY for both. */
  ghost predicate Amplified(x: Plot, s: Net, j: nat)
    requires Shape(x.C(), s) && j < 2 * x.g
  {
    && x.a in s.procs[j].readySent && x.b in s.procs[j].readySent
    && s.log[j] == [] && s.procs[j].running
    && (forall k :: 2 * x.g <= k < x.N() ==>
          Item(k, Packet(READY, x.a)) in s.seen[j] && Item(k, Packet(READY, x.b)) in s.seen[j])
  }

  /** Both blocks' first READYs have arrived at j, and no others. */
  ghost predicate FirstReadysAreIn(x: Plot, s: Net, j: nat)
    requires Shape(x.C(), s) && j < 2 * x.g
  {
    && Item(0, Packet(READY, x.a)) in s.seen[j] + s.inbox[j]
    && Item(x.g, Packet(READY, x.b)) in s.seen[j] + s.inbox[j]
    && (forall y :: y in s.seen[j] + s.inbox[j] && y.pkt.kind == READY ==> y.from == 0 || y.from == x.g)
    && (forall k :: 2 * x.g <= k < x.N() ==> s.wires[k][j] == [])
    && s.log[j] == [] && s.procs[j].running
  }

  /** And all faulty READYs for both. */
  ghost predicate PushIsIn(x: Plot, s: Net, j: nat)
    requires Shape(x.C(), s) && j < 2 * x.g
  {
    && Item(0, Packet(READY, x.a)) in s.seen[j] + s.inbox[j]
    && Item(x.g, Packet(READY, x.b)) in s.seen[j] + s.inbox[j]
    && (forall y :: y in s.seen[j] + s.inbox[j] && y.pkt.kind == READY ==>
          y.from in {0, x.g} + Between(2 * x.g, x.N()))
    && (forall k :: 2 * x.g <= k < x.N() ==>
          && Item(k, Packet(READY, x.a)) in s.seen[j] + s.inbox[j]
          && Item(k, Packet(READY, x.b)) in s.seen[j] + s.inbox[j])
    && s.inbox[j] != [] && s.procs[j].running
  }

  /** After feeding, the READY that validator k has sent has reached j. */
  lemma ReadyHasArrived(x: Plot, run: seq<Action>, s: Net, k: nat, j: nat, h: BlockHash)
    requires Plotted(x) && Achieved(x, run, s) && Shape(x.C(), s) && k < 2 * x.g && j < x.N()
    requires s.wires[k][j] == [] && h in s.procs[k].readySent
    ensures Item(k, Packet(READY, h)) in s.seen[j] + s.inbox[j]
  {
    PlotIsValid(x);
    assert ReadyOnce(x.C(), k, s.procs[k], s.bcast[k]);
    assert multiset(s.bcast[k])[Packet(READY, h)] == 1;
    FedHasAll(x, s, k, j, Packet(READY, h));
  }

  lemma FeedFirstReadys(x: Plot, run: seq<Action>, s: Net, j: nat) returns (run': seq<Action>, t: Net)
    requires Plotted(x) && Achieved(x, run, s) && Shape(x.C(), s) && j < 2 * x.g && Untouched(x, s, j)
    requires x.a in s.procs[0].readySent && x.b in s.procs[x.g].readySent
    ensures Achieved(x, run', t) && Shape(x.C(), t) && FirstReadysAreIn(x, t, j)
    ensures t.procs == s.procs && t.log == s.log && t.seen == s.seen
    ensures forall l :: 0 <= l < x.N() && l != j ==> t.inbox[l] == s.inbox[l]
    ensures forall k, l :: 0 <= k < x.N() && 0 <= l < x.N() && l != j ==> t.wires[k][l] == s.wires[k][l]
  {
    hide Achieved;
    var run1, s1 := Feed(x, run, s, 0, j);
    run', t := Feed(x, run1, s1, x.g, j);
    ReadyHasArrived(x, run', t, 0, j, x.a);
    ReadyHasArrived(x, run', t, x.g, j, x.b);
  }

  lemma FaultyPushToo(x: Plot, s: Net, j: nat)
    requires Plotted(x) && Shape(x.C(), s) && j < 2 * x.g && FirstReadysAreIn(x, s, j)
    ensures var s1 := WithInbox(s, j, FromEach(2 * x.g, x.N(), Packet(READY, x.a)));
      var t := WithInbox(s1, j, FromEach(2 * x.g, x.N(), Packet(READY, x.b)));
      && Shape(x.C(), s1) && Shape(x.C(), t) && PushIsIn(x, t, j)
      && (forall k :: 2 * x.g <= k < x.N() ==> Item(k, Packet(READY, x.a)) !in s.seen[j] + s.inbox[j])
      && (forall k :: 2 * x.g <= k < x.N() ==> Item(k, Packet(READY, x.b)) !in s1.seen[j] + s1.inbox[j])
  {
    var allA, allB := FromEach(2 * x.g, x.N(), Packet(READY, x.a)), FromEach(2 * x.g, x.N(), Packet(READY, x.b));
    forall y
      ensures y in allA <==> y.pkt == Packet(READY, x.a) && 2 * x.g <= y.from < x.N()
      ensures y in allB <==> y.pkt == Packet(READY, x.b) && 2 * x.g <= y.from < x.N()
    {
      InFromEach(2 * x.g, x.N(), Packet(READY, x.a), y);
      InFromEach(2 * x.g, x.N(), Packet(READY, x.b), y);
    }
    assert Item(2 * x.g, Packet(READY, x.b)) in allB;
    var s1 := WithInbox(s, j, allA);
    var t := WithInbox(s1, j, allB);
    assert s1.seen[j] + s1.inbox[j] == s.seen[j] + s.inbox[j] + allA;
    assert t.seen[j] + t.inbox[j] == s.seen[j] + s.inbox[j] + allA + allB;
  }

  lemma FewAndEnough(x: Plot)
    requires Plotted(x)
    ensures |{0, x.g} + Between(2 * x.g, x.N())| <= 2 * x.f + 1
    ensures |{0} + Between(2 * x.g, x.N())| == x.f + 1 && |{x.g} + Between(2 * x.g, x.N())| == x.f + 1
  {
    hide Between;
    BetweenSize(2 * x.g, x.N());
    UnionSize({0, x.g}, Between(2 * x.g, x.N()));
    UnionSize({0}, Between(2 * x.g, x.N()));
    UnionSize({x.g}, Between(2 * x.g, x.N()));
  }

  lemma PushAmplifies(x: Plot, run: seq<Action>, s: Net, j: nat) returns (run': seq<Action>, t: Net)
    requires Plotted(x) && Achieved(x, run, s) && Shape(x.C(), s) && j < 2 * x.g && PushIsIn(x, s, j)
    ensures Achieved(x, run', t) && Shape(x.C(), t) && OnlyWorked(x, s, t, j) && Amplified(x, t, j)
  {
    hide Achieved, OnlyWorked, Between;
    run', t := AnyRound(x, run, s, j);
    WorkedMeans(x, s, t, j);
    FewAndEnough(x);
    FewReadysNoDelivery(x, run', t, j, {0, x.g} + Between(2 * x.g, x.N()));
    EnoughForReady(x, run', t, j, x.a, {0} + Between(2 * x.g, x.N()), READY);
    EnoughForReady(x, run', t, j, x.b, {x.g} + Between(2 * x.g, x.N()), READY);
  }

  /** Validator j hears both first READYs and the faulty ones, and sends READY for both blocks. */
  lemma AmplifyNext(x: Plot, run: seq<Action>, s: Net, j: nat) returns (run': seq<Action>, t: Net)
    requires Plotted(x) && Achieved(x, run, s) && Shape(x.C(), s) && j < 2 * x.g && Untouched(x, s, j)
    requires x.a in s.procs[0].readySent && x.b in s.procs[x.g].readySent
    ensures Achieved(x, run', t) && Shape(x.C(), t) && Amplified(x, t, j) && Apart(x, s, t, j)
  {
    hide Achieved, PushIsIn, FirstReadysAreIn;
    var run1, s1 := FeedFirstReadys(x, run, s, j);
    FirstReadysMean(x, s1, j);
    FaultyPushToo(x, s1, j);
    var run2, s2 := SlipInAll(x, run1, s1, x.N(), j, Packet(READY, x.a));
    var run3, s3 := SlipInAll(x, run2, s2, x.N(), j, Packet(READY, x.b));
    run', t := PushAmplifies(x, run3, s3, j);
    WorkedMeans(x, s3, t, j);
  }

  lemma FirstReadysMean(x: Plot, s: Net, j: nat)
    requires Shape(x.C(), s) && j < 2 * x.g && FirstReadysAreIn(x, s, j)
    ensures forall k :: 2 * x.g <= k < x.N() ==> s.wires[k][j] == []
  {
  }

  /** The first i correct validators have amplified, the others are untouched. */
  ghost predicate AmplifiedUpTo(x: Plot, s: Net, i: nat)
    requires Shape(x.C(), s) && Plotted(x)
  {
    && (forall j :: 0 <= j < 2 * x.g && j < i ==> Amplified(x, s, j))
    && (forall j :: i <= j < 2 * x.g ==> Untouched(x, s, j))
    && x.a in s.procs[0].readySent && x.b in s.procs[x.g].readySent
  }

  lemma ApartIsAmplified(x: Plot, s: Net, t: Net, j: nat, l: nat)
    requires Plotted(x) && Shape(x.C(), s) && Shape(x.C(), t) && Apart(x, s, t, j)
    requires j < 2 * x.g && l < 2 * x.g && l != j && Amplified(x, s, l)
    ensures Amplified(x, t, l)
  {
  }

  lemma {:induction false} EveryoneAmplifies(x: Plot, i: nat) returns (run: seq<Action>, s: Net)
    requires Plotted(x) && i <= 2 * x.g
    ensures Achieved(x, run, s) && Shape(x.C(), s) && AmplifiedUpTo(x, s, i)
  {
    hide Achieved, Untouched;
    if i == 0 {
      run, s := WinBoth(x);
    } else {
      var run1, s1 := EveryoneAmplifies(x, i - 1);
      run, s := AmplifyNext(x, run1, s1, i - 1);
      forall j | 0 <= j < i - 1 ensures Amplified(x, s, j) {
        ApartIsAmplified(x, s1, s, i - 1, j);
      }
      forall j | i <= j < 2 * x.g ensures Untouched(x, s, j) {
        ApartIsUntouched(x, s1, s, i - 1, j);
      }
    }
  }

  // ----- then each winner delivers its block -----

  /** Validator j is ready to deliver h: all correct validators have sent READY, and the faulty READYs are there. */
  ghost predicate AboutToDeliver(x: Plot, s: Net, j: nat, h: BlockHash)
    requires Shape(x.C(), s) && j < 2 * x.g
  {
    && (forall k :: 0 <= k < 2 * x.g ==> h in s.procs[k].readySent)
    && (forall k :: 2 * x.g <= k < x.N() ==> Item(k, Packet(READY, h)) in s.seen[j])
    && s.log[j] == [] && s.procs[j].running
  }

  /** With every READY for h there, the counter of h is above 2f+1 when the round starts. */
  lemma EveryReadyIsCounted(x: Plot, run: seq<Action>, s: Net, j: nat, h: BlockHash)
    requires Plotted(x) && Achieved(x, run, s) && Shape(x.C(), s) && j < 2 * x.g && x.N() >= 2 * x.f + 2
    requires s.log[j] == []
    requires forall k :: 0 <= k < x.N() ==> Item(k, Packet(READY, h)) in s.seen[j] + s.inbox[j]
    ensures Tally(Drained(x.C(), s, j).ready, h) > x.C().params.DeliverAbove()
  {
    PlotIsValid(x);
    var c, pkt, items := x.C(), Packet(READY, h), s.seen[j] + s.inbox[j];
    assert Accounted(c, j, s.procs[j], s.seen[j], s.log[j], h);
    DrainEffect(c, j, s.procs[j].(send := None), s.inbox[j], h);
    CountAppend(s.seen[j], s.inbox[j], pkt);
    CountAtLeastSenders(items, pkt);
    BetweenSize(0, x.N());
    forall k | k in Between(0, x.N()) ensures k in Senders(items, pkt) {
      assert Item(k, pkt) in items;
    }
    SubsetSize(Between(0, x.N()), Senders(items, pkt));
  }

  /** The READY loop delivers h if it comes first and is above 2f+1. */
  lemma FirstIsDelivered(c: Params, p: Proto, eo: seq<BlockHash>, ro: seq<BlockHash>, h: BlockHash)
    requires ro != [] && ro[0] == h && Tally(p.ready, h) > c.DeliverAbove()
    requires Enumerates(eo, p.echo.Keys) && Enumerates(ro, p.ready.Keys)
    ensures Round(c, p, eo, ro).delivered == Some(h)
  {
    hide EchoPass, ReadyPass;
    var p1 := p.(running := true);
    EchoSendEffect(p1);
    EchoPassEffect(c, p1, EchoSend(p1), eo);
    var r1 := EchoPass(c, EchoSend(p1), eo);
    var before, a := ReadyPassEffect(c, p1, r1, ro);
    assert h in ro;
    var q := ReadyPass(c, r1, ro);
    if q.delivered.Some? {
      assert (before + [q.delivered.value])[0] == ro[0];
    }
  }

  /** An order that starts with h. */
  lemma StartingWith(keys: set<BlockHash>, h: BlockHash) returns (order: seq<BlockHash>)
    requires h in keys
    ensures Enumerates(order, keys) && order != [] && order[0] == h
  {
    var rest := Enumeration(keys - {h});
    order := [h] + rest;
    assert forall y :: y in order <==> y == h || y in rest;
    assert h !in rest;
  }

  /** Before the round, everything has arrived. */
  lemma FeedEverything(x: Plot, run: seq<Action>, s: Net, j: nat, h: BlockHash) returns (run': seq<Action>, t: Net)
    requires Plotted(x) && Achieved(x, run, s) && Shape(x.C(), s) && j < 2 * x.g && AboutToDeliver(x, s, j, h)
    ensures Achieved(x, run', t) && Shape(x.C(), t) && OnlyFed(x, s, t, j, 0, 2 * x.g)
    ensures forall k :: 0 <= k < x.N() ==> Item(k, Packet(READY, h)) in t.seen[j] + t.inbox[j]
  {
    hide Achieved;
    run', t := FeedAll(x, run, s, 0, 2 * x.g, j);
    forall k | 0 <= k < x.N() ensures Item(k, Packet(READY, h)) in t.seen[j] + t.inbox[j] {
      if k < 2 * x.g {
        ReadyHasArrived(x, run', t, k, j, h);
      }
    }
  }

  /** A validator that has not delivered still has some of those READYs to drain. */
  lemma SomethingIsLeft(x: Plot, run: seq<Action>, s: Net, j: nat, h: BlockHash)
    requires Plotted(x) && Achieved(x, run, s) && Shape(x.C(), s) && j < 2 * x.g && x.N() >= 2 * x.f + 2
    requires s.log[j] == []
    requires forall k :: 0 <= k < x.N() ==> Item(k, Packet(READY, h)) in s.seen[j] + s.inbox[j]
    ensures s.inbox[j] != []
  {
    PlotIsValid(x);
    EveryReadyIsCounted(x, run, s, j, h);
    assert Acted(x.C(), s.procs[j], s.log[j]);
  }

  /** Validator j drains everything and delivers h. */
  lemma DeliverNow(x: Plot, run: seq<Action>, s: Net, j: nat, h: BlockHash) returns (run': seq<Action>, t: Net)
    requires Plotted(x) && Achieved(x, run, s) && Shape(x.C(), s) && j < 2 * x.g && x.N() >= 2 * x.f + 2
    requires AboutToDeliver(x, s, j, h)
    ensures Achieved(x, run', t) && Shape(x.C(), t) && h in t.log[j] && Apart(x, s, t, j)
    ensures s.procs[j].readySent <= t.procs[j].readySent
  {
    hide Achieved, Round, Drain, AboutToDeliver;
    PlotIsValid(x);
    AboutMeans(x, s, j, h);
    var c := x.C();
    var run1, s1 := FeedEverything(x, run, s, j, h);
    EveryReadyIsCounted(x, run1, s1, j, h);
    SomethingIsLeft(x, run1, s1, j, h);
    var eo := Enumeration(Drained(c, s1, j).echo.Keys);
    var ro := StartingWith(Drained(c, s1, j).ready.Keys, h);
    FirstIsDelivered(c.params, Drained(c, s1, j), eo, ro, h);
    run' := run1 + [Work(j, eo, ro)];
    WorkOnly(x, s1, j, eo, ro);
    t := OneStep(x, run1, s1, Work(j, eo, ro));
    WorkedMeans(x, s1, t, j);
  }

  lemma AboutMeans(x: Plot, s: Net, j: nat, h: BlockHash)
    requires Shape(x.C(), s) && j < 2 * x.g && AboutToDeliver(x, s, j, h)
    ensures s.log[j] == [] && s.procs[j].running
  {
  }

  lemma AllAboutToDeliver(x: Plot, s: Net)
    requires Plotted(x) && Shape(x.C(), s) && AmplifiedUpTo(x, s, 2 * x.g)
    ensures AboutToDeliver(x, s, 0, x.a) && AboutToDeliver(x, s, x.g, x.b)
  {
    forall k | 0 <= k < 2 * x.g ensures x.a in s.procs[k].readySent && x.b in s.procs[k].readySent {
      assert Amplified(x, s, k);
    }
    assert Amplified(x, s, 0) && Amplified(x, s, x.g);
  }

  /** Validator 0 delivers block a, and validator g delivers block b. */
  lemma DeliverBoth(x: Plot) returns (run: seq<Action>, s: Net)
    requires Plotted(x) && x.N() >= 2 * x.f + 2
    ensures Achieved(x, run, s) && Shape(x.C(), s) && x.a in s.log[0] && x.b in s.log[x.g]
  {
    hide Achieved;
    var run1, s1 := EveryoneAmplifies(x, 2 * x.g);
    AllAboutToDeliver(x, s1);
    var run2, s2 := DeliverNow(x, run1, s1, 0, x.a);
    assert AboutToDeliver(x, s2, x.g, x.b);
    run, s := DeliverNow(x, run2, s2, x.g, x.b);
  }

  // ----- exactly when -----

  /** Two correct validators have sent READY for, or delivered, different blocks, within the fault model. */
  ghost predicate Disagree(c: Config, run: seq<Action>, i: nat, h: BlockHash, i': nat, h': BlockHash) {
    && c.Valid() && Exec(c, run).Some? && FaultyOnce(c, Exec(c, run).value) && OneSend(c, Exec(c, run).value)
    && i in c.correct && i' in c.correct && h != h'
    && Committed(Exec(c, run).value, i, h) && Committed(Exec(c, run).value, i', h')
  }

  /** Two correct validators have delivered different blocks, within the fault model. */
  ghost predicate DeliverDifferently(c: Config, run: seq<Action>, i: nat, h: BlockHash, i': nat, h': BlockHash) {
    && Disagree(c, run, i, h, i', h')
    && i < c.n() && i' < c.n() && h in Exec(c, run).value.log[i] && h' in Exec(c, run).value.log[i']
  }

  /** The n and f for which no run of any configuration disagrees. */
  ghost predicate AlwaysAgree(p: Params) {
    forall c: Config, run, i, h, i', h' :: c.params == p ==> !Disagree(c, run, i, h, i', h')
  }

  ghost predicate AlwaysDeliverTheSame(p: Params) {
    forall c: Config, run, i, h, i', h' :: c.params == p ==> !DeliverDifferently(c, run, i, h, i', h')
  }

  lemma PlotFor(p: Params) returns (x: Plot)
    requires CanSplit(p)
    ensures Plotted(x) && x.C().params == p && |x.a| == |x.b| == 64
  {
    var zeros, ones: Bytes := seq(64, _ => 48), seq(64, _ => 49);
    assert zeros[0] != ones[0];
    x := Plot((p.n - p.f) / 2, p.f, zeros, ones);
  }

  lemma AchievedDisagreement(x: Plot, run: seq<Action>, s: Net)
    requires Plotted(x) && Achieved(x, run, s) && Shape(x.C(), s)
    requires x.a in s.procs[0].readySent && x.b in s.procs[x.g].readySent
    ensures Disagree(x.C(), run, 0, x.a, x.g, x.b)
  {
    PlotIsValid(x);
    AchievedIsFair(x, run, s);
  }

  lemma SplitRun(p: Params) returns (x: Plot, run: seq<Action>)
    requires CanSplit(p)
    ensures x.C().params == p && |x.a| == |x.b| == 64 && Disagree(x.C(), run, 0, x.a, x.g, x.b)
  {
    hide Achieved, Disagree;
    x := PlotFor(p);
    var s;
    run, s := WinBoth(x);
    AchievedDisagreement(x, run, s);
  }

  /**
   * Agreement holds over all runs of all configurations of n validators, f of them possibly faulty, if
   * and only if n + f is odd, or f is 0, or at most one validator is correct for certain.
   */
  lemma AgreementExactly(p: Params)
    ensures AlwaysAgree(p) <==> (p.n + p.f) % 2 == 1 || p.f == 0 || p.n <= p.f + 1
  {
    hide Exec, FaultyOnce, OneSend, Committed;
    if CanSplit(p) {
      var x, run := SplitRun(p);
      assert !AlwaysAgree(p);
    } else {
      forall c: Config, run, i, h, i', h' | c.params == p ensures !Disagree(c, run, i, h, i', h') {
        if Disagree(c, run, i, h, i', h') {
          CorrectValidatorsAgree(c, run, i, h, i', h');
        }
      }
    }
  }

  lemma SplitDelivery(p: Params) returns (x: Plot, run: seq<Action>)
    requires CanSplit(p) && p.n >= 2 * p.f + 2
    ensures x.C().params == p && |x.a| == |x.b| == 64 && DeliverDifferently(x.C(), run, 0, x.a, x.g, x.b)
  {
    x := PlotFor(p);
    var s;
    run, s := DeliverBoth(x);
    PlotIsValid(x);
    assert Acted(x.C(), s.procs[0], s.log[0]) && Acted(x.C(), s.procs[x.g], s.log[x.g]);
    AchievedDisagreement(x, run, s);
  }

  /** With n at most 2f+1 no correct validator ever delivers: there are not enough READYs. */
  lemma NobodyDelivers(c: Config, run: seq<Action>, j: nat)
    requires Exec(c, run).Some? && c.Valid() && FaultyOnce(c, Exec(c, run).value)
    requires c.n() <= 2 * c.f() + 1 && j in c.correct
    ensures Exec(c, run).value.log[j] == []
  {
    var s := Exec(c, run).value;
    InvAlways(c, run);
    if s.log[j] != [] {
      var h := s.log[j][0];
      assert multiset(s.log[j])[h] >= 1;
      assert Accounted(c, j, s.procs[j], s.seen[j], s.log[j], h);
      SpentAtLeast(c.f(), 1, multiset(s.log[j])[h]);
      ReadySenders(c, s, j, h);
      ValidatorsSize(c.n());
      SubsetSize(Senders(s.seen[j], Packet(READY, h)), Validators(c.n()));
    }
  }

  /**
   * No two correct validators ever deliver different blocks if and only if n + f is odd, or f is 0, or
   * n is at most 2f+1, where nobody delivers at all.
   */
  lemma DeliveryAgreementExactly(p: Params)
    ensures AlwaysDeliverTheSame(p) <==> (p.n + p.f) % 2 == 1 || p.f == 0 || p.n <= 2 * p.f + 1
  {
    hide Exec, FaultyOnce, OneSend, Committed;
    if CanSplit(p) && p.n >= 2 * p.f + 2 {
      var x, run := SplitDelivery(p);
      assert !AlwaysDeliverTheSame(p);
    } else {
      forall c: Config, run, i, h, i', h' | c.params == p ensures !DeliverDifferently(c, run, i, h, i', h') {
        if DeliverDifferently(c, run, i, h, i', h') {
          if p.n <= 2 * p.f + 1 {
            NobodyDelivers(c, run, i);
          } else {
            CorrectValidatorsAgree(c, run, i, h, i', h');
          }
        }
      }
    }
  }
}
