/** When a validator delivers one block twice: a run of correct validators only, with one restart. */
module Redelivery {
  import opened Common
  import opened BrachaRound
  import opened Network
  import opened Faults
  import opened Agreement
  import opened Schedules

  /** n validators, all of them correct, that accept every block; validator 0 leads and proposes h. */
  datatype Crew = Crew(n: nat, f: nat, h: BlockHash) {
    function C(): Config {
      Config(Params(n, f), Validators(n), 0, (j, b) => true)
    }

    function Send(): Packet { Packet(SEND, h) }
    function Echo(): Packet { Packet(ECHO, h) }
    function Ready(): Packet { Packet(READY, h) }

    /** A validator that has counted every ECHO and sent its READY. */
    function Voted(): Proto { INITIAL.(echo := map[h := n], readySent := {h}) }
  }

  ghost predicate Manned(x: Crew) {
    x.n >= 4 * x.f + 4
  }

  // ----- moving messages -----

  /** The first message of each of these validators moves to the inbox of j. */
  ghost predicate Taken(x: Crew, s: Net, t: Net, j: nat, lo: nat, hi: nat, pkt: Packet)
    requires Shape(x.C(), s) && Shape(x.C(), t) && j < x.n && hi <= x.n
  {
    && t.procs == s.procs && t.log == s.log
    && (forall l :: 0 <= l < x.n ==> t.inbox[l] == s.inbox[l] + if l == j then FromEach(lo, hi, pkt) else [])
    && (forall k, l :: 0 <= k < x.n && 0 <= l < x.n ==>
          if l == j && lo <= k < hi then s.wires[k][l] == [pkt] + t.wires[k][l] else t.wires[k][l] == s.wires[k][l])
  }

  lemma {:induction false} TakeEach(x: Crew, run: seq<Action>, s: Net, j: nat, lo: nat, hi: nat, pkt: Packet)
    returns (run': seq<Action>, t: Net)
    requires Exec(x.C(), run) == Some(s) && Shape(x.C(), s) && j < x.n && lo <= hi <= x.n
    requires forall k :: lo <= k < hi ==> s.wires[k][j] != [] && s.wires[k][j][0] == pkt
    ensures Exec(x.C(), run') == Some(t) && Shape(x.C(), t) && Taken(x, s, t, j, lo, hi, pkt)
    decreases hi
  {
    hide Exec, FromEach;
    if lo == hi {
      run', t := run, s;
      NoneFromEach(lo, pkt);
    } else {
      var run1, s1 := TakeEach(x, run, s, j, lo, hi - 1, pkt);
      ExecOneMore(x.C(), run1, s1, Transfer(hi - 1, j));
      run', t := run1 + [Transfer(hi - 1, j)], Apply(x.C(), s1, Transfer(hi - 1, j));
      OneMoreTaken(x, s, s1, t, j, lo, hi, pkt);
    }
  }

  lemma NoneFromEach(lo: nat, pkt: Packet)
    ensures FromEach(lo, lo, pkt) == []
  {
  }

  lemma OneMoreTaken(x: Crew, s: Net, s1: Net, t: Net, j: nat, lo: nat, hi: nat, pkt: Packet)
    requires Shape(x.C(), s) && Shape(x.C(), s1) && j < x.n && lo < hi <= x.n
    requires Taken(x, s, s1, j, lo, hi - 1, pkt) && s.wires[hi - 1][j] != [] && s.wires[hi - 1][j][0] == pkt
    requires Enabled(x.C(), s1, Transfer(hi - 1, j)) && t == Apply(x.C(), s1, Transfer(hi - 1, j))
    ensures Taken(x, s, t, j, lo, hi, pkt)
  {
    var k := hi - 1;
    assert s1.wires[k][j] == s.wires[k][j] == [pkt] + s.wires[k][j][1..];
    assert s.inbox[j] + FromEach(lo, k, pkt) + [Item(k, pkt)] == s.inbox[j] + FromEach(lo, hi, pkt);
  }

  // ----- counting them -----

  lemma {:induction false} DrainEach(x: Crew, j: nat, p: Proto, lo: nat, hi: nat, kind: Kind)
    requires lo < hi && kind != SEND && p.send == None
    requires kind == ECHO ==> x.h !in p.echo
    requires kind == READY ==> x.h !in p.ready
    ensures Drain(x.C(), j, p, FromEach(lo, hi, Packet(kind, x.h)))
         == if kind == ECHO then p.(echo := p.echo[x.h := hi - lo]) else p.(ready := p.ready[x.h := hi - lo])
    decreases hi
  {
    hide Drain;
    var pkt := Packet(kind, x.h);
    DrainSnoc(x, j, p, FromEach(lo, hi - 1, pkt), Item(hi - 1, pkt));
    if hi - 1 > lo {
      DrainEach(x, j, p, lo, hi - 1, kind);
      CountUp(if kind == ECHO then p.echo else p.ready, x.h, hi - 1 - lo, hi - lo);
    } else {
      DrainNone(x, j, p);
    }
  }

  lemma DrainSnoc(x: Crew, j: nat, p: Proto, items: seq<Item>, y: Item)
    ensures Drain(x.C(), j, p, items + [y]) == Handle(Drain(x.C(), j, p, items), y.pkt)
  {
    assert (items + [y])[..|items|] == items;
  }

  lemma DrainNone(x: Crew, j: nat, p: Proto)
    ensures Drain(x.C(), j, p, []) == p
  {
  }

  lemma CountUp(m: map<BlockHash, nat>, h: BlockHash, less: nat, more: nat)
    ensures m[h := less][h := more] == m[h := more]
  {
  }

  lemma DrainOneSend(x: Crew, j: nat)
    ensures Drain(x.C(), j, INITIAL, FromEach(0, 1, x.Send())) == INITIAL.(send := Some(x.h))
  {
    var items := FromEach(0, 1, x.Send());
    assert FromEach(0, 0, x.Send()) == [] && items[..0] == [];
  }

  // ----- the rounds -----

  lemma EchoRound(x: Crew)
    ensures Round(x.C().params, INITIAL.(send := Some(x.h)), [], []) == RoundOut(INITIAL, [x.Echo()], None)
  {
  }

  lemma VoteRound(x: Crew)
    requires Manned(x)
    ensures Round(x.C().params, INITIAL.(echo := map[x.h := x.n]), [x.h], [])
         == RoundOut(x.Voted(), [x.Ready()], None)
  {
    var c, p := x.C().params, INITIAL.(echo := map[x.h := x.n]);
    var r := RoundOut(p, [], None);
    assert p.(running := true) == p && EchoSend(p) == r;
    assert [x.h][..0] == [] && EchoPass(c, r, []) == r;
    assert {} + {x.h} == {x.h} && [] + [x.Ready()] == [x.Ready()];
    assert EchoPass(c, r, [x.h]) == EchoVisit(c, r, x.h) == SendReady(r, x.h);
  }

  /** A round on a counter above 2f+1 of a block that has been voted for, and nothing else but perhaps its ECHOs. */
  lemma DeliverRound(x: Crew, p: Proto, eo: seq<BlockHash>, count: nat)
    requires count > 2 * x.f + 1 && p.send == None && p.running && p.ready == map[x.h := count]
    requires x.h in p.readySent && (eo == [] || eo == [x.h])
    ensures Round(x.C().params, p, eo, [x.h])
         == RoundOut(p.(running := false, voted := x.h, echo := p.echo - {x.h}, ready := map[],
                        accepted := p.accepted + [x.h]), [], Some(x.h))
  {
    var c, r := x.C().params, RoundOut(p, [], None);
    assert p.(running := true) == p && EchoSend(p) == r;
    assert [x.h][..0] == [] && EchoPass(c, r, []) == r && EchoPass(c, r, eo) == r;
    assert ReadyPass(c, r, []) == r && ReadyPass(c, r, [x.h]) == ReadyVisit(c, r, x.h);
    assert p.ready - {x.h} == map[];
  }

  /** Validator j makes a round; this is what is left. */
  lemma Act(x: Crew, run: seq<Action>, s: Net, j: nat, eo: seq<BlockHash>, ro: seq<BlockHash>, out: RoundOut)
    returns (run': seq<Action>, t: Net)
    requires Exec(x.C(), run) == Some(s) && Shape(x.C(), s) && j < x.n && s.procs[j].running
    requires Enumerates(eo, Drained(x.C(), s, j).echo.Keys) && Enumerates(ro, Drained(x.C(), s, j).ready.Keys)
    requires Round(x.C().params, Drained(x.C(), s, j), eo, ro) == out
    ensures Exec(x.C(), run') == Some(t) && t == AfterWork(x.C(), s, j, out)
  {
    hide Exec, Round, Drained, Push;
    ExecOneMore(x.C(), run, s, Work(j, eo, ro));
    run', t := run + [Work(j, eo, ro)], Apply(x.C(), s, Work(j, eo, ro));
  }

  // ----- everyone echoes -----

  ghost predicate Idle(x: Crew, s: Net)
    requires Shape(x.C(), s)
  {
    forall j :: 0 <= j < x.n ==> s.inbox[j] == [] && s.log[j] == []
  }

  ghost predicate EchoedUpTo(x: Crew, s: Net, i: nat)
    requires Shape(x.C(), s)
  {
    && Idle(x, s)
    && (forall j :: 0 <= j < x.n ==> s.procs[j] == INITIAL)
    && (forall k, j :: 0 <= k < x.n && 0 <= j < x.n ==>
          s.wires[k][j] == (if k == 0 && j >= i then [x.Send()] else []) + if k < i then [x.Echo()] else [])
  }

  lemma AfterProposal(x: Crew) returns (run: seq<Action>, s: Net)
    requires Manned(x)
    ensures Exec(x.C(), run) == Some(s) && Shape(x.C(), s) && EchoedUpTo(x, s, 0)
  {
    hide Exec;
    NothingYet(x);
    ExecOneMore(x.C(), [], Start(x.C()), Propose(x.h));
    run, s := [] + [Propose(x.h)], Apply(x.C(), Start(x.C()), Propose(x.h));
  }

  lemma NothingYet(x: Crew)
    ensures Exec(x.C(), []) == Some(Start(x.C()))
  {
  }

  lemma {:induction false} EveryoneEchoes(x: Crew, i: nat) returns (run: seq<Action>, s: Net)
    requires Manned(x) && i <= x.n
    ensures Exec(x.C(), run) == Some(s) && Shape(x.C(), s) && EchoedUpTo(x, s, i)
  {
    hide Exec, Round, Drain, FromEach;
    if i == 0 {
      run, s := AfterProposal(x);
    } else {
      var j := i - 1;
      var run0, s0 := EveryoneEchoes(x, j);
      var run1, s1 := TakeEach(x, run0, s0, j, 0, 1, x.Send());
      DrainOneSend(x, j);
      EchoRound(x);
      assert s1.inbox[j] == FromEach(0, 1, x.Send());
      assert INITIAL.(send := None) == INITIAL;
      run, s := Act(x, run1, s1, j, [], [], RoundOut(INITIAL, [x.Echo()], None));
      EchoedNext(x, s0, s1, s, j);
    }
  }

  lemma EchoedNext(x: Crew, s0: Net, s1: Net, s: Net, j: nat)
    requires Shape(x.C(), s0) && Shape(x.C(), s1) && Shape(x.C(), s) && j < x.n
    requires EchoedUpTo(x, s0, j) && Taken(x, s0, s1, j, 0, 1, x.Send())
    requires s == AfterWork(x.C(), s1, j, RoundOut(INITIAL, [x.Echo()], None))
    ensures EchoedUpTo(x, s, j + 1)
  {
    hide FromEach;
    forall k, l | 0 <= k < x.n && 0 <= l < x.n
      ensures s1.wires[k][l] == (if k == 0 && l >= j + 1 then [x.Send()] else []) + if k < j then [x.Echo()] else []
    {
      if k == 0 && l == j {
        assert s0.wires[k][l][1..] == s1.wires[k][l];
      }
    }
  }

  // ----- everyone votes -----

  ghost predicate VotedUpTo(x: Crew, s: Net, i: nat)
    requires Shape(x.C(), s)
  {
    && Idle(x, s)
    && (forall j :: 0 <= j < x.n ==> s.procs[j] == if j < i then x.Voted() else INITIAL)
    && (forall k, j :: 0 <= k < x.n && 0 <= j < x.n ==>
          s.wires[k][j] == (if j >= i then [x.Echo()] else []) + if k < i then [x.Ready()] else [])
  }

  lemma {:induction false} EveryoneVotes(x: Crew, i: nat) returns (run: seq<Action>, s: Net)
    requires Manned(x) && i <= x.n
    ensures Exec(x.C(), run) == Some(s) && Shape(x.C(), s) && VotedUpTo(x, s, i)
  {
    hide Exec, Round, Drain, FromEach;
    if i == 0 {
      run, s := EveryoneEchoes(x, x.n);
    } else {
      var j := i - 1;
      var run0, s0 := EveryoneVotes(x, j);
      var run1, s1 := TakeEach(x, run0, s0, j, 0, x.n, x.Echo());
      DrainEach(x, j, INITIAL, 0, x.n, ECHO);
      VoteRound(x);
      assert s1.inbox[j] == FromEach(0, x.n, x.Echo());
      assert INITIAL.(send := None) == INITIAL && map[][x.h := x.n] == map[x.h := x.n];
      run, s := Act(x, run1, s1, j, [x.h], [], RoundOut(x.Voted(), [x.Ready()], None));
      VotedNext(x, s0, s1, s, j);
    }
  }

  lemma VotedNext(x: Crew, s0: Net, s1: Net, s: Net, j: nat)
    requires Shape(x.C(), s0) && Shape(x.C(), s1) && Shape(x.C(), s) && j < x.n
    requires VotedUpTo(x, s0, j) && Taken(x, s0, s1, j, 0, x.n, x.Echo())
    requires s == AfterWork(x.C(), s1, j, RoundOut(x.Voted(), [x.Ready()], None))
    ensures VotedUpTo(x, s, j + 1)
  {
    hide FromEach;
    forall k, l | 0 <= k < x.n && 0 <= l < x.n
      ensures s1.wires[k][l] == (if l >= j + 1 then [x.Echo()] else []) + if k < j then [x.Ready()] else []
    {
      if l == j {
        assert s0.wires[k][l][1..] == s1.wires[k][l];
      }
    }
  }

  // ----- validator 0 delivers, restarts, and delivers again -----

  /** What validator 0 has after its first delivery. */
  function Done(x: Crew): Proto {
    x.Voted().(running := false, voted := x.h, echo := map[], accepted := [x.h])
  }

  /** The READYs from validator m on are still to come. */
  ghost predicate DeliveredOnce(x: Crew, s: Net, m: nat)
    requires Shape(x.C(), s) && x.n > 0
  {
    && s.procs[0] == Done(x) && s.log[0] == [x.h] && s.inbox[0] == []
    && forall k :: m <= k < x.n ==> s.wires[k][0] == [x.Ready()]
  }

  lemma DeliverOnce(x: Crew) returns (run: seq<Action>, s: Net)
    requires Manned(x)
    ensures Exec(x.C(), run) == Some(s) && Shape(x.C(), s) && DeliveredOnce(x, s, 2 * x.f + 2)
  {
    hide Exec, Round, Drain, FromEach;
    var m := 2 * x.f + 2;
    var run0, s0 := EveryoneVotes(x, x.n);
    var run1, s1 := TakeEach(x, run0, s0, 0, 0, m, x.Ready());
    DrainEach(x, 0, x.Voted(), 0, m, READY);
    assert s1.inbox[0] == FromEach(0, m, x.Ready());
    assert x.Voted().(send := None) == x.Voted();
    var p := x.Voted().(ready := map[][x.h := m]);
    assert Drained(x.C(), s1, 0) == p && map[][x.h := m] == map[x.h := m];
    DeliverRound(x, p, [x.h], m);
    assert p.echo - {x.h} == map[] && [] + [x.h] == [x.h];
    run, s := Act(x, run1, s1, 0, [x.h], [x.h], RoundOut(Done(x), [], Some(x.h)));
  }

  lemma DeliverTwice(x: Crew) returns (run: seq<Action>, s: Net)
    requires Manned(x)
    ensures Exec(x.C(), run) == Some(s) && Shape(x.C(), s) && s.log[0] == [x.h, x.h]
  {
    hide Exec, Round, Drain, FromEach;
    var m := 2 * x.f + 2;
    var run0, s0 := DeliverOnce(x);
    ExecOneMore(x.C(), run0, s0, Restart(0));
    var run1, s1 := run0 + [Restart(0)], Apply(x.C(), s0, Restart(0));
    var run2, s2 := TakeEach(x, run1, s1, 0, m, x.n, x.Ready());
    var q := Done(x).(running := true);
    DrainEach(x, 0, q, m, x.n, READY);
    assert s2.inbox[0] == FromEach(m, x.n, x.Ready());
    assert q.(send := None) == q;
    var p := q.(ready := map[][x.h := x.n - m]);
    assert Drained(x.C(), s2, 0) == p && map[][x.h := x.n - m] == map[x.h := x.n - m];
    DeliverRound(x, p, [], x.n - m);
    run, s := Act(x, run2, s2, 0, [], [x.h], Round(x.C().params, p, [], [x.h]));
    assert s.log[0] == [x.h] + [x.h];
  }

  // ----- exactly when -----

  /** A correct validator has delivered block h more than once, within the fault model. */
  ghost predicate DeliversAgain(c: Config, run: seq<Action>, j: nat, h: BlockHash) {
    && c.Valid() && Exec(c, run).Some? && FaultyOnce(c, Exec(c, run).value)
    && j in c.correct && j < c.n() && multiset(Exec(c, run).value.log[j])[h] >= 2
  }

  ghost predicate NeverAgain(p: Params) {
    forall c: Config, run, j, h :: c.params == p ==> !DeliversAgain(c, run, j, h)
  }

  lemma CrewDeliversAgain(p: Params) returns (x: Crew, run: seq<Action>)
    requires p.n >= 4 * p.f + 4
    ensures x.C().params == p && |x.h| == 64 && DeliversAgain(x.C(), run, 0, x.h)
  {
    hide Exec;
    x := Crew(p.n, p.f, seq(64, _ => 48));
    var s;
    run, s := DeliverTwice(x);
    ValidatorsSize(p.n);
  }

  /** No correct validator ever delivers a block twice, however often it restarts, if and only if n <= 4f+3. */
  lemma OnceExactly(p: Params)
    ensures NeverAgain(p) <==> p.n <= 4 * p.f + 3
  {
    hide Exec, FaultyOnce;
    if p.n >= 4 * p.f + 4 {
      var x, run := CrewDeliversAgain(p);
      assert !NeverAgain(p);
    } else {
      forall c: Config, run, j, h | c.params == p ensures !DeliversAgain(c, run, j, h) {
        if DeliversAgain(c, run, j, h) {
          DeliveredAtMostOnce(c, run, j, h);
        }
      }
    }
  }
}
