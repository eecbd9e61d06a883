/** SIGCHLD: the order in which children are reported, and how many signals report them, is irrelevant. */
module Reaping {
  import opened Types
  import opened Histories
  import opened Steps
  import opened Invariants
  import opened Lifecycles

  /** Equal but for the order in which the history lists the effects on different services. */
  ghost predicate SameButOrder(w1: World, w2: World) {
    && w1.services == w2.services && w1.pids == w2.pids && w1.waitable == w2.waitable
    && w1.nextId == w2.nextId && w1.phase == w2.phase && w1.exit == w2.exit && w1.clock == w2.clock
    && (forall id :: Forks(w1.history, id) == Forks(w2.history, id) && Reaps(w1.history, id) == Reaps(w2.history, id))
  }

  /** The pid map holds no information of its own. */
  lemma PidsFollowServices(w1: World, w2: World)
    requires Synced(w1) && Synced(w2) && w1.services == w2.services
    ensures w1.pids == w2.pids
  {
  }

  lemma SameChildrenSameUpdate(w: World, order1: seq<nat>, order2: seq<nat>)
    requires Elements(order1) == Elements(order2)
    ensures forall id :: Ending(w, id, order1) == Ending(w, id, order2)
    ensures AfterReaping(w, order1) == AfterReaping(w, order2)
  {
    assert forall p :: (p in order1 <==> p in Elements(order1)) && (p in order2 <==> p in Elements(order2));
  }

  /** Any two orders in which `wait` may report the same children have the same effect. */
  lemma ReapOrderIrrelevant(w: World, order1: seq<nat>, order2: seq<nat>)
    requires Inv(w) && NoDuplicates(order1) && NoDuplicates(order2) && Elements(order1) == Elements(order2)
    requires forall p | p in order1 :: p in w.waitable
    ensures SameButOrder(ReapAll(w, order1), ReapAll(w, order2))
  {
    assert forall p | p in order2 :: p in w.waitable by {
      assert forall p | p in order2 :: p in Elements(order1);
    }
    var w1, w2 := ReapAll(w, order1), ReapAll(w, order2);
    SameChildrenSameUpdate(w, order1, order2);
    assert w1.services == w2.services && w1.waitable == w2.waitable by {
      ReapIsSimultaneous(w, order1);
      ReapIsSimultaneous(w, order2);
    }
    assert w1.pids == w2.pids by {
      ReapAllInv(w, order1);
      ReapAllInv(w, order2);
      PidsFollowServices(w1, w2);
    }
    ReapAllAt(w, order1, 0);
    ReapAllAt(w, order2, 0);
    forall id ensures Forks(w1.history, id) == Forks(w2.history, id) && Reaps(w1.history, id) == Reaps(w2.history, id) {
      ReapAllAt(w, order1, id);
      ReapAllAt(w, order2, id);
    }
  }

  // ---------------------------------------------------------------- coalesced signals

  /** One child after another ends. */
  function ReportAll(w: World, ended: seq<(nat, WaitStatus)>): World {
    if ended == [] then w
    else
      var w1 := ReportAll(w, ended[..|ended| - 1]);
      var e := ended[|ended| - 1];
      Report(w1, e.0, e.1)
  }

  /** One child after another ends, and each is reaped before the next one ends. */
  function ReapEach(w: World, ended: seq<(nat, WaitStatus)>): World {
    if ended == [] then w
    else
      var w1 := ReapEach(w, ended[..|ended| - 1]);
      var e := ended[|ended| - 1];
      ReapOne(Report(w1, e.0, e.1), e.0)
  }

  function PidsOf(ended: seq<(nat, WaitStatus)>): seq<nat> {
    if ended == [] then [] else PidsOf(ended[..|ended| - 1]) + [ended[|ended| - 1].0]
  }

  function Report(w: World, pid: nat, status: WaitStatus): World {
    w.(waitable := w.waitable[pid := status])
  }

  lemma ReapOneCommutes(w: World, p: nat, pid: nat, status: WaitStatus)
    requires p != pid && pid !in w.waitable
    ensures ReapOne(Report(w, pid, status), p) == Report(ReapOne(w, p), pid, status)
  {
    if p in w.waitable {
      var v := w.waitable - {p};
      assert w.waitable[pid := status] - {p} == v[pid := status];
      assert ReapOne(w, p).waitable == v;
      assert ReapOne(Report(w, pid, status), p) == ReapOne(w, p).(waitable := v[pid := status]);
    }
  }

  lemma {:induction false} ReapAllCommutes(w: World, order: seq<nat>, pid: nat, status: WaitStatus)
    requires pid !in order && pid !in w.waitable
    ensures ReapAll(Report(w, pid, status), order) == Report(ReapAll(w, order), pid, status)
    ensures pid !in ReapAll(w, order).waitable
  {
    if order != [] {
      var last := |order| - 1;
      SplitLast(order);
      ReapAllCommutes(w, order[..last], pid, status);
      ReapOneCommutes(ReapAll(w, order[..last]), order[last], pid, status);
    }
  }

  lemma {:induction false} PidsOfEnded(ended: seq<(nat, WaitStatus)>)
    ensures |PidsOf(ended)| == |ended|
    ensures forall i | 0 <= i < |ended| :: PidsOf(ended)[i] == ended[i].0
  {
    if ended != [] {
      PidsOfEnded(ended[..|ended| - 1]);
    }
  }

  lemma {:induction false} ReportedWaitable(w: World, ended: seq<(nat, WaitStatus)>)
    ensures ReportAll(w, ended).waitable.Keys == w.waitable.Keys + Elements(PidsOf(ended))
    ensures ReportAll(w, ended) == w.(waitable := ReportAll(w, ended).waitable)
  {
    if ended != [] {
      ReportedWaitable(w, ended[..|ended| - 1]);
      var last := ended[|ended| - 1].0;
      assert Elements(PidsOf(ended)) == Elements(PidsOf(ended[..|ended| - 1])) + {last};
    }
  }

  lemma {:induction false} EachIsAllInTurn(w: World, ended: seq<(nat, WaitStatus)>)
    requires NoDuplicates(PidsOf(ended)) && forall p | p in PidsOf(ended) :: p !in w.waitable
    ensures ReapEach(w, ended) == ReapAll(ReportAll(w, ended), PidsOf(ended))
  {
    if ended != [] {
      var init, e := ended[..|ended| - 1], ended[|ended| - 1];
      assert PidsOf(ended)[..|ended| - 1] == PidsOf(init) by {
        PidsOfEnded(init);
      }
      PidsOfEnded(ended);
      SplitLast(PidsOf(ended));
      EachIsAllInTurn(w, init);
      ReportedWaitable(w, init);
      assert e.0 !in ReportAll(w, init).waitable;
      ReapAllCommutes(ReportAll(w, init), PidsOf(init), e.0, e.1);
    }
  }

  lemma {:induction false} AllIsEach(w: World, ended: seq<(nat, WaitStatus)>, order: seq<nat>)
    requires Inv(w)
    requires NoDuplicates(PidsOf(ended)) && forall p | p in PidsOf(ended) :: p !in w.waitable
    requires NoDuplicates(order) && Elements(order) == Elements(PidsOf(ended))
    ensures SameButOrder(ReapAll(ReportAll(w, ended), order), ReapEach(w, ended))
  {
    var v := ReportAll(w, ended);
    ReportedWaitable(w, ended);
    assert Inv(v);
    EachIsAllInTurn(w, ended);
    forall p | p in order ensures p in v.waitable {
      assert p in Elements(order);
    }
    ReapOrderIrrelevant(v, order, PidsOf(ended));
  }

  /** Every child has a SIGCHLD of its own, handled before the next child changes status. */
  function OneByOne(ended: seq<(nat, WaitStatus)>): seq<Event> {
    if ended == [] then []
    else
      var e := ended[|ended| - 1];
      OneByOne(ended[..|ended| - 1]) + [Reported(e.0, e.1), ChildSignal([e.0], false)]
  }

  function Reports(ended: seq<(nat, WaitStatus)>): seq<Event> {
    if ended == [] then [] else Reports(ended[..|ended| - 1]) + [Reported(ended[|ended| - 1].0, ended[|ended| - 1].1)]
  }

  /** All children change status before the one SIGCHLD for them is handled, in the order `wait` picks. */
  function Coalesced(ended: seq<(nat, WaitStatus)>, order: seq<nat>): seq<Event> {
    Reports(ended) + [ChildSignal(order, false)]
  }

  lemma LastTwo(w: World, es: seq<Event>, a: Event, b: Event)
    requires Feasible(w, es + [a, b])
    ensures Feasible(w, es) && Possible(Run(w, es), a) && Possible(Step(Run(w, es), a), b)
    ensures Run(w, es + [a, b]) == Step(Step(Run(w, es), a), b)
  {
    var all := es + [a, b];
    assert all[..|all| - 1] == es + [a];
    assert (es + [a])[..|es|] == es;
  }

  lemma PairStep(v: World, pid: nat, status: WaitStatus)
    requires v.waitable == map[] && Possible(v, Reported(pid, status))
    requires Possible(Step(v, Reported(pid, status)), ChildSignal([pid], false))
    ensures Step(Step(v, Reported(pid, status)), ChildSignal([pid], false)) ==
            LeaveIfDone(ReapOne(Report(v, pid, status), pid))
    ensures ReapOne(Report(v, pid, status), pid).waitable == map[]
    ensures ReapOne(Report(v, pid, status), pid).exit == v.exit
  {
    var v1 := Report(v, pid, status);
    assert [pid][..0] == [];
    assert ReapAll(v1, []) == v1;
    assert ReapAll(v1, [pid]) == ReapOne(v1, pid);
    assert v1.waitable - {pid} == map[];
  }

  lemma PairRun(w: World, es: seq<Event>, v: World, pid: nat, status: WaitStatus)
    requires Feasible(w, es + [Reported(pid, status), ChildSignal([pid], false)])
    requires Feasible(w, es) ==> Run(w, es) == v && v.waitable == map[]
    ensures Feasible(w, es) && v.exit.Looping?
    ensures Run(w, es + [Reported(pid, status), ChildSignal([pid], false)]) ==
            LeaveIfDone(ReapOne(Report(v, pid, status), pid))
    ensures ReapOne(Report(v, pid, status), pid).waitable == map[]
    ensures ReapOne(Report(v, pid, status), pid).exit == v.exit
  {
    LastTwo(w, es, Reported(pid, status), ChildSignal([pid], false));
    PairStep(v, pid, status);
  }

  lemma FirstFeasible(w: World, es: seq<Event>, a: Event, b: Event)
    requires Feasible(w, es + [a, b])
    ensures Feasible(w, es) && Run(w, es).exit.Looping?
  {
    LastTwo(w, es, a, b);
  }

  lemma {:induction false} OneByOneRun(w: World, ended: seq<(nat, WaitStatus)>)
    requires w.waitable == map[] && w.exit.Looping? && Feasible(w, OneByOne(ended))
    ensures ReapEach(w, ended).waitable == map[] && ReapEach(w, ended).exit.Looping?
    ensures Run(w, OneByOne(ended)) == if ended == [] then w else LeaveIfDone(ReapEach(w, ended))
  {
    if ended != [] {
      var init, e := ended[..|ended| - 1], ended[|ended| - 1];
      FirstFeasible(w, OneByOne(init), Reported(e.0, e.1), ChildSignal([e.0], false));
      OneByOneRun(w, init);
      LoopsOn(ReapEach(w, init));
      PairRun(w, OneByOne(init), ReapEach(w, init), e.0, e.1);
    }
  }

  lemma LoopsOn(w: World)
    requires w.exit.Looping?
    ensures LeaveIfDone(w).exit.Looping? ==> LeaveIfDone(w) == w
  {
  }

  lemma {:induction false} ReportsRun(w: World, ended: seq<(nat, WaitStatus)>)
    requires w.exit.Looping? && NoDuplicates(PidsOf(ended)) && forall p | p in PidsOf(ended) :: p !in w.waitable
    ensures Feasible(w, Reports(ended)) && Run(w, Reports(ended)) == ReportAll(w, ended)
  {
    if ended != [] {
      var init, last := ended[..|ended| - 1], ended[|ended| - 1];
      assert PidsOf(ended)[..|ended| - 1] == PidsOf(init) by {
        PidsOfEnded(init);
      }
      PidsOfEnded(ended);
      SplitLast(PidsOf(ended));
      ReportsRun(w, init);
      ReportedWaitable(w, init);
      assert Reports(ended)[..|Reports(ended)| - 1] == Reports(init);
    }
  }

  lemma {:induction false} CoalescedRun(w: World, ended: seq<(nat, WaitStatus)>, order: seq<nat>)
    requires w.waitable == map[] && w.exit.Looping? && NoDuplicates(PidsOf(ended))
    requires NoDuplicates(order) && Elements(order) == Elements(PidsOf(ended))
    ensures Feasible(w, Coalesced(ended, order))
    ensures Run(w, Coalesced(ended, order)) == LeaveIfDone(ReapAll(ReportAll(w, ended), order))
  {
    var es := Coalesced(ended, order);
    var v := ReportAll(w, ended);
    ReportsRun(w, ended);
    ReportedWaitable(w, ended);
    assert es[..|es| - 1] == Reports(ended);
    assert forall p :: p in order <==> p in v.waitable by {
      assert forall p :: p in order <==> p in Elements(order);
    }
  }

  /**
   One coalesced SIGCHLD has the effect of one SIGCHLD per child, in whatever order `wait` reports
   them: the same registry, pids, per-service history and decision to leave the loop.
   */
  lemma {:induction false} CoalescedIsOneByOne(w: World, ended: seq<(nat, WaitStatus)>, order: seq<nat>)
    requires Inv(w) && w.waitable == map[] && w.exit.Looping? && ended != [] && NoDuplicates(PidsOf(ended))
    requires NoDuplicates(order) && Elements(order) == Elements(PidsOf(ended))
    requires Feasible(w, OneByOne(ended))
    ensures Feasible(w, Coalesced(ended, order))
    ensures SameButOrder(Run(w, Coalesced(ended, order)), Run(w, OneByOne(ended)))
  {
    OneByOneRun(w, ended);
    CoalescedRun(w, ended, order);
    AllIsEach(w, ended, order);
  }

  lemma NoPidsLeft(u: World)
    requires Synced(u) && AllStopped(u.services)
    ensures u.pids == map[]
  {
  }

  lemma ReapStranger(u: World, pid: nat, status: WaitStatus)
    requires Inv(u) && AllStopped(u.services)
    ensures var u' := ReapOne(Report(u, pid, status), pid);
      u' == u.(waitable := u'.waitable) && Inv(u')
  {
    NoPidsLeft(u);
    var u' := ReapOne(Report(u, pid, status), pid);
    assert Synced(u') && AllRecorded(u');
  }

  lemma {:induction false} StrangersOnly(w: World, ended: seq<(nat, WaitStatus)>, k: nat)
    requires k <= |ended| && Inv(ReapEach(w, ended[..k])) && AllStopped(ReapEach(w, ended[..k]).services)
    ensures Inv(ReapEach(w, ended))
    ensures ReapEach(w, ended) == ReapEach(w, ended[..k]).(waitable := ReapEach(w, ended).waitable)
  {
    if k == |ended| {
      assert ended[..k] == ended;
    } else {
      var init, e := ended[..|ended| - 1], ended[|ended| - 1];
      assert init[..k] == ended[..k];
      StrangersOnly(w, init, k);
      ReapStranger(ReapEach(w, init), e.0, e.1);
    }
  }

  /**
   If one SIGCHLD per child makes the supervisor leave before the last child is reported, then so does
   the coalesced one, with the same registry and per-service history: only strangers were left.
   */
  lemma {:induction false} CoalescedLeavesToo(w: World, ended: seq<(nat, WaitStatus)>, order: seq<nat>, k: nat)
    requires Inv(w) && w.waitable == map[] && w.exit.Looping? && NoDuplicates(PidsOf(ended))
    requires NoDuplicates(order) && Elements(order) == Elements(PidsOf(ended))
    requires 0 < k <= |ended| && Feasible(w, OneByOne(ended[..k])) && Run(w, OneByOne(ended[..k])).exit.ExitedOk?
    ensures Feasible(w, Coalesced(ended, order))
    ensures var v, u := Run(w, Coalesced(ended, order)), Run(w, OneByOne(ended[..k]));
      SameButOrder(v.(waitable := u.waitable), u)
  {
    OneByOneRun(w, ended[..k]);
    CoalescedRun(w, ended, order);
    AllIsEach(w, ended, order);
    var part := ReapEach(w, ended[..k]);
    assert AllStopped(part.services);
    EachInv(w, ended[..k]);
    StrangersOnly(w, ended, k);
  }

  lemma {:induction false} EachInv(w: World, ended: seq<(nat, WaitStatus)>)
    requires Inv(w)
    ensures Inv(ReapEach(w, ended))
  {
    if ended != [] {
      var v := ReapEach(w, ended[..|ended| - 1]);
      var e := ended[|ended| - 1];
      EachInv(w, ended[..|ended| - 1]);
      var v1 := Report(v, e.0, e.1);
      assert Synced(v1) && AllRecorded(v1);
      ReapOneInv(v1, e.0);
    }
  }
}
