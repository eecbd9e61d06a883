/**
 The kernel's record of what was done to service processes: forks, signals and reaps, in order.
 `Disciplined` says which histories a correct supervisor may produce. It is a property of the
 history alone and mentions no supervisor state.
 */
module Histories {
  import opened Types

  /**
   `at` is the time at which a call returned, except for `KillSent`, where it is the time before the
   call: a stop signal went out no later, and a SIGKILL no earlier, than its effect says. A fork
   records the argv and environment the child executes, and the definition whose directory, user and
   log file it takes.
   */
  datatype Effect =
    | Forked(id: nat, pid: nat, argv: seq<string>, envp: Option<map<string, string>>, definition: ServiceConfig,
             at: nat)
    | StopSent(id: nat, pid: nat, signal: StopSignal, timeoutMs: nat, at: nat, deadline: nat)
    | KillSent(id: nat, pid: nat, ok: bool, at: nat)
    | Reaped(id: nat, pid: nat, reason: ExitReason, at: nat)

  datatype History = Origin | Then(past: History, last: Effect)

  function AliveAfter(m: map<nat, nat>, e: Effect): map<nat, nat> {
    if e.Forked? then m[e.pid := e.id] else if e.Reaped? then m - {e.pid} else m
  }

  /** The service children that were forked and not yet reaped, with their service. */
  function Alive(h: History): map<nat, nat> {
    if h.Origin? then map[] else AliveAfter(Alive(h.past), h.last)
  }

  function StopAfter(stop: Option<Effect>, pid: nat, e: Effect): Option<Effect> {
    if e.pid != pid || e.KillSent? then stop else if e.StopSent? then Some(e) else None
  }

  /** The stop signal sent to the present incarnation of `pid`, if any. */
  function StopOf(h: History, pid: nat): Option<Effect> {
    if h.Origin? then None else StopAfter(StopOf(h.past, pid), pid, h.last)
  }

  /** The last fork made for a service. */
  function LatestFork(h: History, id: nat): Option<Effect> {
    if h.Origin? then None
    else if h.last.Forked? && h.last.id == id then Some(h.last)
    else LatestFork(h.past, id)
  }

  /** The last stop signal sent for a service. */
  function LatestStop(h: History, id: nat): Option<Effect> {
    if h.Origin? then None
    else if h.last.StopSent? && h.last.id == id then Some(h.last)
    else LatestStop(h.past, id)
  }

  /** What to say of a process that ended, given whether it had been sent its stop signal. */
  function Classified(exit: ExitReason, asked: bool): StopReason {
    match exit
    case Exited(code) => if asked then SupervisorTerminated(exit) else if code == 0 then Success else Error(code)
    case Signaled(sig) =>
      if sig in {4, 6, 7, 8, 11} then Crashed(sig) else if asked then SupervisorTerminated(exit) else Killed(sig)
  }

  /** What the record says of the last process of a service that was reaped. */
  function LatestEnd(h: History, id: nat): Option<StopReason> {
    if h.Origin? then None
    else if h.last.Reaped? && h.last.id == id
    then Some(Classified(h.last.reason, StopOf(h.past, h.last.pid).Some?))
    else LatestEnd(h.past, id)
  }

  function Forks(h: History, id: nat): nat {
    if h.Origin? then 0
    else Forks(h.past, id) + if h.last.Forked? && h.last.id == id then 1 else 0
  }

  function Reaps(h: History, id: nat): nat {
    if h.Origin? then 0
    else Reaps(h.past, id) + if h.last.Reaped? && h.last.id == id then 1 else 0
  }

  function Stops(h: History, id: nat): nat {
    if h.Origin? then 0
    else Stops(h.past, id) + if h.last.StopSent? && h.last.id == id then 1 else 0
  }

  function Kills(h: History, id: nat): nat {
    if h.Origin? then 0
    else Kills(h.past, id) + if h.last.KillSent? && h.last.id == id then 1 else 0
  }

  function LatestTime(h: History): nat {
    if h.Origin? then 0 else h.last.at
  }

  /** May `e` be the next effect after `h`? */
  ghost predicate Allowed(h: History, e: Effect) {
    && LatestTime(h) <= e.at
    && match e
       case Forked(id, pid, _, envp, definition, _) =>
         && pid > 0 && pid !in Alive(h) && id !in Alive(h).Values
         && envp == definition.env
       case StopSent(id, pid, _, timeoutMs, at, deadline) =>
         && pid in Alive(h) && Alive(h)[pid] == id
         && StopOf(h, pid).None?
         && deadline == at + 1_000_000 * timeoutMs
       case KillSent(id, pid, _, at) =>
         && pid in Alive(h) && Alive(h)[pid] == id
         && StopOf(h, pid).Some?
         && StopOf(h, pid).value.StopSent? && at >= StopOf(h, pid).value.deadline
       case Reaped(id, pid, _, _) => pid in Alive(h) && Alive(h)[pid] == id
  }

  ghost predicate Disciplined(h: History) {
    h.Then? ==> Disciplined(h.past) && Allowed(h.past, h.last)
  }

  /** What one more effect changes, for every pid and service at once. */
  lemma AfterEffect(h: History, e: Effect)
    ensures forall q :: StopOf(Then(h, e), q) == StopAfter(StopOf(h, q), q, e)
    ensures forall j :: Forks(Then(h, e), j) == Forks(h, j) + if e.Forked? && e.id == j then 1 else 0
    ensures Alive(Then(h, e)) == AliveAfter(Alive(h), e)
    ensures Disciplined(Then(h, e)) <==> Disciplined(h) && Allowed(h, e)
    ensures LatestTime(Then(h, e)) == e.at
  {
  }

  /** `past` is `h` or an earlier stage of it. */
  ghost predicate StageOf(past: History, h: History) {
    past == h || (h.Then? && StageOf(past, h.past))
  }

  lemma {:induction false} StageTransitive(a: History, b: History, c: History)
    requires StageOf(a, b) && StageOf(b, c)
    ensures StageOf(a, c)
  {
    if b != c {
      StageTransitive(a, b, c.past);
    }
  }

  /** Every effect in a disciplined history was allowed when it happened. */
  lemma {:induction false} DisciplinedStage(past: History, h: History)
    requires Disciplined(h) && StageOf(past, h)
    ensures Disciplined(past)
  {
    if past != h {
      DisciplinedStage(past, h.past);
    }
  }

  /** A service never has two processes at once. */
  lemma {:induction false} OneProcessPerService(h: History, p: nat, q: nat)
    requires Disciplined(h)
    requires p in Alive(h) && q in Alive(h) && Alive(h)[p] == Alive(h)[q]
    ensures p == q
  {
    if h.Then? {
      var before := Alive(h.past);
      if p in before && q in before && before[p] == before[q] {
        OneProcessPerService(h.past, p, q);
      }
    }
  }

  /** A live process is the one its service forked last. */
  lemma {:induction false} PresentFork(h: History, pid: nat)
    requires Disciplined(h) && pid in Alive(h)
    ensures LatestFork(h, Alive(h)[pid]).Some? && LatestFork(h, Alive(h)[pid]).value.pid == pid
    ensures LatestFork(h, Alive(h)[pid]).value.Forked? && LatestFork(h, Alive(h)[pid]).value.id == Alive(h)[pid]
  {
    if !(h.last.Forked? && h.last.pid == pid) {
      PresentFork(h.past, pid);
    }
  }

  /** A stop signal that a live process got is the last one sent for its service. */
  lemma {:induction false} PresentStop(h: History, pid: nat)
    requires Disciplined(h) && pid in Alive(h) && StopOf(h, pid).Some?
    ensures LatestStop(h, Alive(h)[pid]) == StopOf(h, pid)
  {
    if h.last.pid != pid || h.last.KillSent? {
      PresentStop(h.past, pid);
      if h.last.StopSent? && h.last.id == Alive(h)[pid] {
        OneProcessPerService(h.past, pid, h.last.pid);
      }
    }
  }

  /** Without a fork in between, the last fork of a service stays the last. */
  lemma {:induction false} SameLatestFork(h: History, h': History, id: nat)
    requires StageOf(h, h')
    ensures Forks(h, id) <= Forks(h', id)
    ensures Forks(h, id) == Forks(h', id) ==> LatestFork(h', id) == LatestFork(h, id)
  {
    if h != h' {
      SameLatestFork(h, h'.past, id);
    }
  }

  /** Conservation: forks minus reaps is the number of live processes, 0 or 1. */
  lemma {:induction false} ForksMinusReaps(h: History, id: nat)
    requires Disciplined(h)
    ensures Forks(h, id) == Reaps(h, id) + if id in Alive(h).Values then 1 else 0
  {
    if h.Then? {
      ForksMinusReaps(h.past, id);
      var before, after := Alive(h.past), Alive(h);
      match h.last
      case Forked(i, p, _, _, _, _) =>
        assert after[p] == i && p in after;
        if id in before.Values {
          var q :| q in before && before[q] == id;
          assert after[q] == id;
        }
      case Reaped(i, p, _, _) =>
        assert before[p] == i;
        if id in before.Values && id != i {
          var q :| q in before && before[q] == id;
          assert q in after && after[q] == id;
        }
        if id in after.Values {
          var q :| q in after && after[q] == id;
          assert q in before && before[q] == id;
          if id == i {
            OneProcessPerService(h.past, p, q);
          }
        }
      case _ =>
    }
  }

  /** At most one successful stop signal per process: those still to come fit in the live ones. */
  lemma {:induction false} StopsBoundedByForks(h: History, id: nat)
    requires Disciplined(h)
    ensures Stops(h, id) <= Forks(h, id)
    ensures (exists p :: p in Alive(h) && Alive(h)[p] == id && StopOf(h, p).None?) ==> Stops(h, id) < Forks(h, id)
  {
    if h.Then? {
      StopsBoundedByForks(h.past, id);
      var before, after := Alive(h.past), Alive(h);
      if p :| p in after && after[p] == id && StopOf(h, p).None? {
        if !(h.last.Forked? && h.last.id == id) {
          assert p in before && before[p] == id;
          assert StopOf(h.past, p).None?;
          if h.last.StopSent? && h.last.id == id {
            OneProcessPerService(h.past, p, h.last.pid);
          }
        }
      }
    }
  }

  /** The stop signal of an incarnation happened, and no fork or reap of that pid came after it. */
  lemma {:induction false} StopOfHappened(h: History, pid: nat) returns (past: History)
    requires StopOf(h, pid).Some?
    ensures StopOf(h, pid).value.StopSent? && StopOf(h, pid).value.pid == pid
    ensures StageOf(Then(past, StopOf(h, pid).value), h)
  {
    if h.last.pid != pid || h.last.KillSent? {
      past := StopOfHappened(h.past, pid);
    } else {
      past := h.past;
    }
  }

  lemma {:induction false} LatestEndHappened(h: History, id: nat) returns (past: History, end: Effect)
    requires LatestEnd(h, id).Some?
    ensures StageOf(Then(past, end), h) && end.Reaped? && end.id == id && Reaps(past, id) + 1 == Reaps(h, id)
    ensures LatestEnd(h, id).value == Classified(end.reason, StopOf(past, end.pid).Some?)
  {
    if h.last.Reaped? && h.last.id == id {
      past, end := h.past, h.last;
    } else {
      past, end := LatestEndHappened(h.past, id);
    }
  }

  /**
   The README's first guarantee, read off the history: every SIGKILL is preceded by the stop
   signal of the same process, by at least the timeout in force when that signal was sent. The
   deadline is the time at which sending the signal returned plus exactly that timeout.
   */
  lemma KillNeverEarly(h: History, past: History, kill: Effect) returns (before: History, stop: Effect)
    requires Disciplined(h) && StageOf(Then(past, kill), h) && kill.KillSent?
    ensures stop.StopSent? && stop.id == kill.id && stop.pid == kill.pid
    ensures StageOf(Then(before, stop), past)
    ensures StopOf(past, kill.pid) == Some(stop)
    ensures kill.at >= stop.deadline == stop.at + 1_000_000 * stop.timeoutMs
  {
    DisciplinedStage(Then(past, kill), h);
    before := StopOfHappened(past, kill.pid);
    stop := StopOf(past, kill.pid).value;
    DisciplinedStage(Then(before, stop), past);
    StopTarget(past, kill.pid);
  }

  /** A process that got its stop signal still belongs to the service the signal was sent for. */
  lemma {:induction false} StopTarget(h: History, pid: nat)
    requires Disciplined(h) && pid in Alive(h) && StopOf(h, pid).Some?
    ensures StopOf(h, pid).value.id == Alive(h)[pid]
  {
    if h.last.pid != pid || h.last.KillSent? {
      StopTarget(h.past, pid);
    }
  }
}
