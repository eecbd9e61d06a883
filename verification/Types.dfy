/**
 The entities of the supervisor: service configuration, service state, stop reasons,
 the answers a kernel call can give, and the events that drive the loop.
 */
module Types {

  datatype Option<+T> = None | Some(value: T)

  /** `ServicePendingAction`, used both for the pending action and for `on_exit`. */
  datatype Action = NoAction | Restart | Remove

  datatype StopSignal = SigTerm | SigInt | SigQuit | SigHup | SigUsr1 | SigUsr2

  datatype UserGroup = UserGroup(uid: nat, gid: nat)

  datatype ServiceConfig = ServiceConfig(
    command: string,
    args: seq<string>,
    env: Option<map<string, string>>,
    workingDirectory: Option<string>,
    logFilePath: Option<string>,
    userGroup: Option<UserGroup>,
    onExit: Action,
    stopSignal: StopSignal,
    stopTimeoutMs: nat)

  datatype ExitReason = Exited(code: int) | Signaled(sig: int)

  /** What `wait` reports about a child: it ended, or some other change of status. */
  datatype WaitStatus = Ended(reason: ExitReason) | NotEnded

  datatype StopReason =
    | NeverStarted
    | SupervisorTerminated(exit: ExitReason)
    | Success
    | Error(code: int)
    | Crashed(sig: int)
    | Killed(sig: int)

  datatype ServiceState =
    | Stopped(reason: StopReason)
    | Running(pid: nat)
    | Stopping(pid: nat, deadline: nat)

  datatype Service = Service(
    id: nat,
    name: string,
    config: ServiceConfig,
    argv: seq<string>,
    envp: Option<map<string, string>>,
    state: ServiceState,
    pending: Action)
  {
    function Pid(): Option<nat> {
      match state
      case Stopped(_) => None
      case Running(p) => Some(p)
      case Stopping(p, _) => Some(p)
    }

    predicate IsStopped() {
      state.Stopped?
    }
  }

  datatype ControlOp = Stop | Start | RestartOp

  /** One kernel call made on behalf of a service: did it succeed, which pid did a fork
      return, and how much time went by. */
  datatype Answer = Answer(ok: bool, pid: nat, elapsed: nat)

  /** The answer for key `k`; a call nobody answers fails at once. */
  function Ask<K(==)>(answers: map<K, Answer>, k: K): Answer {
    if k in answers then answers[k] else Answer(false, 0, 0)
  }

  datatype Phase = Serving | ShuttingDown

  datatype Exit = Looping | ExitedOk | ExitedErr

  /**
   Everything that can happen to the supervisor. The kernel's choices and the unspecified
   iteration order of the hash maps are part of the event.
   */
  datatype Event =
    | Reported(pid: nat, status: WaitStatus)
    | Elapsed(dt: nat)
    | Hangup(config: Option<map<string, ServiceConfig>>,
             scan: seq<nat>, removal: seq<string>, applied: seq<string>,
             byName: map<string, Answer>)
    | ChildSignal(reaped: seq<nat>, failed: bool)
    | Terminate(stopped: seq<nat>, onStop: map<nat, Answer>)
    | Timer(visited: seq<nat>, onTick: map<nat, Answer>)
    | Command(target: nat, op: ControlOp, answer: Answer)
    | LoopError

  const U64_MAX: nat := 0xFFFF_FFFF_FFFF_FFFF

  /** A timeout in milliseconds, in the nanoseconds of the clock. */
  function Timeout(ms: nat): nat {
    1_000_000 * ms
  }

  /** `order` lists every element of `keys` exactly once. */
  ghost predicate Enumerates<T>(order: seq<T>, keys: set<T>) {
    && NoDuplicates(order)
    && (forall x | x in order :: x in keys)
    && (forall x | x in keys :: x in order)
  }

  ghost predicate NoDuplicates<T>(order: seq<T>) {
    forall i, j :: 0 <= i < j < |order| ==> order[i] != order[j]
  }

  function Elements<T(==)>(order: seq<T>): set<T> {
    set x | x in order
  }

  lemma SplitLast<T>(order: seq<T>)
    requires order != []
    ensures forall x | x in order :: x in order[..|order| - 1] || x == order[|order| - 1]
    ensures forall x | x in order[..|order| - 1] :: x in order
    ensures order[|order| - 1] in order
    ensures NoDuplicates(order) ==> order[|order| - 1] !in order[..|order| - 1]
    ensures NoDuplicates(order) ==> NoDuplicates(order[..|order| - 1])
  {
    assert order == order[..|order| - 1] + [order[|order| - 1]];
  }

  /** A C string cannot hold a NUL character. */
  predicate HasNul(s: string) {
    '\0' in s
  }

  function Argv(c: ServiceConfig): (r: Option<seq<string>>) {
    if exists i :: 0 <= i < |[c.command] + c.args| && HasNul(([c.command] + c.args)[i])
    then None else Some([c.command] + c.args)
  }

  /** `argv` is what the definition says to execute: the command, then each argument, as C strings. */
  ghost predicate Spells(argv: seq<string>, c: ServiceConfig) {
    && |argv| == |c.args| + 1 && argv[0] == c.command
    && (forall i | 0 <= i < |c.args| :: argv[i + 1] == c.args[i])
    && (forall i | 0 <= i < |argv| :: '\0' !in argv[i])
  }

  /** `build_svc_argv` spells out the definition, or rejects it for exactly a NUL in the command or an argument. */
  lemma ArgvSpelled(c: ServiceConfig)
    ensures Argv(c).Some? ==> Spells(Argv(c).value, c)
    ensures Argv(c).None? <==> '\0' in c.command || exists i :: 0 <= i < |c.args| && '\0' in c.args[i]
  {
    var all := [c.command] + c.args;
    if '\0' in c.command {
      assert HasNul(all[0]);
    }
    if i :| 0 <= i < |c.args| && '\0' in c.args[i] {
      assert HasNul(all[i + 1]);
    }
  }

  lemma SpellsOnly(argv: seq<string>, c: ServiceConfig)
    ensures Argv(c) == Some(argv) <==> Spells(argv, c)
  {
    ArgvSpelled(c);
    if Spells(argv, c) {
      assert '\0' !in argv[0];
      forall i | 0 <= i < |c.args| ensures '\0' !in c.args[i] {
        assert '\0' !in argv[i + 1];
      }
      assert argv == Argv(c).value;
    }
  }

  /** The environment block; its entries `k=v` are kept as the map they come from. */
  function Envp(c: ServiceConfig): (r: Option<Option<map<string, string>>>) {
    match c.env
    case None => Some(None)
    case Some(m) => if exists k :: k in m && (HasNul(k) || HasNul(m[k])) then None else Some(Some(m))
  }

  /** `build_svc_envp` keeps the environment, or rejects it for exactly a NUL in a name or a value. */
  lemma EnvpSpelled(c: ServiceConfig)
    ensures Envp(c).Some? ==> Envp(c).value == c.env
    ensures Envp(c).None? <==> c.env.Some? && exists k :: k in c.env.value && ('\0' in k || '\0' in c.env.value[k])
  {
  }

  predicate Buildable(c: ServiceConfig) {
    Argv(c).Some? && Envp(c).Some?
  }

  function NewService(id: nat, name: string, c: ServiceConfig): (s: Service)
    requires Buildable(c)
  {
    Service(id, name, c, Argv(c).value, Envp(c).value, Stopped(NeverStarted), NoAction)
  }

  /** SIGILL, SIGABRT, SIGBUS, SIGFPE and SIGSEGV as Linux numbers them. */
  predicate IsCrashSignal(sig: int) {
    sig in {4, 6, 7, 8, 11}
  }

  function ReasonFor(exit: ExitReason, state: ServiceState): (r: StopReason) {
    match exit
    case Exited(code) =>
      if state.Stopping? then SupervisorTerminated(exit)
      else if code == 0 then Success
      else Error(code)
    case Signaled(sig) =>
      if IsCrashSignal(sig) then Crashed(sig)
      else if state.Stopping? then SupervisorTerminated(exit)
      else Killed(sig)
  }

  /** What the timer does with a stopped service: the pending action, else `on_exit` unless the
      service never ran or the supervisor itself ended it. */
  function DueAction(s: Service): (a: Action)
    requires s.state.Stopped?
  {
    if s.pending != NoAction then s.pending
    else if s.state.reason.NeverStarted? || s.state.reason.SupervisorTerminated? then NoAction
    else s.config.onExit
  }
}
