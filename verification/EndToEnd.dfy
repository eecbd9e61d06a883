/**
 The whole path of a control request: the supervisor publishes its services, a client looks a name up
 in the status file and sends a frame, and some time later the supervisor acts on it.
 */
module EndToEnd {
  import opened Types
  import opened Histories
  import opened Steps
  import opened Invariants
  import opened Lifecycles
  import opened Runs
  import opened StatusText
  import opened Publication
  import opened ControlFrames

  /** `StatusFile.get`: the first line that carries the name. */
  method Get(lines: seq<StatusLine>, name: string) returns (line: Option<StatusLine>)
    ensures line.Some? ==>
      exists i :: 0 <= i < |lines| && lines[i] == line.value && line.value.name == name &&
                  forall j | 0 <= j < i :: lines[j].name != name
    ensures line.None? ==> forall l | l in lines :: l.name != name
  {
    for i := 0 to |lines|
      invariant forall j | 0 <= j < i :: lines[j].name != name
    {
      if lines[i].name == name {
        return Some(lines[i]);
      }
    }
    line := None;
  }

  /** `StatusFile.is_running` and `is_stopped`; None for the KeyError of an unknown name. */
  method IsRunning(lines: seq<StatusLine>, name: string) returns (r: Option<bool>)
    ensures r.None? <==> forall l | l in lines :: l.name != name
    ensures r.Some? ==> exists l :: l in lines && l.name == name && (r.value <==> l.state == "running")
  {
    var line := Get(lines, name);
    r := if line.None? then None else Some(line.value.state == "running");
  }

  method IsStopped(lines: seq<StatusLine>, name: string) returns (r: Option<bool>)
    ensures r.None? <==> forall l | l in lines :: l.name != name
    ensures r.Some? ==> exists l :: l in lines && l.name == name && (r.value <==> l.state == "stopped")
  {
    var line := Get(lines, name);
    r := if line.None? then None else Some(line.value.state == "stopped");
  }

  lemma {:induction false} ListedAt(services: map<nat, Service>, order: seq<nat>)
    requires forall id | id in order :: id in services
    ensures |Listed(services, order)| == |order|
    ensures forall i | 0 <= i < |order| :: Listed(services, order)[i] == services[order[i]]
  {
    if order != [] {
      ListedAt(services, order[1..]);
    }
  }

  /** The names of all services can be told apart in the status file. */
  ghost predicate Nameable(services: map<nat, Service>) {
    forall id | id in services :: IsWord(services[id].name)
  }

  lemma LinesListed(services: map<nat, Service>, listing: seq<nat>)
    requires forall id | id in listing :: id in services
    ensures |LinesOf(Listed(services, listing))| == |listing|
    ensures forall i | 0 <= i < |listing| :: LinesOf(Listed(services, listing))[i] == LineOf(services[listing[i]])
  {
    ListedAt(services, listing);
    LinesOfAt(Listed(services, listing));
  }

  lemma ListedParses(services: map<nat, Service>, listing: seq<nat>)
    requires Nameable(services) && forall id | id in listing :: id in services
    ensures Parse(Format(Listed(services, listing))) == Good(LinesOf(Listed(services, listing)))
  {
    ListedAt(services, listing);
    StatusRoundTripIff(Listed(services, listing));
  }

  /** The lines are the services of `w`, each under its id. */
  ghost predicate Describes(lines: seq<StatusLine>, w: World) {
    && (forall l | l in lines :: l.id >= 0 && l.id in w.services && l == LineOf(w.services[l.id]))
    && (forall id | id in w.services :: LineOf(w.services[id]) in lines)
  }

  lemma LinesAreServices(w: World, listing: seq<nat>, lines: seq<StatusLine>)
    requires Identified(w) && Enumerates(listing, w.services.Keys) && |lines| == |listing|
    requires forall i | 0 <= i < |listing| :: lines[i] == LineOf(w.services[listing[i]])
    ensures Describes(lines, w)
  {
    forall id | id in w.services ensures LineOf(w.services[id]) in lines {
      var i :| 0 <= i < |listing| && listing[i] == id;
      assert lines[i] == LineOf(w.services[id]);
    }
    forall l | l in lines ensures l.id >= 0 && l.id in w.services && l == LineOf(w.services[l.id]) {
      var i :| 0 <= i < |lines| && lines[i] == l;
      assert w.services[listing[i]].id == listing[i];
    }
  }

  /** What a client reads from the published status describes the registry it was published from. */
  lemma PublishedLines(w: World, listing: seq<nat>)
    requires Identified(w) && Nameable(w.services) && Enumerates(listing, w.services.Keys)
    ensures Parse(Format(Listed(w.services, listing))).Good?
    ensures Describes(Parse(Format(Listed(w.services, listing))).lines, w)
  {
    ListedParses(w.services, listing);
    LinesListed(w.services, listing);
    LinesAreServices(w, listing, LinesOf(Listed(w.services, listing)));
  }

  /**
   What the status file says of a name is true: the lines of that name are those of the one service that
   has it, and the words "running", "stopping" and "stopped" tell its state.
   */
  lemma StatusIsTrue(w: World, lines: seq<StatusLine>, line: StatusLine, id: nat)
    requires Identified(w) && Describes(lines, w) && line in lines
    requires id in w.services && w.services[id].name == line.name
    ensures line.id == id
    ensures line.state == "running" <==> w.services[id].state.Running?
    ensures line.state == "stopping" <==> w.services[id].state.Stopping?
    ensures line.state == "stopped" <==> w.services[id].state.Stopped?
    ensures w.services[id].Pid().Some? ==> line.detail == Show(w.services[id].Pid().value)
  {
    assert line == LineOf(w.services[line.id]) && w.services[line.id].name == line.name;
    StatusWords(w.services[id]);
  }

  /** A name is in the status file exactly if a service has it. */
  lemma StatusHas(w: World, lines: seq<StatusLine>, name: string)
    requires Describes(lines, w)
    ensures (exists l :: l in lines && l.name == name) <==> NameTaken(w.services, name)
  {
    if id :| id in w.services && w.services[id].name == name {
      assert LineOf(w.services[id]) in lines;
    }
  }

  /**
   A request addressed through the status file never reaches another service. A client that has read
   the status of state `w` (see PublishedLines) sends a command for the id in some line. However long
   the command takes and whatever happens meanwhile, reloads included: when it is applied, it finds
   the service of that name or no service at all, and no other service changes.
   */
  lemma RequestsReachTheirService(w: World, lines: seq<StatusLine>, line: StatusLine, op: ControlOp,
                                  es: seq<Event>, a: Answer)
    requires Inv(w) && Describes(lines, w) && line in lines && Feasible(w, es)
    ensures Decode(Encode(ControlCommand(op, line.id))) == Received(ControlCommand(op, line.id))
    ensures var w1 := Run(w, es);
      var w2 := Control(w1, line.id, op, a).world;
      && (line.id in w1.services ==> w1.services[line.id].name == line.name)
      && (line.id !in w1.services ==> w2 == w1)
      && (forall id | id != line.id :: Entry(w2, id) == Entry(w1, id) && Forks(w2.history, id) == Forks(w1.history, id))
  {
    assert line.id < w.nextId <= U64_MAX;
    DecodeEncode(ControlCommand(op, line.id));
    IdsNeverReused(w, es);
    var w1 := Run(w, es);
    forall id | id != line.id
      ensures Entry(Control(w1, line.id, op, a).world, id) == Entry(w1, id) &&
              Forks(Control(w1, line.id, op, a).world.history, id) == Forks(w1.history, id)
    {
      ControlAt(w1, line.id, op, a, id);
    }
  }
}
