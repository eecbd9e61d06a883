/**
 Publication of the status file: written to a temporary file, synced, then renamed over the path.
 The file system keeps a ghost record of every state it went through, so that what a reader may see
 at any moment can be stated.
 */
module Publication {
  import opened Types
  import opened Steps
  import opened Invariants
  import opened Supervision
  import opened StatusText

  /** The kernel's answer to one `write`: how much it took, or an error. */
  datatype WriteAnswer = Wrote(n: nat) | WriteFailed

  /** The writes get `n` characters out before one of them fails. */
  ghost predicate Suffices(writes: seq<WriteAnswer>, n: nat) {
    n == 0 || writes == [] ||
    (writes[0].Wrote? && Suffices(writes[1..], if writes[0].n < n then n - writes[0].n else 0))
  }

  lemma {:induction false} NoFailureSuffices(writes: seq<WriteAnswer>, n: nat)
    requires forall a | a in writes :: a.Wrote?
    ensures Suffices(writes, n)
  {
    if n != 0 && writes != [] {
      assert writes[0] in writes && forall a | a in writes[1..] :: a in writes;
      NoFailureSuffices(writes[1..], if writes[0].n < n then n - writes[0].n else 0);
    }
  }

  /** The answers to the calls of one publication. Once `writes` runs out, writes are complete. */
  datatype Effort = Effort(opens: bool, writes: seq<WriteAnswer>, syncs: bool, renames: bool)
  {
    ghost predicate NoFailure() {
      opens && syncs && renames && forall a | a in writes :: a.Wrote?
    }

    /** All of `n` characters are written, synced and put in place. */
    ghost predicate Completes(n: nat) {
      opens && Suffices(writes, n) && syncs && renames
    }
  }

  function Content(files: map<string, string>, path: string): Option<string> {
    if path in files then Some(files[path]) else None
  }

  class FileSystem {
    var files: map<string, string>
    ghost var stages: seq<map<string, string>>

    constructor ()
      ensures files == map[] && stages == [map[]]
    {
      files := map[];
      stages := [map[]];
    }

    /** The last recorded stage is the present one. */
    ghost predicate Recorded()
      reads this
    {
      stages != [] && stages[|stages| - 1] == files
    }

    method Update(files: map<string, string>)
      modifies this
      ensures this.files == files && stages == old(stages) + [files]
    {
      this.files := files;
      stages := stages + [files];
    }
  }

  /** `status` in the run directory, and the temporary file beside it. */
  datatype StatusFilePath = StatusFilePath(path: string, tmpPath: string)

  function PathsIn(runDir: string): (p: StatusFilePath)
    ensures p.path != p.tmpPath && p.path == runDir + "/status"
  {
    var path := runDir + "/status";
    var tmpPath := path + ".tmp";
    assert |path| != |tmpPath|;
    StatusFilePath(path, tmpPath)
  }

  /** From stage `since` on, `path` holds `was` up to some stage and `now` from there on. */
  ghost predicate SwitchesOnce(stages: seq<map<string, string>>, since: nat, path: string,
                               was: Option<string>, now: Option<string>)
  {
    forall i | since <= i < |stages| ::
      Content(stages[i], path) == was || (i == |stages| - 1 && Content(stages[i], path) == now)
  }

  ghost predicate Untouched(stages: seq<map<string, string>>, since: nat, path: string, was: Option<string>) {
    forall i | since <= i < |stages| :: Content(stages[i], path) == was
  }

  /** `write_all`: write until the buffer is empty, retrying what a short write left over. */
  method WriteAll(fs: FileSystem, path: string, content: string, writes: seq<WriteAnswer>) returns (ok: bool)
    requires fs.Recorded() && path in fs.files && fs.files[path] == ""
    modifies fs
    ensures fs.Recorded() && old(fs.stages) <= fs.stages
    ensures path in fs.files && fs.files == old(fs.files)[path := fs.files[path]]
    ensures fs.files[path] <= content && (ok ==> fs.files[path] == content)
    ensures ok <==> Suffices(writes, |content|)
    ensures forall p | p != path :: Untouched(fs.stages, |old(fs.stages)|, p, Content(old(fs.files), p))
  {
    var buf := content;
    var i := 0;
    while buf != []
      invariant i <= |writes| && |buf| <= |content| && buf == content[|content| - |buf|..]
      invariant Suffices(writes, |content|) <==> Suffices(writes[i..], |buf|)
      invariant fs.Recorded() && old(fs.stages) <= fs.stages
      invariant path in fs.files && fs.files == old(fs.files)[path := content[..|content| - |buf|]]
      invariant forall p | p != path :: Untouched(fs.stages, |old(fs.stages)|, p, Content(old(fs.files), p))
      decreases |writes| - i, |buf|
    {
      var n := |buf|;
      if i < |writes| {
        if writes[i].WriteFailed? {
          return false;
        }
        n := if writes[i].n < |buf| then writes[i].n else |buf|;
        assert writes[i..][1..] == writes[i + 1..];
        i := i + 1;
      }
      var done := |content| - |buf|;
      assert content[..done] + buf[..n] == content[..done + n];
      fs.Update(fs.files[path := fs.files[path] + buf[..n]]);
      buf := buf[n..];
    }
    assert content[..|content|] == content;
    ok := true;
  }

  /** `write_status_file`. */
  method WriteStatusFile(fs: FileSystem, p: StatusFilePath, content: string, effort: Effort) returns (ok: bool)
    requires fs.Recorded() && p.path != p.tmpPath
    modifies fs
    ensures fs.Recorded() && old(fs.stages) <= fs.stages
    ensures SwitchesOnce(fs.stages, |old(fs.stages)|, p.path, Content(old(fs.files), p.path), Some(content))
    ensures Content(fs.files, p.path) == if ok then Some(content) else Content(old(fs.files), p.path)
    ensures ok <==> effort.Completes(|content|)
    ensures ok ==> p.tmpPath !in fs.files
    ensures forall q | q != p.path && q != p.tmpPath ::
              Untouched(fs.stages, |old(fs.stages)|, q, Content(old(fs.files), q))
  {
    if !effort.opens {
      return false;
    }
    ghost var since := |fs.stages|;
    fs.Update(fs.files[p.tmpPath := ""]);
    ghost var afterOpen, emptied := fs.stages, fs.files;
    ok := WriteAll(fs, p.tmpPath, content, effort.writes);
    assert afterOpen <= fs.stages && fs.stages[since] == afterOpen[since];
    forall q | q != p.tmpPath ensures Untouched(fs.stages, since, q, Content(old(fs.files), q)) {
      assert Untouched(fs.stages, |afterOpen|, q, Content(emptied, q));
    }
    if !ok || !effort.syncs || !effort.renames {
      return false;
    }
    fs.Update((fs.files - {p.tmpPath})[p.path := fs.files[p.tmpPath]]);
  }

  /** The services in the order in which the map happens to list them. */
  function Listed(services: map<nat, Service>, order: seq<nat>): seq<Service>
    requires forall id | id in order :: id in services
  {
    if order == [] then [] else [services[order[0]]] + Listed(services, order[1..])
  }

  lemma Regroup(a: string, b: string, c: string)
    ensures a + (b + c) == (a + b) + c
  {
  }

  lemma ListedFrom(services: map<nat, Service>, order: seq<nat>, i: nat)
    requires i < |order| && forall id | id in order :: id in services
    ensures Format(Listed(services, order[i..])) ==
            FormatLine(services[order[i]]) + "\n" + Format(Listed(services, order[i + 1..]))
  {
    assert order[i..][1..] == order[i + 1..];
    assert Listed(services, order[i..])[1..] == Listed(services, order[i + 1..]);
  }

  /** `format_status`, into a buffer that is cleared first. */
  method FormatStatus(registry: ServiceRegistry, order: seq<nat>) returns (buf: string)
    requires Enumerates(order, registry.services.Keys)
    ensures buf == Format(Listed(registry.services, order))
  {
    buf := "";
    ghost var whole := Format(Listed(registry.services, order));
    assert order[0..] == order;
    for i := 0 to |order|
      invariant buf + Format(Listed(registry.services, order[i..])) == whole
    {
      ListedFrom(registry.services, order, i);
      var line := FormatLine(registry.services[order[i]]) + "\n";
      ghost var rest := Format(Listed(registry.services, order[i + 1..]));
      Regroup(buf, line, rest);
      buf := buf + line;
    }
    assert order[|order|..] == [];
  }

  /** One ready descriptor that `epoll::wait` reports: the events it leads to, and how the flush after them goes. */
  datatype Wake = Wake(events: seq<Event>, listing: seq<nat>, effort: Effort)

  /** The wake-ups can follow one another, starting in `v`. */
  ghost predicate Servable(v: World, wakes: seq<Wake>)
    decreases |wakes|, 0
  {
    wakes == [] ||
    var last := |wakes| - 1;
    && Servable(v, wakes[..last])
    && Feasible(StateAfter(v, wakes[..last]), wakes[last].events)
    && Enumerates(wakes[last].listing, Run(StateAfter(v, wakes[..last]), wakes[last].events).services.Keys)
  }

  ghost function StateAfter(v: World, wakes: seq<Wake>): World
    requires Servable(v, wakes)
    decreases |wakes|, 1
  {
    if wakes == [] then v else Run(StateAfter(v, wakes[..|wakes| - 1]), wakes[|wakes| - 1].events)
  }

  /** What the last of `wakes` sets out to publish. */
  ghost function LastText(v: World, wakes: seq<Wake>): string
    requires Servable(v, wakes) && wakes != []
  {
    Format(Listed(StateAfter(v, wakes).services, wakes[|wakes| - 1].listing))
  }

  lemma {:induction false} ServablePrefix(v: World, wakes: seq<Wake>, k: nat)
    requires Servable(v, wakes) && k <= |wakes|
    ensures Servable(v, wakes[..k])
  {
    if k == |wakes| {
      assert wakes[..k] == wakes;
    } else {
      assert wakes[..|wakes| - 1][..k] == wakes[..k];
      ServablePrefix(v, wakes[..|wakes| - 1], k);
    }
  }

  /** The states between wake-ups are states of runs. */
  lemma {:induction false} ServedIsReachable(v: World, wakes: seq<Wake>)
    requires Booted(v) && Servable(v, wakes)
    ensures Reachable(StateAfter(v, wakes))
  {
    if wakes == [] {
      assert Feasible(v, []) && Run(v, []) == v;
    } else {
      ServedIsReachable(v, wakes[..|wakes| - 1]);
      var b, es :| Booted(b) && Feasible(b, es) && StateAfter(v, wakes[..|wakes| - 1]) == Run(b, es);
      RunAppend(b, es, wakes[|wakes| - 1].events);
      assert Run(b, es + wakes[|wakes| - 1].events) == StateAfter(v, wakes);
    }
  }

  /** `text` is the complete status after one of the first `n` wake-ups. */
  ghost predicate IsSnapshot(v: World, wakes: seq<Wake>, n: nat, text: string) {
    exists k: nat :: 0 < k <= n <= |wakes| && Servable(v, wakes[..k]) && text == LastText(v, wakes[..k])
  }

  /** What a reader finds at `path`: what was there at first, or a complete snapshot. */
  ghost predicate ShowsSnapshot(v: World, wakes: seq<Wake>, n: nat, found: Option<string>, first: Option<string>) {
    found == first || (found.Some? && IsSnapshot(v, wakes, n, found.value))
  }

  ghost predicate AllShow(stages: seq<map<string, string>>, since: nat, path: string,
                          v: World, wakes: seq<Wake>, n: nat, first: Option<string>)
  {
    forall i | since <= i < |stages| :: ShowsSnapshot(v, wakes, n, Content(stages[i], path), first)
  }

  /** One more publication adds stages that show the old snapshot or the new one. */
  lemma AllShowMore(before: seq<map<string, string>>, after: seq<map<string, string>>, since: nat, path: string,
                    v: World, wakes: seq<Wake>, n: nat, first: Option<string>, was: Option<string>, text: string)
    requires before <= after && since <= |before| && AllShow(before, since, path, v, wakes, n, first)
    requires ShowsSnapshot(v, wakes, n, was, first) && IsSnapshot(v, wakes, n + 1, text) && n < |wakes|
    requires SwitchesOnce(after, |before|, path, was, Some(text))
    ensures AllShow(after, since, path, v, wakes, n + 1, first)
  {
    forall i | since <= i < |after| ensures ShowsSnapshot(v, wakes, n + 1, Content(after[i], path), first) {
      if i < |before| {
        assert after[i] == before[i];
      }
    }
  }

  /** The process: the supervisor and the status file it publishes. */
  class Svlopp {
    const supervisor: Supervisor
    const fs: FileSystem
    const paths: StatusFilePath

    constructor (supervisor: Supervisor, fs: FileSystem, runDir: string)
      requires fs.Recorded()
      ensures this.supervisor == supervisor && this.fs == fs && paths == PathsIn(runDir)
    {
      this.supervisor := supervisor;
      this.fs := fs;
      paths := PathsIn(runDir);
    }

    /** `flush_status_file`; a failure is logged and forgotten. */
    method Flush(listing: seq<nat>, effort: Effort) returns (ok: bool)
      requires fs.Recorded() && paths.path != paths.tmpPath
      requires Enumerates(listing, supervisor.registry.services.Keys)
      modifies fs
      ensures fs.Recorded() && old(fs.stages) <= fs.stages
      ensures ok <==> effort.Completes(|Format(Listed(supervisor.registry.services, listing))|)
      ensures var text := Some(Format(Listed(supervisor.registry.services, listing)));
        && Content(fs.files, paths.path) == (if ok then text else Content(old(fs.files), paths.path))
        && SwitchesOnce(fs.stages, |old(fs.stages)|, paths.path, Content(old(fs.files), paths.path), text)
    {
      var buf := FormatStatus(supervisor.registry, listing);
      ok := WriteStatusFile(fs, paths, buf, effort);
    }

    /**
     Handle the events of one wake-up, then publish, unless the loop was left. The events that can
     happen are those before the one, if any, that leaves the loop.
     */
    method HandleWake(wake: Wake) returns (ok: bool)
      requires fs.Recorded() && paths.path != paths.tmpPath
      requires Inv(supervisor.View()) && Feasible(supervisor.View(), wake.events)
      requires Enumerates(wake.listing, Run(supervisor.View(), wake.events).services.Keys)
      modifies supervisor, supervisor.registry, supervisor.idGen, supervisor.kernel, fs
      ensures supervisor.View() == Run(old(supervisor.View()), wake.events) && Inv(supervisor.View())
      ensures fs.Recorded() && old(fs.stages) <= fs.stages
      ensures ok <==> supervisor.exit.Looping? &&
                      wake.effort.Completes(|Format(Listed(supervisor.registry.services, wake.listing))|)
      ensures ok ==> Content(fs.files, paths.path) == Some(Format(Listed(supervisor.registry.services, wake.listing)))
      ensures !ok ==> Content(fs.files, paths.path) == Content(old(fs.files), paths.path)
      ensures SwitchesOnce(fs.stages, |old(fs.stages)|, paths.path, Content(old(fs.files), paths.path),
                           Some(Format(Listed(supervisor.registry.services, wake.listing))))
    {
      supervisor.Loop(wake.events);
      if supervisor.exit.Looping? {
        ok := Flush(wake.listing, wake.effort);
      } else {
        ok := false;
      }
    }

    /**
     Any number of wake-ups. At every moment, between and during publications, failed ones included,
     the status path shows what it showed at first or the complete status after some wake-up; and if
     no publication fails and the loop is still running, it shows the present one.
     */
    method Serve(wakes: seq<Wake>)
      requires fs.Recorded() && paths.path != paths.tmpPath
      requires Inv(supervisor.View()) && Servable(supervisor.View(), wakes)
      modifies supervisor, supervisor.registry, supervisor.idGen, supervisor.kernel, fs
      ensures supervisor.View() == StateAfter(old(supervisor.View()), wakes) && Inv(supervisor.View())
      ensures fs.Recorded() && old(fs.stages) <= fs.stages
      ensures AllShow(fs.stages, |old(fs.stages)|, paths.path, old(supervisor.View()), wakes, |wakes|,
                      Content(old(fs.files), paths.path))
      ensures wakes != [] && supervisor.exit.Looping? && wakes[|wakes| - 1].effort.NoFailure() ==>
        Content(fs.files, paths.path) == Some(LastText(old(supervisor.View()), wakes))
    {
      ghost var v, first := supervisor.View(), Content(fs.files, paths.path);
      for n := 0 to |wakes|
        invariant Servable(v, wakes[..n])
        invariant supervisor.View() == StateAfter(v, wakes[..n]) && Inv(supervisor.View())
        invariant fs.Recorded() && old(fs.stages) <= fs.stages
        invariant ShowsSnapshot(v, wakes, n, Content(fs.files, paths.path), first)
        invariant AllShow(fs.stages, |old(fs.stages)|, paths.path, v, wakes, n, first)
        invariant n > 0 && supervisor.exit.Looping? && wakes[n - 1].effort.NoFailure() ==>
          Content(fs.files, paths.path) == Some(LastText(v, wakes[..n]))
      {
        ServablePrefix(v, wakes, n + 1);
        assert wakes[..n + 1][..n] == wakes[..n];
        ghost var before, was := fs.stages, Content(fs.files, paths.path);
        var _ := HandleWake(wakes[n]);
        ghost var text := LastText(v, wakes[..n + 1]);
        if wakes[n].effort.NoFailure() {
          NoFailureSuffices(wakes[n].effort.writes, |text|);
        }
        assert IsSnapshot(v, wakes, n + 1, text);
        AllShowMore(before, fs.stages, |old(fs.stages)|, paths.path, v, wakes, n, first, was, text);
      }
      assert wakes[..|wakes|] == wakes;
    }
  }
}
