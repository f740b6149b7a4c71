/** The governed host launcher (governed_host_launcher.py) and the part of the daemon that runs it and releases the
    lease (daemon.py). Every outcome of Docker, of the worker process and of writing the quarantine marker is an
    input; what was seen and done is logged, workspace by workspace. */
module HostLauncher {
  import opened Common

  /** A container as `docker inspect` reports it; malformed rows have no mounts. */
  datatype Row = Row(ident: string, mounts: seq<string>)

  /** `docker ps` and `docker inspect` together. An unavailable inventory is reported as an error of the launcher's
      own; resolving the workspace for the comparison may raise any other exception. */
  datatype Inventory = Listed(rows: seq<Row>) | Unavailable | Astray

  /** How a check ends: passed, refused with an error of the launcher's own, or with another exception. */
  datatype Check = Passed | Refused | Raised

  datatype Spawn = Exited(returncode: int) | TimedOut | Crashed

  /** Reading HEAD of the workspace. */
  datatype Probe = Read(head: string) | Unreadable | ProbeRaised

  /** How the steps outside the launcher turn out during one launch. */
  datatype World = World(
    pristine: Check,            // the workspace resolves, is a directory and its Git probe is clean
    prepared: Check,            // runner identity and packet are in order
    before: Inventory,          // containers before the launch
    issued: Check,              // the executor guard issues a lease and the runner is still the approved one
    spawn: Spawn,
    after: Inventory,           // containers once the worker is gone
    removes: bool,              // `docker rm -f` succeeds
    again: Inventory,           // containers after removal
    persists: bool,             // the quarantine marker can be written
    probe: Probe,               // HEAD of the workspace afterwards
    accepts: bool)              // the store accepts the release: the lease is still held and unexpired

  /** The launcher's own error, or any other exception. */
  datatype LaunchError = LaunchError(releaseSafe: bool) | Foreign

  datatype WorkerResult = WorkerResult(returncode: int, head: string)

  /** What a look for containers ends with. */
  datatype Sweep = Clear | Doubtful | Lost

  /** What one launch does to a workspace, in order. */
  datatype Effect =
    | Began(workspace: string)
    | Spawned(workspace: string)
    | Inventoried(workspace: string, free: bool)
    | Abandoned(workspace: string)   // another exception ended the cleanup after a worker
    | Marked(workspace: string)
    | Released(workspace: string, outcome: string)

  // ---- Reading the log ----

  /** The effect is among those logged from position `start` on. */
  ghost predicate Since(log: seq<Effect>, start: nat, e: Effect) {
    exists i :: start <= i < |log| && log[i] == e
  }

  /** The last launch on the workspace spawned a worker and no inventory since has shown it free of containers. */
  ghost predicate Unproven(log: seq<Effect>, workspace: string) {
    if log == [] then false
    else
      var e := log[|log| - 1];
      if e == Spawned(workspace) then true
      else if e == Inventoried(workspace, true) || e == Began(workspace) then false
      else Unproven(log[..|log| - 1], workspace)
  }

  /** A worker is only ever spawned right after its workspace was seen free of containers. */
  ghost predicate SpawnsProven(log: seq<Effect>) {
    forall j :: 0 <= j < |log| && log[j].Spawned? ==> 0 < j && log[j - 1] == Inventoried(log[j].workspace, true)
  }

  /** The lease of a workspace is released while a container of that launch may be left on it exactly when the cleanup
      was abandoned just before. */
  ghost predicate ReleasesProven(log: seq<Effect>) {
    forall j :: 0 <= j < |log| && log[j].Released? ==> ReleaseOk(log[..j], log[j].workspace)
  }

  ghost predicate ReleaseOk(log: seq<Effect>, workspace: string) {
    Unproven(log, workspace) <==> log != [] && log[|log| - 1] == Abandoned(workspace)
  }

  /** Nothing is ever spawned on a workspace after it was marked. */
  ghost predicate MarksRespected(log: seq<Effect>) {
    forall i, j :: 0 <= i < j < |log| && log[i].Marked? ==> log[j] != Spawned(log[i].workspace)
  }

  ghost predicate MarksLogged(log: seq<Effect>, markers: set<string>) {
    forall i :: 0 <= i < |log| && log[i].Marked? ==> log[i].workspace in markers
  }

  lemma UnprovenNext(log: seq<Effect>, e: Effect, workspace: string)
    ensures Unproven(log + [e], workspace)
            <==> e == Spawned(workspace)
                 || (e != Inventoried(workspace, true) && e != Began(workspace) && Unproven(log, workspace))
  {
    assert (log + [e])[..|log|] == log;
  }

  ghost predicate LogOk(log: seq<Effect>, markers: set<string>) {
    SpawnsProven(log) && ReleasesProven(log) && MarksRespected(log) && MarksLogged(log, markers)
  }

  /** When an effect may come next. */
  ghost predicate Follows(log: seq<Effect>, markers: set<string>, e: Effect) {
    && (e.Released? ==> ReleaseOk(log, e.workspace))
    && (e.Spawned? ==> e.workspace !in markers && 0 < |log| && log[|log| - 1] == Inventoried(e.workspace, true))
    && (e.Marked? ==> e.workspace in markers)
  }

  lemma NextOk(log: seq<Effect>, markers: set<string>, e: Effect)
    requires LogOk(log, markers) && Follows(log, markers, e)
    ensures LogOk(log + [e], markers)
  {
    hide ReleaseOk;
    var next := log + [e];
    forall j | 0 <= j < |next| && next[j].Released? ensures ReleaseOk(next[..j], next[j].workspace) {
      assert next[..j] == log[..j];
      assert log[..|log|] == log;
    }
  }

  lemma MoreMarkers(log: seq<Effect>, markers: set<string>, workspace: string)
    requires LogOk(log, markers)
    ensures LogOk(log, markers + {workspace})
  {
    hide SpawnsProven, ReleasesProven, MarksRespected;
  }

  /** The containers that mount the workspace, as far as they can be named. */
  predicate Holds(row: Row, workspace: string) {
    row.ident != "" && workspace in row.mounts
  }

  predicate Free(seen: Inventory, workspace: string) {
    seen.Listed? && forall i :: 0 <= i < |seen.rows| ==> !Holds(seen.rows[i], workspace)
  }

  /** The workspace is seen free of containers, at once or after a forced removal. */
  predicate Proven(workspace: string, force: bool, first: Inventory, removes: bool, second: Inventory) {
    Free(first, workspace) || (force && first.Listed? && removes && Free(second, workspace))
  }

  /** Looking for containers ends with another exception. */
  predicate Strays(workspace: string, force: bool, first: Inventory, removes: bool, second: Inventory) {
    first.Astray? || (force && first.Listed? && !Free(first, workspace) && removes && second.Astray?)
  }

  /** The launch gets as far as looking for containers. */
  predicate Reaches(w: World, workspace: string, markers: set<string>) {
    w.pristine.Passed? && workspace !in markers && w.prepared.Passed?
  }

  /** The launch gets as far as spawning the worker. */
  predicate Launches(w: World, workspace: string, markers: set<string>) {
    Reaches(w, workspace, markers) && Free(w.before, workspace) && w.issued.Passed?
  }

  predicate CleanedUp(w: World, workspace: string) {
    Proven(workspace, true, w.after, w.removes, w.again)
  }

  /** A timeout, containers that may be left, or a failed worker. */
  predicate Uncertain(w: World, workspace: string) {
    w.spawn.TimedOut? || !CleanedUp(w, workspace) || (w.spawn.Exited? && w.spawn.returncode != 0)
  }

  /** The cleanup after the worker ends with another exception: neither proof nor quarantine. */
  predicate Abandons(w: World, workspace: string) {
    Strays(workspace, true, w.after, w.removes, w.again)
  }

  /** The cleanup went through, and containers may be left, or the run timed out, or it failed and could not be marked. */
  predicate Keeps(w: World, workspace: string) {
    !Abandons(w, workspace)
    && (w.spawn.TimedOut? || !CleanedUp(w, workspace) || (Uncertain(w, workspace) && !w.persists))
  }

  /** The launcher's error keeps the lease: containers before the run, or an uncertain end of it. */
  predicate Withheld(w: World, workspace: string, markers: set<string>) {
    || (Reaches(w, workspace, markers) && !Free(w.before, workspace) && !w.before.Astray?)
    || (Launches(w, workspace, markers) && Keeps(w, workspace))
  }

  /** The worker's result is reported. */
  predicate Reports(w: World, workspace: string) {
    CleanedUp(w, workspace) && w.spawn.Exited? && (w.spawn.returncode == 0 || w.persists) && w.probe.Read?
  }

  /** After the worker, an exception of another kind leaves the launcher. */
  predicate EndsForeign(w: World, workspace: string) {
    || Abandons(w, workspace)
    || (CleanedUp(w, workspace) && w.spawn.Exited? && (w.spawn.returncode == 0 || w.persists) && w.probe.ProbeRaised?)
  }

  /** An exception of another kind leaves the launcher. */
  predicate GoesForeign(w: World, workspace: string, markers: set<string>) {
    || (workspace !in markers && (w.pristine.Raised? || (w.pristine.Passed? && w.prepared.Raised?)))
    || (Reaches(w, workspace, markers) && (w.before.Astray? || (Free(w.before, workspace) && w.issued.Raised?)))
    || (Launches(w, workspace, markers) && EndsForeign(w, workspace))
  }

  /** The daemon's `release_safe`: it is withdrawn only by the launcher's own error. */
  predicate MayRelease(r: Result<WorkerResult, LaunchError>) {
    r.Success? || r.error.Foreign? || r.error.releaseSafe
  }

  // ---- The effects of a launch ----

  function Look(workspace: string, seen: Inventory): Effect {
    Inventoried(workspace, Free(seen, workspace))
  }

  function SweepEffects(workspace: string, force: bool, first: Inventory, removes: bool, second: Inventory): seq<Effect> {
    [Look(workspace, first)]
    + if force && first.Listed? && !Free(first, workspace) && removes then [Look(workspace, second)] else []
  }

  /** The run is uncertain, the cleanup went through, and the marker is written. */
  predicate Marks(w: World, workspace: string) {
    !Abandons(w, workspace) && Uncertain(w, workspace) && w.persists
  }

  function SettleEffects(w: World, workspace: string): seq<Effect> {
    SweepEffects(workspace, true, w.after, w.removes, w.again)
    + if Abandons(w, workspace) then [Abandoned(workspace)]
      else if Marks(w, workspace) then [Marked(workspace)]
      else []
  }

  function WorkerEffects(w: World, workspace: string, markers: set<string>): seq<Effect> {
    [Began(workspace)]
    + (if Reaches(w, workspace, markers) then [Look(workspace, w.before)] else [])
    + if Launches(w, workspace, markers) then [Spawned(workspace)] + SettleEffects(w, workspace) else []
  }

  function OutcomeOf(w: World, workspace: string, markers: set<string>): string {
    if Launches(w, workspace, markers) && Reports(w, workspace) && w.spawn == Exited(0) then "worker-complete"
    else "worker-failed"
  }

  /** The launch, and the release of its lease if it is tried and accepted. */
  function RunEffects(w: World, workspace: string, markers: set<string>): seq<Effect> {
    WorkerEffects(w, workspace, markers)
    + if !Withheld(w, workspace, markers) && w.accepts then [Released(workspace, OutcomeOf(w, workspace, markers))] else []
  }

  function MarkersAfter(w: World, workspace: string, markers: set<string>): set<string> {
    if Launches(w, workspace, markers) && Marks(w, workspace) then markers + {workspace} else markers
  }

  /** Among them the worker is spawned exactly when the launch gets that far. */
  lemma WorkerSpawns(log: seq<Effect>, w: World, workspace: string, markers: set<string>)
    ensures Since(log + WorkerEffects(w, workspace, markers), |log|, Spawned(workspace)) <==> Launches(w, workspace, markers)
  {
    hide Free, Abandons, Marks;
    var next := log + WorkerEffects(w, workspace, markers);
    if Launches(w, workspace, markers) {
      assert next[|log| + 2] == Spawned(workspace);
    }
  }

  // ---- What they keep ----

  lemma SweepOk(log: seq<Effect>, markers: set<string>, workspace: string, force: bool, first: Inventory, removes: bool,
                second: Inventory)
    requires LogOk(log, markers)
    ensures var next := log + SweepEffects(workspace, force, first, removes, second);
            && LogOk(next, markers)
            && if Proven(workspace, force, first, removes, second)
               then !Unproven(next, workspace) && next[|next| - 1] == Inventoried(workspace, true)
               else Unproven(next, workspace) == Unproven(log, workspace) && next[|next| - 1] == Inventoried(workspace, false)
  {
    hide LogOk, Unproven, Free;
    NextOk(log, markers, Look(workspace, first));
    UnprovenNext(log, Look(workspace, first), workspace);
    var once := log + [Look(workspace, first)];
    var effects := SweepEffects(workspace, force, first, removes, second);
    if force && first.Listed? && !Free(first, workspace) && removes {
      NextOk(once, markers, Look(workspace, second));
      UnprovenNext(once, Look(workspace, second), workspace);
      assert log + effects == once + [Look(workspace, second)];
    } else {
      assert log + effects == once;
    }
  }

  /** After the worker: when the launcher's error does not keep the lease, it may be released. */
  lemma SettleOk(log: seq<Effect>, markers: set<string>, w: World, workspace: string)
    requires LogOk(log, markers) && Unproven(log, workspace)
    ensures var next := log + SettleEffects(w, workspace);
            && LogOk(next, if Marks(w, workspace) then markers + {workspace} else markers)
            && (!Keeps(w, workspace) ==> ReleaseOk(next, workspace))
  {
    hide LogOk, Unproven, Proven, Strays, SweepEffects;
    SweepOk(log, markers, workspace, true, w.after, w.removes, w.again);
    var swept := log + SweepEffects(workspace, true, w.after, w.removes, w.again);
    if Abandons(w, workspace) {
      StrayNotProven(w, workspace);
      NextOk(swept, markers, Abandoned(workspace));
      UnprovenNext(swept, Abandoned(workspace), workspace);
      assert log + SettleEffects(w, workspace) == swept + [Abandoned(workspace)];
    } else if Marks(w, workspace) {
      MoreMarkers(swept, markers, workspace);
      NextOk(swept, markers + {workspace}, Marked(workspace));
      UnprovenNext(swept, Marked(workspace), workspace);
      assert log + SettleEffects(w, workspace) == swept + [Marked(workspace)];
    } else {
      assert log + SettleEffects(w, workspace) == swept;
    }
  }

  lemma StrayNotProven(w: World, workspace: string)
    requires Abandons(w, workspace)
    ensures !CleanedUp(w, workspace)
  {
  }

  lemma WorkerOk(log: seq<Effect>, markers: set<string>, w: World, workspace: string)
    requires LogOk(log, markers)
    ensures var next := log + WorkerEffects(w, workspace, markers);
            && LogOk(next, MarkersAfter(w, workspace, markers))
            && (!Withheld(w, workspace, markers) ==> ReleaseOk(next, workspace))
  {
    hide LogOk, Unproven, Marks, Keeps, SettleEffects, Free;
    var began := log + [Began(workspace)];
    NextOk(log, markers, Began(workspace));
    UnprovenNext(log, Began(workspace), workspace);
    var effects := WorkerEffects(w, workspace, markers);
    if !Reaches(w, workspace, markers) {
      assert log + effects == began;
    } else {
      var looked := began + [Look(workspace, w.before)];
      NextOk(began, markers, Look(workspace, w.before));
      UnprovenNext(began, Look(workspace, w.before), workspace);
      if !Launches(w, workspace, markers) {
        assert log + effects == looked;
      } else {
        var spawned := looked + [Spawned(workspace)];
        NextOk(looked, markers, Spawned(workspace));
        UnprovenNext(looked, Spawned(workspace), workspace);
        SettleOk(spawned, markers, w, workspace);
        assert log + effects == spawned + SettleEffects(w, workspace);
      }
    }
  }

  lemma RunOk(log: seq<Effect>, markers: set<string>, w: World, workspace: string)
    requires LogOk(log, markers)
    ensures LogOk(log + RunEffects(w, workspace, markers), MarkersAfter(w, workspace, markers))
  {
    hide LogOk, WorkerEffects, MarkersAfter, Withheld, ReleaseOk, OutcomeOf;
    WorkerOk(log, markers, w, workspace);
    var worked := log + WorkerEffects(w, workspace, markers);
    if !Withheld(w, workspace, markers) && w.accepts {
      var released := Released(workspace, OutcomeOf(w, workspace, markers));
      NextOk(worked, MarkersAfter(w, workspace, markers), released);
      assert log + RunEffects(w, workspace, markers) == worked + [released];
    } else {
      assert log + RunEffects(w, workspace, markers) == worked;
    }
  }

  // ---- Every sequence of launches ----

  datatype Launch = Launch(workspace: string, world: World)

  /** The log and the markers that launches leave behind. */
  datatype Past = Past(log: seq<Effect>, markers: set<string>)

  function PastOf(launches: seq<Launch>): Past {
    if launches == [] then Past([], {})
    else
      var before, last := PastOf(launches[..|launches| - 1]), launches[|launches| - 1];
      Past(before.log + RunEffects(last.world, last.workspace, before.markers),
           MarkersAfter(last.world, last.workspace, before.markers))
  }

  lemma {:induction false} PastOk(launches: seq<Launch>)
    ensures LogOk(PastOf(launches).log, PastOf(launches).markers)
  {
    if launches == [] {
    } else {
      hide LogOk, RunEffects, MarkersAfter;
      var before, last := launches[..|launches| - 1], launches[|launches| - 1];
      PastOk(before);
      RunOk(PastOf(before).log, PastOf(before).markers, last.world, last.workspace);
    }
  }

  /** Whatever launches there were, nothing was spawned on a workspace after it was marked, and nothing will be. */
  lemma NothingAfterMark(launches: seq<Launch>, i: nat, j: nat, w: World)
    requires i < |PastOf(launches).log| && PastOf(launches).log[i].Marked?
    ensures j < |PastOf(launches).log| && PastOf(launches).log[j] == Spawned(PastOf(launches).log[i].workspace) ==> j < i
    ensures !Launches(w, PastOf(launches).log[i].workspace, PastOf(launches).markers)
  {
    hide PastOf, Free;
    PastOk(launches);
  }

  /** Whatever launches there were, two workers on one workspace are separated by an inventory that shows it free of
      containers. */
  lemma WorkersSeparated(launches: seq<Launch>, i: nat, j: nat)
    requires i < j < |PastOf(launches).log|
    requires PastOf(launches).log[i].Spawned? && PastOf(launches).log[j] == PastOf(launches).log[i]
    ensures exists k :: i < k < j && PastOf(launches).log[k] == Inventoried(PastOf(launches).log[i].workspace, true)
  {
    hide PastOf;
    PastOk(launches);
    assert PastOf(launches).log[j - 1] == Inventoried(PastOf(launches).log[i].workspace, true);
  }

  /** Whatever launches there were: unless another launch began in between or the cleanup was abandoned, a release
      after a spawn means that the workspace was seen free of containers after the spawn. */
  lemma ReleaseAfterProof(launches: seq<Launch>, i: nat, j: nat)
    requires i < j < |PastOf(launches).log|
    requires var log := PastOf(launches).log;
             && log[j].Released? && log[i] == Spawned(log[j].workspace)
             && forall k :: i < k < j ==> log[k] != Began(log[j].workspace) && log[k] != Abandoned(log[j].workspace)
    ensures var log := PastOf(launches).log; exists k :: i < k < j && log[k] == Inventoried(log[j].workspace, true)
  {
    hide PastOf, Unproven;
    PastOk(launches);
    var log := PastOf(launches).log;
    assert ReleaseOk(log[..j], log[j].workspace);
    assert log[..j][j - 1] == log[j - 1] && log[..j][i] == log[i];
    ProofBetween(log[..j], i, log[j].workspace);
    var k :| i < k < j && log[..j][k] == Inventoried(log[j].workspace, true);
    assert log[k] == log[..j][k];
  }

  lemma {:induction false} ProofBetween(log: seq<Effect>, i: nat, workspace: string)
    requires i < |log| && log[i] == Spawned(workspace) && !Unproven(log, workspace)
    requires forall k :: i < k < |log| ==> log[k] != Began(workspace)
    ensures exists k :: i < k < |log| && log[k] == Inventoried(workspace, true)
  {
    var n := |log| - 1;
    if log[n] != Inventoried(workspace, true) {
      ProofBetween(log[..n], i, workspace);
      var k :| i < k < n && log[..n][k] == Inventoried(workspace, true);
      assert log[k] == Inventoried(workspace, true);
    }
  }

  class Host {
    var markers: set<string>
    ghost var log: seq<Effect>

    ghost predicate Valid()
      reads this
    {
      LogOk(log, markers)
    }

    constructor ()
      ensures Valid() && markers == {} && log == []
    {
      markers, log := {}, [];
    }

    ghost method Note(e: Effect)
      requires Valid() && Follows(log, markers, e)
      modifies this`log
      ensures Valid() && log == old(log) + [e]
    {
      hide LogOk, Follows;
      NextOk(log, markers, e);
      log := log + [e];
    }

    /** The loop over inspected containers in `_docker_workspace_containers`. */
    static method WorkspaceContainers(rows: seq<Row>, workspace: string) returns (hits: seq<string>)
      ensures hits == [] <==> forall i :: 0 <= i < |rows| ==> !Holds(rows[i], workspace)
      ensures forall h :: h in hits <==> exists i :: 0 <= i < |rows| && rows[i].ident == h && Holds(rows[i], workspace)
    {
      hits := [];
      for i := 0 to |rows|
        invariant hits == [] <==> forall k :: 0 <= k < i ==> !Holds(rows[k], workspace)
        invariant forall h :: h in hits <==> exists k :: 0 <= k < i && rows[k].ident == h && Holds(rows[k], workspace)
      {
        var j := 0;
        while j < |rows[i].mounts| && rows[i].mounts[j] != workspace
          invariant 0 <= j <= |rows[i].mounts|
          invariant forall k :: 0 <= k < j ==> rows[i].mounts[k] != workspace
        {
          j := j + 1;
        }
        if j < |rows[i].mounts| && rows[i].ident != "" {
          hits := hits + [rows[i].ident];
          assert Holds(rows[i], workspace);
        }
      }
    }

    /** One inventory of the workspace: the containers found, if it succeeded. */
    method TakeInventory(workspace: string, seen: Inventory) returns (hits: Option<seq<string>>)
      requires Valid()
      modifies this`log
      ensures Valid() && log == old(log) + [Inventoried(workspace, Free(seen, workspace))]
      ensures hits.Some? <==> seen.Listed?
      ensures hits == Some([]) <==> Free(seen, workspace)
    {
      if !seen.Listed? {
        hits := None;
      } else {
        var found := WorkspaceContainers(seen.rows, workspace);
        hits := Some(found);
      }
      Note(Inventoried(workspace, Free(seen, workspace)));
    }

    /** `_ensure_workspace_containers_absent`: clear when the last inventory proved the workspace free. */
    method EnsureAbsent(workspace: string, force: bool, first: Inventory, removes: bool, second: Inventory)
        returns (sweep: Sweep)
      requires Valid()
      modifies this`log
      ensures Valid() && log == old(log) + SweepEffects(workspace, force, first, removes, second)
      ensures sweep.Clear? <==> Proven(workspace, force, first, removes, second)
      ensures sweep.Lost? <==> Strays(workspace, force, first, removes, second)
      ensures if sweep.Clear?
              then !Unproven(log, workspace) && 0 < |log| && log[|log| - 1] == Inventoried(workspace, true)
              else Unproven(log, workspace) == old(Unproven(log, workspace))
    {
      var hits := TakeInventory(workspace, first);
      UnprovenNext(old(log), Inventoried(workspace, Free(first, workspace)), workspace);
      if hits.None? {
        return if first.Astray? then Lost else Doubtful;
      }
      if hits.value != [] && force {
        if !removes {
          return Doubtful;
        }
        ghost var before := log;
        hits := TakeInventory(workspace, second);
        UnprovenNext(before, Inventoried(workspace, Free(second, workspace)), workspace);
        if hits.None? {
          return if second.Astray? then Lost else Doubtful;
        }
      }
      sweep := if hits.value == [] then Clear else Doubtful;
    }

    /** `_quarantine_or_fail_closed`: false when the marker could not be written. */
    method Quarantine(workspace: string, persists: bool) returns (ok: bool)
      requires Valid()
      modifies this
      ensures Valid() && ok == persists
      ensures markers == if persists then old(markers) + {workspace} else old(markers)
      ensures old(log) <= log
      ensures log == if persists then old(log) + [Marked(workspace)] else old(log)
    {
      if persists {
        markers := markers + {workspace};
        Note(Marked(workspace));
      }
      ok := persists;
    }

    /** `assert_governed_workspace_ready`. */
    method Ready(workspace: string, pristine: Check) returns (ready: Check)
      ensures ready == if workspace in markers then Refused else pristine
    {
      ready := if workspace in markers then Refused else pristine;
    }

    /** `run_governed_worker` from the end of the worker process on: clean up, quarantine, report. */
    method Settle(workspace: string, w: World) returns (r: Result<WorkerResult, LaunchError>)
      requires Valid() && Unproven(log, workspace)
      modifies this
      ensures Valid() && log == old(log) + SettleEffects(w, workspace)
      ensures MayRelease(r) ==> ReleaseOk(log, workspace)
      ensures MayRelease(r) ==> (Unproven(log, workspace) <==> Abandons(w, workspace))
      ensures !MayRelease(r) <==> Keeps(w, workspace)
      ensures r.Failure? && r.error.Foreign? <==> EndsForeign(w, workspace)
      ensures markers == if Marks(w, workspace) then old(markers) + {workspace} else old(markers)
      ensures r.Success? <==> Reports(w, workspace)
      ensures r.Success? ==> w.spawn == Exited(r.value.returncode) && w.probe == Read(r.value.head)
    {
      hide LogOk, Unproven, Free, Proven, Strays, SweepEffects;
      var sweep := EnsureAbsent(workspace, true, w.after, w.removes, w.again);
      ghost var before := log;
      if sweep.Lost? {
        Note(Abandoned(workspace));
        UnprovenNext(before, Abandoned(workspace), workspace);
        return Failure(Foreign);
      }
      if w.spawn.TimedOut? {
        var marked := Quarantine(workspace, w.persists);
        return Failure(LaunchError(false));
      }
      if w.spawn.Crashed? {
        if !sweep.Clear? {
          var marked := Quarantine(workspace, w.persists);
          return Failure(LaunchError(false));
        }
        return Failure(LaunchError(true));
      }
      if !sweep.Clear? {
        var marked := Quarantine(workspace, w.persists);
        return Failure(LaunchError(false));
      }
      if w.spawn.returncode != 0 {
        var marked := Quarantine(workspace, w.persists);
        if !marked {
          return Failure(LaunchError(false));
        }
        UnprovenNext(before, Marked(workspace), workspace);
      }
      match w.probe
      case Read(head) => r := Success(WorkerResult(w.spawn.returncode, head));
      case Unreadable => r := Failure(LaunchError(true));
      case ProbeRaised => r := Failure(Foreign);
    }

    /** `run_governed_worker`. */
    method RunGovernedWorker(workspace: string, w: World) returns (r: Result<WorkerResult, LaunchError>)
      requires Valid()
      modifies this
      ensures Valid() && log == old(log) + WorkerEffects(w, workspace, old(markers))
      ensures markers == MarkersAfter(w, workspace, old(markers))
      // it spawns exactly when the workspace is ready, unmarked and seen free of containers
      ensures Since(log, |old(log)|, Spawned(workspace)) <==> Launches(w, workspace, old(markers))
      // when the lease may be released, a container may be left exactly if the cleanup was abandoned
      ensures MayRelease(r) ==> ReleaseOk(log, workspace)
      ensures MayRelease(r) ==>
                (Unproven(log, workspace) <==> Launches(w, workspace, old(markers)) && Abandons(w, workspace))
      // the lease is withheld exactly in these cases, and other exceptions escape exactly in those
      ensures !MayRelease(r) <==> Withheld(w, workspace, old(markers))
      ensures r.Failure? && r.error.Foreign? <==> GoesForeign(w, workspace, old(markers))
      ensures r.Success? <==> Launches(w, workspace, old(markers)) && Reports(w, workspace)
      ensures r.Success? ==> w.spawn == Exited(r.value.returncode) && w.probe == Read(r.value.head)
    {
      hide LogOk, Unproven, Free, CleanedUp, Uncertain, Keeps, Abandons, EndsForeign, Reports, SettleEffects, Marks;
      WorkerSpawns(log, w, workspace, markers);
      Note(Began(workspace));
      UnprovenNext(old(log), Began(workspace), workspace);
      var ready := Ready(workspace, w.pristine);
      if ready != Passed {
        return Failure(if ready == Refused then LaunchError(true) else Foreign);
      }
      if w.prepared != Passed {
        return Failure(if w.prepared == Refused then LaunchError(true) else Foreign);
      }
      var sweep := EnsureAbsent(workspace, false, w.before, false, Unavailable);
      if !sweep.Clear? {
        return Failure(if sweep.Lost? then Foreign else LaunchError(false));
      }
      if w.issued != Passed {
        return Failure(if w.issued == Refused then LaunchError(true) else Foreign);
      }
      ghost var spawning := |log|;
      Note(Spawned(workspace));
      UnprovenNext(log[..spawning], Spawned(workspace), workspace);
      assert log[..spawning] + [Spawned(workspace)] == log;
      assert log[spawning] == Spawned(workspace);
      r := Settle(workspace, w);
    }

    /** The governed part of the daemon's launch: run the worker, and if that is safe try to release the lease, with
        the outcome as its result. A release that the store refuses makes the launch fail. */
    method RunAndRelease(workspace: string, w: World, currentHead: string)
        returns (outcome: string, resultHead: string, released: bool, failed: bool)
      requires Valid()
      modifies this
      ensures Valid() && log == old(log) + RunEffects(w, workspace, old(markers))
      ensures markers == MarkersAfter(w, workspace, old(markers))
      // what the lease is released for: a container may be left exactly when the cleanup was abandoned
      ensures released <==> !Withheld(w, workspace, old(markers)) && w.accepts
      ensures released ==>
                (Unproven(log, workspace) <==> Launches(w, workspace, old(markers)) && Abandons(w, workspace))
      ensures resultHead == if w.probe.Read? && !GoesForeign(w, workspace, old(markers)) then w.probe.head else currentHead
      ensures outcome == OutcomeOf(w, workspace, old(markers))
      ensures !failed <==> Launches(w, workspace, old(markers)) && Reports(w, workspace) && w.accepts
      ensures !failed ==> released && w.probe == Read(resultHead)
    {
      hide LogOk, Unproven, Launches, Abandons, Withheld, GoesForeign, Reports, WorkerEffects, MarkersAfter;
      released, failed, outcome, resultHead := true, false, "worker-failed", currentHead;
      var r := RunGovernedWorker(workspace, w);
      if r.Success? {
        resultHead := r.value.head;
        outcome := if r.value.returncode == 0 then "worker-complete" else "worker-failed";
      } else {
        failed := true;
        if !r.error.Foreign? {
          released := r.error.releaseSafe;
          resultHead := if w.probe.Read? then w.probe.head else currentHead;
        }
      }
      ghost var before := log;
      if released {
        if w.accepts {
          Note(Released(workspace, outcome));
          UnprovenNext(before, Released(workspace, outcome), workspace);
        } else {
          released, failed := false, true;
        }
      }
    }
  }

  /** Launches run one after the other leave behind what they should. */
  method RunAll(launches: seq<Launch>, currentHead: string) returns (host: Host)
    ensures fresh(host) && host.Valid() && Past(host.log, host.markers) == PastOf(launches)
  {
    host := new Host();
    for i := 0 to |launches|
      invariant fresh(host) && host.Valid() && Past(host.log, host.markers) == PastOf(launches[..i])
    {
      hide RunEffects, MarkersAfter, LogOk;
      assert launches[..i + 1][..i] == launches[..i];
      var outcome, head, released, failed := host.RunAndRelease(launches[i].workspace, launches[i].world, currentHead);
    }
    assert launches[..|launches|] == launches;
  }

  /** The worker ends well, and then its workspace cannot be resolved any more. */
  const VANISHED := World(Passed, Passed, Listed([]), Passed, Exited(0), Astray, true, Unavailable, true, Read("h"),
                          true)

  lemma VanishedAbandons(workspace: string)
    ensures Launches(VANISHED, workspace, {}) && Abandons(VANISHED, workspace)
    ensures !Withheld(VANISHED, workspace, {}) && !Reports(VANISHED, workspace)
  {
  }

  /** A lease that is released although a container may be left. */
  method ReleasedInDoubt(workspace: string) returns (released: bool, failed: bool, ghost doubt: bool)
    ensures released && failed && doubt
  {
    hide Unproven, Launches, Abandons, Withheld, Reports, GoesForeign, RunEffects;
    var host := new Host();
    VanishedAbandons(workspace);
    var outcome, head;
    outcome, head, released, failed := host.RunAndRelease(workspace, VANISHED, "h");
    doubt := Unproven(host.log, workspace);
  }
}
