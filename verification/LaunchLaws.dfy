/** What one launch does, in terms of what happens to it: when a worker is spawned, when its workspace is quarantined,
    and when its lease is released, with which outcome (governed_host_launcher.py, daemon.py). */
module LaunchLaws {
  import opened Common
  import opened HostLauncher

  /** No container with a name mounts the workspace. */
  ghost predicate NoneMounts(rows: seq<Row>, workspace: string) {
    forall i :: 0 <= i < |rows| ==> rows[i].ident == "" || workspace !in rows[i].mounts
  }

  ghost predicate Shows(effects: seq<Effect>, e: Effect) {
    exists i :: 0 <= i < |effects| && effects[i] == e
  }

  /** An inventory after the spawn shows the workspace free. */
  ghost predicate CleanAfterSpawn(effects: seq<Effect>, workspace: string) {
    exists i, k :: 0 <= i < k < |effects| && effects[i] == Spawned(workspace) && effects[k] == Inventoried(workspace, true)
  }

  ghost predicate ShowsRelease(effects: seq<Effect>, workspace: string) {
    exists i :: 0 <= i < |effects| && effects[i].Released? && effects[i].workspace == workspace
  }

  lemma FreeMeans(seen: Inventory, workspace: string)
    ensures Free(seen, workspace) <==> seen.Listed? && NoneMounts(seen.rows, workspace)
  {
    if seen.Listed? {
      forall i | 0 <= i < |seen.rows|
        ensures !Holds(seen.rows[i], workspace) <==> seen.rows[i].ident == "" || workspace !in seen.rows[i].mounts
      {
      }
      if NoneMounts(seen.rows, workspace) {
        assert forall i :: 0 <= i < |seen.rows| ==> !Holds(seen.rows[i], workspace);
      }
    }
  }

  // ---- The effects of a launch, one by one ----

  lemma BeforeSpawn(w: World, workspace: string, markers: set<string>)
    requires !Launches(w, workspace, markers)
    ensures var effects := WorkerEffects(w, workspace, markers);
            && !Shows(effects, Spawned(workspace)) && !Shows(effects, Abandoned(workspace))
            && !ShowsRelease(effects, workspace)
  {
    hide Free;
  }

  lemma SweepShows(workspace: string, first: Inventory, removes: bool, second: Inventory)
    ensures var effects := SweepEffects(workspace, true, first, removes, second);
            && (Shows(effects, Inventoried(workspace, true)) <==> Proven(workspace, true, first, removes, second))
            && forall i :: 0 <= i < |effects| ==> effects[i].Inventoried?
  {
    hide Free;
    var effects := SweepEffects(workspace, true, first, removes, second);
    if Free(first, workspace) {
      assert effects[0] == Inventoried(workspace, true);
    } else if first.Listed? && removes {
      assert effects[1] == Look(workspace, second);
    }
  }

  lemma SettleShows(w: World, workspace: string)
    ensures var effects := SettleEffects(w, workspace);
            && (Shows(effects, Inventoried(workspace, true)) <==> CleanedUp(w, workspace))
            && (Shows(effects, Abandoned(workspace)) <==> Abandons(w, workspace))
            && !ShowsRelease(effects, workspace) && !Shows(effects, Spawned(workspace))
  {
    hide Proven, Strays, Marks, SweepEffects;
    SweepShows(workspace, w.after, w.removes, w.again);
    var swept := SweepEffects(workspace, true, w.after, w.removes, w.again);
    var effects := SettleEffects(w, workspace);
    if Abandons(w, workspace) {
      assert effects == swept + [Abandoned(workspace)];
      assert effects[|swept|] == Abandoned(workspace);
    } else if Marks(w, workspace) {
      assert effects == swept + [Marked(workspace)];
    } else {
      assert effects == swept;
    }
    if Shows(swept, Inventoried(workspace, true)) {
      var i :| 0 <= i < |swept| && swept[i] == Inventoried(workspace, true);
      assert effects[i] == swept[i];
    }
    if Shows(effects, Inventoried(workspace, true)) {
      var i :| 0 <= i < |effects| && effects[i] == Inventoried(workspace, true);
      assert i < |swept| && swept[i] == effects[i];
    }
  }

  /** What the effects after a spawn show, seen from the beginning of the launch. */
  lemma Prefixed(head: seq<Effect>, settled: seq<Effect>, e: Effect)
    requires forall i :: 0 <= i < |head| ==> head[i] != e
    ensures Shows(head + settled, e) <==> Shows(settled, e)
  {
    var effects := head + settled;
    if Shows(settled, e) {
      var i :| 0 <= i < |settled| && settled[i] == e;
      assert effects[|head| + i] == e;
    }
    if Shows(effects, e) {
      var i :| 0 <= i < |effects| && effects[i] == e;
      assert settled[i - |head|] == e;
    }
  }

  lemma CleanPrefixed(head: seq<Effect>, settled: seq<Effect>, workspace: string)
    requires |head| == 3 && head[0] != Spawned(workspace) && head[1] != Spawned(workspace) && head[2] == Spawned(workspace)
    ensures CleanAfterSpawn(head + settled, workspace) <==> Shows(settled, Inventoried(workspace, true))
  {
    var effects, clean := head + settled, Inventoried(workspace, true);
    assert effects[2] == head[2];
    if Shows(settled, clean) {
      var i :| 0 <= i < |settled| && settled[i] == clean;
      assert effects[3 + i] == clean;
    }
    if CleanAfterSpawn(effects, workspace) {
      var i, k :| 0 <= i < k < |effects| && effects[i] == Spawned(workspace) && effects[k] == clean;
      assert effects[0] == head[0] && effects[1] == head[1];
      assert settled[k - 3] == clean;
    }
  }

  lemma ReleasePrefixed(head: seq<Effect>, settled: seq<Effect>, workspace: string)
    requires forall i :: 0 <= i < |head| ==> !head[i].Released?
    requires !ShowsRelease(settled, workspace)
    ensures !ShowsRelease(head + settled, workspace)
  {
  }

  lemma WorkerIs(w: World, workspace: string, markers: set<string>)
    requires Launches(w, workspace, markers)
    ensures WorkerEffects(w, workspace, markers)
            == [Began(workspace), Inventoried(workspace, true), Spawned(workspace)] + SettleEffects(w, workspace)
  {
    hide Free, SettleEffects;
  }

  lemma WorkerShows(w: World, workspace: string, markers: set<string>)
    requires Launches(w, workspace, markers)
    ensures var effects := WorkerEffects(w, workspace, markers);
            && Shows(effects, Spawned(workspace))
            && (CleanAfterSpawn(effects, workspace) <==> CleanedUp(w, workspace))
            && (Shows(effects, Abandoned(workspace)) <==> Abandons(w, workspace))
            && !ShowsRelease(effects, workspace)
  {
    hide Launches, WorkerEffects, CleanedUp, Abandons, SettleEffects, CleanAfterSpawn, ShowsRelease;
    SettleShows(w, workspace);
    WorkerIs(w, workspace, markers);
    var head := [Began(workspace), Inventoried(workspace, true), Spawned(workspace)];
    assert (head + SettleEffects(w, workspace))[2] == Spawned(workspace);
    Prefixed(head, SettleEffects(w, workspace), Abandoned(workspace));
    CleanPrefixed(head, SettleEffects(w, workspace), workspace);
    ReleasePrefixed(head, SettleEffects(w, workspace), workspace);
  }

  /** The release, if any, comes last and changes nothing about what was shown before. */
  lemma RunShows(w: World, workspace: string, markers: set<string>)
    ensures var effects, worked := RunEffects(w, workspace, markers), WorkerEffects(w, workspace, markers);
            && (Shows(effects, Spawned(workspace)) <==> Shows(worked, Spawned(workspace)))
            && (Shows(effects, Abandoned(workspace)) <==> Shows(worked, Abandoned(workspace)))
            && (CleanAfterSpawn(effects, workspace) <==> CleanAfterSpawn(worked, workspace))
    ensures !ShowsRelease(WorkerEffects(w, workspace, markers), workspace) ==>
              var effects := RunEffects(w, workspace, markers);
              && (ShowsRelease(effects, workspace) <==> !Withheld(w, workspace, markers) && w.accepts)
              && forall outcome :: Shows(effects, Released(workspace, outcome))
                   <==> !Withheld(w, workspace, markers) && w.accepts && outcome == OutcomeOf(w, workspace, markers)
  {
    hide WorkerEffects, Withheld, OutcomeOf;
    var effects, worked := RunEffects(w, workspace, markers), WorkerEffects(w, workspace, markers);
    assert worked <= effects && |effects| <= |worked| + 1;
    assert forall i :: 0 <= i < |worked| ==> effects[i] == worked[i];
    assert |effects| == |worked| + 1 ==> effects[|worked|] == Released(workspace, OutcomeOf(w, workspace, markers));
    ShowsMore(worked, effects, Spawned(workspace));
    ShowsMore(worked, effects, Abandoned(workspace));
    CleanMore(worked, effects, workspace);
    if !ShowsRelease(worked, workspace) && (!Withheld(w, workspace, markers) && w.accepts) {
      assert effects[|worked|].Released?;
    }
  }

  lemma ShowsMore(before: seq<Effect>, later: seq<Effect>, e: Effect)
    requires before <= later && |later| <= |before| + 1 && !e.Released?
    requires |later| == |before| + 1 ==> later[|before|].Released?
    ensures Shows(later, e) <==> Shows(before, e)
  {
    if Shows(before, e) {
      var i :| 0 <= i < |before| && before[i] == e;
      assert later[i] == e;
    }
    if Shows(later, e) {
      var i :| 0 <= i < |later| && later[i] == e;
      assert before[i] == e;
    }
  }

  lemma CleanMore(before: seq<Effect>, later: seq<Effect>, workspace: string)
    requires before <= later && |later| <= |before| + 1
    requires |later| == |before| + 1 ==> later[|before|].Released?
    ensures CleanAfterSpawn(later, workspace) <==> CleanAfterSpawn(before, workspace)
  {
    if CleanAfterSpawn(before, workspace) {
      var i, k :| 0 <= i < k < |before| && before[i] == Spawned(workspace) && before[k] == Inventoried(workspace, true);
      assert later[i] == before[i] && later[k] == before[k];
    }
    if CleanAfterSpawn(later, workspace) {
      var i, k :| 0 <= i < k < |later| && later[i] == Spawned(workspace) && later[k] == Inventoried(workspace, true);
      assert before[i] == later[i] && before[k] == later[k];
    }
  }

  // ---- The laws ----

  /** A worker is spawned exactly in an unmarked workspace that passes all checks and that no container mounts. */
  lemma SpawnsExactly(w: World, workspace: string, markers: set<string>)
    ensures Shows(RunEffects(w, workspace, markers), Spawned(workspace)) <==>
              && workspace !in markers && w.pristine == Passed && w.prepared == Passed && w.issued == Passed
              && w.before.Listed? && NoneMounts(w.before.rows, workspace)
  {
    hide Free, RunEffects, WorkerEffects, NoneMounts;
    FreeMeans(w.before, workspace);
    RunShows(w, workspace, markers);
    if Launches(w, workspace, markers) {
      WorkerShows(w, workspace, markers);
    } else {
      BeforeSpawn(w, workspace, markers);
    }
  }

  /** After the spawn the workspace is seen free exactly when the first inventory shows it free, or one after a forced
      removal does; and the cleanup is abandoned exactly when one of the two goes astray. */
  lemma CleansExactly(w: World, workspace: string, markers: set<string>)
    requires Shows(RunEffects(w, workspace, markers), Spawned(workspace))
    ensures CleanAfterSpawn(RunEffects(w, workspace, markers), workspace) <==>
              w.after.Listed?
              && (NoneMounts(w.after.rows, workspace)
                  || (w.removes && w.again.Listed? && NoneMounts(w.again.rows, workspace)))
    ensures Shows(RunEffects(w, workspace, markers), Abandoned(workspace)) <==>
              || w.after.Astray?
              || (w.after.Listed? && !NoneMounts(w.after.rows, workspace) && w.removes && w.again.Astray?)
  {
    hide Free, RunEffects, WorkerEffects, NoneMounts, Launches;
    FreeMeans(w.after, workspace);
    FreeMeans(w.again, workspace);
    RunShows(w, workspace, markers);
    if Launches(w, workspace, markers) {
      WorkerShows(w, workspace, markers);
    } else {
      BeforeSpawn(w, workspace, markers);
    }
  }

  /** The worker was killed for time, failed, or left the workspace without being seen free. */
  ghost predicate WentWrong(w: World, effects: seq<Effect>, workspace: string) {
    || w.spawn.TimedOut?
    || (w.spawn.Exited? && w.spawn.returncode != 0)
    || !CleanAfterSpawn(effects, workspace)
  }

  /** After a spawn that went wrong the workspace is quarantined, or its lease is not released, or the cleanup was
      abandoned; it is quarantined whenever the marker can be written, unless the cleanup was abandoned; and a spawn
      that went well leaves no mark. */
  lemma QuarantineLaw(w: World, workspace: string, markers: set<string>)
    requires Shows(RunEffects(w, workspace, markers), Spawned(workspace))
    ensures var effects, marked := RunEffects(w, workspace, markers), workspace in MarkersAfter(w, workspace, markers);
            && (WentWrong(w, effects, workspace) ==>
                  marked || !ShowsRelease(effects, workspace) || Shows(effects, Abandoned(workspace)))
            && (WentWrong(w, effects, workspace) && w.persists && !Shows(effects, Abandoned(workspace)) ==> marked)
            && (marked ==> WentWrong(w, effects, workspace) && w.persists && !Shows(effects, Abandoned(workspace)))
    ensures MarkersAfter(w, workspace, markers) == markers
            || MarkersAfter(w, workspace, markers) == markers + {workspace}
  {
    hide RunEffects, WorkerEffects, Launches, CleanedUp, Abandons, OutcomeOf;
    RunShows(w, workspace, markers);
    SpawnMeans(w, workspace, markers);
    WorkerShows(w, workspace, markers);
    Unmarked(w, workspace, markers);
  }

  lemma SpawnMeans(w: World, workspace: string, markers: set<string>)
    requires Shows(RunEffects(w, workspace, markers), Spawned(workspace))
    ensures Launches(w, workspace, markers)
  {
    hide RunEffects, WorkerEffects, Launches;
    RunShows(w, workspace, markers);
    if !Launches(w, workspace, markers) {
      BeforeSpawn(w, workspace, markers);
    }
  }

  lemma Unmarked(w: World, workspace: string, markers: set<string>)
    requires Launches(w, workspace, markers)
    ensures workspace !in markers && Reaches(w, workspace, markers) && Free(w.before, workspace)
  {
    hide Free;
  }

  /** The lease is released, if the store accepts it, exactly: after a spawn, when the cleanup was abandoned or the
      worker ended in time, was cleaned up, and, if it failed, was quarantined; without a spawn, unless the inventory
      before it failed or showed a container. The outcome says whether the worker completed. */
  lemma ReleasesExactly(w: World, workspace: string, markers: set<string>)
    ensures var effects := RunEffects(w, workspace, markers);
            ShowsRelease(effects, workspace) <==>
              && w.accepts
              && if Shows(effects, Spawned(workspace))
                 then || Shows(effects, Abandoned(workspace))
                      || (!w.spawn.TimedOut? && CleanAfterSpawn(effects, workspace)
                          && (w.spawn.Exited? && w.spawn.returncode != 0 ==> w.persists))
                 else !(workspace !in markers && w.pristine == Passed && w.prepared == Passed
                        && (w.before.Unavailable? || (w.before.Listed? && !NoneMounts(w.before.rows, workspace))))
  {
    hide RunEffects, WorkerEffects, CleanedUp, Abandons, OutcomeOf, Free, NoneMounts;
    FreeMeans(w.before, workspace);
    RunShows(w, workspace, markers);
    if Launches(w, workspace, markers) {
      WorkerShows(w, workspace, markers);
    } else {
      BeforeSpawn(w, workspace, markers);
    }
  }

  lemma OutcomeExactly(w: World, workspace: string, markers: set<string>)
    ensures var effects := RunEffects(w, workspace, markers);
            && (Shows(effects, Released(workspace, "worker-complete")) <==>
                  && ShowsRelease(effects, workspace) && Shows(effects, Spawned(workspace))
                  && CleanAfterSpawn(effects, workspace) && w.spawn == Exited(0) && w.probe.Read?)
            && (ShowsRelease(effects, workspace) ==>
                  || Shows(effects, Released(workspace, "worker-complete"))
                  || Shows(effects, Released(workspace, "worker-failed")))
  {
    hide RunEffects, WorkerEffects, CleanedUp, Abandons, Launches, Withheld;
    RunShows(w, workspace, markers);
    assert "worker-complete" != "worker-failed" by {
      assert |"worker-complete"| == 15 && |"worker-failed"| == 13;
    }
    if Launches(w, workspace, markers) {
      WorkerShows(w, workspace, markers);
    } else {
      BeforeSpawn(w, workspace, markers);
    }
  }

  /** The launch succeeds exactly when its worker was spawned and ended by itself, failing only if it was quarantined,
      the workspace was seen free afterwards, its head could be read, and the release was accepted. */
  lemma SucceedsExactly(w: World, workspace: string, markers: set<string>)
    ensures var effects := RunEffects(w, workspace, markers);
            (Launches(w, workspace, markers) && Reports(w, workspace) && w.accepts) <==>
              && Shows(effects, Spawned(workspace)) && CleanAfterSpawn(effects, workspace)
              && w.spawn.Exited? && (w.spawn.returncode == 0 || w.persists)
              && w.probe.Read? && w.accepts
  {
    hide RunEffects, WorkerEffects, CleanedUp, Abandons, Launches, Withheld;
    RunShows(w, workspace, markers);
    if Launches(w, workspace, markers) {
      WorkerShows(w, workspace, markers);
    } else {
      BeforeSpawn(w, workspace, markers);
    }
  }

  /** Exactly when an exception other than the launcher's own ends the launch. */
  lemma StraysExactly(w: World, workspace: string, markers: set<string>)
    ensures var effects := RunEffects(w, workspace, markers);
            GoesForeign(w, workspace, markers) <==>
              if Shows(effects, Spawned(workspace))
              then || Shows(effects, Abandoned(workspace))
                   || (CleanAfterSpawn(effects, workspace) && w.spawn.Exited?
                       && (w.spawn.returncode == 0 || w.persists) && w.probe.ProbeRaised?)
              else && workspace !in markers
                   && (w.pristine == Raised
                       || (w.pristine == Passed
                           && (w.prepared == Raised
                               || (w.prepared == Passed
                                   && (w.before.Astray?
                                       || (w.before.Listed? && NoneMounts(w.before.rows, workspace)
                                           && w.issued == Raised))))))
  {
    hide RunEffects, WorkerEffects, CleanedUp, Abandons, Free, NoneMounts;
    FreeMeans(w.before, workspace);
    RunShows(w, workspace, markers);
    if Launches(w, workspace, markers) {
      WorkerShows(w, workspace, markers);
    } else {
      BeforeSpawn(w, workspace, markers);
    }
  }
}
