/** The event log of the store replays to its tables, keeps custody of heads, and accounts for every reservation
    (store.py). */
module EventLog {
  import opened Common
  import opened Authority
  import opened Tables

  datatype LeaseView = LeaseView(worktree: string, ownerRun: string, epoch: nat, head: string, released: bool)

  datatype TaskView = TaskView(status: string, revision: nat, spent: real, resultHead: Option<string>,
                               lease: Option<LeaseView>)

  /** What one event of a task does to what is known of the task. */
  function Replayed(v: Option<TaskView>, e: Event): Option<TaskView> {
    match e.what
    case Created => Some(TaskView("queued", 1, 0.0, None, None))
    case Claimed(epoch, worktree, head, reserved) =>
      if v.None? then None
      else Some(v.value.(status := "running", revision := v.value.revision + 1, spent := v.value.spent + reserved,
                         lease := Some(LeaseView(worktree, e.runId, epoch, head, false))))
    case Heartbeaten(epoch, head) =>
      if v.None? || v.value.lease.None? then v
      else Some(v.value.(lease := Some(v.value.lease.value.(head := head))))
    case Released(epoch, outcome, head) =>
      if v.None? || v.value.lease.None? then v
      else Some(v.value.(status := outcome, revision := v.value.revision + 1, resultHead := Some(head),
                         lease := Some(v.value.lease.value.(head := head, released := true))))
  }

  /** A task as its own events alone tell it. */
  function Replay(events: seq<Event>, id: string): Option<TaskView> {
    if events == [] then None
    else
      var before, e := Replay(events[..|events| - 1], id), events[|events| - 1];
      if e.taskId == id then Replayed(before, e) else before
  }

  /** A task as the tables have it. */
  function View(db: Database, id: string): Option<TaskView> {
    if id !in db.tasks then None
    else
      var t := db.tasks[id];
      Some(TaskView(t.status, t.revision, t.spent, t.resultHead,
                    if id in db.leases
                    then var l := db.leases[id]; Some(LeaseView(l.worktree, l.ownerRun, l.epoch, l.head, l.released))
                    else None))
  }

  /** The head recorded by the last lease event of a task. */
  function LastHead(events: seq<Event>, id: string): Option<string> {
    if events == [] then None
    else
      var e := events[|events| - 1];
      if e.taskId == id && !e.what.Created? then Some(e.what.head) else LastHead(events[..|events| - 1], id)
  }

  /** The sum of all reservations ever granted to a task. */
  function TotalReserved(events: seq<Event>, id: string): real {
    if events == [] then 0.0
    else
      var e := events[|events| - 1];
      TotalReserved(events[..|events| - 1], id) + if e.taskId == id && e.what.Claimed? then e.what.reserved else 0.0
  }

  ghost predicate Replays(db: Database) {
    forall id :: Replay(db.events, id) == View(db, id)
  }

  ghost predicate Versioned(db: Database) {
    forall i :: 0 <= i < |db.events| ==> db.events[i].version == i + 1
  }

  ghost predicate HeadsRecorded(db: Database) {
    forall id :: LastHead(db.events, id) == if id in db.leases then Some(db.leases[id].head) else None
  }

  /** Every claim took over the head last recorded for its task, the base for a first claim; a recorded empty
      head lets any head in. */
  ghost predicate Custody(db: Database) {
    forall i :: 0 <= i < |db.events| && db.events[i].what.Claimed? ==> CustodyAt(db, i)
  }

  ghost predicate CustodyAt(db: Database, i: nat)
    requires i < |db.events| && db.events[i].what.Claimed?
  {
    var e := db.events[i];
    var prior := LastHead(db.events[..i], e.taskId);
    && e.taskId in db.tasks
    && if prior.Some? then prior.value == "" || e.what.head == prior.value
       else e.what.head == db.tasks[e.taskId].baseSha
  }

  function Cap(allotted: Amount): real {
    if IsMoney(allotted) then allotted.value else 0.0
  }

  /** The charge on a task is the sum of its reservations and stays within its budget. */
  ghost predicate Budgeted(db: Database) {
    forall id :: id in db.tasks ==>
      db.tasks[id].spent == TotalReserved(db.events, id) && 0.0 <= db.tasks[id].spent <= Cap(db.tasks[id].allotted)
  }

  /** A run id appears in at most one claim, and then as a run of the claiming task; no reservation is negative. */
  ghost predicate ClaimsDistinct(db: Database) {
    && (forall i :: 0 <= i < |db.events| && db.events[i].what.Claimed? ==>
          && db.events[i].runId in db.runs && db.runs[db.events[i].runId].taskId == db.events[i].taskId
          && db.events[i].what.reserved >= 0.0)
    && (forall i, j :: 0 <= i < j < |db.events| && db.events[i].what.Claimed? && db.events[j].what.Claimed? ==>
          db.events[i].runId != db.events[j].runId)
  }

  // ---- One transaction ----

  lemma Appended(events: seq<Event>, e: Event, id: string)
    ensures (events + [e])[..|events|] == events && (events + [e])[|events|] == e
    ensures Replay(events + [e], id)
            == if e.taskId == id then Replayed(Replay(events, id), e) else Replay(events, id)
    ensures LastHead(events + [e], id)
            == if e.taskId == id && !e.what.Created? then Some(e.what.head) else LastHead(events, id)
    ensures TotalReserved(events + [e], id)
            == TotalReserved(events, id) + if e.taskId == id && e.what.Claimed? then e.what.reserved else 0.0
  {
    assert (events + [e])[..|events|] == events;
  }

  /** The event a committed request appends. */
  lemma OneEvent(db: Database, op: Op) returns (e: Event)
    requires Commits(db, op)
    ensures Committed(db, op).events == db.events + [e]
    ensures e.taskId == op.taskId && e.version == |db.events| + 1
    ensures e.what.Created? <==> op.Create?
    ensures op.Claim? ==> e.runId == op.runId && op.taskId in db.tasks
                          && e.what == Claimed(NextEpoch(db, op.taskId), op.worktree, op.head, op.budget.value)
    ensures op.Beat? ==> e.runId == op.runId && op.taskId in db.leases
                         && e.what == Heartbeaten(db.leases[op.taskId].epoch,
                                                  HeadOr(op.newHead, db.leases[op.taskId].head))
    ensures op.Release? ==> e.runId == op.runId && op.taskId in db.leases
                            && e.what == Released(db.leases[op.taskId].epoch, op.outcome,
                                                  HeadOr(op.newHead, db.leases[op.taskId].head))
  {
    hide ValidScope, CollidesLive, RepositoryIdentity, GitObjectId;
    e := Committed(db, op).events[|db.events|];
  }

  // What each transaction does to the view of a task is what its event does to it.

  lemma ViewCreate(db: Database, id: string, task: Task, x: string)
    requires id !in db.tasks && id !in db.leases
    requires task.status == "queued" && task.revision == 1 && task.spent == 0.0 && task.resultHead == None
    ensures View(AfterCreate(db, id, task), x)
            == if x == id then Some(TaskView("queued", 1, 0.0, None, None)) else View(db, x)
  {
  }

  lemma ViewClaim(db: Database, id: string, run: string, worktree: string, head: string, expiry: real,
                  runtime: string, attempt: nat, reserved: real, x: string)
    requires id in db.tasks
    ensures View(AfterClaim(db, id, run, worktree, head, expiry, runtime, attempt, reserved), x)
            == if x == id then Replayed(View(db, id), Event(id, run, Claimed(NextEpoch(db, id), worktree, head, reserved), 0))
               else View(db, x)
  {
  }

  lemma ViewBeat(db: Database, id: string, run: string, expiry: real, head: string, x: string)
    requires id in db.tasks && id in db.leases
    ensures View(AfterBeat(db, id, run, expiry, head), x)
            == if x == id then Replayed(View(db, id), Event(id, run, Heartbeaten(db.leases[id].epoch, head), 0))
               else View(db, x)
  {
  }

  lemma ViewRelease(db: Database, id: string, run: string, head: string, outcome: string, x: string)
    requires id in db.tasks && id in db.leases && run in db.runs
    ensures View(AfterRelease(db, id, run, head, outcome), x)
            == if x == id then Replayed(View(db, id), Event(id, run, Released(db.leases[id].epoch, outcome, head), 0))
               else View(db, x)
  {
  }

  lemma ViewCreateStep(db: Database, op: Op, e: Event, x: string)
    requires op.Create? && Commits(db, op) && TablesOk(db)
    requires Committed(db, op).events == db.events + [e]
    ensures View(Committed(db, op), x) == if x == op.taskId then Replayed(View(db, x), e) else View(db, x)
  {
    hide View, Replayed, ValidScope, CollidesLive, RepositoryIdentity, GitObjectId, TaskOk, BudgetAllows;
    var f := OneEvent(db, op);
    assert e == Committed(db, op).events[|db.events|] == f;
    var id := op.taskId;
    assert id in db.leases ==> id in db.tasks;
    hide TablesOk;
    ViewCreate(db, id, Committed(db, op).tasks[id], x);
    CreatedReplayed(View(db, x), e);
  }

  lemma ViewClaimStep(db: Database, op: Op, e: Event, x: string)
    requires op.Claim? && Commits(db, op) && TablesOk(db)
    requires Committed(db, op).events == db.events + [e]
    ensures View(Committed(db, op), x) == if x == op.taskId then Replayed(View(db, x), e) else View(db, x)
  {
    hide View, Replayed, ValidScope, CollidesLive, RepositoryIdentity, GitObjectId, TaskOk, AfterClaim, HeadOr;
    var f := OneEvent(db, op);
    assert e == Committed(db, op).events[|db.events|] == f;
    var id := op.taskId;
    assert id in db.leases ==> id in db.tasks;
    hide TablesOk;
    ViewClaim(db, id, op.runId, op.worktree, op.head, op.now + op.ttl.value, op.runtime,
              TopAttempt(db.runs, id) + 1, op.budget.value, x);
    SameReplayed(View(db, id), Event(id, op.runId, e.what, 0), e);
  }

  lemma ViewBeatStep(db: Database, op: Op, e: Event, x: string)
    requires op.Beat? && Commits(db, op) && TablesOk(db)
    requires Committed(db, op).events == db.events + [e]
    ensures View(Committed(db, op), x) == if x == op.taskId then Replayed(View(db, x), e) else View(db, x)
  {
    hide View, Replayed, ValidScope, CollidesLive, RepositoryIdentity, GitObjectId, TaskOk, BudgetAllows, AfterBeat, HeadOr;
    var f := OneEvent(db, op);
    assert e == Committed(db, op).events[|db.events|] == f;
    var id := op.taskId;
    assert id in db.leases ==> id in db.tasks;
    hide TablesOk;
    ViewBeat(db, id, op.runId, op.now + op.ttl.value, HeadOr(op.newHead, db.leases[id].head), x);
    SameReplayed(View(db, id), Event(id, op.runId, e.what, 0), e);
  }

  lemma ViewReleaseStep(db: Database, op: Op, e: Event, x: string)
    requires op.Release? && Commits(db, op) && TablesOk(db)
    requires Committed(db, op).events == db.events + [e]
    ensures View(Committed(db, op), x) == if x == op.taskId then Replayed(View(db, x), e) else View(db, x)
  {
    hide View, Replayed, ValidScope, CollidesLive, RepositoryIdentity, GitObjectId, TaskOk, BudgetAllows, AfterRelease, HeadOr;
    var f := OneEvent(db, op);
    assert e == Committed(db, op).events[|db.events|] == f;
    var id := op.taskId;
    assert id in db.leases ==> id in db.tasks;
    hide TablesOk;
    ViewRelease(db, id, op.runId, HeadOr(op.newHead, db.leases[id].head), op.outcome, x);
    SameReplayed(View(db, id), Event(id, op.runId, e.what, 0), e);
  }

  lemma ViewStep(db: Database, op: Op, e: Event, x: string)
    requires Commits(db, op) && TablesOk(db)
    requires Committed(db, op).events == db.events + [e]
    ensures View(Committed(db, op), x) == if x == op.taskId then Replayed(View(db, x), e) else View(db, x)
  {
    hide View, Replayed, Commits, Committed, TablesOk;
    if op.Create? { ViewCreateStep(db, op, e, x); }
    if op.Claim? { ViewClaimStep(db, op, e, x); }
    if op.Beat? { ViewBeatStep(db, op, e, x); }
    if op.Release? { ViewReleaseStep(db, op, e, x); }
  }

  lemma CreatedReplayed(v: Option<TaskView>, e: Event)
    requires e.what.Created?
    ensures Replayed(v, e) == Some(TaskView("queued", 1, 0.0, None, None))
  {
  }

  /** Versions do not matter to the replay. */
  lemma SameReplayed(v: Option<TaskView>, d: Event, e: Event)
    requires d.what == e.what && d.runId == e.runId
    ensures Replayed(v, d) == Replayed(v, e)
  {
  }

  lemma ReplayKept(db: Database, op: Op, id: string)
    requires Commits(db, op) && TablesOk(db)
    requires Replay(db.events, id) == View(db, id)
    ensures Replay(Committed(db, op).events, id) == View(Committed(db, op), id)
  {
    hide Replay, View, Replayed, Commits, Committed, TablesOk;
    var e := OneEvent(db, op);
    Appended(db.events, e, id);
    ViewStep(db, op, e, id);
  }

  lemma HeadsKept(db: Database, op: Op)
    requires Commits(db, op) && TablesOk(db) && HeadsRecorded(db)
    ensures HeadsRecorded(Committed(db, op))
  {
    hide ValidScope, CollidesLive, RepositoryIdentity, GitObjectId, TaskOk, BudgetAllows;
    var e := OneEvent(db, op);
    var db' := Committed(db, op);
    forall id ensures LastHead(db'.events, id) == if id in db'.leases then Some(db'.leases[id].head) else None {
      Appended(db.events, e, id);
    }
  }

  lemma CustodyKept(db: Database, op: Op)
    requires Commits(db, op) && TablesOk(db) && HeadsRecorded(db) && Custody(db)
    ensures Custody(Committed(db, op))
  {
    hide ValidScope, CollidesLive, RepositoryIdentity, GitObjectId, TaskOk, BudgetAllows, HeadsRecorded, TopAttempt, IsTopAttempt,
         WorktreeIdentity, LastHead;
    var e := OneEvent(db, op);
    var db' := Committed(db, op);
    forall i | 0 <= i < |db'.events| && db'.events[i].what.Claimed? ensures CustodyAt(db', i) {
      if i < |db.events| {
        assert db'.events[i] == db.events[i] && db'.events[..i] == db.events[..i];
        assert CustodyAt(db, i);
      } else {
        assert db'.events[..i] == db.events;
        NewCustody(db, op);
      }
    }
  }

  lemma NewCustody(db: Database, op: Op)
    requires op.Claim? && Commits(db, op) && TablesOk(db) && HeadsRecorded(db)
    ensures var prior := LastHead(db.events, op.taskId);
            if prior.Some? then prior.value == "" || op.head == prior.value
            else op.head == db.tasks[op.taskId].baseSha
  {
    hide ValidScope, CollidesLive, RepositoryIdentity, BudgetAllows;
    assert LastHead(db.events, op.taskId)
           == if op.taskId in db.leases then Some(db.leases[op.taskId].head) else None;
    assert TaskOk(db.tasks[op.taskId]);
  }

  lemma BudgetKept(db: Database, op: Op, id: string)
    requires Commits(db, op) && TablesOk(db)
    requires id in db.tasks ==> db.tasks[id].spent == TotalReserved(db.events, id)
                                && 0.0 <= db.tasks[id].spent <= Cap(db.tasks[id].allotted)
    requires id !in db.tasks ==> TotalReserved(db.events, id) == 0.0
    ensures var db' := Committed(db, op);
            if id in db'.tasks
            then db'.tasks[id].spent == TotalReserved(db'.events, id)
                 && 0.0 <= db'.tasks[id].spent <= Cap(db'.tasks[id].allotted)
            else TotalReserved(db'.events, id) == 0.0
  {
    hide ValidScope, CollidesLive, RepositoryIdentity, GitObjectId, TaskOk;
    var e := OneEvent(db, op);
    Appended(db.events, e, id);
  }

  ghost predicate Accounted(db: Database) {
    && Budgeted(db)
    && forall id :: id !in db.tasks ==> TotalReserved(db.events, id) == 0.0
  }

  lemma ClaimsKept(db: Database, op: Op)
    requires Commits(db, op) && ClaimsDistinct(db)
    ensures ClaimsDistinct(Committed(db, op))
  {
    hide ValidScope, CollidesLive, RepositoryIdentity, GitObjectId, TopAttempt;
    var e := OneEvent(db, op);
  }

  ghost predicate LogOk(db: Database) {
    Replays(db) && Versioned(db) && HeadsRecorded(db) && Custody(db) && Accounted(db) && ClaimsDistinct(db)
  }

  /** Every transaction keeps the log and the tables telling the same story. */
  lemma LogKept(db: Database, op: Op)
    requires TablesOk(db) && LogOk(db)
    ensures LogOk(Step(db, op))
  {
    hide Committed, TablesOk, HeadsRecorded, Custody, ClaimsDistinct, Cap, View, Commits;
    if Commits(db, op) {
      var db' := Committed(db, op);
      var e := OneEvent(db, op);
      forall id ensures Replay(db'.events, id) == View(db', id) {
        ReplayKept(db, op, id);
      }
      forall id
        ensures id in db'.tasks ==> db'.tasks[id].spent == TotalReserved(db'.events, id)
                                    && 0.0 <= db'.tasks[id].spent <= Cap(db'.tasks[id].allotted)
        ensures id !in db'.tasks ==> TotalReserved(db'.events, id) == 0.0
      {
        BudgetKept(db, op, id);
      }
      HeadsKept(db, op);
      CustodyKept(db, op);
      ClaimsKept(db, op);
    }
  }
}
