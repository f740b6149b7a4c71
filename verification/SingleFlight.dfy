/** Single-flight execution of keyed requests (`ForgeBossDaemon._idem`, daemon.py), as the interleaving of its lock
    regions by any number of calls. A call is named by a number; a request digest stands for method and parameters. */
module SingleFlight {
  import opened Common
  import opened Ordering

  type Key = nat
  type CallId = nat
  type Digest = nat

  datatype Outcome = Returned(value: int) | Raised(error: int)

  /** A table entry; it is done once it holds an outcome. */
  datatype Entry = Entry(digest: Digest, owner: CallId, outcome: Option<Outcome>, at: real)

  type Table = map<Key, Entry>

  const TABLE_LIMIT := 2000
  const EVICTED := 500

  datatype Answer =
    | Own(outcome: Outcome)                    // the call ran the request itself
    | Shared(outcome: Outcome, from: CallId)   // answered from the entry of another call
    | Conflict                                 // IDEMPOTENCY_CONFLICT
    | Disappeared                              // IDEMPOTENCY_STATE_INVALID
    | Unfinished                               // the entry read after waiting is pending: no "result" in it

  // ---- The lock regions on the table ----

  datatype Admission = Owner | Wait(on: CallId) | Now(answer: Answer)

  function Admit(table: Table, key: Key, digest: Digest): Admission {
    if key !in table then Owner
    else if table[key].digest != digest then Now(Conflict)
    else if table[key].outcome.Some? then Now(Shared(table[key].outcome.value, table[key].owner))
    else Wait(table[key].owner)
  }

  function Entered(table: Table, c: CallId, key: Key, digest: Digest, at: real): Table {
    if key in table then table else table[key := Entry(digest, c, None, at)]
  }

  /** What a waiter reads once the event it waited for is set. */
  function Collected(table: Table, key: Key, digest: Digest): Answer {
    if key !in table || table[key].digest != digest then Disappeared
    else if table[key].outcome.None? then Unfinished
    else Shared(table[key].outcome.value, table[key].owner)
  }

  function Settled(table: Table, key: Key, outcome: Outcome, at: real): Table
    requires key in table
  {
    table[key := table[key].(outcome := Some(outcome), at := at)]
  }

  function Done(table: Table): set<Key> {
    set k | k in table && table[k].outcome.Some?
  }

  /** The entries a full table drops: the oldest finished ones, at most `EVICTED` of them. */
  ghost predicate Evicts(table: Table, gone: set<Key>) {
    if |table| <= TABLE_LIMIT then gone == {}
    else && gone <= Done(table)
         && |gone| == (if |Done(table)| < EVICTED then |Done(table)| else EVICTED)
         && forall k, d :: k in gone && d in Done(table) - gone ==> table[k].at <= table[d].at
  }

  // ---- The protocol ----

  datatype Call =
    | Running(key: Key, digest: Digest)
    | Waiting(key: Key, digest: Digest, on: CallId)
    | Answered(key: Key, digest: Digest, answer: Answer)

  datatype State = State(table: Table, calls: map<CallId, Call>)

  datatype Act =
    | Enter(c: CallId, key: Key, digest: Digest, at: real)
    | Finish(c: CallId, outcome: Outcome, at: real, gone: set<Key>)
    | Wake(c: CallId)

  ghost predicate Enabled(s: State, a: Act) {
    match a
    case Enter(c, _, _, _) => c !in s.calls
    case Finish(c, outcome, at, gone) =>
      && c in s.calls && s.calls[c].Running?
      && s.calls[c].key in s.table   // `self.idempotency[key]` raises KeyError otherwise
      && if outcome.Returned? then Evicts(Settled(s.table, s.calls[c].key, outcome, at), gone) else gone == {}
    case Wake(c) =>
      // the event belongs to the entry the waiter found, so it is set when the owner of that entry finishes
      c in s.calls && s.calls[c].Waiting? && s.calls[c].on in s.calls && s.calls[s.calls[c].on].Answered?
  }

  ghost function Do(s: State, a: Act): State
    requires Enabled(s, a)
  {
    match a
    case Enter(c, key, digest, at) =>
      State(Entered(s.table, c, key, digest, at),
            s.calls[c := match Admit(s.table, key, digest)
                         case Owner => Running(key, digest)
                         case Wait(on) => Waiting(key, digest, on)
                         case Now(answer) => Answered(key, digest, answer)])
    case Finish(c, outcome, at, gone) =>
      var Running(key, digest) := s.calls[c];
      State(Settled(s.table, key, outcome, at) - gone, s.calls[c := Answered(key, digest, Own(outcome))])
    case Wake(c) =>
      var Waiting(key, digest, _) := s.calls[c];
      s.(calls := s.calls[c := Answered(key, digest, Collected(s.table, key, digest))])
  }

  const START := State(map[], map[])

  /** `ss` is an interleaving: it starts empty and each state follows from the one before by one region. */
  ghost predicate Interleaving(ss: seq<State>, acts: seq<Act>) {
    && |ss| == |acts| + 1 && ss[0] == START
    && forall i :: 0 <= i < |acts| ==> Follows(ss[i], acts[i], ss[i + 1])
  }

  ghost predicate Follows(s: State, a: Act, s': State) {
    Enabled(s, a) && s' == Do(s, a)
  }

  /** The call executed this request and this came of it. */
  ghost predicate Executed(s: State, c: CallId, key: Key, digest: Digest, outcome: Outcome) {
    c in s.calls && s.calls[c] == Answered(key, digest, Own(outcome))
  }

  ghost predicate TableOk(s: State) {
    forall k :: k in s.table ==>
      if s.table[k].outcome.None?
      then s.table[k].owner in s.calls && s.calls[s.table[k].owner] == Running(k, s.table[k].digest)
      else Executed(s, s.table[k].owner, k, s.table[k].digest, s.table[k].outcome.value)
  }

  ghost predicate CallOk(s: State, c: CallId)
    requires c in s.calls
  {
    match s.calls[c]
    case Running(key, digest) =>
      key in s.table && s.table[key].owner == c && s.table[key].digest == digest && s.table[key].outcome == None
    case Waiting(key, digest, on) =>
      on in s.calls && (s.calls[on] == Running(key, digest)
                        || (s.calls[on].Answered? && s.calls[on].answer.Own?
                            && s.calls[on].key == key && s.calls[on].digest == digest))
    case Answered(key, digest, answer) =>
      answer.Shared? ==> Executed(s, answer.from, key, digest, answer.outcome)
  }

  ghost predicate Inv(s: State) {
    TableOk(s) && forall c :: c in s.calls ==> CallOk(s, c)
  }

  lemma EnterKeeps(s: State, a: Act)
    requires Inv(s) && Enabled(s, a) && a.Enter?
    ensures Inv(Do(s, a))
  {
    var s' := Do(s, a);
    forall c | c in s'.calls ensures CallOk(s', c) {
      assert c in s.calls ==> CallOk(s, c);
    }
  }

  lemma FinishKeeps(s: State, a: Act)
    requires Inv(s) && Enabled(s, a) && a.Finish?
    ensures Inv(Do(s, a))
  {
    var s' := Do(s, a);
    var key := s.calls[a.c].key;
    assert CallOk(s, a.c);
    forall c | c in s'.calls ensures CallOk(s', c) {
      assert CallOk(s, c);
      assert s'.calls[c].Running? ==> s'.calls[c].key !in a.gone;
    }
  }

  lemma WakeKeeps(s: State, a: Act)
    requires Inv(s) && Enabled(s, a) && a.Wake?
    ensures Inv(Do(s, a))
  {
    var s' := Do(s, a);
    forall c | c in s'.calls ensures CallOk(s', c) {
      assert CallOk(s, c);
    }
  }

  lemma {:induction false} InterleavingKeeps(ss: seq<State>, acts: seq<Act>, n: nat)
    requires Interleaving(ss, acts) && n < |ss|
    ensures Inv(ss[n])
  {
    if n > 0 {
      InterleavingKeeps(ss, acts, n - 1);
      assert Follows(ss[n - 1], acts[n - 1], ss[n]);
      hide Inv, Do;
      match acts[n - 1]
      case Enter(_, _, _, _) => EnterKeeps(ss[n - 1], acts[n - 1]);
      case Finish(_, _, _, _) => FinishKeeps(ss[n - 1], acts[n - 1]);
      case Wake(_) => WakeKeeps(ss[n - 1], acts[n - 1]);
    }
  }

  // ---- What every interleaving guarantees ----

  /** Two executions under one key never overlap, and the running one owns a pending entry. */
  lemma NoOverlap(ss: seq<State>, acts: seq<Act>, n: nat, c: CallId, d: CallId)
    requires Interleaving(ss, acts) && n < |ss|
    requires c in ss[n].calls && d in ss[n].calls && ss[n].calls[c].Running? && ss[n].calls[d].Running?
    requires ss[n].calls[c].key == ss[n].calls[d].key
    ensures c == d
    ensures ss[n].calls[c].key in ss[n].table && ss[n].table[ss[n].calls[c].key].outcome.None?
  {
    InterleavingKeeps(ss, acts, n);
    assert CallOk(ss[n], c) && CallOk(ss[n], d);
  }

  /** A pending entry is left alone by every step but the end of its own execution, which finds it still there. */
  lemma PendingNeverEvicted(ss: seq<State>, acts: seq<Act>, n: nat, k: Key)
    requires Interleaving(ss, acts) && n < |acts|
    requires k in ss[n].table && ss[n].table[k].outcome.None?
    requires !(acts[n].Finish? && acts[n].c == ss[n].table[k].owner)
    ensures k in ss[n + 1].table && ss[n + 1].table[k] == ss[n].table[k]
  {
    InterleavingKeeps(ss, acts, n);
    assert Follows(ss[n], acts[n], ss[n + 1]);
    if acts[n].Finish? {
      assert CallOk(ss[n], acts[n].c);
    }
  }

  /** A call answered from an entry was given the outcome of an execution of the very same request. */
  lemma SharedAnswersAreExecutions(ss: seq<State>, acts: seq<Act>, n: nat, c: CallId)
    requires Interleaving(ss, acts) && n < |ss|
    requires c in ss[n].calls && ss[n].calls[c].Answered? && ss[n].calls[c].answer.Shared?
    ensures var Answered(key, digest, Shared(outcome, from)) := ss[n].calls[c];
            Executed(ss[n], from, key, digest, outcome)
  {
    InterleavingKeeps(ss, acts, n);
    assert CallOk(ss[n], c);
  }

  /** What becomes of a call: it runs the request itself exactly when the key is free, conflicts exactly when the key
      stands for a different request, and otherwise shares the outcome of the entry or waits for its owner. Only a
      call that runs enters the table. */
  lemma ConflictExactly(ss: seq<State>, acts: seq<Act>, n: nat)
    requires Interleaving(ss, acts) && n < |acts| && acts[n].Enter?
    ensures var Enter(c, key, digest, at) := acts[n];
            var table := ss[n].table;
            && c !in ss[n].calls && c in ss[n + 1].calls
            && ss[n + 1].calls[c] == (if key !in table then Running(key, digest)
                                      else if table[key].digest != digest then Answered(key, digest, Conflict)
                                      else if table[key].outcome == None then Waiting(key, digest, table[key].owner)
                                      else Answered(key, digest, Shared(table[key].outcome.value, table[key].owner)))
            && ss[n + 1].table == (if key in table then table else table[key := Entry(digest, c, None, at)])
  {
    assert Follows(ss[n], acts[n], ss[n + 1]);
  }

  /** The keys with an outcome once the execution under `key` has ended. */
  ghost function Finished(table: Table, key: Key): set<Key> {
    set k | k in table && (k == key || table[k].outcome != None)
  }

  /** When that was. */
  function FinishedAt(table: Table, key: Key, at: real, k: Key): real
    requires k in table
  {
    if k == key then at else table[k].at
  }

  /** What the end of an execution does to the table: its entry gets the outcome, and if the request returned and the
      table has more than 2000 entries, the 500 oldest finished entries go, or all there are; no other entry changes. */
  lemma FinishExactly(ss: seq<State>, acts: seq<Act>, n: nat)
    requires Interleaving(ss, acts) && n < |acts| && acts[n].Finish?
    ensures acts[n].c in ss[n].calls && ss[n].calls[acts[n].c].Running? && acts[n].c in ss[n + 1].calls
    ensures var Running(key, digest) := ss[n].calls[acts[n].c];
            ss[n + 1].calls[acts[n].c] == Answered(key, digest, Own(acts[n].outcome))
    ensures var key, before, after := ss[n].calls[acts[n].c].key, ss[n].table, ss[n + 1].table;
            var finished, gone := Finished(before, key), before.Keys - after.Keys;
            && key in before && after.Keys <= before.Keys && gone <= finished
            && |gone| == (if acts[n].outcome.Raised? || |before| <= 2000 then 0
                          else if |finished| < 500 then |finished| else 500)
            && (forall k, d :: k in gone && d in finished - gone ==>
                  FinishedAt(before, key, acts[n].at, k) <= FinishedAt(before, key, acts[n].at, d))
            && (forall k :: k in after ==> after[k] == if k == key
                then Entry(before[key].digest, before[key].owner, Some(acts[n].outcome), acts[n].at) else before[k])
  {
    assert Follows(ss[n], acts[n], ss[n + 1]);
    FinishStep(ss[n], acts[n]);
  }

  lemma FinishStep(s: State, a: Act)
    requires Enabled(s, a) && a.Finish?
    ensures var key, before, after := s.calls[a.c].key, s.table, Do(s, a).table;
            var gone := before.Keys - after.Keys;
            && key in before && after.Keys <= before.Keys && gone <= Finished(before, key)
            && (a.outcome.Raised? || |before| <= 2000 ==> gone == {})
            && (a.outcome.Returned? && |before| > 2000 ==>
                  && |gone| == (if |Finished(before, key)| < 500 then |Finished(before, key)| else 500)
                  && (forall k, d :: k in gone && d in Finished(before, key) - gone ==>
                        FinishedAt(before, key, a.at, k) <= FinishedAt(before, key, a.at, d)))
  {
    var key := s.calls[a.c].key;
    var settled := Settled(s.table, key, a.outcome, a.at);
    assert settled.Keys == s.table.Keys;
    assert |settled| == |settled.Keys| && |s.table| == |s.table.Keys|;
    assert Done(settled) == Finished(s.table, key);
    assert s.table.Keys - Do(s, a).table.Keys == s.table.Keys * a.gone;
    assert a.gone <= s.table.Keys ==> s.table.Keys * a.gone == a.gone;
  }

  /** An answer is final. */
  lemma {:induction false} AnsweredForGood(ss: seq<State>, acts: seq<Act>, n: nat, m: nat, c: CallId)
    requires Interleaving(ss, acts) && n <= m < |ss|
    requires c in ss[n].calls && ss[n].calls[c].Answered?
    ensures c in ss[m].calls && ss[m].calls[c] == ss[n].calls[c]
    decreases m
  {
    if n < m {
      AnsweredForGood(ss, acts, n, m - 1, c);
      assert Follows(ss[m - 1], acts[m - 1], ss[m]);
    }
  }

  /** A call that reuses a key for another request leaves the table as it is and is never executed, at no later
      moment; and the request of the entry it met is the one that is being executed or has been. */
  lemma ConflictHarmless(ss: seq<State>, acts: seq<Act>, n: nat, m: nat)
    requires Interleaving(ss, acts) && n < m < |ss| && acts[n].Enter?
    requires acts[n].key in ss[n].table && ss[n].table[acts[n].key].digest != acts[n].digest
    ensures ss[n + 1].table == ss[n].table
    ensures acts[n].c in ss[m].calls && ss[m].calls[acts[n].c] == Answered(acts[n].key, acts[n].digest, Conflict)
    ensures var entry := ss[n].table[acts[n].key];
            if entry.outcome.Some? then Executed(ss[m], entry.owner, acts[n].key, entry.digest, entry.outcome.value)
            else entry.owner in ss[n].calls && ss[n].calls[entry.owner] == Running(acts[n].key, entry.digest)
  {
    InterleavingKeeps(ss, acts, n);
    assert Follows(ss[n], acts[n], ss[n + 1]);
    AnsweredForGood(ss, acts, n + 1, m, acts[n].c);
    var entry := ss[n].table[acts[n].key];
    if entry.outcome.Some? {
      AnsweredForGood(ss, acts, n, m, entry.owner);
    }
  }

  // ---- What a waiter gets ----

  /** On waking, a waiter gets the outcome of the execution it waited for exactly when the entry it finds is still
      that of the execution. */
  lemma WaiterGetsAwaited(ss: seq<State>, acts: seq<Act>, n: nat)
    requires Interleaving(ss, acts) && n < |acts| && acts[n].Wake?
    ensures acts[n].c in ss[n].calls && ss[n].calls[acts[n].c].Waiting? && acts[n].c in ss[n + 1].calls
    ensures var Waiting(key, digest, on) := ss[n].calls[acts[n].c];
            && on in ss[n].calls && ss[n].calls[on].Answered? && ss[n].calls[on].answer.Own?
            && (ss[n + 1].calls[acts[n].c] == Answered(key, digest, Shared(ss[n].calls[on].answer.outcome, on))
                <==> key in ss[n].table && ss[n].table[key].owner == on)
  {
    InterleavingKeeps(ss, acts, n);
    assert Follows(ss[n], acts[n], ss[n + 1]);
    assert CallOk(ss[n], acts[n].c);
  }

  /** What a waiter reads on waking: nothing when its key is gone or stands for another request, an error when the
      entry has no outcome yet, else the outcome in it. The table stays as it is. */
  lemma WakeExactly(ss: seq<State>, acts: seq<Act>, n: nat)
    requires Interleaving(ss, acts) && n < |acts| && acts[n].Wake?
    ensures acts[n].c in ss[n].calls && ss[n].calls[acts[n].c].Waiting? && acts[n].c in ss[n + 1].calls
    ensures var Waiting(key, digest, _) := ss[n].calls[acts[n].c];
            var table := ss[n].table;
            && ss[n + 1].table == table
            && ss[n + 1].calls[acts[n].c] == Answered(key, digest,
                 if key !in table || table[key].digest != digest then Disappeared
                 else if table[key].outcome == None then Unfinished
                 else Shared(table[key].outcome.value, table[key].owner))
  {
    assert Follows(ss[n], acts[n], ss[n + 1]);
  }

  /** Some step from `m` on and before `n` evicted the entry of the key. */
  ghost predicate Evicted(acts: seq<Act>, m: nat, n: nat, k: Key)
    requires n <= |acts|
  {
    exists i :: m <= i < n && acts[i].Finish? && k in acts[i].gone
  }

  /** The execution a waiter waits for came to its end at some earlier step. */
  lemma {:induction false} EndedBefore(ss: seq<State>, acts: seq<Act>, n: nat, on: CallId) returns (m: nat)
    requires Interleaving(ss, acts) && n < |ss|
    requires on in ss[n].calls && ss[n].calls[on].Answered? && ss[n].calls[on].answer.Own?
    ensures m < n && acts[m].Finish? && acts[m].c == on && acts[m].outcome == ss[n].calls[on].answer.outcome
    ensures on in ss[m].calls && ss[m].calls[on] == Running(ss[n].calls[on].key, ss[n].calls[on].digest)
  {
    assert n > 0;
    assert Follows(ss[n - 1], acts[n - 1], ss[n]);
    if on in ss[n - 1].calls && ss[n - 1].calls[on] == ss[n].calls[on] {
      m := EndedBefore(ss, acts, n - 1, on);
    } else {
      m := n - 1;
    }
  }

  /** The entry of a finished execution. */
  ghost predicate Kept(s: State, key: Key, digest: Digest, on: CallId, outcome: Outcome) {
    key in s.table && s.table[key].digest == digest && s.table[key].owner == on && s.table[key].outcome == Some(outcome)
  }

  /** The call is done and the key is not its own: it will never be again. */
  ghost predicate Lost(s: State, key: Key, on: CallId) {
    on in s.calls && s.calls[on].Answered? && !(key in s.table && s.table[key].owner == on)
  }

  lemma KeptOrLost(s: State, a: Act, key: Key, digest: Digest, on: CallId, outcome: Outcome)
    requires Inv(s) && Enabled(s, a) && Kept(s, key, digest, on, outcome)
    ensures if a.Finish? && key in a.gone then Lost(Do(s, a), key, on) else Kept(Do(s, a), key, digest, on, outcome)
  {
    assert Executed(s, on, key, digest, outcome);
    if a.Finish? {
      assert CallOk(s, a.c);
    }
  }

  lemma LostForGood(s: State, a: Act, key: Key, on: CallId)
    requires Inv(s) && Enabled(s, a) && Lost(s, key, on)
    ensures Lost(Do(s, a), key, on)
  {
  }

  lemma JustEnded(s: State, a: Act, key: Key, digest: Digest)
    requires Inv(s) && Enabled(s, a) && a.Finish? && s.calls[a.c] == Running(key, digest)
    ensures if key in a.gone then Lost(Do(s, a), key, a.c) else Kept(Do(s, a), key, digest, a.c, a.outcome)
  {
    assert CallOk(s, a.c);
  }

  /** From the end of an execution on, its entry is kept exactly as long as no step evicts the key. */
  lemma {:induction false} KeptUntilEvicted(ss: seq<State>, acts: seq<Act>, m: nat, n: nat, key: Key, digest: Digest)
    requires Interleaving(ss, acts) && m < n < |ss| && acts[m].Finish?
    requires acts[m].c in ss[m].calls && ss[m].calls[acts[m].c] == Running(key, digest)
    ensures if Evicted(acts, m, n, key) then Lost(ss[n], key, acts[m].c)
            else Kept(ss[n], key, digest, acts[m].c, acts[m].outcome)
  {
    hide Inv, Enabled, Do, Kept, Lost;
    var on := acts[m].c;
    var a := acts[n - 1];
    InterleavingKeeps(ss, acts, n - 1);
    assert Follows(ss[n - 1], a, ss[n]);
    if n == m + 1 {
      JustEnded(ss[m], a, key, digest);
    } else {
      KeptUntilEvicted(ss, acts, m, n - 1, key, digest);
      if Evicted(acts, m, n - 1, key) {
        LostForGood(ss[n - 1], a, key, on);
      } else {
        KeptOrLost(ss[n - 1], a, key, digest, on, acts[m].outcome);
      }
    }
  }

  /** Over a whole interleaving: a waiter gets the outcome of the execution it waited for exactly when no step
      between the end of that execution, at `m`, and the waking has evicted the key. */
  lemma WaiterGetsAwaitedIff(ss: seq<State>, acts: seq<Act>, n: nat) returns (m: nat)
    requires Interleaving(ss, acts) && n < |acts| && acts[n].Wake?
    ensures acts[n].c in ss[n].calls && ss[n].calls[acts[n].c].Waiting? && acts[n].c in ss[n + 1].calls
    ensures m < n && acts[m].Finish? && acts[m].c == ss[n].calls[acts[n].c].on
    ensures var Waiting(key, digest, on) := ss[n].calls[acts[n].c];
            ss[n + 1].calls[acts[n].c] == Answered(key, digest, Shared(acts[m].outcome, on)) <==> !Evicted(acts, m, n, key)
  {
    hide Evicted;
    InterleavingKeeps(ss, acts, n);
    assert Follows(ss[n], acts[n], ss[n + 1]);
    assert CallOk(ss[n], acts[n].c);
    var Waiting(key, digest, on) := ss[n].calls[acts[n].c];
    m := EndedBefore(ss, acts, n, on);
    KeptUntilEvicted(ss, acts, m, n, key, digest);
  }

  /** The same request is being executed under the key. */
  ghost predicate RunsAgain(s: State, key: Key, digest: Digest) {
    exists d :: d in s.calls && s.calls[d] == Running(key, digest)
  }

  /** A waiter reads an entry without a result exactly when the same request is running again at that moment. */
  lemma UnfinishedIff(ss: seq<State>, acts: seq<Act>, n: nat)
    requires Interleaving(ss, acts) && n < |acts| && acts[n].Wake?
    ensures acts[n].c in ss[n].calls && ss[n].calls[acts[n].c].Waiting? && acts[n].c in ss[n + 1].calls
    ensures var Waiting(key, digest, _) := ss[n].calls[acts[n].c];
            ss[n + 1].calls[acts[n].c] == Answered(key, digest, Unfinished) <==> RunsAgain(ss[n], key, digest)
  {
    InterleavingKeeps(ss, acts, n);
    assert Follows(ss[n], acts[n], ss[n + 1]);
    var s := ss[n];
    var Waiting(key, digest, _) := s.calls[acts[n].c];
    if d :| d in s.calls && s.calls[d] == Running(key, digest) {
      assert CallOk(s, d);
    }
    if key in s.table && s.table[key].outcome.None? && s.table[key].digest == digest {
      assert s.calls[s.table[key].owner] == Running(key, digest);
    }
  }

  // ---- The regions as methods on the table ----

  class Idempotency {
    var table: Table

    /** The region that opens a keyed request. */
    method Open(c: CallId, key: Key, digest: Digest, at: real) returns (r: Admission)
      modifies this
      ensures r == Admit(old(table), key, digest)
      ensures table == Entered(old(table), c, key, digest, at)
    {
      if key in table {
        var entry := table[key];
        if entry.digest != digest {
          return Now(Conflict);
        }
        if entry.outcome.Some? {
          return Now(Shared(entry.outcome.value, entry.owner));
        }
        return Wait(entry.owner);
      }
      table := table[key := Entry(digest, c, None, at)];
      r := Owner;
    }

    /** The region of a waiter after its event was set. */
    method Collect(key: Key, digest: Digest) returns (answer: Answer)
      ensures answer == Collected(table, key, digest)
    {
      if key !in table || table[key].digest != digest {
        return Disappeared;
      }
      if table[key].outcome.None? {
        return Unfinished;
      }
      answer := Shared(table[key].outcome.value, table[key].owner);
    }

    /** The region that ends an execution: record the outcome, and after a result make room in a full table. */
    method Close(key: Key, outcome: Outcome, at: real) returns (ghost gone: set<Key>)
      requires key in table
      modifies this
      ensures table == Settled(old(table), key, outcome, at) - gone
      ensures if outcome.Returned? then Evicts(Settled(old(table), key, outcome, at), gone) else gone == {}
    {
      table := table[key := table[key].(outcome := Some(outcome), at := at)];
      gone := {};
      if outcome.Returned? && |table| > TABLE_LIMIT {
        gone := EvictOldest();
      }
    }

    /** Drops the oldest finished entries of a full table. */
    method EvictOldest() returns (ghost gone: set<Key>)
      requires |table| > TABLE_LIMIT
      modifies this
      ensures table == old(table) - gone && Evicts(old(table), gone)
    {
      hide Evicts, Lists, Done, Sort, First, ByAge;
      var full := table;
      var finished := FinishedKeys();
      var oldest := Sort(ByAge(full), finished);
      AgeOrders(full, finished);
      var n := if |oldest| < EVICTED then |oldest| else EVICTED;
      FirstNone(full, oldest);
      for i := 0 to n
        invariant table == full - First(oldest, i)
      {
        FirstNext(full, oldest, i);
        table := table - {oldest[i]};
      }
      gone := First(oldest, n);
      OldestEvicted(full, finished, oldest, n);
    }

    /** The keys of the finished entries. */
    method FinishedKeys() returns (keys: seq<Key>)
      ensures Lists(keys, Done(table))
    {
      keys := [];
      var todo := table.Keys;
      while todo != {}
        invariant todo <= table.Keys
        invariant Lists(keys, Done(table) - todo)
        decreases todo
      {
        var k :| k in todo;
        todo := todo - {k};
        if table[k].outcome.Some? {
          keys := keys + [k];
        }
      }
      assert Done(table) - {} == Done(table);
    }
  }

  /** The sequence holds exactly these keys, each once. */
  ghost predicate Lists(keys: seq<Key>, s: set<Key>) {
    (forall k :: k in s <==> k in keys) && Distinct(keys)
  }

  /** The first `n` keys. */
  ghost function First(keys: seq<Key>, n: nat): set<Key>
    requires n <= |keys|
  {
    set j | 0 <= j < n :: keys[j]
  }

  lemma FirstNone(table: Table, keys: seq<Key>)
    ensures table - First(keys, 0) == table
  {
    assert First(keys, 0) == {};
  }

  lemma FirstNext(table: Table, keys: seq<Key>, n: nat)
    requires n < |keys|
    ensures (table - First(keys, n)) - {keys[n]} == table - First(keys, n + 1)
  {
    assert First(keys, n + 1) == First(keys, n) + {keys[n]};
  }

  function Age(table: Table, k: Key): real {
    if k in table then table[k].at else 0.0
  }

  function ByAge(table: Table): (Key, Key) -> bool {
    (x: Key, y: Key) => Age(table, x) <= Age(table, y)
  }

  lemma AgeOrders(table: Table, keys: seq<Key>)
    ensures SortedBy(ByAge(table), Sort(ByAge(table), keys)) && multiset(Sort(ByAge(table), keys)) == multiset(keys)
  {
    SortSorts(ByAge(table), keys);
  }

  lemma ListsSize(keys: seq<Key>, s: set<Key>)
    requires Lists(keys, s)
    ensures |keys| == |s|
  {
    DistinctSize(keys);
    assert s == set k: Key | k in keys;
    assert (set k: Key | k in keys) == (set k: nat | k in keys);
  }

  lemma PrefixLists(keys: seq<Key>, s: set<Key>, n: nat)
    requires Lists(keys, s) && n <= |keys|
    ensures First(keys, n) <= s && |First(keys, n)| == n
  {
    var gone := First(keys, n);
    assert Lists(keys[..n], gone) by {
      forall k | k in gone ensures k in keys[..n] {
        var j :| 0 <= j < n && keys[j] == k;
        assert keys[..n][j] == k;
      }
    }
    ListsSize(keys[..n], gone);
  }

  /** The first keys by age are a lawful eviction. */
  lemma OldestEvicted(full: Table, finished: seq<Key>, oldest: seq<Key>, n: nat)
    requires |full| > TABLE_LIMIT && Lists(finished, Done(full)) && multiset(oldest) == multiset(finished)
    requires SortedBy(ByAge(full), oldest)
    requires n == if |oldest| < EVICTED then |oldest| else EVICTED
    ensures Evicts(full, First(oldest, n))
  {
    var gone := First(oldest, n);
    assert Lists(oldest, Done(full)) && |oldest| == |Done(full)| by {
      SameElements(finished, oldest);
      ListsSize(oldest, Done(full));
    }
    PrefixLists(oldest, Done(full), n);
    forall k, d | k in gone && d in Done(full) - gone ensures Age(full, k) <= Age(full, d) {
      var i :| 0 <= i < n && oldest[i] == k;
      var j :| 0 <= j < |oldest| && oldest[j] == d;
      assert n <= j;
      assert ByAge(full)(oldest[i], oldest[j]);
    }
  }
}
