/** A run of `_idem` (daemon.py) in which a waiter wakes too late: its entry has been evicted and the same request is
    running again, so the entry it reads holds no result yet. */
module LateWaiter {
  import opened Common
  import opened SingleFlight

  ghost predicate Attainable(s: State) {
    exists ss: seq<State>, acts: seq<Act> :: Interleaving(ss, acts) && ss[|acts|] == s
  }

  lemma AttainNext(s: State, a: Act)
    requires Attainable(s) && Enabled(s, a)
    ensures Attainable(Do(s, a))
  {
    hide Enabled, Do;
    var ss: seq<State>, acts: seq<Act> :| Interleaving(ss, acts) && ss[|acts|] == s;
    var ss', acts' := ss + [Do(s, a)], acts + [a];
    forall i | 0 <= i < |acts'| ensures Follows(ss'[i], acts'[i], ss'[i + 1]) {
      if i < |acts| {
        assert Follows(ss[i], acts[i], ss[i + 1]);
      }
    }
    assert Interleaving(ss', acts') && ss'[|acts'|] == Do(s, a);
  }

  /** Call 0 has answered key 0, call 1 still waits for it, and `n` more keys have failed since. */
  ghost function Filled(n: nat): State {
    if n == 0 then
      State(map[0 := Entry(7, 0, Some(Returned(1)), 0.0)],
            map[0 := Answered(0, 7, Own(Returned(1))), 1 := Waiting(0, 7, 0)])
    else
      var s := Filled(n - 1);
      State(s.table[n := Entry(7, n + 1, Some(Raised(2)), 1.0)], s.calls[n + 1 := Answered(n, 7, Own(Raised(2)))])
  }

  lemma {:induction false} FilledShape(n: nat)
    ensures var s := Filled(n);
            && |s.table| == n + 1
            && (forall k: Key :: k in s.table <==> k <= n) && (forall c: CallId :: c in s.calls <==> c <= n + 1)
            && (forall k :: k in s.table ==> s.table[k].outcome.Some? && s.table[k].at == if k == 0 then 0.0 else 1.0)
            && s.calls[0] == Answered(0, 7, Own(Returned(1))) && s.calls[1] == Waiting(0, 7, 0)
  {
    if n > 0 {
      FilledShape(n - 1);
    }
  }

  lemma FilledStart()
    ensures Attainable(Filled(0))
  {
    assert Interleaving([START], []) && [START][0] == START;
    assert Attainable(START);
    AttainNext(START, Enter(0, 0, 7, 0.0));
    var s1 := Do(START, Enter(0, 0, 7, 0.0));
    AttainNext(s1, Enter(1, 0, 7, 0.0));
    var s2 := Do(s1, Enter(1, 0, 7, 0.0));
    assert s2.table == map[0 := Entry(7, 0, None, 0.0)];
    AttainNext(s2, Finish(0, Returned(1), 0.0, {}));
    var s3 := Do(s2, Finish(0, Returned(1), 0.0, {}));
    assert s3.table == Filled(0).table && s3.calls == Filled(0).calls;
  }

  /** One more key that fails: its call enters and finishes, and nothing is evicted. */
  lemma FillOne(s: State, n: nat)
    requires Attainable(s) && n !in s.table && n + 1 !in s.calls
    ensures Attainable(State(s.table[n := Entry(7, n + 1, Some(Raised(2)), 1.0)],
                             s.calls[n + 1 := Answered(n, 7, Own(Raised(2)))]))
  {
    hide Attainable;
    var entering := Enter(n + 1, n, 7, 1.0);
    AttainNext(s, entering);
    var s1 := Do(s, entering);
    var failing := Finish(n + 1, Raised(2), 1.0, {});
    AttainNext(s1, failing);
    var s2 := Do(s1, failing);
    assert s2.table == s.table[n := Entry(7, n + 1, Some(Raised(2)), 1.0)];
    assert s2.calls == s.calls[n + 1 := Answered(n, 7, Own(Raised(2)))];
  }

  lemma {:induction false} FilledAttainable(n: nat)
    ensures Attainable(Filled(n))
  {
    hide Attainable;
    if n == 0 {
      FilledStart();
    } else {
      FilledAttainable(n - 1);
      FilledShape(n - 1);
      FillOne(Filled(n - 1), n);
    }
  }

  lemma {:induction false} Range(n: nat) returns (s: set<nat>)
    ensures |s| == n && forall k: nat :: k in s <==> k < n
  {
    if n == 0 {
      s := {};
    } else {
      var r := Range(n - 1);
      s := r + {n - 1};
    }
  }

  /** The first 500 keys are what a full table of 2002 finished entries may drop. */
  lemma FirstKeysOldest(full: Table, gone: set<Key>)
    requires |full| == 2002 && (forall k: Key :: k in full <==> k <= 2001)
    requires forall k :: k in full ==>
               full[k].outcome.Some? && full[k].at == if k == 0 then 0.0 else if k == 2001 then 2.0 else 1.0
    requires |gone| == 500 && forall k: nat :: k in gone <==> k < 500
    ensures Evicts(full, gone)
  {
    assert Done(full) == full.Keys;
    assert |full.Keys| == 2002;
  }

  /** One more success evicts the 500 oldest finished entries, that of key 0 among them. */
  lemma EvictFirst() returns (s: State)
    ensures Attainable(s) && 0 !in s.table
    ensures 0 in s.calls && s.calls[0] == Answered(0, 7, Own(Returned(1)))
    ensures 1 in s.calls && s.calls[1] == Waiting(0, 7, 0) && 2003 !in s.calls
  {
    hide Attainable, Evicts, Filled;
    FilledAttainable(2000);
    FilledShape(2000);
    var s0 := Filled(2000);
    AttainNext(s0, Enter(2002, 2001, 7, 2.0));
    var s1 := Do(s0, Enter(2002, 2001, 7, 2.0));
    var gone := Range(500);
    FirstKeysOldest(Settled(s1.table, 2001, Returned(1), 2.0), gone);
    AttainNext(s1, Finish(2002, Returned(1), 2.0, gone));
    s := Do(s1, Finish(2002, Returned(1), 2.0, gone));
  }

  /** The waiter neither gets the outcome it waited for nor is told that it disappeared. */
  lemma WaiterCanFindUnfinished()
    ensures exists s: State :: Attainable(s) && 1 in s.calls && s.calls[1] == Answered(0, 7, Unfinished)
                               && Executed(s, 0, 0, 7, Returned(1))
  {
    hide Attainable;
    var s0 := EvictFirst();
    AttainNext(s0, Enter(2003, 0, 7, 3.0));
    var s1 := Do(s0, Enter(2003, 0, 7, 3.0));
    AttainNext(s1, Wake(1));
    var s2 := Do(s1, Wake(1));
    assert Attainable(s2) && s2.calls[1] == Answered(0, 7, Unfinished);
  }
}
