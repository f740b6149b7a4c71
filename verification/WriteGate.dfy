/** The gate that GitHub writes pass through (write-gate.js): spacing, a rolling window, and de-duplication by key.
    Calls are serialised by the lock; time is in milliseconds. */
module WriteGate {
  /** How one request ends: a status, with the delay that the response asks for before a retry, or an exception. */
  datatype Answer = Status(code: int, delay: int) | Threw

  datatype Outcome = Answered(code: int) | Deduplicated | Exhausted | Failed

  /** A successful write that was recorded. */
  datatype Write = Write(key: string, time: int)

  const GAP := 2000
  const WINDOW := 60000
  const REPEAT := 300000
  const LIMIT := 30
  const ATTEMPTS := 6

  predicate Ok(code: int) {
    200 <= code <= 299
  }

  predicate Retryable(code: int) {
    code in [403, 429, 500, 502, 503, 504]
  }

  // ---- The remembered keys ----

  /** Assigning to `keys[key]`: an empty key is skipped, and an object ignores a number assigned to "__proto__". */
  function Remember(keys: map<string, int>, key: string, time: int): map<string, int> {
    if key == "" || key == "__proto__" then keys else keys[key := time]
  }

  /** The key was used less than five minutes ago. A zero time counts as absent. */
  predicate Recent(keys: map<string, int>, key: string, now: int) {
    key != "" && key in keys && keys[key] != 0 && now - keys[key] < REPEAT
  }

  // ---- The recorded writes ----

  function Times(h: seq<Write>): (times: seq<int>)
    ensures |times| == |h| && forall i :: 0 <= i < |h| ==> times[i] == h[i].time
  {
    seq(|h|, i requires 0 <= i < |h| => h[i].time)
  }

  ghost predicate Spaced(h: seq<Write>) {
    forall i :: 0 < i < |h| ==> h[i].time >= h[i - 1].time + GAP
  }

  /** Two writes under one key that can be remembered are five minutes apart. */
  ghost predicate KeysApart(h: seq<Write>) {
    forall i, j :: 0 <= i < j < |h| && h[i].key == h[j].key != "" && h[i].key != "__proto__" ==>
      h[j].time >= h[i].time + REPEAT
  }

  lemma {:induction false} Spread(h: seq<Write>, i: nat, j: nat)
    requires Spaced(h) && i <= j < |h|
    ensures h[j].time >= h[i].time + GAP * (j - i)
    decreases j
  {
    if i < j {
      Spread(h, i, j - 1);
    }
  }

  /** The writes recorded in the minute that ends at `now`. */
  ghost function InWindow(h: seq<Write>, now: int): set<nat> {
    set i: nat | i < |h| && now - WINDOW < h[i].time <= now
  }

  lemma {:induction false} RangeSize(lo: nat, n: nat, s: set<nat>)
    requires forall i :: i in s ==> lo <= i < lo + n
    ensures |s| <= n
  {
    if n == 0 {
      assert s == {};
    } else {
      RangeSize(lo, n - 1, s - {lo + n - 1});
    }
  }

  lemma {:induction false} Smallest(s: set<nat>) returns (least: nat)
    requires s != {}
    ensures least in s && forall i :: i in s ==> least <= i
  {
    var some :| some in s;
    least := some;
    if s != {some} {
      var rest := Smallest(s - {some});
      least := if rest < some then rest else some;
      assert forall i :: i in s ==> i == some || i in s - {some};
    }
  }

  /** At most thirty writes fall into any minute. The spacing alone implies it. */
  lemma WindowBound(h: seq<Write>, now: int)
    requires Spaced(h)
    ensures |InWindow(h, now)| <= LIMIT
  {
    var s := InWindow(h, now);
    if s != {} {
      var least := Smallest(s);
      forall i | i in s ensures least <= i < least + LIMIT {
        Spread(h, least, i);
      }
      RangeSize(least, LIMIT, s);
    }
  }

  /** The times younger than a minute. */
  function Young(times: seq<int>, now: int): seq<int> {
    if times == [] then []
    else (if now - times[0] < WINDOW then [times[0]] else []) + Young(times[1..], now)
  }

  /** Of increasing times, those younger than a minute are the last ones. */
  lemma {:induction false} YoungIsSuffix(times: seq<int>, now: int) returns (k: nat)
    requires forall i :: 0 < i < |times| ==> times[i - 1] <= times[i]
    ensures k <= |times| && Young(times, now) == times[k..] && (k < |times| ==> now - times[k] < WINDOW)
    ensures forall i :: 0 <= i < k ==> now - times[i] >= WINDOW
  {
    if times == [] || now - times[0] < WINDOW {
      k := 0;
      AllYoung(times, now);
    } else {
      assert Young(times, now) == Young(times[1..], now);
      hide Young;
      k := YoungIsSuffix(times[1..], now);
      assert times[1..][k..] == times[k + 1..];
      assert forall i :: 0 < i < k + 1 ==> times[i] == times[1..][i - 1];
      k := k + 1;
    }
  }

  lemma {:induction false} AllYoung(times: seq<int>, now: int)
    requires forall i :: 0 < i < |times| ==> times[i - 1] <= times[i]
    requires times != [] ==> now - times[0] < WINDOW
    ensures Young(times, now) == times
  {
    if times != [] {
      AllYoung(times[1..], now);
    }
  }

  /** When a call starts, no more than thirty recorded writes are younger than a minute. */
  lemma YoungBound(h: seq<Write>, now: int)
    requires Spaced(h) && forall i :: 0 <= i < |h| ==> h[i].time <= now
    ensures |Young(Times(h), now)| <= LIMIT
  {
    var k := YoungIsSuffix(Times(h), now);
    if |h| - k > LIMIT {
      Spread(h, k, k + LIMIT);
    }
  }

  lemma {:induction false} YoungOfYoung(times: seq<int>, earlier: int, now: int)
    requires earlier <= now
    ensures Young(Young(times, earlier), now) == Young(times, now)
  {
    if times != [] {
      YoungOfYoung(times[1..], earlier, now);
      if earlier - times[0] < WINDOW {
        assert ([times[0]] + Young(times[1..], earlier))[1..] == Young(times[1..], earlier);
      } else {
        assert [] + Young(times[1..], earlier) == Young(times[1..], earlier);
      }
    }
  }

  lemma {:induction false} YoungAppend(times: seq<int>, t: int, now: int)
    ensures Young(times + [t], now) == Young(times, now) + (if now - t < WINDOW then [t] else [])
  {
    if times == [] {
      assert times + [t] == [t];
    } else {
      YoungAppend(times[1..], t, now);
      assert (times + [t])[1..] == times[1..] + [t];
    }
  }

  // ---- The saved state and the history it summarises ----

  datatype Saved = Saved(lastWrite: int, writes: seq<int>, keys: map<string, int>)

  ghost predicate KeysLinked(keys: map<string, int>, h: seq<Write>) {
    && "" !in keys && "__proto__" !in keys
    && (forall i :: 0 <= i < |h| && h[i].key != "" && h[i].key != "__proto__" ==>
          h[i].key in keys && 0 < h[i].time <= keys[h[i].key])
  }

  ghost predicate WritesLinked(writes: seq<int>, h: seq<Write>, clock: int) {
    forall now :: now >= clock ==> Young(writes, now) == Young(Times(h), now)
  }

  ghost predicate Linked(s: Saved, h: seq<Write>, clock: int) {
    && clock > 0
    && (forall i :: 0 <= i < |h| ==> 0 < h[i].time <= clock)
    && Spaced(h) && KeysApart(h)
    && s.lastWrite == (if h == [] then 0 else h[|h| - 1].time)
    && KeysLinked(s.keys, h)
    && WritesLinked(s.writes, h, clock)
  }

  /** What a success at `t` writes to the file, for a call that started at `now`. */
  function Record(s: Saved, key: string, now: int, t: int): Saved {
    Saved(t, Young(s.writes, now) + [t], Remember(s.keys, key, t))
  }

  lemma WritesLinkedNext(writes: seq<int>, h: seq<Write>, clock: int, now: int, key: string, t: int)
    requires WritesLinked(writes, h, clock) && clock <= now <= t
    ensures WritesLinked(Young(writes, now) + [t], h + [Write(key, t)], t)
  {
    forall later | later >= t
      ensures Young(Young(writes, now) + [t], later) == Young(Times(h + [Write(key, t)]), later)
    {
      YoungAppend(Young(writes, now), t, later);
      YoungOfYoung(writes, now, later);
      assert Times(h + [Write(key, t)]) == Times(h) + [t];
      YoungAppend(Times(h), t, later);
    }
  }

  lemma KeysLinkedNext(s: Saved, h: seq<Write>, clock: int, now: int, key: string, t: int)
    requires Linked(s, h, clock) && clock <= now <= t && !Recent(s.keys, key, now)
    ensures KeysLinked(Remember(s.keys, key, t), h + [Write(key, t)]) && KeysApart(h + [Write(key, t)])
  {
    hide WritesLinked;
  }

  lemma LinkedNext(s: Saved, h: seq<Write>, clock: int, key: string, now: int, t: int)
    requires Linked(s, h, clock) && clock <= now <= t
    requires !Recent(s.keys, key, now) && t >= s.lastWrite + GAP
    ensures Linked(Record(s, key, now, t), h + [Write(key, t)], t)
  {
    KeysLinkedNext(s, h, clock, now, key, t);
    WritesLinkedNext(s.writes, h, clock, now, key, t);
    hide WritesLinked, KeysLinked, KeysApart, Recent, Remember;
  }

  // ---- Histories of successes ----

  /** A recorded success: the call started at `now` and its request succeeded at `time`. */
  datatype Success = Success(key: string, now: int, time: int)

  /** The state file after these successes. */
  function After(steps: seq<Success>): Saved {
    if steps == [] then Saved(0, [], map[])
    else
      var last := steps[|steps| - 1];
      Record(After(steps[..|steps| - 1]), last.key, last.now, last.time)
  }

  function Writes(steps: seq<Success>): seq<Write> {
    if steps == [] then []
    else Writes(steps[..|steps| - 1]) + [Write(steps[|steps| - 1].key, steps[|steps| - 1].time)]
  }

  function Latest(steps: seq<Success>): int {
    if steps == [] then 1 else steps[|steps| - 1].time
  }

  /** What the gate makes sure of before a request may succeed: no recent use of the key, the gap since the last
      success, and the wait of a full window. */
  predicate Admits(s: Saved, step: Success) {
    && !Recent(s.keys, step.key, step.now)
    && step.time >= step.now && step.time >= s.lastWrite + GAP
    && (|Young(s.writes, step.now)| >= LIMIT ==> step.time >= Young(s.writes, step.now)[0] + WINDOW + 250)
  }

  /** The histories that calls, one after the other, can record. */
  predicate Lawful(steps: seq<Success>) {
    steps == []
    || (var init, last := steps[..|steps| - 1], steps[|steps| - 1];
        Lawful(init) && Latest(init) <= last.now && Admits(After(init), last))
  }

  lemma LawfulNext(steps: seq<Success>, step: Success)
    requires Lawful(steps) && Latest(steps) <= step.now && Admits(After(steps), step)
    ensures Lawful(steps + [step]) && Latest(steps + [step]) == step.time
    ensures After(steps + [step]) == Record(After(steps), step.key, step.now, step.time)
  {
    hide Admits, Record;
    assert (steps + [step])[..|steps|] == steps;
  }

  lemma StartLinked()
    ensures Linked(Saved(0, [], map[]), [], 1)
  {
  }

  /** The state file sums up the history as it should. */
  lemma {:induction false} LawfulLinked(steps: seq<Success>)
    requires Lawful(steps)
    ensures Linked(After(steps), Writes(steps), Latest(steps))
  {
    hide Linked, Record, Young;
    if steps == [] {
      StartLinked();
    } else {
      var init, last := steps[..|steps| - 1], steps[|steps| - 1];
      LawfulLinked(init);
      LinkedNext(After(init), Writes(init), Latest(init), last.key, last.now, last.time);
    }
  }

  lemma {:induction false} WritesAt(steps: seq<Success>, i: nat)
    requires i < |steps|
    ensures |Writes(steps)| == |steps| && Writes(steps)[i] == Write(steps[i].key, steps[i].time)
  {
    if |steps| > 1 {
      WritesAt(steps[..|steps| - 1], if i < |steps| - 1 then i else 0);
    }
  }

  /** In every history successes are two seconds apart and any minute holds at most thirty. */
  lemma HistorySpaced(steps: seq<Success>, now: int)
    requires Lawful(steps)
    ensures Spaced(Writes(steps)) && |InWindow(Writes(steps), now)| <= LIMIT
  {
    hide Lawful, InWindow;
    LawfulLinked(steps);
    WindowBound(Writes(steps), now);
  }

  /** Any two successes under the key are five minutes apart. */
  ghost predicate RepeatsApart(steps: seq<Success>, key: string) {
    forall i, j :: 0 <= i < j < |steps| && steps[i].key == key && steps[j].key == key ==>
      steps[j].time >= steps[i].time + REPEAT
  }

  lemma LawfulApart(steps: seq<Success>, key: string)
    requires Lawful(steps) && key != "" && key != "__proto__"
    ensures RepeatsApart(steps, key)
  {
    hide Lawful;
    LawfulLinked(steps);
    forall i, j | 0 <= i < j < |steps| && steps[i].key == key && steps[j].key == key
      ensures steps[j].time >= steps[i].time + REPEAT
    {
      WritesAt(steps, i);
      WritesAt(steps, j);
    }
  }

  /** Two successes under an unremembered key, two seconds apart. */
  function Twice(key: string): seq<Success> {
    [Success(key, 5000, 5000), Success(key, 7000, 7000)]
  }

  lemma TwiceLawful(key: string)
    requires key == "" || key == "__proto__"
    ensures Lawful(Twice(key)) && !RepeatsApart(Twice(key), key)
  {
    var first := [Success(key, 5000, 5000)];
    assert Twice(key)[..1] == first && first[..0] == [];
    assert Lawful([]) && After([]) == Saved(0, [], map[]);
    assert Lawful(first);
    assert After(first) == Saved(5000, [5000], map[]);
    assert Young([5000], 7000) == [5000];
    assert Twice(key)[1].time < Twice(key)[0].time + REPEAT;
  }

  /** For which keys five minutes lie between any two successes, in every history: all but the empty key, which asks
      for no de-duplication, and "__proto__", which is not remembered. */
  lemma RepeatLaw(key: string)
    ensures (forall steps: seq<Success> :: Lawful(steps) ==> RepeatsApart(steps, key))
            <==> key != "" && key != "__proto__"
  {
    hide Lawful, RepeatsApart, Twice;
    if key == "" || key == "__proto__" {
      TwiceLawful(key);
    } else {
      forall steps: seq<Success> | Lawful(steps) ensures RepeatsApart(steps, key) {
        LawfulApart(steps, key);
      }
    }
  }

  // ---- The histories in plain terms ----

  /** After these successes a call may record this one: it starts no earlier than the last success, no success of the
      last five minutes has its key, unless that is one of the two that are not remembered, it comes two seconds after
      the last success, and if the thirtieth last is younger than a minute when the call starts, a minute and a
      quarter of a second after that. */
  ghost predicate Allowed(before: seq<Success>, step: Success) {
    var n := |before|;
    && step.now >= (if n == 0 then 1 else before[n - 1].time)
    && step.time >= step.now
    && step.time >= (if n == 0 then 0 else before[n - 1].time) + 2000
    && (step.key != "" && step.key != "__proto__" ==>
          forall j :: 0 <= j < n && before[j].key == step.key ==> step.now - before[j].time >= 300000)
    && (n >= 30 && step.now - before[n - 30].time < 60000 ==> step.time >= before[n - 30].time + 60250)
  }

  /** The time of the latest success with the key is remembered. */
  ghost predicate LatestOf(steps: seq<Success>, key: string, time: int) {
    exists j :: 0 <= j < |steps| && steps[j].key == key && steps[j].time == time
                && forall i :: j < i < |steps| ==> steps[i].key != key
  }

  /** What is remembered of the key is its latest success. */
  ghost predicate KeySays(keys: map<string, int>, steps: seq<Success>, key: string) {
    if key in keys then key != "" && key != "__proto__" && LatestOf(steps, key, keys[key])
    else key == "" || key == "__proto__" || forall j :: 0 <= j < |steps| ==> steps[j].key != key
  }

  lemma LatestStays(steps: seq<Success>, step: Success, key: string, time: int)
    ensures step.key != key && LatestOf(steps, key, time) ==> LatestOf(steps + [step], key, time)
    ensures LatestOf(steps + [step], step.key, step.time)
  {
    var next := steps + [step];
    assert next[|steps|] == step;
    if step.key != key && LatestOf(steps, key, time) {
      var j :| 0 <= j < |steps| && steps[j].key == key && steps[j].time == time
               && forall i :: j < i < |steps| ==> steps[i].key != key;
      assert next[j] == steps[j];
    }
  }

  lemma KeySaysNext(keys: map<string, int>, steps: seq<Success>, key: string, step: Success)
    requires KeySays(keys, steps, key)
    ensures KeySays(Remember(keys, step.key, step.time), steps + [step], key)
  {
    hide LatestOf;
    if key in keys {
      LatestStays(steps, step, key, keys[key]);
    } else {
      LatestStays(steps, step, key, 0);
    }
  }

  lemma {:induction false} KeysSay(steps: seq<Success>, key: string)
    ensures KeySays(After(steps).keys, steps, key)
  {
    hide Young, Remember, LatestOf;
    if steps != [] {
      var n := |steps| - 1;
      hide KeySays;
      KeysSay(steps[..n], key);
      KeySaysNext(After(steps[..n]).keys, steps[..n], key, steps[n]);
      assert steps == steps[..n] + [steps[n]];
    }
  }

  lemma {:induction false} WritesAre(steps: seq<Success>)
    ensures |Writes(steps)| == |steps|
    ensures forall i :: 0 <= i < |steps| ==> Writes(steps)[i] == Write(steps[i].key, steps[i].time)
  {
    if steps != [] {
      WritesAre(steps[..|steps| - 1]);
    }
  }

  /** Successes come one after the other. */
  lemma TimesIncrease(steps: seq<Success>, i: nat, j: nat)
    requires Lawful(steps) && i <= j < |steps|
    ensures 0 < steps[i].time <= steps[j].time <= Latest(steps)
  {
    hide Lawful, KeysApart, KeysLinked, WritesLinked;
    LawfulLinked(steps);
    WritesAre(steps);
    Spread(Writes(steps), i, j);
    Spread(Writes(steps), j, |steps| - 1);
  }

  /** The gate remembers a use of the key in the last five minutes exactly when there was one. */
  lemma RecentExactly(steps: seq<Success>, key: string, now: int)
    requires Lawful(steps) && Latest(steps) <= now
    ensures !Recent(After(steps).keys, key, now)
            <==> (key != "" && key != "__proto__" ==>
                    forall j :: 0 <= j < |steps| && steps[j].key == key ==> now - steps[j].time >= 300000)
  {
    hide Lawful, After;
    KeysSay(steps, key);
    var keys := After(steps).keys;
    if key in keys {
      var j :| 0 <= j < |steps| && steps[j].key == key && steps[j].time == keys[key]
               && forall i :: j < i < |steps| ==> steps[i].key != key;
      forall i | 0 <= i < |steps| && steps[i].key == key ensures 0 < steps[i].time <= keys[key] {
        TimesIncrease(steps, i, j);
      }
    }
  }

  /** The gate waits for a full window exactly when the thirtieth last success is younger than a minute, and counts
      from that one. */
  lemma FullExactly(steps: seq<Success>, now: int)
    requires Lawful(steps) && Latest(steps) <= now
    ensures var n, young := |steps|, Young(After(steps).writes, now);
            && (|young| >= LIMIT <==> n >= 30 && now - steps[n - 30].time < 60000)
            && (|young| >= LIMIT ==> young[0] == steps[n - 30].time)
  {
    hide Lawful, KeysApart, KeysLinked, Young, After;
    LawfulLinked(steps);
    WritesAre(steps);
    var h, n := Writes(steps), |steps|;
    forall i | 0 <= i < n ensures h[i].time <= now {
    }
    YoungBound(h, now);
    var k := YoungIsSuffix(Times(h), now);
    assert Young(After(steps).writes, now) == Times(h)[k..];
  }

  lemma LastWrite(steps: seq<Success>)
    requires Lawful(steps)
    ensures After(steps).lastWrite == if steps == [] then 0 else steps[|steps| - 1].time
  {
    hide Lawful, Young;
  }

  lemma AllowedExactly(steps: seq<Success>, step: Success)
    requires Lawful(steps)
    ensures Latest(steps) <= step.now && Admits(After(steps), step) <==> Allowed(steps, step)
  {
    hide Lawful, Young, Recent, After;
    LastWrite(steps);
    if Latest(steps) <= step.now {
      RecentExactly(steps, step.key, step.now);
      FullExactly(steps, step.now);
    }
  }

  /** The histories that calls can record, in plain terms. */
  lemma {:induction false} LawfulExactly(steps: seq<Success>)
    ensures Lawful(steps) <==> forall i :: 0 <= i < |steps| ==> Allowed(steps[..i], steps[i])
  {
    hide Admits, After, Allowed;
    if steps != [] {
      var n := |steps| - 1;
      var init := steps[..n];
      LawfulExactly(init);
      assert forall i :: 0 <= i < n ==> init[..i] == steps[..i] && init[i] == steps[i];
      if Lawful(init) {
        AllowedExactly(init, steps[n]);
      }
    }
  }

  ghost predicate Retried(answers: seq<Answer>, n: nat) {
    n <= |answers| && forall i :: 0 <= i < n ==> answers[i].Status? && Retryable(answers[i].code)
  }

  lemma RetriedNext(answers: seq<Answer>, n: nat)
    requires n < |answers| && Retried(answers, n) && answers[n].Status? && Retryable(answers[n].code)
    ensures Retried(answers, n + 1)
  {
  }

  /** The requests sent at these times respect the delays that the answers ask for. */
  ghost predicate Paced(at: seq<int>, answers: seq<Answer>) {
    |at| <= |answers| && forall i :: 0 <= i < |at| - 1 ==>
      answers[i].Status? && at[i + 1] >= at[i] && at[i + 1] >= at[i] + answers[i].delay
  }

  lemma NoneSent(answers: seq<Answer>)
    ensures Retried(answers, 0) && Paced([], answers)
  {
  }

  lemma OneMore(at: seq<int>, answers: seq<Answer>, t: int)
    requires Paced(at, answers) && |at| < |answers|
    requires at == [] || (answers[|at| - 1].Status? && t >= at[|at| - 1] && t >= at[|at| - 1] + answers[|at| - 1].delay)
    ensures Paced(at + [t], answers)
  {
  }

  lemma RetryableMeans(code: int)
    ensures Retryable(code) <==> code in {403, 429, 500, 502, 503, 504}
  {
  }

  lemma RetriedMeans(answers: seq<Answer>, n: nat)
    requires Retried(answers, n)
    ensures forall i :: 0 <= i < n ==> answers[i].Status? && answers[i].code in {403, 429, 500, 502, 503, 504}
  {
    forall i | 0 <= i < n ensures answers[i].Status? && answers[i].code in {403, 429, 500, 502, 503, 504} {
      RetryableMeans(answers[i].code);
    }
  }

  // ---- The course of time ----

  /** The time that passes beyond what the gate waits: 0 before the call reads the clock, 1 with the wait of a full
      window, 2 with the gap, then two by two with each request and with the back-off after it. */
  type Passing = nat -> nat

  function AtLeast(x: int, y: int): int {
    if x < y then y else x
  }

  /** When the first request is sent, for a call that starts at `now`. */
  function Awaited(s: Saved, now: int, passing: Passing): int {
    var young := Young(s.writes, now);
    var free := if |young| >= LIMIT then AtLeast(now, young[0] + WINDOW + 250) else now;
    AtLeast(free + passing(1), s.lastWrite + GAP) + passing(2)
  }

  /** What the requests before the `n`th and the back-off after them take. */
  function Elapsed(answers: seq<Answer>, passing: Passing, n: nat): int
    requires n <= |answers| && forall i :: 0 <= i < n ==> answers[i].Status?
  {
    if n == 0 then 0
    else Elapsed(answers, passing, n - 1) + passing(1 + 2 * n) + AtLeast(answers[n - 1].delay, 0) + passing(2 + 2 * n)
  }

  lemma {:induction false} ElapsedPositive(answers: seq<Answer>, passing: Passing, n: nat)
    requires n <= |answers| && forall i :: 0 <= i < n ==> answers[i].Status?
    ensures Elapsed(answers, passing, n) >= 0
  {
    if n > 0 {
      ElapsedPositive(answers, passing, n - 1);
    }
  }

  lemma {:induction false} YoungOldest(times: seq<int>, now: int)
    ensures Young(times, now) != [] ==> now - Young(times, now)[0] < WINDOW
  {
    if times != [] {
      YoungOldest(times[1..], now);
    }
  }

  /** The waits before the first request are long enough for whatever comes after. */
  lemma AwaitedAdmits(s: Saved, key: string, now: int, passing: Passing)
    requires !Recent(s.keys, key, now)
    ensures Awaited(s, now, passing) >= now
    ensures forall t :: t >= Awaited(s, now, passing) ==> Admits(s, Success(key, now, t))
  {
    hide Recent, Young;
  }

  /** Time passes before the call and with the first request only. */
  function Passes(wait: nat, slack: nat): Passing {
    k => if k == 0 then wait else if k == 3 then slack else 0
  }

  lemma SameAwaited(s: Saved, now: int, passing: Passing)
    requires passing(1) == passing(2) == 0
    ensures Awaited(s, now, passing) == Awaited(s, now, _ => 0)
  {
    hide Young;
  }

  lemma OkIsFinal(code: int)
    ensures !(Ok(code) && Retryable(code))
  {
  }

  lemma ElapsedNext(answers: seq<Answer>, passing: Passing, n: nat)
    requires 0 < n <= |answers| && forall i :: 0 <= i < n ==> answers[i].Status?
    ensures Elapsed(answers, passing, n)
            == Elapsed(answers, passing, n - 1) + passing(1 + 2 * n) + AtLeast(answers[n - 1].delay, 0) + passing(2 + 2 * n)
  {
  }

  lemma NothingElapsed(answers: seq<Answer>, passing: Passing)
    ensures Elapsed(answers, passing, 0) == 0
  {
  }

  lemma {:induction false} LawfulPrefix(steps: seq<Success>, i: nat)
    requires Lawful(steps) && i < |steps|
    ensures Lawful(steps[..i]) && Latest(steps[..i]) <= steps[i].now && Admits(After(steps[..i]), steps[i])
    decreases |steps|
  {
    hide Admits, After;
    var n := |steps| - 1;
    if i < n {
      LawfulPrefix(steps[..n], i);
      assert steps[..n][..i] == steps[..i];
    }
  }

  /** What the gate makes sure of is that a success is no earlier than the first request can be. */
  lemma AdmitsIffAwaited(s: Saved, step: Success)
    ensures Admits(s, step) <==> !Recent(s.keys, step.key, step.now) && step.time >= Awaited(s, step.now, _ => 0)
  {
    hide Recent, Young;
  }

  class Gate {
    var saved: Saved
    var clock: int
    ghost var history: seq<Success>

    ghost predicate Valid()
      reads this
    {
      Lawful(history) && saved == After(history) && Latest(history) <= clock
    }

    /** The clock counts from 1970, so it is not zero. */
    constructor (time: int)
      requires time > 0
      ensures Valid() && history == [] && clock == time
    {
      saved, clock, history := Saved(0, [], map[]), time, [];
    }

    /** The current time, after some has passed. */
    method Now(passed: nat) returns (now: int)
      modifies this`clock
      ensures now == clock == old(clock) + passed
    {
      clock := clock + passed;
      now := clock;
    }

    /** Sleeping lasts at least as long as asked. */
    method Sleep(delay: int, passed: nat)
      modifies this`clock
      ensures clock == old(clock) + AtLeast(delay, 0) + passed
    {
      clock := clock + (if delay > 0 then delay else 0) + passed;
    }

    /** The waits before the first request: for the oldest of a full window to age, and for the gap. */
    method AwaitTurn(now: int, young: seq<int>, passing: Passing)
      requires now == clock && young == Young(saved.writes, now)
      modifies this`clock
      ensures clock == Awaited(saved, now, passing)
    {
      hide Young;
      if |young| >= LIMIT {
        YoungOldest(saved.writes, now);
        Sleep(WINDOW - (now - young[0]) + 250, 0);
      }
      var again := Now(passing(1));
      var gap := if GAP - (again - saved.lastWrite) > 0 then GAP - (again - saved.lastWrite) else 0;
      Sleep(gap, passing(2));
    }

    /** The requests of one call, up to the first that is not retryable, with back-off in between. */
    method Requests(answers: seq<Answer>, passing: Passing) returns (outcome: Outcome, sent: nat, ghost at: seq<int>)
      requires |answers| == ATTEMPTS
      modifies this`clock
      ensures 0 < sent <= ATTEMPTS && !outcome.Deduplicated?
      ensures outcome.Exhausted? ==> sent == ATTEMPTS && Retried(answers, ATTEMPTS)
      ensures outcome.Failed? ==> Retried(answers, sent - 1) && answers[sent - 1] == Threw
      ensures outcome.Answered? ==> Retried(answers, sent - 1) && answers[sent - 1].Status?
                                    && answers[sent - 1].code == outcome.code && !Retryable(outcome.code)
      ensures clock == old(clock) + if outcome.Exhausted? then Elapsed(answers, passing, sent)
                                    else Elapsed(answers, passing, sent - 1) + passing(1 + 2 * sent)
      // each request is sent no sooner than the answer before it allows
      ensures |at| == sent && at[0] == old(clock) && Paced(at, answers)
    {
      hide Ok, Retryable, Elapsed, Paced;
      NoneSent(answers);
      var attempt := 0;
      at := [];
      NothingElapsed(answers, passing);
      while attempt < ATTEMPTS
        invariant 0 <= attempt <= ATTEMPTS && Retried(answers, attempt)
        invariant clock == old(clock) + Elapsed(answers, passing, attempt)
        invariant |at| == attempt && Paced(at, answers) && (if attempt == 0 then clock == old(clock) else at[0] == old(clock))
        invariant attempt > 0 ==> answers[attempt - 1].Status?
                                  && clock >= at[attempt - 1] + AtLeast(answers[attempt - 1].delay, 0)
      {
        OneMore(at, answers, clock);
        at := at + [clock];
        var t := Now(passing(3 + 2 * attempt));
        var answer := answers[attempt];
        if answer.Threw? {
          return Failed, attempt + 1, at;
        }
        OkIsFinal(answer.code);
        if Ok(answer.code) || !Retryable(answer.code) {
          return Answered(answer.code), attempt + 1, at;
        }
        Sleep(answer.delay, passing(4 + 2 * attempt));
        RetriedNext(answers, attempt);
        attempt := attempt + 1;
        ElapsedNext(answers, passing, attempt);
      }
      return Exhausted, attempt, at;
    }

    /** `githubWrite`; `answers` are the ways its requests would end, and `passing` is the time that goes by. `sent`
        counts the requests. */
    method GithubWrite(key: string, answers: seq<Answer>, passing: Passing)
        returns (outcome: Outcome, sent: nat, ghost started: int, ghost at: seq<int>)
      requires Valid() && |answers| == ATTEMPTS
      modifies this
      ensures Valid() && started == old(clock) + passing(0) <= clock
      // a key that succeeded less than five minutes ago is answered without a request
      ensures outcome.Deduplicated? <==>
                && key != "" && key != "__proto__"
                && exists j :: 0 <= j < |old(history)| && old(history)[j].key == key
                               && started - old(history)[j].time < 300000
      ensures sent <= 6 && (sent == 0 <==> outcome.Deduplicated?)
      // otherwise requests are repeated until one is neither throttled nor failing, at most six times
      ensures outcome.Exhausted? ==> sent == 6
      ensures forall i :: 0 <= i < (if outcome.Exhausted? then sent else sent - 1) ==>
                answers[i].Status? && answers[i].code in {403, 429, 500, 502, 503, 504}
      ensures outcome.Failed? ==> sent > 0 && answers[sent - 1] == Threw
      ensures outcome.Answered? ==> sent > 0 && answers[sent - 1].Status? && answers[sent - 1].code == outcome.code
                                    && outcome.code !in {403, 429, 500, 502, 503, 504}
      // each no sooner than the answer before it allows
      ensures |at| == sent && (sent > 0 ==> at[0] == Awaited(old(saved), started, passing))
      ensures forall i :: 0 <= i < sent - 1 ==> at[i + 1] >= at[i] && at[i + 1] >= at[i] + answers[i].delay
      // only a success is recorded, with its time
      ensures !(outcome.Answered? && 200 <= outcome.code <= 299) ==> saved == old(saved) && history == old(history)
      ensures outcome.Answered? && 200 <= outcome.code <= 299 ==>
                && history == old(history) + [Success(key, started, clock)]
                && Allowed(old(history), Success(key, started, clock))
                && saved == Record(old(saved), key, started, clock)
                && clock == Awaited(old(saved), started, passing) + Elapsed(answers, passing, sent - 1)
                            + passing(1 + 2 * sent)
    {
      hide Young, Recent, Record, Lawful, After, Latest, Admits, Awaited, Retryable, Elapsed, Allowed;
      var now := Now(passing(0));
      started, at := now, [];
      RecentExactly(history, key, now);
      var young := Young(saved.writes, now);
      if Recent(saved.keys, key, now) {
        return Deduplicated, 0, started, [];
      }
      AwaitTurn(now, young, passing);
      AwaitedAdmits(saved, key, now, passing);
      outcome, sent, at := Requests(answers, passing);
      RetriedMeans(answers, if outcome.Exhausted? then sent else sent - 1);
      RetryableMeans(if outcome.Answered? then outcome.code else 0);
      ElapsedPositive(answers, passing, if outcome.Exhausted? then sent else sent - 1);
      if outcome.Answered? && Ok(outcome.code) {
        LawfulNext(history, Success(key, now, clock));
        AllowedExactly(history, Success(key, now, clock));
        saved := Record(saved, key, now, clock);
        history := history + [Success(key, now, clock)];
      }
    }
  }

  /** One call that succeeds at once, `wait` after the clock of the gate and `slack` after it may be sent. */
  method RecordOne(gate: Gate, step: Success)
    requires gate.Valid() && gate.clock <= step.now && Admits(gate.saved, step)
    modifies gate
    ensures gate.Valid() && gate.history == old(gate.history) + [step] && gate.clock == step.time
  {
    hide Lawful, Young, Recent, Record, Admits, Awaited, Elapsed, After, Latest;
    AdmitsIffAwaited(gate.saved, step);
    RecentExactly(gate.history, step.key, step.now);
    var wait, slack := step.now - gate.clock, step.time - Awaited(gate.saved, step.now, _ => 0);
    var passing := Passes(wait, slack);
    SameAwaited(gate.saved, step.now, passing);
    var answers := seq(ATTEMPTS, _ => Status(200, 0));
    NothingElapsed(answers, passing);
    var outcome, sent, started, at := gate.GithubWrite(step.key, answers, passing);
    assert sent == 1 by {
      assert answers[0] == Status(200, 0);
    }
  }

  /** Calls can record every lawful history. */
  method RecordAll(steps: seq<Success>) returns (gate: Gate)
    requires Lawful(steps)
    ensures fresh(gate) && gate.Valid() && gate.history == steps
  {
    gate := new Gate(1);
    assert steps[..0] == [];
    for i := 0 to |steps|
      invariant fresh(gate) && gate.Valid() && gate.history == steps[..i] && gate.clock == Latest(steps[..i])
    {
      hide Lawful, Admits, After;
      LawfulPrefix(steps, i);
      RecordOne(gate, steps[i]);
      assert steps[..i + 1] == steps[..i] + [steps[i]];
    }
    assert steps[..|steps|] == steps;
  }
}
