/** The cost ledger (cost_ledger.py): caps by scope, and reservations that are settled once. */
module CostLedger {
  import opened Common

  /** A row of the reservations table; it is settled when it has an actual amount. */
  datatype Row = Row(ident: string, scope: string, reserved: real, actual: Option<real>)

  datatype Book = Book(caps: map<string, real>, rows: seq<Row>)

  datatype Refusal = Invalid | ReservationDenied | IdentTaken | Unknown | AlreadySettled | SettlementDenied

  datatype Op =
    | SetBudget(scope: string, cap: Amount)
    | Reserve(scope: string, amount: Amount, ident: string)   // the identifier is a fresh UUID in the source
    | Settle(ident: string, amount: Amount)

  const TOLERANCE := 0.000000000001

  function Charge(row: Row): real {
    match row.actual case Some(paid) => paid case None => row.reserved
  }

  /** What a scope has committed: actual amounts where settled, reserved amounts elsewhere. */
  function Committed(rows: seq<Row>, scope: string): real {
    if rows == [] then 0.0
    else (if rows[0].scope == scope then Charge(rows[0]) else 0.0) + Committed(rows[1..], scope)
  }

  /** The rows with another identifier. */
  function Others(rows: seq<Row>, ident: string): seq<Row> {
    if rows == [] then []
    else (if rows[0].ident != ident then [rows[0]] else []) + Others(rows[1..], ident)
  }

  function Find(rows: seq<Row>, ident: string): (at: Option<nat>)
    ensures at.Some? ==> at.value < |rows| && rows[at.value].ident == ident
    ensures at.None? <==> forall i :: 0 <= i < |rows| ==> rows[i].ident != ident
  {
    if rows == [] then None
    else if rows[0].ident == ident then Some(0)
    else
      match Find(rows[1..], ident)
      case None => assert forall i :: 0 < i < |rows| ==> rows[i] == rows[1..][i - 1]; None
      case Some(n) => Some(n + 1)
  }

  predicate Exceeds(caps: map<string, real>, scope: string, total: real) {
    scope in caps && total > caps[scope] + TOLERANCE
  }

  /** One committed or rolled back transaction. */
  function Step(b: Book, op: Op): (Book, Option<Refusal>) {
    match op
    case SetBudget(scope, cap) =>
      if !IsMoney(cap) then (b, Some(Invalid)) else (b.(caps := b.caps[scope := cap.value]), None)
    case Reserve(scope, amount, ident) =>
      if !IsMoney(amount) then (b, Some(Invalid))
      else if Exceeds(b.caps, scope, Committed(b.rows, scope) + amount.value) then (b, Some(ReservationDenied))
      else if Find(b.rows, ident).Some? then (b, Some(IdentTaken))
      else (b.(rows := b.rows + [Row(ident, scope, amount.value, None)]), None)
    case Settle(ident, amount) =>
      if !IsMoney(amount) then (b, Some(Invalid))
      else
        match Find(b.rows, ident)
        case None => (b, Some(Unknown))
        case Some(at) =>
          var row := b.rows[at];
          if row.actual.Some? then (b, Some(AlreadySettled))
          else if Exceeds(b.caps, row.scope, Committed(Others(b.rows, ident), row.scope) + amount.value) then
            (b, Some(SettlementDenied))
          else (b.(rows := b.rows[at := row.(actual := Some(amount.value))]), None)
  }

  /** The identifier is the primary key. */
  ghost predicate Sound(b: Book) {
    forall i, j :: 0 <= i < j < |b.rows| ==> b.rows[i].ident != b.rows[j].ident
  }

  // ---- What one operation does to the commitments ----

  lemma {:induction false} CommittedAppend(rows: seq<Row>, row: Row, scope: string)
    ensures Committed(rows + [row], scope) == Committed(rows, scope) + (if row.scope == scope then Charge(row) else 0.0)
  {
    if rows == [] {
      assert rows + [row] == [row];
    } else {
      CommittedAppend(rows[1..], row, scope);
      assert (rows + [row])[1..] == rows[1..] + [row];
    }
  }

  lemma {:induction false} OthersAll(rows: seq<Row>, ident: string)
    requires Find(rows, ident).None?
    ensures Others(rows, ident) == rows
  {
    if rows != [] {
      OthersAll(rows[1..], ident);
    }
  }

  /** Replacing one row of a table with distinct identifiers changes its charge and no other. */
  lemma {:induction false} CommittedUpdate(rows: seq<Row>, at: nat, row: Row, scope: string)
    requires at < |rows| && rows[at].scope == row.scope
    requires forall i, j :: 0 <= i < j < |rows| ==> rows[i].ident != rows[j].ident
    ensures Committed(rows[at := row], scope)
            == Committed(Others(rows, rows[at].ident), scope) + (if row.scope == scope then Charge(row) else 0.0)
  {
    var ident := rows[at].ident;
    if at == 0 {
      assert forall i :: 0 <= i < |rows[1..]| ==> rows[1..][i].ident != ident;
      OthersAll(rows[1..], ident);
      assert Others(rows, ident) == [] + Others(rows[1..], ident) == rows[1..];
      assert rows[at := row][1..] == rows[1..];
    } else {
      assert rows[at := row][1..] == rows[1..][at - 1 := row];
      CommittedUpdate(rows[1..], at - 1, row, scope);
      assert Others(rows, ident) == [rows[0]] + Others(rows[1..], ident);
    }
  }

  /** A cap must be a finite sum of at least zero, and is then in force. */
  lemma SetBudgetExactly(b: Book, scope: string, cap: Amount)
    ensures Step(b, SetBudget(scope, cap))
            == if cap.Finite? && cap.value >= 0.0 then (Book(b.caps[scope := cap.value], b.rows), None)
               else (b, Some(Invalid))
  {
  }

  /** A reservation must be a finite sum of at least zero, leave the scope within its cap, if it has one, and have a new
      identifier; a row with the reserved amount is then added at the end. */
  lemma ReserveExactly(b: Book, scope: string, amount: Amount, ident: string)
    ensures Step(b, Reserve(scope, amount, ident))
            == if !amount.Finite? || amount.value < 0.0 then (b, Some(Invalid))
               else if scope in b.caps && Committed(b.rows, scope) + amount.value > b.caps[scope] + 0.000000000001 then
                 (b, Some(ReservationDenied))
               else if exists i :: 0 <= i < |b.rows| && b.rows[i].ident == ident then (b, Some(IdentTaken))
               else (Book(b.caps, b.rows + [Row(ident, scope, amount.value, None)]), None)
  {
  }

  /** A settlement must be a finite sum of at least zero for a known reservation that is not settled, and leave the
      scope within its cap, if it has one; the row then holds the actual amount. */
  lemma SettleExactly(b: Book, ident: string, amount: Amount)
    requires Sound(b)
    ensures if !amount.Finite? || amount.value < 0.0 then Step(b, Settle(ident, amount)) == (b, Some(Invalid))
            else (forall i :: 0 <= i < |b.rows| ==> b.rows[i].ident != ident)
                 ==> Step(b, Settle(ident, amount)) == (b, Some(Unknown))
    ensures amount.Finite? && amount.value >= 0.0 ==>
              forall i :: 0 <= i < |b.rows| && b.rows[i].ident == ident ==>
                var row := b.rows[i];
                Step(b, Settle(ident, amount))
                == if row.actual.Some? then (b, Some(AlreadySettled))
                   else if row.scope in b.caps
                           && Committed(b.rows, row.scope) - row.reserved + amount.value
                              > b.caps[row.scope] + 0.000000000001 then (b, Some(SettlementDenied))
                   else (Book(b.caps, b.rows[i := Row(ident, row.scope, row.reserved, Some(amount.value))]), None)
  {
    hide Others, Committed;
    forall i | 0 <= i < |b.rows| && b.rows[i].ident == ident
      ensures Find(b.rows, ident) == Some(i)
      ensures b.rows[i].actual.None? ==>
                Committed(Others(b.rows, ident), b.rows[i].scope)
                == Committed(b.rows, b.rows[i].scope) - b.rows[i].reserved
    {
      FindIs(b.rows, i);
      CommittedUpdate(b.rows, i, b.rows[i], b.rows[i].scope);
      assert b.rows[i := b.rows[i]] == b.rows;
    }
  }

  predicate Accepted(b: Book, op: Op) {
    Step(b, op).1.None?
  }

  /** The scope an operation charges: its own, or that of the reservation it settles. */
  function Charged(b: Book, op: Op): Option<string> {
    match op
    case SetBudget(_, _) => None
    case Reserve(scope, _, _) => Some(scope)
    case Settle(ident, _) => if Find(b.rows, ident).Some? then Some(b.rows[Find(b.rows, ident).value].scope) else None
  }

  /** An accepted reservation adds its amount to its scope; an accepted settlement puts the actual amount in place of
      the reserved one; nothing else moves, in any scope. */
  lemma CommitmentsMove(b: Book, op: Op, scope: string)
    requires Sound(b)
    ensures Committed(Step(b, op).0.rows, scope) ==
            if !Accepted(b, op) || Charged(b, op) != Some(scope) then Committed(b.rows, scope)
            else if op.Reserve? then Committed(b.rows, scope) + op.amount.value
            else Committed(b.rows, scope) - b.rows[Find(b.rows, op.ident).value].reserved + op.amount.value
  {
    if Accepted(b, op) {
      match op
      case SetBudget(_, _) =>
      case Reserve(owner, amount, ident) =>
        CommittedAppend(b.rows, Row(ident, owner, amount.value, None), scope);
      case Settle(ident, amount) =>
        var at := Find(b.rows, ident).value;
        var row := b.rows[at];
        CommittedUpdate(b.rows, at, row.(actual := Some(amount.value)), scope);
        CommittedUpdate(b.rows, at, row, scope);
        assert b.rows[at := row] == b.rows;
    }
  }

  lemma SoundKept(b: Book, op: Op)
    requires Sound(b)
    ensures Sound(Step(b, op).0)
  {
  }

  // ---- Whole histories ----

  /** The book after the operations, starting from an empty one. */
  function After(ops: seq<Op>): Book {
    if ops == [] then Book(map[], []) else Step(After(ops[..|ops| - 1]), ops[|ops| - 1]).0
  }

  lemma AfterNext(ops: seq<Op>, n: nat)
    requires n < |ops|
    ensures After(ops[..n + 1]) == Step(After(ops[..n]), ops[n]).0
  {
    assert ops[..n + 1][..n] == ops[..n];
  }

  lemma {:induction false} SoundAfter(ops: seq<Op>)
    ensures Sound(After(ops))
  {
    if ops != [] {
      SoundAfter(ops[..|ops| - 1]);
      SoundKept(After(ops[..|ops| - 1]), ops[|ops| - 1]);
    }
  }

  /** Commitments stay within the cap, up to the tolerance, however many reservations there are. */
  predicate Within(b: Book, scope: string) {
    scope in b.caps ==> Committed(b.rows, scope) <= b.caps[scope] + TOLERANCE
  }

  /** The operation sets a cap below what the scope has already committed. */
  predicate Undercuts(b: Book, op: Op, scope: string) {
    op.SetBudget? && op.scope == scope && IsMoney(op.cap) && op.cap.value + TOLERANCE < Committed(b.rows, scope)
  }

  lemma StepWithin(b: Book, op: Op, scope: string)
    requires Sound(b) && Within(b, scope)
    ensures Within(Step(b, op).0, scope) <==> !Undercuts(b, op, scope)
  {
    if Accepted(b, op) {
      match op
      case SetBudget(_, _) =>
      case Reserve(owner, amount, ident) =>
        CommittedAppend(b.rows, Row(ident, owner, amount.value, None), scope);
      case Settle(ident, amount) =>
        var at := Find(b.rows, ident).value;
        var row := b.rows[at];
        CommittedUpdate(b.rows, at, row.(actual := Some(amount.value)), scope);
        CommittedUpdate(b.rows, at, row, scope);
        assert b.rows[at := row] == b.rows;
    }
  }

  lemma WithinNext(ops: seq<Op>, n: nat, scope: string)
    requires n < |ops| && Within(After(ops[..n]), scope)
    ensures Within(After(ops[..n + 1]), scope) <==> !Undercuts(After(ops[..n]), ops[n], scope)
  {
    hide Undercuts, Within, Step, Sound;
    AfterNext(ops, n);
    SoundAfter(ops[..n]);
    StepWithin(After(ops[..n]), ops[n], scope);
  }

  lemma {:induction false} NeverUndercut(ops: seq<Op>, n: nat, scope: string)
    requires n <= |ops|
    requires forall k :: 0 <= k < |ops| ==> !Undercuts(After(ops[..k]), ops[k], scope)
    ensures Within(After(ops[..n]), scope)
  {
    hide Undercuts, Within;
    if n == 0 {
      StartsWithin(ops, scope);
    } else {
      NeverUndercut(ops, n - 1, scope);
      WithinNext(ops, n - 1, scope);
    }
  }

  /** A scope stays within its cap throughout a history exactly when no accepted cap undercuts what is committed. */
  lemma WithinThroughoutIff(ops: seq<Op>, scope: string)
    ensures (forall n :: 0 <= n <= |ops| ==> Within(After(ops[..n]), scope))
            <==> (forall n :: 0 <= n < |ops| ==> !Undercuts(After(ops[..n]), ops[n], scope))
  {
    hide Undercuts, Within, After;
    if forall n :: 0 <= n <= |ops| ==> Within(After(ops[..n]), scope) {
      forall n | 0 <= n < |ops| ensures !Undercuts(After(ops[..n]), ops[n], scope) {
        WithinNext(ops, n, scope);
      }
    }
    if forall n :: 0 <= n < |ops| ==> !Undercuts(After(ops[..n]), ops[n], scope) {
      forall n | 0 <= n <= |ops| ensures Within(After(ops[..n]), scope) {
        NeverUndercut(ops, n, scope);
      }
    }
  }

  lemma StartsWithin(ops: seq<Op>, scope: string)
    ensures Within(After(ops[..0]), scope)
  {
    assert ops[..0] == [];
  }

  predicate Caps(op: Op, scope: string) {
    op.SetBudget? && op.scope == scope && IsMoney(op.cap)
  }

  /** The cap is set before the first reservation and never lowered. */
  ghost predicate CapDiscipline(ops: seq<Op>, scope: string) {
    && (forall n :: 0 <= n < |ops| && ops[n].Reserve? && ops[n].scope == scope ==>
          exists m :: 0 <= m < n && Caps(ops[m], scope))
    && (forall m, n :: 0 <= m < n < |ops| && Caps(ops[m], scope) && Caps(ops[n], scope) ==>
          ops[m].cap.value <= ops[n].cap.value)
  }

  /** The cap in force is one of those set; there is none exactly when none was set. */
  lemma {:induction false} CapInForce(ops: seq<Op>, scope: string)
    ensures scope in After(ops).caps
            ==> exists m :: 0 <= m < |ops| && Caps(ops[m], scope) && ops[m].cap.value == After(ops).caps[scope]
    ensures scope !in After(ops).caps ==> forall m :: 0 <= m < |ops| ==> !Caps(ops[m], scope)
  {
    if ops != [] {
      var n := |ops| - 1;
      var earlier := ops[..n];
      CapInForce(earlier, scope);
      if Caps(ops[n], scope) {
        assert After(ops).caps[scope] == ops[n].cap.value;
      } else {
        assert scope in After(ops).caps <==> scope in After(earlier).caps;
        if scope in After(earlier).caps {
          var m :| 0 <= m < n && Caps(earlier[m], scope) && earlier[m].cap.value == After(earlier).caps[scope];
          assert Caps(ops[m], scope);
        }
      }
    }
  }

  lemma {:induction false} CommittedNothing(rows: seq<Row>, scope: string)
    requires forall i :: 0 <= i < |rows| ==> rows[i].scope != scope
    ensures Committed(rows, scope) == 0.0
  {
    if rows != [] {
      CommittedNothing(rows[1..], scope);
    }
  }

  lemma {:induction false} NothingReserved(ops: seq<Op>, scope: string)
    requires forall n :: 0 <= n < |ops| ==> !(ops[n].Reserve? && ops[n].scope == scope)
    ensures forall i :: 0 <= i < |After(ops).rows| ==> After(ops).rows[i].scope != scope
  {
    if ops != [] {
      NothingReserved(ops[..|ops| - 1], scope);
    }
  }

  /** Under the discipline a scope never commits more than its cap and one tolerance. */
  lemma {:induction false} CapHolds(ops: seq<Op>, scope: string)
    requires CapDiscipline(ops, scope)
    ensures Within(After(ops), scope)
  {
    hide Caps, Step;
    if ops == [] {
      StartsWithin(ops, scope);
    } else {
      var n := |ops| - 1;
      var earlier, op := ops[..n], ops[n];
      var b := After(earlier);
      CapHolds(earlier, scope);
      SoundAfter(earlier);
      CapInForce(earlier, scope);
      NotUndercut(ops, scope);
      StepWithin(b, op, scope);
    }
  }

  lemma NotUndercut(ops: seq<Op>, scope: string)
    requires ops != [] && CapDiscipline(ops, scope)
    requires Within(After(ops[..|ops| - 1]), scope)
    ensures !Undercuts(After(ops[..|ops| - 1]), ops[|ops| - 1], scope)
  {
    hide After, Step;
    var n := |ops| - 1;
    var earlier, op := ops[..n], ops[n];
    if Caps(op, scope) {
      CapInForce(earlier, scope);
      if scope in After(earlier).caps {
        var m :| 0 <= m < n && Caps(earlier[m], scope) && earlier[m].cap.value == After(earlier).caps[scope];
        assert ops[m].cap.value <= op.cap.value;
      } else {
        assert forall m :: 0 <= m < n ==> !Caps(ops[m], scope) && ops[m] == earlier[m];
        assert forall k :: 0 <= k < n ==> !(ops[k].Reserve? && ops[k].scope == scope);
        NothingReserved(earlier, scope);
        CommittedNothing(After(earlier).rows, scope);
      }
    }
  }

  /** Without the discipline the law fails: by a lowered cap, or by a cap set too late. */
  lemma CapCanBeExceeded()
    ensures !Within(After([SetBudget("s", Finite(10.0)), Reserve("s", Finite(10.0), "a"), SetBudget("s", Finite(5.0))]), "s")
    ensures !Within(After([Reserve("s", Finite(10.0), "a"), SetBudget("s", Finite(5.0))]), "s")
  {
    var first, late, low := SetBudget("s", Finite(10.0)), Reserve("s", Finite(10.0), "a"), SetBudget("s", Finite(5.0));
    var row := Row("a", "s", 10.0, None);
    assert Committed([row], "s") == 10.0;
    var b0 := Book(map[], []);
    var lowered, tooLate := [first, late, low], [late, low];
    assert After(lowered[..0]) == b0 && After(tooLate[..0]) == b0;
    AfterNext(lowered, 0);
    AfterNext(lowered, 1);
    AfterNext(lowered, 2);
    assert lowered[..3] == lowered;
    AfterNext(tooLate, 0);
    AfterNext(tooLate, 1);
    assert tooLate[..2] == tooLate;
  }

  /** Rows are never removed, keep their identifier, scope and reserved amount, and once settled never change. */
  ghost predicate Extends(before: seq<Row>, later: seq<Row>) {
    && |before| <= |later|
    && forall i :: 0 <= i < |before| ==>
         && later[i].(actual := None) == before[i].(actual := None)
         && (before[i].actual.Some? ==> later[i] == before[i])
  }

  lemma {:induction false} RowsExtend(ops: seq<Op>, n: nat)
    requires n <= |ops|
    ensures Extends(After(ops[..n]).rows, After(ops).rows)
    decreases |ops|
  {
    if n == |ops| {
      assert ops[..n] == ops;
    } else {
      RowsExtend(ops[..|ops| - 1], n);
      assert ops[..|ops| - 1][..n] == ops[..n];
    }
  }

  lemma FindIs(rows: seq<Row>, at: nat)
    requires at < |rows|
    requires forall i, j :: 0 <= i < j < |rows| ==> rows[i].ident != rows[j].ident
    ensures Find(rows, rows[at].ident) == Some(at)
  {
  }

  /** No reservation is settled twice. */
  lemma SettledOnce(ops: seq<Op>, i: nat, j: nat)
    requires i < j < |ops|
    requires ops[i].Settle? && Accepted(After(ops[..i]), ops[i])
    requires ops[j].Settle? && ops[j].ident == ops[i].ident
    ensures !Accepted(After(ops[..j]), ops[j])
  {
    var between, later := After(ops[..i + 1]).rows, After(ops[..j]).rows;
    var at := Find(After(ops[..i]).rows, ops[i].ident).value;
    AfterNext(ops, i);
    assert between[at].actual.Some? && between[at].ident == ops[i].ident;
    assert ops[..j][..i + 1] == ops[..i + 1];
    RowsExtend(ops[..j], i + 1);
    SoundAfter(ops[..j]);
    FindIs(later, at);
  }

  /** No identifier is given out twice. */
  lemma ReservedOnce(ops: seq<Op>, i: nat, j: nat)
    requires i < j < |ops|
    requires ops[i].Reserve? && Accepted(After(ops[..i]), ops[i])
    requires ops[j].Reserve? && ops[j].ident == ops[i].ident
    ensures !Accepted(After(ops[..j]), ops[j])
  {
    var at := |After(ops[..i]).rows|;
    AfterNext(ops, i);
    assert ops[..j][..i + 1] == ops[..i + 1];
    RowsExtend(ops[..j], i + 1);
    assert After(ops[..j]).rows[at].ident == ops[j].ident;
  }

  class CostLedger {
    var caps: map<string, real>
    var rows: seq<Row>

    ghost function Contents(): Book
      reads this
    {
      Book(caps, rows)
    }

    ghost predicate Valid()
      reads this
    {
      Sound(Contents())
    }

    constructor ()
      ensures Valid() && Contents() == After([])
    {
      caps, rows := map[], [];
    }

    method SetBudget(scope: string, cap: Amount) returns (refusal: Option<Refusal>)
      requires Valid()
      modifies this
      ensures Valid() && (Contents(), refusal) == Step(old(Contents()), Op.SetBudget(scope, cap))
      ensures refusal.Some? ==> Contents() == old(Contents())
      ensures rows == old(rows)
    {
      if !IsMoney(cap) {
        return Some(Invalid);
      }
      caps := caps[scope := cap.value];
      refusal := None;
    }

    method Reserve(scope: string, amount: Amount, ident: string) returns (refusal: Option<Refusal>)
      requires Valid()
      modifies this
      ensures Valid() && (Contents(), refusal) == Step(old(Contents()), Op.Reserve(scope, amount, ident))
      ensures refusal.Some? ==> Contents() == old(Contents())
      ensures old(Within(Contents(), scope)) ==> Within(Contents(), scope)
    {
      if !IsMoney(amount) {
        return Some(Invalid);
      }
      var used := Committed(rows, scope);
      if scope in caps && used + amount.value > caps[scope] + TOLERANCE {
        return Some(ReservationDenied);
      }
      StepWithin(Contents(), Op.Reserve(scope, amount, ident), scope);
      var taken := Find(rows, ident);
      if taken.Some? {
        return Some(IdentTaken);
      }
      rows := rows + [Row(ident, scope, amount.value, None)];
      refusal := None;
    }

    method Settle(ident: string, amount: Amount) returns (refusal: Option<Refusal>)
      requires Valid()
      modifies this
      ensures Valid() && (Contents(), refusal) == Step(old(Contents()), Op.Settle(ident, amount))
      ensures refusal.Some? ==> Contents() == old(Contents())
      ensures forall scope :: old(Within(Contents(), scope)) ==> Within(Contents(), scope)
    {
      if !IsMoney(amount) {
        return Some(Invalid);
      }
      var at := Find(rows, ident);
      if at.None? {
        return Some(Unknown);
      }
      var row := rows[at.value];
      if row.actual.Some? {
        return Some(AlreadySettled);
      }
      var used := Committed(Others(rows, ident), row.scope);
      if row.scope in caps && used + amount.value > caps[row.scope] + TOLERANCE {
        return Some(SettlementDenied);
      }
      forall scope | Within(Contents(), scope)
        ensures Within(Step(Contents(), Op.Settle(ident, amount)).0, scope)
      {
        StepWithin(Contents(), Op.Settle(ident, amount), scope);
      }
      SoundKept(Contents(), Op.Settle(ident, amount));
      rows := rows[at.value := row.(actual := Some(amount.value))];
      refusal := None;
    }
  }
}
