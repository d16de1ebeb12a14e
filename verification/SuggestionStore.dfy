/** The suggestions table as a mutable table of rows (internal/storage/sqlite/storage.go):
    each SQL statement is one step, and user dismissals are steps like any other. */
module SuggestionStore {
  import opened Common
  import opened Ordering

  datatype Status = Active | Dismissed | Resolved

  datatype Row = Row(
    rule: string,
    target: string,
    severity: string,
    status: Status,
    firstSeenAt: int,
    lastSeenAt: int,
    dismissedAt: Option<int>,
    resolvedAt: Option<int>)

  type Rows = map<int, Row>

  datatype Op =
    | Upsert(rule: string, target: string, severity: string, at: int)
    | Resolve(id: int, at: int)
    | Dismiss(ids: set<int>, at: int)

  predicate HasKey(row: Row, rule: string, target: string)
  {
    row.rule == rule && row.target == target
  }

  // The columns UpsertSuggestion updates on an existing row. A resolved suggestion comes
  // back; a dismissed one stays dismissed.
  function Refreshed(row: Row, severity: string, at: int): Row
  {
    row.(severity := severity,
         status := if row.status == Resolved then Active else row.status,
         resolvedAt := if row.status == Resolved then None else row.resolvedAt,
         lastSeenAt := at)
  }

  function Inserted(rule: string, target: string, severity: string, at: int): Row
  {
    Row(rule, target, severity, Active, at, at, None, None)
  }

  // Only an active suggestion is resolved.
  function ResolvedRow(row: Row, at: int): Row
  {
    if row.status == Active then row.(status := Resolved, resolvedAt := Some(at)) else row
  }

  function DismissedRow(row: Row, at: int): Row
  {
    row.(status := Dismissed, dismissedAt := Some(at))
  }

  predicate KeyPresent(rows: Rows, rule: string, target: string)
  {
    exists id :: id in rows && HasKey(rows[id], rule, target)
  }

  // What an operation does to the row it already finds under an id.
  function RowAfter(op: Op, id: int, row: Row): Row
  {
    match op
    case Upsert(rule, target, severity, at) => if HasKey(row, rule, target) then Refreshed(row, severity, at) else row
    case Resolve(i, at) => if id == i then ResolvedRow(row, at) else row
    case Dismiss(ids, at) => if id in ids then DismissedRow(row, at) else row
  }

  function ApplyOp(rows: Rows, nextId: int, op: Op): Rows
  {
    var updated := map id | id in rows :: RowAfter(op, id, rows[id]);
    if op.Upsert? && !KeyPresent(rows, op.rule, op.target)
    then updated[nextId := Inserted(op.rule, op.target, op.severity, op.at)]
    else updated
  }

  function NextIdAfter(rows: Rows, nextId: int, op: Op): int
  {
    if op.Upsert? && !KeyPresent(rows, op.rule, op.target) then nextId + 1 else nextId
  }

  // resolved_at is set exactly while a suggestion is resolved, unless it was dismissed
  // since; dismissed rows have dismissed_at set.
  predicate RowOk(row: Row)
  {
    match row.status
    case Active => row.resolvedAt.None?
    case Resolved => row.resolvedAt.Some?
    case Dismissed => row.dismissedAt.Some?
  }

  ghost predicate TableOk(rows: Rows, nextId: int)
  {
    && (forall id :: id in rows ==> id < nextId && RowOk(rows[id]))
    && (forall id, id' :: id in rows && id' in rows && id != id' ==> !HasKey(rows[id], rows[id'].rule, rows[id'].target))
  }

  lemma RowAfterKeeps(op: Op, id: int, row: Row)
    ensures RowAfter(op, id, row).rule == row.rule && RowAfter(op, id, row).target == row.target
    ensures RowOk(row) ==> RowOk(RowAfter(op, id, row))
  {
  }

  // What an operation leaves of each row, and the one row it can add.
  lemma ApplyOpRows(rows: Rows, nextId: int, op: Op)
    requires TableOk(rows, nextId)
    ensures var after := ApplyOp(rows, nextId, op);
            && (forall id :: id in rows ==> id in after && after[id] == RowAfter(op, id, rows[id]))
            && (forall id :: id in after && id !in rows ==>
                  op.Upsert? && id == nextId && after[id] == Inserted(op.rule, op.target, op.severity, op.at)
                  && !KeyPresent(rows, op.rule, op.target))
  {
  }

  lemma ApplyKeepsTable(rows: Rows, nextId: int, op: Op)
    requires TableOk(rows, nextId)
    ensures TableOk(ApplyOp(rows, nextId, op), NextIdAfter(rows, nextId, op))
  {
    var after := ApplyOp(rows, nextId, op);
    ApplyOpRows(rows, nextId, op);
    forall id | id in after
      ensures id < NextIdAfter(rows, nextId, op) && RowOk(after[id])
    {
      if id in rows {
        RowAfterKeeps(op, id, rows[id]);
      }
    }
    forall id, id' | id in after && id' in after && id != id'
      ensures !HasKey(after[id], after[id'].rule, after[id'].target)
    {
      if id in rows && id' in rows {
        RowAfterKeeps(op, id, rows[id]);
        RowAfterKeeps(op, id', rows[id']);
      } else if id in rows {
        RowAfterKeeps(op, id, rows[id]);
        assert !HasKey(rows[id], op.rule, op.target);
      } else {
        RowAfterKeeps(op, id', rows[id']);
        assert !HasKey(rows[id'], op.rule, op.target);
      }
    }
  }

  // ----- Runs: any interleaving of upserts, resolutions and dismissals -----

  datatype Table = Table(rows: Rows, nextId: int)

  function TableAfter(t: Table, ops: seq<Op>, n: nat): Table
    requires n <= |ops|
  {
    if n == 0 then t
    else
      var before := TableAfter(t, ops, n - 1);
      Table(ApplyOp(before.rows, before.nextId, ops[n - 1]), NextIdAfter(before.rows, before.nextId, ops[n - 1]))
  }

  lemma {:induction false} RunKeepsTable(t: Table, ops: seq<Op>, n: nat)
    requires n <= |ops| && TableOk(t.rows, t.nextId)
    ensures var after := TableAfter(t, ops, n); TableOk(after.rows, after.nextId)
  {
    if n > 0 {
      RunKeepsTable(t, ops, n - 1);
      var before := TableAfter(t, ops, n - 1);
      ApplyKeepsTable(before.rows, before.nextId, ops[n - 1]);
    }
  }

  lemma StepKeepsRow(rows: Rows, nextId: int, op: Op, id: int)
    requires TableOk(rows, nextId) && id in rows
    ensures var after := ApplyOp(rows, nextId, op);
            && id in after && after[id].rule == rows[id].rule && after[id].target == rows[id].target
            && (rows[id].status == Dismissed ==> after[id].status == Dismissed)
  {
    ApplyOpRows(rows, nextId, op);
  }

  // A row is resolved after a step because it was, and was left alone, or because this
  // step resolved it.
  lemma StepResolves(rows: Rows, nextId: int, op: Op, id: int)
    requires TableOk(rows, nextId)
    requires id in ApplyOp(rows, nextId, op) && ApplyOp(rows, nextId, op)[id].status == Resolved
    ensures id in rows
    ensures if rows[id].status == Resolved then ApplyOp(rows, nextId, op)[id].resolvedAt == rows[id].resolvedAt
            else rows[id].status == Active && op.Resolve? && op.id == id &&
                 ApplyOp(rows, nextId, op)[id].resolvedAt == Some(op.at)
  {
  }

  // Rows are never lost or renamed, and dismissed is final.
  lemma {:induction false} DismissedIsAbsorbing(t: Table, ops: seq<Op>, m: nat, n: nat, id: int)
    requires m <= n <= |ops| && TableOk(t.rows, t.nextId)
    requires id in TableAfter(t, ops, m).rows
    ensures var early, late := TableAfter(t, ops, m).rows, TableAfter(t, ops, n).rows;
            && id in late
            && HasKey(late[id], early[id].rule, early[id].target)
            && (early[id].status == Dismissed ==> late[id].status == Dismissed)
    decreases n
  {
    if m < n {
      DismissedIsAbsorbing(t, ops, m, n - 1, id);
      RunKeepsTable(t, ops, n - 1);
      var before := TableAfter(t, ops, n - 1);
      StepKeepsRow(before.rows, before.nextId, ops[n - 1], id);
    }
  }

  // The last operation that really resolved a row, if it is the one the row still shows.
  ghost predicate ResolvedBy(t: Table, ops: seq<Op>, k: int, n: nat, id: int)
    requires n <= |ops|
  {
    && 0 <= k < n
    && ops[k].Resolve? && ops[k].id == id
    && id in TableAfter(t, ops, k).rows && TableAfter(t, ops, k).rows[id].status == Active
    && forall j :: k < j <= n ==> id in TableAfter(t, ops, j).rows && TableAfter(t, ops, j).rows[id].status == Resolved
  }

  // A resolved row shows the time it was last resolved: of all resolutions of a suggestion
  // only the one that found it active counts, and nothing has brought it back since.
  lemma {:induction false} ResolvedAtIsLastResolution(t: Table, ops: seq<Op>, n: nat, id: int)
    requires n <= |ops| && TableOk(t.rows, t.nextId)
    requires id in TableAfter(t, ops, n).rows && TableAfter(t, ops, n).rows[id].status == Resolved
    requires id in t.rows ==> t.rows[id].status != Resolved
    ensures exists k :: ResolvedBy(t, ops, k, n, id) && TableAfter(t, ops, n).rows[id].resolvedAt == Some(ops[k].at)
  {
    var i := n - 1;
    var before := TableAfter(t, ops, i);
    RunKeepsTable(t, ops, i);
    StepResolves(before.rows, before.nextId, ops[i], id);
    if before.rows[id].status == Resolved {
      ResolvedAtIsLastResolution(t, ops, i, id);
      var k :| ResolvedBy(t, ops, k, i, id) && before.rows[id].resolvedAt == Some(ops[k].at);
      assert ResolvedBy(t, ops, k, n, id);
    } else {
      assert ResolvedBy(t, ops, i, n, id);
    }
  }

  // ----- What a row shows of the operations on it -----

  predicate Upserts(op: Op, rule: string, target: string)
  {
    op.Upsert? && op.rule == rule && op.target == target
  }

  predicate Dismisses(op: Op, id: int)
  {
    op.Dismiss? && id in op.ids
  }

  // The last upsert of a key among the first n operations.
  function LastUpsert(ops: seq<Op>, n: nat, rule: string, target: string): (last: Option<nat>)
    requires n <= |ops|
    ensures last.Some? ==> last.value < n && Upserts(ops[last.value], rule, target)
    ensures forall i :: (if last.Some? then last.value else -1) < i < n ==> !Upserts(ops[i], rule, target)
  {
    if n == 0 then None
    else if Upserts(ops[n - 1], rule, target) then Some(n - 1)
    else LastUpsert(ops, n - 1, rule, target)
  }

  function FirstUpsert(ops: seq<Op>, n: nat, rule: string, target: string): (first: Option<nat>)
    requires n <= |ops|
    ensures first.Some? ==> first.value < n && Upserts(ops[first.value], rule, target)
    ensures forall i :: 0 <= i < (if first.Some? then first.value else n) ==> !Upserts(ops[i], rule, target)
  {
    if n == 0 then None
    else
      var first := FirstUpsert(ops, n - 1, rule, target);
      if first.None? && Upserts(ops[n - 1], rule, target) then Some(n - 1) else first
  }

  // The last dismissal among the first n operations that found row id.
  function LastDismissal(t: Table, ops: seq<Op>, n: nat, id: int): (last: Option<nat>)
    requires n <= |ops|
    ensures last.Some? ==> last.value < n && Dismisses(ops[last.value], id) && id in TableAfter(t, ops, last.value).rows
    ensures forall i :: (if last.Some? then last.value else -1) < i < n ==>
      !Dismisses(ops[i], id) || id !in TableAfter(t, ops, i).rows
  {
    if n == 0 then None
    else if Dismisses(ops[n - 1], id) && id in TableAfter(t, ops, n - 1).rows then Some(n - 1)
    else LastDismissal(t, ops, n - 1, id)
  }

  // The severity and last-seen time of the last upsert, or what the row started with.
  predicate ShowsLastUpsert(t: Table, ops: seq<Op>, n: nat, id: int, row: Row)
    requires n <= |ops|
  {
    match LastUpsert(ops, n, row.rule, row.target)
    case Some(k) => row.severity == ops[k].severity && row.lastSeenAt == ops[k].at
    case None => id in t.rows && row.severity == t.rows[id].severity && row.lastSeenAt == t.rows[id].lastSeenAt
  }

  // It was there from the start, or was inserted by the first upsert of its key.
  predicate ShowsFirstUpsert(t: Table, ops: seq<Op>, n: nat, id: int, row: Row)
    requires n <= |ops|
  {
    if id in t.rows then row.firstSeenAt == t.rows[id].firstSeenAt
    else
      var first := FirstUpsert(ops, n, row.rule, row.target);
      first.Some? && row.firstSeenAt == ops[first.value].at
  }

  predicate ShowsLastDismissal(t: Table, ops: seq<Op>, n: nat, id: int, row: Row)
    requires n <= |ops|
  {
    match LastDismissal(t, ops, n, id)
    case Some(k) => row.dismissedAt == Some(ops[k].at)
    case None => row.dismissedAt == if id in t.rows then t.rows[id].dismissedAt else None
  }

  // One more operation, and what it left of the row.
  lemma ShowsMore(t: Table, ops: seq<Op>, n: nat, id: int, row: Row)
    requires n < |ops| && ShowsLastUpsert(t, ops, n, id, row)
    ensures ShowsLastUpsert(t, ops, n + 1, id, RowAfter(ops[n], id, row))
  {
  }

  lemma ShowsFirstMore(t: Table, ops: seq<Op>, n: nat, id: int, row: Row)
    requires n < |ops| && ShowsFirstUpsert(t, ops, n, id, row)
    ensures ShowsFirstUpsert(t, ops, n + 1, id, RowAfter(ops[n], id, row))
  {
  }

  lemma ShowsDismissalMore(t: Table, ops: seq<Op>, n: nat, id: int, row: Row)
    requires n < |ops| && id in TableAfter(t, ops, n).rows && ShowsLastDismissal(t, ops, n, id, row)
    ensures ShowsLastDismissal(t, ops, n + 1, id, RowAfter(ops[n], id, row))
  {
  }

  // No upsert of a key can have come before its row was inserted.
  lemma {:induction false} AbsentNeverUpserted(t: Table, ops: seq<Op>, n: nat, rule: string, target: string)
    requires n <= |ops| && TableOk(t.rows, t.nextId) && !KeyPresent(TableAfter(t, ops, n).rows, rule, target)
    ensures FirstUpsert(ops, n, rule, target).None?
  {
    if n > 0 {
      var before, after := TableAfter(t, ops, n - 1), TableAfter(t, ops, n).rows;
      RunKeepsTable(t, ops, n - 1);
      ApplyOpRows(before.rows, before.nextId, ops[n - 1]);
      forall id | id in before.rows
        ensures !HasKey(before.rows[id], rule, target)
      {
        assert HasKey(after[id], before.rows[id].rule, before.rows[id].target);
      }
      assert !Upserts(ops[n - 1], rule, target) by {
        if Upserts(ops[n - 1], rule, target) {
          assert HasKey(after[before.nextId], rule, target);
        }
      }
      AbsentNeverUpserted(t, ops, n - 1, rule, target);
    }
  }

  // A row that is not there yet never was.
  lemma NeverThere(t: Table, ops: seq<Op>, n: nat, id: int)
    requires n <= |ops| && TableOk(t.rows, t.nextId) && id !in TableAfter(t, ops, n).rows
    ensures id !in t.rows && LastDismissal(t, ops, n, id).None?
  {
    forall k | 0 <= k <= n
      ensures id !in TableAfter(t, ops, k).rows
    {
      if id in TableAfter(t, ops, k).rows {
        DismissedIsAbsorbing(t, ops, k, n, id);
      }
    }
    assert TableAfter(t, ops, 0) == t;
  }

  lemma InsertedShows(t: Table, ops: seq<Op>, n: nat, id: int, row: Row)
    requires n < |ops| && TableOk(t.rows, t.nextId) && id !in TableAfter(t, ops, n).rows
    requires ops[n].Upsert? && row == Inserted(ops[n].rule, ops[n].target, ops[n].severity, ops[n].at)
    requires !KeyPresent(TableAfter(t, ops, n).rows, ops[n].rule, ops[n].target)
    ensures Shows(t, ops, n + 1, id, row)
  {
    NeverThere(t, ops, n, id);
    AbsentNeverUpserted(t, ops, n, row.rule, row.target);
  }

  predicate Shows(t: Table, ops: seq<Op>, n: nat, id: int, row: Row)
    requires n <= |ops|
  {
    ShowsLastUpsert(t, ops, n, id, row) && ShowsFirstUpsert(t, ops, n, id, row) && ShowsLastDismissal(t, ops, n, id, row)
  }

  // Over any run, a row's severity and last-seen time are those of the last upsert of its
  // key, its first-seen time is that of the one that inserted it, and its dismissal time
  // that of the last dismissal that found it.
  lemma {:induction false} RowShowsItsHistory(t: Table, ops: seq<Op>, n: nat, id: int)
    requires n <= |ops| && TableOk(t.rows, t.nextId) && id in TableAfter(t, ops, n).rows
    ensures Shows(t, ops, n, id, TableAfter(t, ops, n).rows[id])
  {
    if n > 0 {
      var before := TableAfter(t, ops, n - 1);
      RunKeepsTable(t, ops, n - 1);
      ApplyOpRows(before.rows, before.nextId, ops[n - 1]);
      if id in before.rows {
        RowShowsItsHistory(t, ops, n - 1, id);
        ShowsMore(t, ops, n - 1, id, before.rows[id]);
        ShowsFirstMore(t, ops, n - 1, id, before.rows[id]);
        ShowsDismissalMore(t, ops, n - 1, id, before.rows[id]);
      } else {
        InsertedShows(t, ops, n - 1, id, TableAfter(t, ops, n).rows[id]);
      }
    }
  }

  // ----- The table as an object -----

  datatype Entry = Entry(id: int, row: Row)

  function SeverityOrder(severity: string): nat
  {
    if severity == "critical" then 1 else if severity == "warning" then 2 else if severity == "info" then 3 else 4
  }

  // Most severe first, and the most recently seen first among equals.
  predicate ShownBefore(a: Entry, b: Entry)
  {
    || SeverityOrder(a.row.severity) < SeverityOrder(b.row.severity)
    || (SeverityOrder(a.row.severity) == SeverityOrder(b.row.severity) && a.row.lastSeenAt > b.row.lastSeenAt)
  }

  // Critical above warning above info above anything else, then the last seen first.
  ghost predicate InOrderOfList(a: Row, b: Row)
  {
    && (b.severity == "critical" ==> a.severity == "critical")
    && (b.severity == "warning" ==> a.severity in {"critical", "warning"})
    && (b.severity == "info" ==> a.severity in {"critical", "warning", "info"})
    && (a.severity == b.severity ==> a.lastSeenAt >= b.lastSeenAt)
  }

  lemma ShownIsOrder()
    ensures StrictWeakOrder(ShownBefore)
  {
  }

  lemma UpsertRows(rows: Rows, nextId: int, op: Op)
    requires TableOk(rows, nextId) && op.Upsert?
    ensures forall id :: id in rows && HasKey(rows[id], op.rule, op.target) ==>
      KeyPresent(rows, op.rule, op.target) && ApplyOp(rows, nextId, op) == rows[id := Refreshed(rows[id], op.severity, op.at)]
    ensures !KeyPresent(rows, op.rule, op.target) ==>
      ApplyOp(rows, nextId, op) == rows[nextId := Inserted(op.rule, op.target, op.severity, op.at)]
  {
  }

  lemma SortedIsInOrder(found: seq<Entry>)
    requires Sorted(found, ShownBefore)
    ensures forall i, j :: 0 <= i < j < |found| ==> InOrderOfList(found[i].row, found[j].row)
  {
    forall i, j | 0 <= i < j < |found|
      ensures InOrderOfList(found[i].row, found[j].row)
    {
      assert !ShownBefore(found[j], found[i]);
    }
  }

  class Store {
    var rows: Rows
    var nextId: int

    ghost predicate Valid()
      reads this
    {
      TableOk(rows, nextId)
    }

    constructor ()
      ensures Valid() && rows == map[]
    {
      rows, nextId := map[], 1;
    }

    // One UPDATE, and an INSERT when it touched no row.
    method UpsertSuggestion(rule: string, target: string, severity: string, now: int)
      requires Valid()
      modifies this
      ensures Valid()
      ensures rows == ApplyOp(old(rows), old(nextId), Upsert(rule, target, severity, now))
      ensures nextId == NextIdAfter(old(rows), old(nextId), Upsert(rule, target, severity, now))
    {
      ghost var op := Upsert(rule, target, severity, now);
      ApplyKeepsTable(rows, nextId, op);
      UpsertRows(rows, nextId, op);
      if id :| id in rows && HasKey(rows[id], rule, target) {
        rows := rows[id := Refreshed(rows[id], severity, now)];
        return;
      }
      rows := rows[nextId := Inserted(rule, target, severity, now)];
      nextId := nextId + 1;
    }

    method ResolveSuggestion(id: int, now: int)
      requires Valid()
      modifies this
      ensures Valid() && nextId == old(nextId)
      ensures rows == ApplyOp(old(rows), old(nextId), Resolve(id, now))
    {
      ApplyKeepsTable(rows, nextId, Resolve(id, now));
      if id in rows && rows[id].status == Active {
        rows := rows[id := rows[id].(status := Resolved, resolvedAt := Some(now))];
      }
      assert rows == ApplyOp(old(rows), old(nextId), Resolve(id, now));
    }

    // The dismissals users have sent in since the last statement.
    method DismissSuggestions(ids: set<int>, now: int)
      requires Valid()
      modifies this
      ensures Valid() && nextId == old(nextId)
      ensures rows == ApplyOp(old(rows), old(nextId), Dismiss(ids, now))
    {
      ApplyKeepsTable(rows, nextId, Dismiss(ids, now));
      rows := map id | id in rows :: if id in ids then DismissedRow(rows[id], now) else rows[id];
      assert rows == ApplyOp(old(rows), old(nextId), Dismiss(ids, now));
    }

    // The suggestions of a status as the lists show them.
    method GetSuggestionsByStatus(status: Status) returns (found: seq<Entry>)
      ensures forall e :: e in found <==> e.id in rows && rows[e.id] == e.row && e.row.status == status
      ensures Distinct(found)
      ensures forall i, j :: 0 <= i < j < |found| ==> InOrderOfList(found[i].row, found[j].row)
    {
      found := [];
      var left := rows.Keys;
      while exists i :: i in left
        invariant left <= rows.Keys && Distinct(found)
        invariant forall e :: e in found <==> e.id in rows && e.id !in left && rows[e.id] == e.row && e.row.status == status
        decreases |left|
      {
        var id :| id in left;
        left := left - {id};
        if rows[id].status == status {
          found := found + [Entry(id, rows[id])];
        }
      }
      ghost var unsorted := found;
      found := Sort(found, ShownBefore);
      ShownIsOrder();
      SortSorts(unsorted, ShownBefore);
      SamePopulation(unsorted, found);
      RearrangedStaysDistinct(unsorted, found);
      SortedIsInOrder(found);
    }
  }
}
