/**
  `ColumnOrder`: the position of tasks inside a kanban status column. A column is the organization's
  non-archived tasks of one status, read in `(sort_order, -created_at)` order; the helpers rewrite
  `sort_order` so that it is the dense index 0..n-1 of that order, optionally after moving one task
  to a requested position. The task table is a sequence of rows in storage order (ties in the sort
  key keep that order) whose ids are distinct.
*/
module ColumnOrder {
  import opened Wrappers
  import opened PyValues
  import opened TaskModel
  import opened LookupKeys
  import TaskEngine
  import Ordering

  /** The columns of a `Project` row the task views read. */
  datatype Project = Project(organization: string, startDate: int, endDate: int)

  /** The primary key: no two rows share an id. */
  predicate UniqueIds(rows: seq<Task>) {
    forall i, j :: 0 <= i < j < |rows| ==> rows[i].id != rows[j].id
  }

  /** `project__organization=org, status=status, is_archived=False`. */
  predicate InColumn(t: Task, projects: map<string, Project>, org: string, status: Status) {
    t.project in projects && projects[t.project].organization == org && t.status == status && !t.isArchived
  }

  /** The rows of one column, in storage order. */
  function ColumnRows(rows: seq<Task>, projects: map<string, Project>, org: string, status: Status): (r: seq<Task>)
    ensures forall t :: t in r <==> t in rows && InColumn(t, projects, org, status)
  {
    if |rows| == 0 then []
    else
      assert rows == [rows[0]] + rows[1..];
      (if InColumn(rows[0], projects, org, status) then [rows[0]] else []) + ColumnRows(rows[1..], projects, org, status)
  }

  /** `Meta.ordering = ("sort_order", "-created_at")`. */
  function TaskKey(t: Task): Ordering.Key {
    (t.sortOrder, -t.createdAt)
  }

  /** The column as `order_by("sort_order", "-created_at")` returns it. */
  function ColumnOrder(rows: seq<Task>, projects: map<string, Project>, org: string, status: Status): seq<Task> {
    Ordering.SortBy(ColumnRows(rows, projects, org, status), TaskKey)
  }

  /** `values_list("id", flat=True)`. */
  function Ids(s: seq<Task>): (r: seq<string>)
    ensures |r| == |s| && forall i :: 0 <= i < |s| ==> r[i] == s[i].id
  {
    seq(|s|, i requires 0 <= i < |s| => s[i].id)
  }

  lemma {:induction false} ColumnRowsDistinct(rows: seq<Task>, projects: map<string, Project>, org: string, status: Status)
    requires Ordering.Distinct(rows)
    ensures Ordering.Distinct(ColumnRows(rows, projects, org, status))
  {
    if |rows| > 0 {
      var rest := ColumnRows(rows[1..], projects, org, status);
      assert Ordering.Distinct(rows[1..]) by {
        forall i, j | 0 <= i < j < |rows[1..]|
          ensures rows[1..][i] != rows[1..][j]
        {
          assert rows[1..][i] == rows[i + 1] && rows[1..][j] == rows[j + 1];
        }
      }
      ColumnRowsDistinct(rows[1..], projects, org, status);
      if InColumn(rows[0], projects, org, status) {
        var r := [rows[0]] + rest;
        forall i, j | 0 <= i < j < |r|
          ensures r[i] != r[j]
        {
          assert r[j] == rest[j - 1];
          if i == 0 {
            assert rest[j - 1] in rows[1..];
          } else {
            assert r[i] == rest[i - 1];
          }
        }
      }
    }
  }

  /** The column query returns exactly the column's rows, sorted, with no id twice. */
  lemma ColumnOrderCorrect(rows: seq<Task>, projects: map<string, Project>, org: string, status: Status)
    requires UniqueIds(rows)
    ensures Ordering.SortedBy(ColumnOrder(rows, projects, org, status), TaskKey)
    ensures forall t :: t in ColumnOrder(rows, projects, org, status) <==> t in rows && InColumn(t, projects, org, status)
    ensures Ordering.Distinct(Ids(ColumnOrder(rows, projects, org, status)))
    ensures |ColumnOrder(rows, projects, org, status)| == |ColumnRows(rows, projects, org, status)|
  {
    var col := ColumnRows(rows, projects, org, status);
    var sorted := ColumnOrder(rows, projects, org, status);
    Ordering.SortByCorrect(col, TaskKey);
    forall t
      ensures t in sorted <==> t in rows && InColumn(t, projects, org, status)
    {
      Ordering.SortByMembers(col, TaskKey, t);
    }
    assert Ordering.Distinct(rows) by {
      forall i, j | 0 <= i < j < |rows|
        ensures rows[i] != rows[j]
      {
        assert rows[i].id != rows[j].id;
      }
    }
    ColumnRowsDistinct(rows, projects, org, status);
    Ordering.SortByDistinct(col, TaskKey);
    var ids := Ids(sorted);
    forall i, j | 0 <= i < j < |ids|
      ensures ids[i] != ids[j]
    {
      assert sorted[i] in rows && sorted[j] in rows;
      var a :| 0 <= a < |rows| && rows[a] == sorted[i];
      var b :| 0 <= b < |rows| && rows[b] == sorted[j];
      assert sorted[i] != sorted[j];
      assert a != b;
    }
  }

  // ---------------------------------------------------------------------------
  // Renumbering
  // ---------------------------------------------------------------------------

  /** The column's rows come from the table, and their ids are distinct. */
  lemma ColumnOrderStored(rows: seq<Task>, projects: map<string, Project>, org: string, status: Status)
    requires UniqueIds(rows)
    ensures Ordering.Distinct(Ids(ColumnOrder(rows, projects, org, status)))
    ensures forall k :: 0 <= k < |ColumnOrder(rows, projects, org, status)| ==> ColumnOrder(rows, projects, org, status)[k] in rows
  {
    ColumnOrderCorrect(rows, projects, org, status);
  }

  /** A row already at its index is not written: renumbering it changes nothing. */
  lemma NormalizeSkip(start: seq<Task>, col: seq<Task>, idx: nat)
    requires UniqueIds(start) && Ordering.Distinct(Ids(col)) && idx < |col| && col[idx].sortOrder == idx
    requires forall k :: 0 <= k < |col| ==> col[k] in start
    ensures Renumber(start, Ids(col)[..idx + 1]) == Renumber(start, Ids(col)[..idx])
  {
    var ids := Ids(col);
    RenumberStep(start, ids, idx);
    assert col[idx] in start && ids[idx] == col[idx].id;
    RenumberSkip(start, ids, idx, col[idx]);
  }

  /** `Task.objects.filter(id=id).update(sort_order=v)`. */
  function SetSortOrder(rows: seq<Task>, id: string, v: nat): seq<Task> {
    seq(|rows|, k requires 0 <= k < |rows| => if rows[k].id == id then rows[k].(sortOrder := v) else rows[k])
  }

  /** `for idx, task_id in enumerate(order): ...update(sort_order=idx)`, one write after another. */
  function Renumber(rows: seq<Task>, order: seq<string>): seq<Task>
    decreases |order|
  {
    if |order| == 0 then rows
    else SetSortOrder(Renumber(rows, order[..|order| - 1]), order[|order| - 1], |order| - 1)
  }

  /** Renumbering one more id writes that id's index after the others. */
  lemma RenumberStep(rows: seq<Task>, order: seq<string>, n: nat)
    requires n < |order|
    ensures Renumber(rows, order[..n + 1]) == SetSortOrder(Renumber(rows, order[..n]), order[n], n)
  {
    assert order[..n + 1][..n] == order[..n];
  }

  /** The first index of `x` in `s`. */
  function IndexOf(s: seq<string>, x: string): (i: nat)
    requires x in s
    ensures i < |s| && s[i] == x && x !in s[..i]
  {
    if s[0] == x then 0 else 1 + IndexOf(s[1..], x)
  }

  lemma IndexOfDistinct(s: seq<string>, i: nat)
    requires Ordering.Distinct(s) && i < |s|
    ensures IndexOf(s, s[i]) == i
  {
    var r := IndexOf(s, s[i]);
    assert s[r] == s[i];
  }

  lemma DistinctPrefix(s: seq<string>, n: nat)
    requires Ordering.Distinct(s) && n <= |s|
    ensures Ordering.Distinct(s[..n])
  {
    forall i, j | 0 <= i < j < n
      ensures s[..n][i] != s[..n][j]
    {
      assert s[..n][i] == s[i] && s[..n][j] == s[j];
    }
  }

  /**
    Renumbering along an order without repetitions gives each listed task its index in the order,
    changes nothing else about any row, and leaves unlisted rows alone.
  */
  lemma {:induction false} RenumberSpec(rows: seq<Task>, order: seq<string>)
    requires Ordering.Distinct(order)
    ensures |Renumber(rows, order)| == |rows|
    ensures forall k :: 0 <= k < |rows| ==>
      Renumber(rows, order)[k] == if rows[k].id in order then rows[k].(sortOrder := IndexOf(order, rows[k].id)) else rows[k]
  {
    if |order| > 0 {
      var n := |order| - 1;
      var init := order[..n];
      DistinctPrefix(order, n);
      RenumberSpec(rows, init);
      var mid := Renumber(rows, init);
      var r := Renumber(rows, order);
      assert r == SetSortOrder(mid, order[n], n);
      forall k | 0 <= k < |rows|
        ensures r[k] == if rows[k].id in order then rows[k].(sortOrder := IndexOf(order, rows[k].id)) else rows[k]
      {
        var id := rows[k].id;
        assert mid[k].id == id;
        if id == order[n] {
          IndexOfDistinct(order, n);
          forall m | 0 <= m < n
            ensures init[m] != id
          {
            assert init[m] == order[m];
          }
        } else if id in init {
          var m := IndexOf(init, id);
          assert order[m] == id;
          IndexOfDistinct(order, m);
          IndexOfDistinct(init, m);
        } else {
          forall m | 0 <= m < |order|
            ensures order[m] != id
          {
            if m < n {
              assert order[m] == init[m];
            }
          }
        }
      }
    }
  }

  lemma RenumberKeepsIds(rows: seq<Task>, order: seq<string>)
    requires Ordering.Distinct(order) && UniqueIds(rows)
    ensures |Renumber(rows, order)| == |rows|
    ensures forall k :: 0 <= k < |rows| ==> Renumber(rows, order)[k] == rows[k].(sortOrder := Renumber(rows, order)[k].sortOrder)
    ensures UniqueIds(Renumber(rows, order))
  {
    RenumberSpec(rows, order);
    var r := Renumber(rows, order);
    forall i, j | 0 <= i < j < |r|
      ensures r[i].id != r[j].id
    {
      assert r[i].id == rows[i].id && r[j].id == rows[j].id;
    }
  }

  /** A write the loop skips would have stored the value the row already has. */
  lemma RenumberSkip(rows: seq<Task>, order: seq<string>, n: nat, t: Task)
    requires UniqueIds(rows) && Ordering.Distinct(order) && n < |order|
    requires t in rows && t.id == order[n] && t.sortOrder == n
    ensures SetSortOrder(Renumber(rows, order[..n]), order[n], n) == Renumber(rows, order[..n])
  {
    DistinctPrefix(order, n);
    RenumberSpec(rows, order[..n]);
    var mid := Renumber(rows, order[..n]);
    forall m | 0 <= m < n
      ensures order[..n][m] != order[n]
    {
      assert order[..n][m] == order[m];
    }
    forall k | 0 <= k < |mid|
      ensures SetSortOrder(mid, order[n], n)[k] == mid[k]
    {
      if mid[k].id == order[n] {
        var a :| 0 <= a < |rows| && rows[a] == t;
        assert rows[k].id == rows[a].id;
        assert k == a;
      }
    }
  }

  /** The ids the normalizing loop writes: those at positions whose stored order differs from the index. */
  function Mismatched(col: seq<Task>, n: nat): seq<string>
    requires n <= |col|
  {
    if n == 0 then []
    else Mismatched(col, n - 1) + (if col[n - 1].sortOrder != n - 1 then [col[n - 1].id] else [])
  }

  /** Exactly the rows out of place are written. */
  lemma {:induction false} MismatchedMembers(col: seq<Task>, n: nat, x: string)
    requires n <= |col|
    ensures x in Mismatched(col, n) <==> exists i :: 0 <= i < n && col[i].id == x && col[i].sortOrder != i
  {
    if n > 0 {
      MismatchedMembers(col, n - 1, x);
      if col[n - 1].id == x && col[n - 1].sortOrder != n - 1 {
        assert x in Mismatched(col, n);
      }
    }
  }

  /**
    After normalizing, the listed tasks of the column carry their index in the column's order, no
    other row changes, and every row keeps all its other fields.
  */
  lemma NormalizeYieldsDenseOrder(rows: seq<Task>, projects: map<string, Project>, org: string, status: Status)
    requires UniqueIds(rows)
    ensures var col := ColumnOrder(rows, projects, org, status);
      var r := Renumber(rows, Ids(col));
      |r| == |rows| && UniqueIds(r) &&
      (forall i, k :: 0 <= i < |col| && 0 <= k < |r| && r[k].id == col[i].id ==> r[k].sortOrder == i) &&
      (forall k :: 0 <= k < |rows| && !InColumn(rows[k], projects, org, status) ==> r[k] == rows[k]) &&
      (forall k :: 0 <= k < |rows| ==> r[k] == rows[k].(sortOrder := r[k].sortOrder))
  {
    var col := ColumnOrder(rows, projects, org, status);
    var ids := Ids(col);
    ColumnOrderCorrect(rows, projects, org, status);
    RenumberSpec(rows, ids);
    RenumberKeepsIds(rows, ids);
    var r := Renumber(rows, ids);
    forall i, k | 0 <= i < |col| && 0 <= k < |r| && r[k].id == col[i].id
      ensures r[k].sortOrder == i
    {
      assert rows[k].id == ids[i];
      IndexOfDistinct(ids, i);
    }
    forall k | 0 <= k < |rows| && !InColumn(rows[k], projects, org, status)
      ensures r[k] == rows[k]
    {
      forall i | 0 <= i < |ids|
        ensures ids[i] != rows[k].id
      {
        assert col[i] in rows;
        var a :| 0 <= a < |rows| && rows[a] == col[i];
        assert a != k;
      }
    }
  }

  // ---------------------------------------------------------------------------
  // Insertion at a position
  // ---------------------------------------------------------------------------

  /** `ids.remove(x)`: drops the first occurrence. */
  function RemoveFirst(s: seq<string>, x: string): seq<string> {
    if |s| == 0 then []
    else if s[0] == x then s[1..]
    else [s[0]] + RemoveFirst(s[1..], x)
  }

  lemma {:induction false} RemoveFirstSpec(s: seq<string>, x: string)
    ensures x !in s ==> RemoveFirst(s, x) == s
    ensures x in s ==> RemoveFirst(s, x) == s[..IndexOf(s, x)] + s[IndexOf(s, x) + 1..]
  {
    if |s| > 0 && s[0] != x {
      RemoveFirstSpec(s[1..], x);
      if x in s {
        assert x in s[1..];
        assert IndexOf(s, x) == 1 + IndexOf(s[1..], x);
        assert s[..IndexOf(s, x)] == [s[0]] + s[1..][..IndexOf(s[1..], x)];
        assert s[IndexOf(s, x) + 1..] == s[1..][IndexOf(s[1..], x) + 1..];
      } else {
        assert s == [s[0]] + s[1..];
      }
    }
  }

  /** `max(0, min(position, n))`. */
  function Clamp(position: int, n: nat): nat {
    if position < 0 then 0 else if position > n then n else position
  }

  /** The column's id list after `remove` and `insert(position, id)`. */
  function PlaceAt(ids: seq<string>, id: string, position: int): seq<string> {
    var others := RemoveFirst(ids, id);
    var p := Clamp(position, |others|);
    others[..p] + [id] + others[p..]
  }

  /** Removing an id from a list without repetitions keeps every other id, once, in order. */
  lemma RemoveFirstDistinct(ids: seq<string>, id: string)
    requires Ordering.Distinct(ids)
    ensures var others := RemoveFirst(ids, id);
      id !in others && Ordering.Distinct(others) &&
      (forall y :: y in others <==> y in ids && y != id) &&
      (id in ids ==> |others| == |ids| - 1) && (id !in ids ==> others == ids)
  {
    RemoveFirstSpec(ids, id);
    if id in ids {
      var m := IndexOf(ids, id);
      DropIndexDistinct(ids, m);
    }
  }

  /** Dropping the entry at `m` of a list without repetitions keeps every other entry, once. */
  lemma DropIndexDistinct(ids: seq<string>, m: nat)
    requires Ordering.Distinct(ids) && m < |ids|
    ensures var others := ids[..m] + ids[m + 1..];
      ids[m] !in others && Ordering.Distinct(others) && |others| == |ids| - 1 &&
      (forall y :: y in others <==> y in ids && y != ids[m])
  {
    var others := ids[..m] + ids[m + 1..];
    forall i | 0 <= i < |others|
      ensures others[i] == ids[if i < m then i else i + 1]
    {
    }
    forall y | y in ids && y != ids[m]
      ensures y in others
    {
      var j :| 0 <= j < |ids| && ids[j] == y;
      assert others[if j < m then j else j - 1] == y;
    }
  }

  /** `list.insert(p, id)` into a list without repetitions that lacks `id`. */
  lemma InsertAtSpec(others: seq<string>, id: string, p: nat)
    requires Ordering.Distinct(others) && id !in others && p <= |others|
    ensures var r := others[..p] + [id] + others[p..];
      |r| == |others| + 1 && r[p] == id && r[..p] + r[p + 1..] == others && Ordering.Distinct(r)
  {
    var r := others[..p] + [id] + others[p..];
    assert r[..p] == others[..p];
    assert r[p + 1..] == others[p..];
    assert others[..p] + others[p..] == others;
    forall i, j | 0 <= i < j < |r|
      ensures r[i] != r[j]
    {
      if i < p && j > p {
        assert r[i] == others[i] && r[j] == others[j - 1];
      } else if j < p {
        assert r[i] == others[i] && r[j] == others[j];
      } else if i > p {
        assert r[i] == others[i - 1] && r[j] == others[j - 1];
      } else if i == p {
        assert r[j] == others[j - 1];
      } else {
        assert r[i] == others[i];
      }
    }
  }

  /** The task lands at the clamped index and the other ids keep their relative order. */
  lemma PlaceAtSpec(ids: seq<string>, id: string, position: int)
    requires Ordering.Distinct(ids)
    ensures var others := RemoveFirst(ids, id);
      var p := Clamp(position, |others|);
      var r := PlaceAt(ids, id, position);
      (0 <= position <= |others| ==> p == position) &&
      |r| == |others| + 1 && r[p] == id && r[..p] + r[p + 1..] == others &&
      Ordering.Distinct(r)
  {
    RemoveFirstDistinct(ids, id);
    InsertAtSpec(RemoveFirst(ids, id), id, Clamp(position, |RemoveFirst(ids, id)|));
  }

  /**
    After `insert_task_at_position`, the task carries the clamped index, every other task of the
    column carries its index in the new order, and no row outside the order changes.
  */
  lemma InsertPlacesTask(rows: seq<Task>, projects: map<string, Project>, org: string, status: Status,
                         taskId: string, position: int)
    requires UniqueIds(rows)
    ensures var order := PlaceAt(Ids(ColumnOrder(rows, projects, org, status)), taskId, position);
      var p := Clamp(position, |order| - 1);
      var r := Renumber(rows, order);
      |r| == |rows| && UniqueIds(r) &&
      (forall k :: 0 <= k < |r| && r[k].id == taskId ==> r[k].sortOrder == p) &&
      (forall i, k :: 0 <= i < |order| && 0 <= k < |r| && r[k].id == order[i] ==> r[k].sortOrder == i) &&
      (forall k :: 0 <= k < |rows| && rows[k].id !in order ==> r[k] == rows[k]) &&
      (forall k :: 0 <= k < |rows| ==> r[k] == rows[k].(sortOrder := r[k].sortOrder))
  {
    var ids := Ids(ColumnOrder(rows, projects, org, status));
    ColumnOrderCorrect(rows, projects, org, status);
    PlaceAtSpec(ids, taskId, position);
    var order := PlaceAt(ids, taskId, position);
    RenumberSpec(rows, order);
    RenumberKeepsIds(rows, order);
    var r := Renumber(rows, order);
    var p := Clamp(position, |order| - 1);
    forall i, k | 0 <= i < |order| && 0 <= k < |r| && r[k].id == order[i]
      ensures r[k].sortOrder == i
    {
      IndexOfDistinct(order, i);
    }
    forall k | 0 <= k < |r| && r[k].id == taskId
      ensures r[k].sortOrder == p
    {
      IndexOfDistinct(order, p);
    }
  }

  // ---------------------------------------------------------------------------
  // Moving and creating tasks
  // ---------------------------------------------------------------------------

  /** `task.save(update_fields=["status", ...])`. */
  function SetStatus(rows: seq<Task>, id: string, s: Status): seq<Task> {
    seq(|rows|, k requires 0 <= k < |rows| => if rows[k].id == id then rows[k].(status := s) else rows[k])
  }

  /** The automation triggers `tasks_move` fires after the move. */
  function MoveEvents(oldStatus: Status, newStatus: Status): (r: seq<TaskEngine.Event>) {
    if oldStatus == newStatus then []
    else
      [TaskEngine.StatusChange(StatusName(oldStatus), StatusName(newStatus))] +
      (if newStatus == Done then [TaskEngine.Completed] else [])
  }

  /** The move fires status-changed exactly on a change, and task-completed only on a change into DONE. */
  lemma MoveEventsSpec(oldStatus: Status, newStatus: Status)
    ensures (|MoveEvents(oldStatus, newStatus)| > 0) <==> oldStatus != newStatus
    ensures TaskEngine.Completed in MoveEvents(oldStatus, newStatus) <==> oldStatus != newStatus && newStatus == Done
    ensures oldStatus != newStatus ==>
      MoveEvents(oldStatus, newStatus)[0] == TaskEngine.StatusChange(StatusName(oldStatus), StatusName(newStatus))
  {
  }

  /** `int(request.POST.get("position", "0"))`, with 0 when that raises `ValueError`. */
  function ParsePosition(raw: Option<string>): int {
    var parsed := ParseInt(raw.GetOr("0"));
    if parsed.Some? then parsed.value else 0
  }

  /** The table after a move to a valid status (the body of the atomic block in `tasks_move`). */
  function MovedRows(rows: seq<Task>, projects: map<string, Project>, org: string, task: Task,
                     newStatus: Status, position: int): seq<Task>
  {
    var s1 := if task.status != newStatus then SetStatus(rows, task.id, newStatus) else rows;
    var s2 := Renumber(s1, PlaceAt(Ids(ColumnOrder(s1, projects, org, newStatus)), task.id, position));
    var s3 := Renumber(s2, Ids(ColumnOrder(s2, projects, org, newStatus)));
    if task.status != newStatus then Renumber(s3, Ids(ColumnOrder(s3, projects, org, task.status))) else s3
  }

  /** `b` is `a` with, at most, other sort orders. */
  predicate OnlyOrdersDiffer(a: seq<Task>, b: seq<Task>) {
    |a| == |b| && forall k :: 0 <= k < |a| ==> b[k] == a[k].(sortOrder := b[k].sortOrder)
  }

  /** The column's n tasks carry the orders 0..n-1: each below n, no two alike. */
  predicate DenseColumn(rows: seq<Task>, projects: map<string, Project>, org: string, status: Status) {
    var n := |ColumnRows(rows, projects, org, status)|;
    (forall k :: 0 <= k < |rows| && InColumn(rows[k], projects, org, status) ==> rows[k].sortOrder < n) &&
    (forall k, l :: 0 <= k < l < |rows| && InColumn(rows[k], projects, org, status) && InColumn(rows[l], projects, org, status) ==>
       rows[k].sortOrder != rows[l].sortOrder)
  }

  /** Rewriting orders keeps the column's size. */
  lemma {:induction false} ColumnSizeKept(a: seq<Task>, b: seq<Task>, projects: map<string, Project>, org: string, status: Status)
    requires OnlyOrdersDiffer(a, b)
    ensures |ColumnRows(b, projects, org, status)| == |ColumnRows(a, projects, org, status)|
  {
    if |a| > 0 {
      assert OnlyOrdersDiffer(a[1..], b[1..]) by {
        forall k | 0 <= k < |a[1..]|
          ensures b[1..][k] == a[1..][k].(sortOrder := b[1..][k].sortOrder)
        {
          assert a[1..][k] == a[k + 1] && b[1..][k] == b[k + 1];
        }
      }
      ColumnSizeKept(a[1..], b[1..], projects, org, status);
      assert InColumn(b[0], projects, org, status) <==> InColumn(a[0], projects, org, status);
    }
  }

  /** A task of the column gets, on normalizing, its index in the column's order. */
  lemma NormalizedIndex(rows: seq<Task>, projects: map<string, Project>, org: string, status: Status, k: nat)
    returns (i: nat)
    requires UniqueIds(rows) && k < |rows| && InColumn(rows[k], projects, org, status)
    ensures var col := ColumnOrder(rows, projects, org, status);
      i < |col| && col[i] == rows[k] && i < |ColumnRows(rows, projects, org, status)| &&
      |Renumber(rows, Ids(col))| == |rows| && Renumber(rows, Ids(col))[k].sortOrder == i
  {
    var col := ColumnOrder(rows, projects, org, status);
    ColumnOrderCorrect(rows, projects, org, status);
    NormalizeYieldsDenseOrder(rows, projects, org, status);
    Ordering.SortByCorrect(ColumnRows(rows, projects, org, status), TaskKey);
    assert rows[k] in col;
    i :| 0 <= i < |col| && col[i] == rows[k];
  }

  /** Normalizing a column makes it dense and changes only orders. */
  lemma NormalizedIsDense(rows: seq<Task>, projects: map<string, Project>, org: string, status: Status)
    requires UniqueIds(rows)
    ensures var r := Renumber(rows, Ids(ColumnOrder(rows, projects, org, status)));
      OnlyOrdersDiffer(rows, r) && UniqueIds(r) && DenseColumn(r, projects, org, status)
  {
    var col := ColumnOrder(rows, projects, org, status);
    var r := Renumber(rows, Ids(col));
    NormalizeYieldsDenseOrder(rows, projects, org, status);
    ColumnSizeKept(rows, r, projects, org, status);
    forall k | 0 <= k < |r| && InColumn(r[k], projects, org, status)
      ensures r[k].sortOrder < |ColumnRows(r, projects, org, status)|
    {
      assert InColumn(rows[k], projects, org, status);
      var i := NormalizedIndex(rows, projects, org, status, k);
    }
    forall k, l | 0 <= k < l < |r| && InColumn(r[k], projects, org, status) && InColumn(r[l], projects, org, status)
      ensures r[k].sortOrder != r[l].sortOrder
    {
      assert InColumn(rows[k], projects, org, status) && InColumn(rows[l], projects, org, status);
      var i := NormalizedIndex(rows, projects, org, status, k);
      var j := NormalizedIndex(rows, projects, org, status, l);
      assert rows[k].id != rows[l].id;
    }
  }

  /** A column stays dense when only rows outside it change, and only in their orders. */
  lemma DenseKeptOutside(a: seq<Task>, b: seq<Task>, projects: map<string, Project>, org: string, status: Status)
    requires OnlyOrdersDiffer(a, b) && DenseColumn(a, projects, org, status)
    requires forall k :: 0 <= k < |a| && InColumn(a[k], projects, org, status) ==> b[k] == a[k]
    ensures DenseColumn(b, projects, org, status)
  {
    ColumnSizeKept(a, b, projects, org, status);
  }

  /** The table after `SetStatus` has the same ids. */
  lemma SetStatusKeepsIds(rows: seq<Task>, id: string, s: Status)
    requires UniqueIds(rows)
    ensures UniqueIds(SetStatus(rows, id, s))
  {
    var r := SetStatus(rows, id, s);
    assert forall k :: 0 <= k < |rows| ==> r[k].id == rows[k].id;
  }

  /**
    `tasks_move` leaves the destination column dense, and the column the task left dense too:
    each touched column's n tasks carry the orders 0..n-1.
  */
  lemma MovedRowsDense(rows: seq<Task>, projects: map<string, Project>, org: string, task: Task,
                       newStatus: Status, position: int)
    requires UniqueIds(rows)
    ensures var m := MovedRows(rows, projects, org, task, newStatus, position);
      DenseColumn(m, projects, org, newStatus) && (task.status != newStatus ==> DenseColumn(m, projects, org, task.status))
  {
    var s1 := if task.status != newStatus then SetStatus(rows, task.id, newStatus) else rows;
    SetStatusKeepsIds(rows, task.id, newStatus);
    InsertPlacesTask(s1, projects, org, newStatus, task.id, position);
    var s2 := Renumber(s1, PlaceAt(Ids(ColumnOrder(s1, projects, org, newStatus)), task.id, position));
    NormalizedIsDense(s2, projects, org, newStatus);
    var s3 := Renumber(s2, Ids(ColumnOrder(s2, projects, org, newStatus)));
    if task.status != newStatus {
      NormalizedIsDense(s3, projects, org, task.status);
      NormalizeYieldsDenseOrder(s3, projects, org, task.status);
      var s4 := Renumber(s3, Ids(ColumnOrder(s3, projects, org, task.status)));
      DenseKeptOutside(s3, s4, projects, org, newStatus);
    }
  }

  /** Placing an id of a list without repetitions keeps the same ids. */
  lemma PlaceAtSameIds(ids: seq<string>, id: string, position: int)
    requires Ordering.Distinct(ids) && id in ids
    ensures |PlaceAt(ids, id, position)| == |ids|
    ensures forall y :: y in PlaceAt(ids, id, position) <==> y in ids
  {
    RemoveFirstDistinct(ids, id);
    var others := RemoveFirst(ids, id);
    var p := Clamp(position, |others|);
    assert others == others[..p] + others[p..];
    forall y
      ensures y in PlaceAt(ids, id, position) <==> y in ids
    {
      assert y in others <==> y in others[..p] || y in others[p..];
    }
  }

  /** Orders strictly rising along a sequence. */
  predicate Rising(col: seq<Task>) {
    forall i, j :: 0 <= i < j < |col| ==> col[i].sortOrder < col[j].sortOrder
  }

  lemma {:induction false} RisingLower(col: seq<Task>, j: nat)
    requires Rising(col) && j < |col|
    ensures col[j].sortOrder >= j
  {
    if j > 0 {
      RisingLower(col, j - 1);
    }
  }

  lemma {:induction false} RisingUpper(col: seq<Task>, j: nat)
    requires Rising(col) && j < |col|
    ensures col[j].sortOrder + (|col| - 1 - j) <= col[|col| - 1].sortOrder
    decreases |col| - j
  {
    if j < |col| - 1 {
      RisingUpper(col, j + 1);
    }
  }

  /** A sorted column whose n orders are distinct and below n carries exactly the orders 0..n-1, in place. */
  lemma ConsecutiveOrders(col: seq<Task>)
    requires Ordering.SortedBy(col, TaskKey)
    requires forall j :: 0 <= j < |col| ==> col[j].sortOrder < |col|
    requires forall i, j :: 0 <= i < j < |col| ==> col[i].sortOrder != col[j].sortOrder
    ensures forall j :: 0 <= j < |col| ==> col[j].sortOrder == j
  {
    assert Rising(col) by {
      forall i, j | 0 <= i < j < |col|
        ensures col[i].sortOrder < col[j].sortOrder
      {
        assert Ordering.KeyLe(TaskKey(col[i]), TaskKey(col[j]));
      }
    }
    forall j | 0 <= j < |col|
      ensures col[j].sortOrder == j
    {
      RisingLower(col, j);
      RisingUpper(col, j);
    }
  }

  /**
    After placing a task of the column at a position, the column read back in its query order
    carries the orders 0..n-1 in place, so the normalization that follows writes the same orders.
  */
  lemma PlacedColumnConsecutive(s1: seq<Task>, projects: map<string, Project>, org: string, status: Status,
                                kt: nat, position: int)
    requires UniqueIds(s1) && kt < |s1| && InColumn(s1[kt], projects, org, status)
    ensures var order := PlaceAt(Ids(ColumnOrder(s1, projects, org, status)), s1[kt].id, position);
      var s2 := Renumber(s1, order);
      var col2 := ColumnOrder(s2, projects, org, status);
      |order| == |col2| && |col2| == |ColumnRows(s1, projects, org, status)| &&
      forall j :: 0 <= j < |col2| ==> col2[j].sortOrder == j
  {
    var order, s2, col2 := PlacedRowsIndexed(s1, projects, org, status, kt, position);
    forall a, b | 0 <= a < b < |col2|
      ensures col2[a].id != col2[b].id
    {
      assert Ids(col2)[a] != Ids(col2)[b];
    }
    IndexedOrdersConsecutive(col2, order);
  }

  /**
    After placing a task of the column, the column read back in its query order is sorted, has
    distinct ids, and each of its rows carries the index of its id in the new order.
  */
  lemma PlacedRowsIndexed(s1: seq<Task>, projects: map<string, Project>, org: string, status: Status,
                          kt: nat, position: int) returns (order: seq<string>, s2: seq<Task>, col2: seq<Task>)
    requires UniqueIds(s1) && kt < |s1| && InColumn(s1[kt], projects, org, status)
    ensures order == PlaceAt(Ids(ColumnOrder(s1, projects, org, status)), s1[kt].id, position)
    ensures s2 == Renumber(s1, order) && col2 == ColumnOrder(s2, projects, org, status)
    ensures |order| == |col2| && |col2| == |ColumnRows(s1, projects, org, status)|
    ensures Ordering.SortedBy(col2, TaskKey) && Ordering.Distinct(Ids(col2))
    ensures forall j :: 0 <= j < |col2| ==>
      exists i :: 0 <= i < |order| && order[i] == col2[j].id && col2[j].sortOrder == i
  {
    var col1;
    col1, order, s2 := PlacementFacts(s1, projects, org, status, kt, position);
    order, s2 := PlacementWrites(s1, projects, org, status, kt, position);
    ColumnSizeKept(s1, s2, projects, org, status);
    col2 := ColumnOrder(s2, projects, org, status);
    ColumnOrderCorrect(s2, projects, org, status);
    forall j | 0 <= j < |col2|
      ensures exists i :: 0 <= i < |order| && order[i] == col2[j].id && col2[j].sortOrder == i
    {
      PlacedRowIndex(s1, s2, col1, order, projects, org, status, col2[j]);
    }
  }

  /** What placing the task of row `kt` in its column writes: only orders, each id's index in the order. */
  lemma PlacementFacts(s1: seq<Task>, projects: map<string, Project>, org: string, status: Status,
                       kt: nat, position: int) returns (col1: seq<Task>, order: seq<string>, s2: seq<Task>)
    requires UniqueIds(s1) && kt < |s1| && InColumn(s1[kt], projects, org, status)
    ensures col1 == ColumnOrder(s1, projects, org, status)
    ensures order == PlaceAt(Ids(col1), s1[kt].id, position) && s2 == Renumber(s1, order)
    ensures |order| == |ColumnRows(s1, projects, org, status)|
    ensures forall u :: u in s1 && InColumn(u, projects, org, status) ==> u in col1
    ensures forall c :: 0 <= c < |col1| ==> col1[c].id in order
  {
    col1 := ColumnOrder(s1, projects, org, status);
    var ids1 := Ids(col1);
    var id := s1[kt].id;
    ColumnOrderCorrect(s1, projects, org, status);
    assert s1[kt] in col1;
    PlaceAtSameIds(ids1, id, position);
    order := PlaceAt(ids1, id, position);
    s2 := Renumber(s1, order);
    assert |order| == |col1|;
    forall c | 0 <= c < |col1|
      ensures col1[c].id in order
    {
      assert ids1[c] == col1[c].id;
    }
  }

  /** Placing the task of row `kt`: only orders change, and each id of the order gets its index. */
  lemma PlacementWrites(s1: seq<Task>, projects: map<string, Project>, org: string, status: Status,
                        kt: nat, position: int) returns (order: seq<string>, s2: seq<Task>)
    requires UniqueIds(s1) && kt < |s1|
    ensures order == PlaceAt(Ids(ColumnOrder(s1, projects, org, status)), s1[kt].id, position)
    ensures s2 == Renumber(s1, order)
    ensures OnlyOrdersDiffer(s1, s2) && UniqueIds(s2)
    ensures forall i, k :: 0 <= i < |order| && 0 <= k < |s2| && s2[k].id == order[i] ==> s2[k].sortOrder == i
  {
    order := PlaceAt(Ids(ColumnOrder(s1, projects, org, status)), s1[kt].id, position);
    InsertPlacesTask(s1, projects, org, status, s1[kt].id, position);
    s2 := Renumber(s1, order);
    assert OnlyOrdersDiffer(s1, s2);
  }

  /** One row of the column after the placement carries the index of its id in the new order. */
  lemma PlacedRowIndex(s1: seq<Task>, s2: seq<Task>, col1: seq<Task>, order: seq<string>,
                       projects: map<string, Project>, org: string, status: Status, t: Task)
    requires OnlyOrdersDiffer(s1, s2) && t in s2 && InColumn(t, projects, org, status)
    requires forall u :: u in s1 && InColumn(u, projects, org, status) ==> u in col1
    requires forall c :: 0 <= c < |col1| ==> col1[c].id in order
    requires forall i, k :: 0 <= i < |order| && 0 <= k < |s2| && s2[k].id == order[i] ==> s2[k].sortOrder == i
    ensures exists i :: 0 <= i < |order| && order[i] == t.id && t.sortOrder == i
  {
    var k :| 0 <= k < |s2| && s2[k] == t;
    assert s1[k].id == t.id && InColumn(s1[k], projects, org, status);
    assert s1[k] in col1;
    var c :| 0 <= c < |col1| && col1[c] == s1[k];
    assert col1[c].id == t.id && t.id in order;
    var i :| 0 <= i < |order| && order[i] == t.id;
  }

  /** A sorted column whose rows carry the index of their (distinct) ids in `order` has orders 0..n-1. */
  lemma IndexedOrdersConsecutive(col: seq<Task>, order: seq<string>)
    requires Ordering.SortedBy(col, TaskKey) && |order| == |col|
    requires forall a, b :: 0 <= a < b < |col| ==> col[a].id != col[b].id
    requires forall j :: 0 <= j < |col| ==>
      exists i :: 0 <= i < |order| && order[i] == col[j].id && col[j].sortOrder == i
    ensures forall j :: 0 <= j < |col| ==> col[j].sortOrder == j
  {
    var n := |col|;
    forall j | 0 <= j < n
      ensures col[j].sortOrder < n
    {
      var i :| 0 <= i < |order| && order[i] == col[j].id && col[j].sortOrder == i;
    }
    forall a, b | 0 <= a < b < n
      ensures col[a].sortOrder != col[b].sortOrder
    {
      var i :| 0 <= i < |order| && order[i] == col[a].id && col[a].sortOrder == i;
      var i' :| 0 <= i' < |order| && order[i'] == col[b].id && col[b].sortOrder == i';
    }
    ConsecutiveOrders(col);
  }

  /**
    After `tasks_move` the task (when it belongs to the destination column) carries its requested
    position, clamped to 0..n-1 for the n tasks of that column.
  */
  lemma MovedRowsPlacesTask(rows: seq<Task>, projects: map<string, Project>, org: string, task: Task,
                            newStatus: Status, position: int)
    requires UniqueIds(rows) && task in rows
    requires InColumn(task.(status := newStatus), projects, org, newStatus)
    ensures var m := MovedRows(rows, projects, org, task, newStatus, position);
      var n := |ColumnRows(m, projects, org, newStatus)|;
      n > 0 && forall k :: 0 <= k < |m| && m[k].id == task.id ==> m[k].sortOrder == Clamp(position, n - 1)
  {
    var m, kt, n := MovedTaskRow(rows, projects, org, task, newStatus, position);
    SameIdSameRow(m, kt);
  }

  /** The moved task's row `kt` in the rows `tasks_move` leaves: it sits at the clamped position of its column. */
  lemma MovedTaskRow(rows: seq<Task>, projects: map<string, Project>, org: string, task: Task,
                     newStatus: Status, position: int) returns (m: seq<Task>, kt: nat, n: nat)
    requires UniqueIds(rows) && task in rows
    requires InColumn(task.(status := newStatus), projects, org, newStatus)
    ensures m == MovedRows(rows, projects, org, task, newStatus, position)
    ensures UniqueIds(m) && kt < |m| && m[kt].id == task.id
    ensures n == |ColumnRows(m, projects, org, newStatus)| && n > 0 && m[kt].sortOrder == Clamp(position, n - 1)
  {
    var s1;
    kt, s1 := StatusSaved(rows, task, newStatus);
    var s3;
    n, s3 := PlacedThenNormalized(s1, projects, org, newStatus, kt, position);
    m := MovedRows(rows, projects, org, task, newStatus, position);
    if task.status != newStatus {
      assert m == Renumber(s3, Ids(ColumnOrder(s3, projects, org, task.status)));
      LeftColumnNormalized(s3, projects, org, task.status, newStatus, kt);
    } else {
      assert m == s3;
    }
  }

  /** The status save of `tasks_move`: the task's row `kt` gets the new status, the ids stay unique. */
  lemma StatusSaved(rows: seq<Task>, task: Task, newStatus: Status) returns (kt: nat, s1: seq<Task>)
    requires UniqueIds(rows) && task in rows
    ensures s1 == if task.status != newStatus then SetStatus(rows, task.id, newStatus) else rows
    ensures UniqueIds(s1) && kt < |s1| && s1[kt] == task.(status := newStatus)
  {
    kt :| 0 <= kt < |rows| && rows[kt] == task;
    s1 := if task.status != newStatus then SetStatus(rows, task.id, newStatus) else rows;
    SetStatusKeepsIds(rows, task.id, newStatus);
  }

  /** Normalizing the column a task left keeps the task's row and the size of its new column. */
  lemma LeftColumnNormalized(s3: seq<Task>, projects: map<string, Project>, org: string, oldStatus: Status,
                             newStatus: Status, kt: nat)
    requires UniqueIds(s3) && kt < |s3| && s3[kt].status == newStatus && newStatus != oldStatus
    ensures var m := Renumber(s3, Ids(ColumnOrder(s3, projects, org, oldStatus)));
      UniqueIds(m) && |m| == |s3| && m[kt] == s3[kt] &&
      |ColumnRows(m, projects, org, newStatus)| == |ColumnRows(s3, projects, org, newStatus)|
  {
    var m := Renumber(s3, Ids(ColumnOrder(s3, projects, org, oldStatus)));
    OtherColumnNormalized(s3, projects, org, oldStatus, kt);
    ColumnSizeKept(s3, m, projects, org, newStatus);
  }

  /** In a table with unique ids, row `kt` is the only row with its id. */
  lemma SameIdSameRow(m: seq<Task>, kt: nat)
    requires UniqueIds(m) && kt < |m|
    ensures forall k :: 0 <= k < |m| && m[k].id == m[kt].id ==> k == kt
  {
  }

  /** Normalizing a column changes no row outside it, and only orders anywhere. */
  lemma OtherColumnNormalized(rows: seq<Task>, projects: map<string, Project>, org: string, status: Status, kt: nat)
    requires UniqueIds(rows) && kt < |rows| && rows[kt].status != status
    ensures var r := Renumber(rows, Ids(ColumnOrder(rows, projects, org, status)));
      OnlyOrdersDiffer(rows, r) && UniqueIds(r) && r[kt] == rows[kt]
  {
    NormalizeYieldsDenseOrder(rows, projects, org, status);
  }

  /**
    Placing the task of row `kt` and then normalizing its column: the task keeps the clamped index,
    for the n tasks of the column, and only orders change.
  */
  lemma PlacedThenNormalized(s1: seq<Task>, projects: map<string, Project>, org: string, status: Status,
                             kt: nat, position: int) returns (n: nat, s3: seq<Task>)
    requires UniqueIds(s1) && kt < |s1| && InColumn(s1[kt], projects, org, status)
    ensures var s2 := Renumber(s1, PlaceAt(Ids(ColumnOrder(s1, projects, org, status)), s1[kt].id, position));
      s3 == Renumber(s2, Ids(ColumnOrder(s2, projects, org, status)))
    ensures n > 0 && n == |ColumnRows(s3, projects, org, status)| &&
      OnlyOrdersDiffer(s1, s3) && UniqueIds(s3) && s3[kt].sortOrder == Clamp(position, n - 1)
  {
    var order := PlaceAt(Ids(ColumnOrder(s1, projects, org, status)), s1[kt].id, position);
    InsertPlacesTask(s1, projects, org, status, s1[kt].id, position);
    PlacedColumnConsecutive(s1, projects, org, status, kt, position);
    var s2 := Renumber(s1, order);
    n := |order|;
    assert s2[kt].sortOrder == Clamp(position, n - 1);
    var col2 := ColumnOrder(s2, projects, org, status);
    var j := NormalizedIndex(s2, projects, org, status, kt);
    NormalizeYieldsDenseOrder(s2, projects, org, status);
    s3 := Renumber(s2, Ids(col2));
    assert OnlyOrdersDiffer(s1, s2) && OnlyOrdersDiffer(s2, s3);
    ColumnSizeKept(s1, s2, projects, org, status);
    ColumnSizeKept(s2, s3, projects, org, status);
  }

  /** Why `tasks_create` refuses a request with a 400; nothing is created in each case. */
  datatype CreateError =
    | MissingTitle
    | MissingProject
    | ProjectNotFound
    | NotAMember
    | InvalidDueFormat
    | DueOutsideProject(startDate: int, endDate: int)
    | IdeaCardNotFound

  /** The `due_date` field after `parse_date`: blank, unparsable, or the instant 17:00 of that day. */
  datatype DueField = NoDue | UnparsableDue | DueAt(at: int)

  /** The POST fields `tasks_create` reads, before stripping. */
  datatype CreateRequest = CreateRequest(title: string, project: string, assignee: string, due: DueField,
                                         ideaCard: string, linkUrl: string, linkTitle: string)

  /**
    The validation chain of `tasks_create`: a refusal (a 400), an exception raised by a lookup whose
    id the key field cannot convert (a 500), or the values the task is created with.
  */
  datatype CreateOutcome =
    | Refused(reason: CreateError)
    | Raised(message: string)
    | Accepted(title: string, project: string, assignee: string, due: Option<int>, ideaCard: Option<string>)

  /** A `TaskLink` row. */
  datatype TaskLink = TaskLink(task: string, url: string, title: string)

  /** The task `tasks_create` inserts (defaults for every field it does not pass). */
  function NewTask(id: string, a: CreateOutcome, now: int): Task
    requires a.Accepted?
  {
    Task(id, a.project, a.title, "", None, Todo, Medium, a.due, None, None, a.ideaCard, a.assignee,
         0, 0, 0, false, None, None, None, now)
  }

  /**
    The checks of `tasks_create`, in its order. `projects` is keyed by the project's primary key,
    `members` holds (organization, user primary key) pairs and `ideaCards` maps a board card's id
    to its board's organization; `creator` is the requesting user's primary key.
  */
  function CheckCreate(projects: map<string, Project>, members: set<(string, string)>, ideaCards: map<string, string>,
                       org: string, creator: string, req: CreateRequest): CreateOutcome
  {
    var title := Strip(req.title);
    var projectId := Strip(req.project);
    var assigneeId := Strip(req.assignee);
    var cardId := Strip(req.ideaCard);
    if title == "" then Refused(MissingTitle)
    else if projectId == "" then Refused(MissingProject)
    else
      match UuidKey(JStr(projectId))
      case Err(msg) => Raised(msg)
      case Ok(project) =>
        if project !in projects || projects[project].organization != org then Refused(ProjectNotFound)
        else
          var assignee := if assigneeId == "" then Ok(creator) else IntKey(JStr(assigneeId));
          if assignee.Err? then Raised(assignee.error)
          else if assigneeId != "" && (org, assignee.value) !in members then Refused(NotAMember)
          else CheckDueAndCard(projects[project], ideaCards, org, title, project, assignee.value, req.due, cardId)
  }

  /** The checks of `tasks_create` after the assignee's: the due date, then the idea card. */
  function CheckDueAndCard(p: Project, ideaCards: map<string, string>, org: string,
                           title: string, project: string, assignee: string, dueField: DueField, cardId: string): CreateOutcome
  {
    if dueField.UnparsableDue? then Refused(InvalidDueFormat)
    else if dueField.DueAt? && (dueField.at < p.startDate || dueField.at > p.endDate) then
      Refused(DueOutsideProject(p.startDate, p.endDate))
    else
      var due := if dueField.DueAt? then Some(dueField.at) else None;
      if cardId == "" then Accepted(title, project, assignee, due, None)
      else
        match UuidKey(JStr(cardId))
        case Err(msg) => Raised(msg)
        case Ok(card) =>
          if card in ideaCards && ideaCards[card] == org then Accepted(title, project, assignee, due, Some(card))
          else Refused(IdeaCardNotFound)
  }

  /** With a valid title, project and assignee, only the due date and idea card checks remain. */
  lemma ReachesDueCheck(projects: map<string, Project>, members: set<(string, string)>, ideaCards: map<string, string>,
                        org: string, creator: string, req: CreateRequest)
    requires ValidUpToDue(projects, members, org, req)
    ensures var project := UuidKey(JStr(Strip(req.project))).value;
      var assignee := if Strip(req.assignee) == "" then creator else IntKey(JStr(Strip(req.assignee))).value;
      project in projects &&
      CheckCreate(projects, members, ideaCards, org, creator, req) ==
      CheckDueAndCard(projects[project], ideaCards, org, Strip(req.title), project, assignee, req.due, Strip(req.ideaCard))
  {
  }

  /** A request with a valid title, project and assignee: the checks that remain. */
  predicate ValidUpToDue(projects: map<string, Project>, members: set<(string, string)>, org: string, req: CreateRequest) {
    Strip(req.title) != "" && Strip(req.project) != "" && UuidKey(JStr(Strip(req.project))).Ok? &&
    var project := UuidKey(JStr(Strip(req.project))).value;
    project in projects && projects[project].organization == org &&
    (Strip(req.assignee) == "" ||
     (IntKey(JStr(Strip(req.assignee))).Ok? && (org, IntKey(JStr(Strip(req.assignee))).value) in members))
  }

  /**
    With a valid title, project and assignee, a due date outside the project's period is refused,
    an unparsable one is refused, and any other due date is kept; a blank assignee is the creator.
  */
  lemma CreateDueDateRange(projects: map<string, Project>, members: set<(string, string)>, ideaCards: map<string, string>,
                           org: string, creator: string, req: CreateRequest)
    requires ValidUpToDue(projects, members, org, req)
    ensures var p := projects[UuidKey(JStr(Strip(req.project))).value];
      var r := CheckCreate(projects, members, ideaCards, org, creator, req);
      (req.due.UnparsableDue? ==> r == Refused(InvalidDueFormat)) &&
      (req.due.DueAt? ==> (r == Refused(DueOutsideProject(p.startDate, p.endDate)) <==> req.due.at < p.startDate || req.due.at > p.endDate)) &&
      (r.Accepted? ==> r.due == (if req.due.DueAt? then Some(req.due.at) else None) && r.project == UuidKey(JStr(Strip(req.project))).value) &&
      (r.Accepted? && Strip(req.assignee) == "" ==> r.assignee == creator)
  {
    ReachesDueCheck(projects, members, ideaCards, org, creator, req);
    var project := UuidKey(JStr(Strip(req.project))).value;
    var assignee := if Strip(req.assignee) == "" then creator else IntKey(JStr(Strip(req.assignee))).value;
    DueChecks(projects[project], ideaCards, org, Strip(req.title), project, assignee, req.due, Strip(req.ideaCard));
  }

  /** The due date checks on their own: an unparsable date, then the project's period. */
  lemma DueChecks(p: Project, ideaCards: map<string, string>, org: string,
                  title: string, project: string, assignee: string, dueField: DueField, cardId: string)
    ensures var r := CheckDueAndCard(p, ideaCards, org, title, project, assignee, dueField, cardId);
      (dueField.UnparsableDue? ==> r == Refused(InvalidDueFormat)) &&
      (dueField.DueAt? ==> (r == Refused(DueOutsideProject(p.startDate, p.endDate)) <==> dueField.at < p.startDate || dueField.at > p.endDate)) &&
      (r.Accepted? ==> r.due == (if dueField.DueAt? then Some(dueField.at) else None) && r.project == project && r.assignee == assignee)
  {
  }

  /**
    The idea card check comes last: with every other field valid, a blank idea card creates a task
    without one, a malformed id raises, and a well-formed id is accepted exactly when the card is on
    a board of the organization, in which case the task links it.
  */
  lemma CreateIdeaCardCheck(projects: map<string, Project>, members: set<(string, string)>, ideaCards: map<string, string>,
                            org: string, creator: string, req: CreateRequest)
    requires ValidUpToDue(projects, members, org, req)
    requires req.due == NoDue || (req.due.DueAt? &&
      var p := projects[UuidKey(JStr(Strip(req.project))).value]; p.startDate <= req.due.at <= p.endDate)
    ensures var r := CheckCreate(projects, members, ideaCards, org, creator, req);
      var cardId := Strip(req.ideaCard);
      (cardId == "" ==> r.Accepted? && r.ideaCard == None) &&
      (cardId != "" ==>
        (r.Raised? <==> UuidKey(JStr(cardId)).Err?) &&
        (r.Accepted? <==> UuidKey(JStr(cardId)).Ok? && UuidKey(JStr(cardId)).value in ideaCards &&
                          ideaCards[UuidKey(JStr(cardId)).value] == org) &&
        (r.Accepted? ==> r.ideaCard == Some(UuidKey(JStr(cardId)).value)) &&
        (!r.Raised? && !r.Accepted? ==> r == Refused(IdeaCardNotFound)))
  {
    ReachesDueCheck(projects, members, ideaCards, org, creator, req);
  }

  /**
    An accepted task belongs to the organization's TODO column and, created after every task already
    there, it heads that column: once the column is normalized it keeps `sort_order` 0 and every
    other task of the column comes after it.
  */
  lemma CreatedTaskLeadsTodo(rows: seq<Task>, projects: map<string, Project>, members: set<(string, string)>,
                             ideaCards: map<string, string>, org: string, creator: string, req: CreateRequest,
                             newId: string, now: int)
    requires UniqueIds(rows) && forall k :: 0 <= k < |rows| ==> rows[k].id != newId
    requires CheckCreate(projects, members, ideaCards, org, creator, req).Accepted?
    requires forall k :: 0 <= k < |rows| && InColumn(rows[k], projects, org, Todo) ==> rows[k].createdAt < now
    ensures var t := NewTask(newId, CheckCreate(projects, members, ideaCards, org, creator, req), now);
      var all := rows + [t];
      var r := Renumber(all, Ids(ColumnOrder(all, projects, org, Todo)));
      InColumn(t, projects, org, Todo) && |r| == |all| && r[|rows|] == t && t.sortOrder == 0 &&
      forall k :: 0 <= k < |rows| && InColumn(rows[k], projects, org, Todo) ==> r[k].sortOrder > 0
  {
    var a := CheckCreate(projects, members, ideaCards, org, creator, req);
    AcceptedProjectOfOrganization(projects, members, ideaCards, org, creator, req);
    NewestLeadsColumn(rows, projects, org, NewTask(newId, a, now));
  }

  /** An accepted request names a project of the organization. */
  lemma AcceptedProjectOfOrganization(projects: map<string, Project>, members: set<(string, string)>,
                                      ideaCards: map<string, string>, org: string, creator: string, req: CreateRequest)
    requires CheckCreate(projects, members, ideaCards, org, creator, req).Accepted?
    ensures var a := CheckCreate(projects, members, ideaCards, org, creator, req);
      a.project in projects && projects[a.project].organization == org
  {
    var key := UuidKey(JStr(Strip(req.project)));
    assert Strip(req.title) != "" && Strip(req.project) != "" && key.Ok?;
    var project := key.value;
    assert project in projects && projects[project].organization == org;
    var assignee := if Strip(req.assignee) == "" then Ok(creator) else IntKey(JStr(Strip(req.assignee)));
    assert assignee.Ok?;
    DueAndCardKeepsProject(projects[project], ideaCards, org, Strip(req.title), project, assignee.value, req.due, Strip(req.ideaCard));
  }

  /** The due date and idea card checks accept the request with the project they were given. */
  lemma DueAndCardKeepsProject(p: Project, ideaCards: map<string, string>, org: string,
                               title: string, project: string, assignee: string, dueField: DueField, cardId: string)
    ensures var r := CheckDueAndCard(p, ideaCards, org, title, project, assignee, dueField, cardId);
      r.Accepted? ==> r.project == project
  {
  }

  /** In a sorted column, a row whose key is strictly below every other row's comes first. */
  lemma SortedLeastFirst(col: seq<Task>, i: int)
    requires Ordering.SortedBy(col, TaskKey) && 0 <= i < |col|
    requires forall j :: 0 <= j < |col| && j != i ==> !Ordering.KeyLe(TaskKey(col[j]), TaskKey(col[i]))
    ensures i == 0
  {
    var head, x := col[0], col[i];
    assert 0 < i ==> Ordering.KeyLe(TaskKey(head), TaskKey(x));
  }

  /** Appending a row with a fresh id keeps ids unique. */
  lemma AppendFreshUnique(rows: seq<Task>, t: Task)
    requires UniqueIds(rows) && forall k :: 0 <= k < |rows| ==> rows[k].id != t.id
    ensures UniqueIds(rows + [t])
  {
    var all := rows + [t];
    forall i, j | 0 <= i < j < |all|
      ensures all[i].id != all[j].id
    {
      if j < |rows| {
        assert all[i] == rows[i] && all[j] == rows[j];
      } else {
        assert all[i] == rows[i];
      }
    }
  }

  /** A new TODO row at order 0, newer than every task of its column, comes first in column order. */
  lemma NewestFirstInOrder(rows: seq<Task>, projects: map<string, Project>, org: string, t: Task)
    requires UniqueIds(rows + [t])
    requires InColumn(t, projects, org, Todo) && t.sortOrder == 0
    requires forall k :: 0 <= k < |rows| && InColumn(rows[k], projects, org, Todo) ==> rows[k].createdAt < t.createdAt
    ensures var col := ColumnOrder(rows + [t], projects, org, Todo);
      |col| > 0 && col[0] == t
  {
    var all := rows + [t];
    var col := ColumnOrder(all, projects, org, Todo);
    ColumnOrderCorrect(all, projects, org, Todo);
    assert all[|rows|] == t;
    assert t in col;
    var i :| 0 <= i < |col| && col[i] == t;
    forall j | 0 <= j < |col| && j != i
      ensures !Ordering.KeyLe(TaskKey(col[j]), TaskKey(col[i]))
    {
      assert Ids(col)[j] != Ids(col)[i];
      assert col[j] in all;
      var k :| 0 <= k < |all| && all[k] == col[j];
      assert k < |rows| && all[k] == rows[k];
    }
    SortedLeastFirst(col, i);
  }

  /** A new TODO row at order 0, newer than every task of its column, heads the normalized column. */
  lemma NewestLeadsColumn(rows: seq<Task>, projects: map<string, Project>, org: string, t: Task)
    requires UniqueIds(rows) && forall k :: 0 <= k < |rows| ==> rows[k].id != t.id
    requires InColumn(t, projects, org, Todo) && t.sortOrder == 0
    requires forall k :: 0 <= k < |rows| && InColumn(rows[k], projects, org, Todo) ==> rows[k].createdAt < t.createdAt
    ensures var all := rows + [t];
      var r := Renumber(all, Ids(ColumnOrder(all, projects, org, Todo)));
      |r| == |all| && r[|rows|] == t &&
      forall k :: 0 <= k < |rows| && InColumn(rows[k], projects, org, Todo) ==> r[k].sortOrder > 0
  {
    var all := rows + [t];
    AppendFreshUnique(rows, t);
    NewestFirstInOrder(rows, projects, org, t);
    var col := ColumnOrder(all, projects, org, Todo);
    ColumnOrderCorrect(all, projects, org, Todo);
    NormalizeYieldsDenseOrder(all, projects, org, Todo);
    var r := Renumber(all, Ids(col));
    assert all[|rows|] == t;
    assert r[|rows|].sortOrder == 0;
    forall k | 0 <= k < |rows| && InColumn(rows[k], projects, org, Todo)
      ensures r[k].sortOrder > 0
    {
      assert all[k] == rows[k];
      var i :| 0 <= i < |col| && col[i] == rows[k];
      assert col[i].id != t.id;
      assert r[k].sortOrder == i;
    }
  }

  /** The task table the task views change. */
  class ColumnStore {
    var rows: seq<Task>
    var links: seq<TaskLink>
    const projects: map<string, Project>
    const members: set<(string, string)>   // (organization, user) memberships
    const ideaCards: map<string, string>   // board card id to its board's organization

    constructor(rows: seq<Task>, links: seq<TaskLink>, projects: map<string, Project>, members: set<(string, string)>,
                ideaCards: map<string, string>)
      requires UniqueIds(rows)
      ensures this.rows == rows && this.links == links
      ensures this.projects == projects && this.members == members && this.ideaCards == ideaCards
    {
      this.rows := rows;
      this.links := links;
      this.projects := projects;
      this.members := members;
      this.ideaCards := ideaCards;
    }

    /** `normalize_column_order`: returns the ids it issued an update for. */
    method NormalizeColumnOrder(org: string, status: Status) returns (written: seq<string>)
      requires UniqueIds(rows)
      modifies this`rows
      ensures var col := ColumnOrder(old(rows), projects, org, status);
        rows == Renumber(old(rows), Ids(col)) && written == Mismatched(col, |col|)
      ensures UniqueIds(rows)
    {
      var col := ColumnOrder(rows, projects, org, status);
      ColumnOrderStored(rows, projects, org, status);
      var ids := Ids(col);
      ghost var start := rows;
      written := [];
      var idx := 0;
      while idx < |col|
        invariant 0 <= idx <= |col|
        invariant rows == Renumber(start, ids[..idx])
        invariant written == Mismatched(col, idx)
      {
        assert Mismatched(col, idx + 1) == Mismatched(col, idx) + (if col[idx].sortOrder != idx then [col[idx].id] else []);
        if col[idx].sortOrder != idx {
          RenumberStep(start, ids, idx);
          rows := SetSortOrder(rows, col[idx].id, idx);
          written := written + [col[idx].id];
        } else {
          NormalizeSkip(start, col, idx);
        }
        idx := idx + 1;
      }
      assert ids[..|col|] == ids;
      RenumberKeepsIds(start, ids);
    }

    /** `insert_task_at_position`: the task is placed in the column's id list, then every id is written. */
    method InsertTaskAtPosition(org: string, taskId: string, newStatus: Status, position: int)
      requires UniqueIds(rows)
      modifies this`rows
      ensures rows == Renumber(old(rows), PlaceAt(Ids(ColumnOrder(old(rows), projects, org, newStatus)), taskId, position))
      ensures UniqueIds(rows)
    {
      var ids := Ids(ColumnOrder(rows, projects, org, newStatus));
      ColumnOrderCorrect(rows, projects, org, newStatus);
      PlaceAtSpec(ids, taskId, position);
      ghost var target := PlaceAt(ids, taskId, position);
      RemoveFirstSpec(ids, taskId);
      if taskId in ids {
        ids := RemoveFirst(ids, taskId);
      }
      var p := Clamp(position, |ids|);
      ids := ids[..p] + [taskId] + ids[p..];
      assert ids == target;
      WriteOrder(ids);
    }

    /** The renumbering loop: `sort_order` of the id at index `idx` becomes `idx`. */
    method WriteOrder(order: seq<string>)
      requires UniqueIds(rows) && Ordering.Distinct(order)
      modifies this`rows
      ensures rows == Renumber(old(rows), order)
      ensures UniqueIds(rows)
    {
      ghost var start := rows;
      var idx := 0;
      while idx < |order|
        invariant 0 <= idx <= |order|
        invariant rows == Renumber(start, order[..idx])
      {
        assert order[..idx + 1][..idx] == order[..idx];
        rows := SetSortOrder(rows, order[idx], idx);
        idx := idx + 1;
      }
      assert order[..|order|] == order;
      RenumberKeepsIds(start, order);
    }

    /**
      `tasks_move` for a task of the organization: an unknown status is refused with nothing
      changed; otherwise the status is saved, the task is placed, both columns are normalized,
      and the triggers to fire are returned.
    */
    method MoveTask(org: string, task: Task, rawStatus: Option<string>, rawPosition: Option<string>)
      returns (r: Option<seq<TaskEngine.Event>>)
      requires UniqueIds(rows) && task in rows
      modifies this`rows
      ensures var parsed := ParseStatus(Strip(rawStatus.GetOr("")));
        match parsed
        case None => r == None && rows == old(rows)
        case Some(s) =>
          r == Some(MoveEvents(task.status, s)) &&
          rows == MovedRows(old(rows), projects, org, task, s, ParsePosition(rawPosition)) &&
          DenseColumn(rows, projects, org, s) && (task.status != s ==> DenseColumn(rows, projects, org, task.status))
      ensures UniqueIds(rows)
    {
      var parsed := ParseStatus(Strip(rawStatus.GetOr("")));
      var position := ParsePosition(rawPosition);
      if parsed.None? {
        return None;
      }
      var newStatus := parsed.value;
      var oldStatus := task.status;
      if oldStatus != newStatus {
        rows := SetStatus(rows, task.id, newStatus);
        assert forall k :: 0 <= k < |rows| ==> rows[k].id == old(rows)[k].id;
      }
      InsertTaskAtPosition(org, task.id, newStatus, position);
      var _ := NormalizeColumnOrder(org, newStatus);
      if oldStatus != newStatus {
        var _ := NormalizeColumnOrder(org, oldStatus);
      }
      MovedRowsDense(old(rows), projects, org, task, newStatus, position);
      r := Some(MoveEvents(oldStatus, newStatus));
    }

    /**
      `tasks_create` after its request parsing: on a refusal or a raised lookup nothing is stored;
      otherwise the TODO task is appended (its `sort_order` is 0, and the extra update for a task
      assigned to someone else writes 0 again), a link is stored when a link URL was given, the TODO
      column is normalized, and `task_created` is the trigger to fire.
    */
    method CreateTask(org: string, creator: string, req: CreateRequest, newId: string, now: int)
      returns (r: CreateOutcome, events: seq<TaskEngine.Event>)
      requires UniqueIds(rows) && forall k :: 0 <= k < |rows| ==> rows[k].id != newId
      modifies this
      ensures r == CheckCreate(projects, members, ideaCards, org, creator, req)
      ensures !r.Accepted? ==> rows == old(rows) && links == old(links) && events == []
      ensures r.Accepted? ==>
        var t := NewTask(newId, r, now);
        rows == Renumber(old(rows) + [t], Ids(ColumnOrder(old(rows) + [t], projects, org, Todo))) &&
        links == old(links) + (if Strip(req.linkUrl) == "" then [] else [TaskLink(newId, Strip(req.linkUrl), Strip(req.linkTitle))]) &&
        events == [TaskEngine.Created]
      ensures UniqueIds(rows)
    {
      r := CheckCreate(projects, members, ideaCards, org, creator, req);
      if !r.Accepted? {
        return r, [];
      }
      var t := NewTask(newId, r, now);
      rows := rows + [t];
      var linkUrl := Strip(req.linkUrl);
      if linkUrl != "" {
        links := links + [TaskLink(newId, linkUrl, Strip(req.linkTitle))];
      }
      if r.assignee != creator {
        rows := SetSortOrder(rows, newId, 0);
        assert rows == old(rows) + [t];
      }
      var _ := NormalizeColumnOrder(org, Todo);
      events := [TaskEngine.Created];
    }
  }
}
