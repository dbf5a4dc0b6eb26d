/** Audit log pagination: the filter, the page arithmetic, and what all pages together show. */
module AuditPages {
  import opened Common

  const DEFAULT_PAGE_SIZE: nat := 50

  datatype LogRow = LogRow(id: int, actor: string, projectId: Option<string>, action: string)

  datatype Filter = Filter(userId: string, projectId: string, action: string, page: int, pageSize: int)

  /** What the filter means: empty fields do not restrict. */
  predicate Matches(f: Filter, row: LogRow) {
    && (f.userId != "" ==> row.actor == f.userId)
    && (f.projectId != "" ==> row.projectId == Some(f.projectId))
    && (f.action != "" ==> row.action == f.action)
  }

  // ---------- the dynamic WHERE clause ----------

  datatype Column = Actor | ProjectId | Action

  /** One "column = $index" condition. */
  datatype Clause = Clause(column: Column, index: nat)

  function ColumnOf(row: LogRow, c: Column): Option<string> {
    match c
    case Actor => Some(row.actor)
    case ProjectId => row.projectId
    case Action => Some(row.action)
  }

  /** The row meets every condition, with parameters counted from 1. */
  predicate Satisfies(row: LogRow, where: seq<Clause>, args: seq<string>) {
    forall i :: 0 <= i < |where| ==>
      1 <= where[i].index <= |args| && ColumnOf(row, where[i].column) == Some(args[where[i].index - 1])
  }

  /** Builds the conditions and their arguments; the page size and offset follow as the next two parameters. */
  method BuildWhere(f: Filter) returns (where: seq<Clause>, args: seq<string>, argIdx: nat)
    ensures argIdx == |args| + 1
    ensures forall row :: Satisfies(row, where, args) <==> Matches(f, row)
    ensures forall row :: Satisfies(row, where, args) <==>
              && (f.userId == "" || row.actor == f.userId)
              && (f.projectId == "" || row.projectId == Some(f.projectId)) && (f.action == "" || row.action == f.action)
  {
    where, args, argIdx := AddClause([], [], 1, Actor, f.userId);
    where, args, argIdx := AddClause(where, args, argIdx, ProjectId, f.projectId);
    where, args, argIdx := AddClause(where, args, argIdx, Action, f.action);
  }

  /** One optional condition: a clause and its argument if the filter has a value for the column. */
  method AddClause(where: seq<Clause>, args: seq<string>, argIdx: nat, c: Column, value: string)
    returns (where2: seq<Clause>, args2: seq<string>, argIdx2: nat)
    requires argIdx == |args| + 1 && WellNumbered(where, args)
    ensures argIdx2 == |args2| + 1 && WellNumbered(where2, args2)
    ensures forall row :: Satisfies(row, where2, args2) <==>
              Satisfies(row, where, args) && (value != "" ==> ColumnOf(row, c) == Some(value))
  {
    where2, args2, argIdx2 := where, args, argIdx;
    if value != "" {
      where2 := where2 + [Clause(c, argIdx)];
      args2 := args2 + [value];
      argIdx2 := argIdx2 + 1;
      forall row
        ensures Satisfies(row, where2, args2) <==> Satisfies(row, where, args) && ColumnOf(row, c) == Some(value)
      {
        SatisfiesSnoc(row, where, args, c, value);
      }
    }
  }

  /** Every clause names one of the arguments. */
  ghost predicate WellNumbered(where: seq<Clause>, args: seq<string>) {
    forall i :: 0 <= i < |where| ==> 1 <= where[i].index <= |args|
  }

  lemma {:induction false} SatisfiesSnoc(row: LogRow, where: seq<Clause>, args: seq<string>, c: Column, arg: string)
    requires forall i :: 0 <= i < |where| ==> 1 <= where[i].index <= |args|
    ensures Satisfies(row, where + [Clause(c, |args| + 1)], args + [arg])
            <==> Satisfies(row, where, args) && ColumnOf(row, c) == Some(arg)
  {
    var w, a := where + [Clause(c, |args| + 1)], args + [arg];
    assert forall i :: 0 <= i < |where| ==> w[i] == where[i] && a[where[i].index - 1] == args[where[i].index - 1];
    assert w[|where|] == Clause(c, |args| + 1) && a[|args|] == arg;
  }

  // ---------- one page ----------

  /** The matching rows, newest (highest id) first; the table itself is in insertion order. */
  function Newest(table: seq<LogRow>, f: Filter): seq<LogRow> {
    if table == [] then []
    else (if Matches(f, table[|table| - 1]) then [table[|table| - 1]] else []) + Newest(table[..|table| - 1], f)
  }

  /** LIMIT and OFFSET. */
  function Slice(rows: seq<LogRow>, offset: nat, limit: nat): seq<LogRow> {
    if offset >= |rows| then []
    else if offset + limit >= |rows| then rows[offset..]
    else rows[offset..offset + limit]
  }

  /** LIMIT and OFFSET skip and cut: the row at each place of the page, and how many there are. */
  lemma {:induction false} SliceIsExact(rows: seq<LogRow>, offset: nat, limit: nat)
    ensures var page := Slice(rows, offset, limit);
            && |page| == (if offset >= |rows| then 0 else if offset + limit >= |rows| then |rows| - offset else limit)
            && forall i :: 0 <= i < |page| ==> offset + i < |rows| && page[i] == rows[offset + i]
  {
  }

  /** AuditLog: page number and size fall back to their defaults, and the total is that of all matching rows. */
  function AuditLog(table: seq<LogRow>, f: Filter): (seq<LogRow>, nat) {
    var rows := Newest(table, f);
    (Slice(rows, Offset(f), Size(f)), |rows|)
  }

  function Size(f: Filter): nat {
    if f.pageSize <= 0 then DEFAULT_PAGE_SIZE else f.pageSize
  }

  function Offset(f: Filter): nat {
    if f.page <= 0 then 0 else (f.page - 1) * Size(f)
  }

  /** The rows the WHERE clause selects, highest id first. */
  method SelectRows(table: seq<LogRow>, f: Filter) returns (matching: seq<LogRow>)
    ensures matching == Newest(table, f)
  {
    var where, args, _ := BuildWhere(f);
    matching := [];
    for i := 0 to |table|
      invariant matching == Newest(table[..i], f)
    {
      assert table[..i + 1][..i] == table[..i];
      if Satisfies(table[i], where, args) {
        matching := [table[i]] + matching;
      }
    }
    assert table[..|table|] == table;
  }

  /** The count query, the data query, and the loop over its result. */
  method RunAuditLog(table: seq<LogRow>, f: Filter) returns (results: seq<LogRow>, total: nat)
    ensures (results, total) == AuditLog(table, f)
    ensures var size, page := if f.pageSize <= 0 then 50 else f.pageSize, if f.page <= 0 then 1 else f.page;
            total == |Newest(table, f)| && results == Slice(Newest(table, f), (page - 1) * size, size)
  {
    var size, page := f.pageSize, f.page;
    if size <= 0 {
      size := DEFAULT_PAGE_SIZE;
    }
    if page <= 0 {
      page := 1;
    }
    var offset := (page - 1) * size;
    assert size == Size(f) && offset == Offset(f);
    var matching := SelectRows(table, f);
    total := |matching|;
    var rows := Slice(matching, offset, size);
    results := [];
    for i := 0 to |rows|
      invariant results == rows[..i]
    {
      results := results + [rows[i]];
    }
    assert results == rows;
  }

  /** The page count shown: at least one page. */
  function TotalPages(total: nat, size: nat): nat
    requires size > 0
  {
    var n := (total + size - 1) / size;
    if n < 1 then 1 else n
  }

  datatype AuditView = AuditView(rows: seq<LogRow>, total: nat, page: int, totalPages: nat)

  /** The admin page: a page below 1 (or unreadable, which parses to 0) becomes page 1; the size is always 50. */
  method GetAudit(table: seq<LogRow>, page0: int, userId: string, projectId: string, action: string)
    returns (view: AuditView)
    ensures var f := Filter(userId, projectId, action, 1, DEFAULT_PAGE_SIZE);
            && view.page == (if page0 < 1 then 1 else page0)
            && view.total == |Newest(table, f)| && view.totalPages == TotalPages(view.total, DEFAULT_PAGE_SIZE)
            && view.rows == Page(table, f, view.page) == Slice(Newest(table, f), (view.page - 1) * 50, 50)
            && view.totalPages >= 1 && view.totalPages * 50 >= view.total
            && (if view.total == 0 then view.totalPages == 1 else (view.totalPages - 1) * 50 < view.total)
            && (view.page > view.totalPages ==> view.rows == [])
  {
    var page := page0;
    if page < 1 {
      page := 1;
    }
    var filter := Filter(userId, projectId, action, page, 50);
    var rows, total := RunAuditLog(table, filter);
    var totalPages := (total + filter.pageSize - 1) / filter.pageSize;
    if totalPages < 1 {
      totalPages := 1;
    }
    view := AuditView(rows, total, page, totalPages);
    NewestIgnoresPage(table, filter, Filter(userId, projectId, action, 1, 50));
    PagesSuffice(total, 50);
  }

  /** What the given page of the filter shows. */
  function Page(table: seq<LogRow>, f: Filter, page: int): seq<LogRow> {
    AuditLog(table, f.(page := page)).0
  }

  lemma {:induction false} NewestIgnoresPage(table: seq<LogRow>, f: Filter, g: Filter)
    requires (f.userId, f.projectId, f.action) == (g.userId, g.projectId, g.action)
    ensures Newest(table, f) == Newest(table, g)
  {
    if table != [] {
      NewestIgnoresPage(table[..|table| - 1], f, g);
    }
  }

  /** The rows behind the pages are exactly the matching rows, ids strictly descending. */
  lemma {:induction false} NewestIsExact(table: seq<LogRow>, f: Filter)
    requires forall i, j :: 0 <= i < j < |table| ==> table[i].id < table[j].id
    ensures var rows := Newest(table, f);
            && (forall row :: row in rows <==>
                  && row in table && (f.userId == "" || row.actor == f.userId)
                  && (f.projectId == "" || row.projectId == Some(f.projectId)) && (f.action == "" || row.action == f.action))
            && (forall i, j :: 0 <= i < j < |rows| ==> rows[i].id > rows[j].id)
  {
    if table != [] {
      var n := |table| - 1;
      NewestIsExact(table[..n], f);
      assert table == table[..n] + [table[n]];
      var older := Newest(table[..n], f);
      assert forall i :: 0 <= i < |older| ==> older[i] in older;
    }
  }

  // ---------- all pages ----------

  /** Pages 1 to n, one after the other. */
  function Pages(table: seq<LogRow>, f: Filter, n: nat): seq<LogRow> {
    if n == 0 then [] else Pages(table, f, n - 1) + Page(table, f, n)
  }

  /** The first `k` rows, or all of them. */
  function Upto(rows: seq<LogRow>, k: nat): seq<LogRow> {
    if k >= |rows| then rows else rows[..k]
  }

  lemma {:induction false} SliceExtends(rows: seq<LogRow>, k: nat, size: nat)
    ensures Upto(rows, k) + Slice(rows, k, size) == Upto(rows, k + size)
  {
  }

  lemma {:induction false} PageIsSlice(table: seq<LogRow>, f: Filter, n: nat)
    requires n >= 1
    ensures Page(table, f, n) == Slice(Newest(table, f), (n - 1) * Size(f), Size(f))
  {
    NewestIgnoresPage(table, f.(page := n), f);
  }

  lemma {:induction false} OneMorePage(n: nat, size: nat)
    requires n >= 1
    ensures (n - 1) * size >= 0 && n * size == (n - 1) * size + size
  {
  }

  lemma {:induction false} PagesArePrefix(table: seq<LogRow>, f: Filter, n: nat)
    ensures Pages(table, f, n) == Upto(Newest(table, f), n * Size(f))
  {
    if n > 0 {
      PagesArePrefix(table, f, n - 1);
      PageIsSlice(table, f, n);
      OneMorePage(n, Size(f));
      SliceExtends(Newest(table, f), (n - 1) * Size(f), Size(f));
    }
  }

  /** The page count is the least number of pages, at least one, that holds all rows. */
  lemma {:induction false} PagesSuffice(total: nat, size: nat)
    requires size > 0
    ensures TotalPages(total, size) >= 1 && TotalPages(total, size) * size >= total
    ensures if total == 0 then TotalPages(total, size) == 1 else (TotalPages(total, size) - 1) * size < total
  {
    var n := (total + size - 1) / size;
    assert n * size + (total + size - 1) % size == total + size - 1;
    if total == 0 {
      assert n == 0;
    } else {
      assert n >= 1 && (n - 1) * size == n * size - size;
    }
  }

  lemma {:induction false} FewerPagesDoNot(total: nat, size: nat, n: nat)
    requires size > 0 && 1 <= n && n * size >= total
    ensures TotalPages(total, size) <= n
  {
    PagesSuffice(total, size);
    if n < TotalPages(total, size) {
      OneMorePage(n, size);
      MultipleGrows(n, TotalPages(total, size) - 1, size);
    }
  }

  /** Pages 1 to TotalPages together are exactly the matching rows, newest first: none lost, none repeated. */
  lemma {:induction false} AllPagesShowAllRows(table: seq<LogRow>, f: Filter)
    ensures var rows := Newest(table, f);
            Pages(table, f, TotalPages(|rows|, Size(f))) == rows
  {
    var rows := Newest(table, f);
    PagesArePrefix(table, f, TotalPages(|rows|, Size(f)));
    PagesSuffice(|rows|, Size(f));
  }

  /** Every page before the last is full. */
  lemma {:induction false} EarlierPagesAreFull(table: seq<LogRow>, f: Filter, n: nat)
    requires 1 <= n < TotalPages(|Newest(table, f)|, Size(f))
    ensures |Page(table, f, n)| == Size(f)
  {
    var rows, size := Newest(table, f), Size(f);
    PageIsSlice(table, f, n);
    PagesSuffice(|rows|, size);
    MultipleGrows(n, TotalPages(|rows|, size) - 1, size);
  }

  /** With any matching row at all, the last page counted is not empty, and every page behind it is. */
  lemma {:induction false} LastPageIsTheLast(table: seq<LogRow>, f: Filter, n: nat)
    requires Newest(table, f) != [] && n >= 1
    ensures Page(table, f, n) == [] <==> n > TotalPages(|Newest(table, f)|, Size(f))
  {
    var rows, size := Newest(table, f), Size(f);
    PageIsSlice(table, f, n);
    PagesSuffice(|rows|, size);
    var last := TotalPages(|rows|, size);
    OneMorePage(last, size);
    OneMorePage(n, size);
    if n <= last {
      if n < last {
        MultipleGrows(n, last - 1, size);
      }
      assert (n - 1) * size < |rows|;
    } else {
      if last < n - 1 {
        MultipleGrows(last + 1, n - 1, size);
      }
      assert last * size <= (n - 1) * size;
    }
  }

  lemma {:induction false} MultipleGrows(a: nat, b: nat, size: nat)
    requires 1 <= a <= b
    ensures (a - 1) * size + size <= b * size
  {
    assert b * size == (a - 1) * size + size + (b - a) * size;
  }
}
