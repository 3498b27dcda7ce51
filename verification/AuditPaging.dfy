/** Cursor paging over the audit events of an organization: the query endpoint and the export loop. */
module AuditPaging {
  import opened Prelude

  datatype Event = Event(
    id: Id,
    organizationId: Id,
    eventType: string,
    actorId: Option<Id>,
    walletId: Option<Id>,  // the payload's walletId
    createdAt: int)

  // Identifiers are the table's primary key.
  ghost predicate UniqueIds(rows: seq<Event>) {
    forall i, j :: 0 <= i < j < |rows| ==> rows[i].id != rows[j].id
  }

  // ---- The database query ----

  datatype Filter = Filter(
    organizationId: Id,
    eventType: Option<string>,
    actorId: Option<Id>,
    from: Option<int>,
    to: Option<int>,
    walletId: Option<Id>)

  predicate Matches(f: Filter, e: Event) {
    && e.organizationId == f.organizationId
    && (f.eventType.Some? ==> e.eventType == f.eventType.value)
    && (f.actorId.Some? ==> e.actorId == f.actorId)
    && (f.from.Some? ==> f.from.value <= e.createdAt)
    && (f.to.Some? ==> e.createdAt < f.to.value)
    && (f.walletId.Some? ==> e.walletId == f.walletId)
  }

  function Where(table: seq<Event>, f: Filter): seq<Event> {
    if table == [] then []
    else (if Matches(f, table[0]) then [table[0]] else []) + Where(table[1..], f)
  }

  datatype Direction = Ascending | Descending

  // Whether a may come before b. Rows of the same instant may come in either order; here they keep the table's.
  predicate InOrder(d: Direction, a: Event, b: Event) {
    if d == Ascending then a.createdAt <= b.createdAt else a.createdAt >= b.createdAt
  }

  function Insert(d: Direction, e: Event, rows: seq<Event>): seq<Event> {
    if rows == [] || InOrder(d, e, rows[0]) then [e] + rows else [rows[0]] + Insert(d, e, rows[1..])
  }

  function OrderBy(d: Direction, rows: seq<Event>): seq<Event> {
    if rows == [] then [] else Insert(d, rows[0], OrderBy(d, rows[1..]))
  }

  // The rows the filter selects, in order: the list that paging cuts into pages.
  function Selected(table: seq<Event>, f: Filter, d: Direction): seq<Event> {
    OrderBy(d, Where(table, f))
  }

  // The position just after the cursor's row, or the end if the cursor names no selected row.
  function PositionAfter(rows: seq<Event>, id: Id): (n: nat)
    ensures n <= |rows|
  {
    if rows == [] then 0
    else if rows[0].id == id then 1
    else 1 + PositionAfter(rows[1..], id)
  }

  function Start(rows: seq<Event>, cursor: Option<Id>): (n: nat)
    ensures n <= |rows|
  {
    if cursor.None? then 0 else PositionAfter(rows, cursor.value)
  }

  function FindMany(table: seq<Event>, f: Filter, d: Direction, take: nat, cursor: Option<Id>): seq<Event> {
    var rows := Selected(table, f, d);
    var start := Start(rows, cursor);
    if |rows| - start <= take then rows[start..] else rows[start..start + take]
  }

  // ---- Selected is the matching rows, each once, in strict order ----

  ghost predicate Sorted(d: Direction, rows: seq<Event>) {
    forall i, j :: 0 <= i < j < |rows| ==> InOrder(d, rows[i], rows[j])
  }

  lemma {:induction false} WhereMembers(table: seq<Event>, f: Filter, e: Event)
    ensures multiset(Where(table, f))[e] == if Matches(f, e) then multiset(table)[e] else 0
    ensures e in Where(table, f) <==> e in table && Matches(f, e)
  {
    if table != [] {
      WhereMembers(table[1..], f, e);
      assert table == [table[0]] + table[1..];
    }
  }

  lemma {:induction false} InsertKeeps(d: Direction, e: Event, rows: seq<Event>)
    ensures multiset(Insert(d, e, rows)) == multiset(rows) + multiset{e}
  {
    if rows == [] || InOrder(d, e, rows[0]) {
    } else {
      InsertKeeps(d, e, rows[1..]);
      assert rows == [rows[0]] + rows[1..];
    }
  }

  lemma {:induction false} InsertSorts(d: Direction, e: Event, rows: seq<Event>)
    requires Sorted(d, rows)
    ensures Sorted(d, Insert(d, e, rows))
  {
    if rows == [] || InOrder(d, e, rows[0]) {
    } else {
      InsertSorts(d, e, rows[1..]);
      InsertKeeps(d, e, rows[1..]);
      var rest := Insert(d, e, rows[1..]);
      forall x | x in rest
        ensures InOrder(d, rows[0], x)
      {
        assert x in multiset(rest);
        assert x in rows[1..] || x == e;
      }
    }
  }

  lemma {:induction false} OrderByKeeps(d: Direction, rows: seq<Event>)
    ensures multiset(OrderBy(d, rows)) == multiset(rows)
    ensures |OrderBy(d, rows)| == |rows|
  {
    if rows != [] {
      OrderByKeeps(d, rows[1..]);
      InsertKeeps(d, rows[0], OrderBy(d, rows[1..]));
      assert rows == [rows[0]] + rows[1..];
    }
    assert |multiset(OrderBy(d, rows))| == |multiset(rows)|;
  }

  lemma {:induction false} OrderBySorts(d: Direction, rows: seq<Event>)
    ensures Sorted(d, OrderBy(d, rows))
  {
    if rows != [] {
      OrderBySorts(d, rows[1..]);
      InsertSorts(d, rows[0], OrderBy(d, rows[1..]));
    }
  }

  // A row of the organisation asked for that meets every bound and every field given.
  ghost predicate Wanted(f: Filter, e: Event) {
    && e.organizationId == f.organizationId
    && f.eventType in {None, Some(e.eventType)}
    && (f.actorId == None || (e.actorId != None && f.actorId == e.actorId))
    && (f.walletId == None || (e.walletId != None && f.walletId == e.walletId))
    && (match f.from case Some(from) => e.createdAt >= from case None => true)
    && (match f.to case Some(to) => e.createdAt < to case None => true)
  }

  // Oldest first, or newest first.
  ghost predicate Chronological(d: Direction, rows: seq<Event>) {
    forall i, j :: 0 <= i < j < |rows| ==>
      if d == Ascending then rows[i].createdAt <= rows[j].createdAt else rows[j].createdAt <= rows[i].createdAt
  }

  /** The selected list is in the order asked for and holds each wanted row of the table exactly once. */
  lemma SelectedIsTheOrderedMatches(table: seq<Event>, f: Filter, d: Direction)
    requires UniqueIds(table)
    ensures Sorted(d, Selected(table, f, d)) && UniqueIds(Selected(table, f, d))
    ensures forall e :: multiset(Selected(table, f, d))[e] == if Matches(f, e) && e in table then 1 else 0
    ensures Chronological(d, Selected(table, f, d))
    ensures forall e :: e in Selected(table, f, d) <==> e in table && Wanted(f, e)
  {
    SelectedOnce(table, f, d);
    forall e
      ensures e in Selected(table, f, d) <==> e in table && Wanted(f, e)
    {
      assert e in Selected(table, f, d) <==> multiset(Selected(table, f, d))[e] > 0;
    }
  }

  lemma SelectedOnce(table: seq<Event>, f: Filter, d: Direction)
    requires UniqueIds(table)
    ensures Sorted(d, Selected(table, f, d)) && UniqueIds(Selected(table, f, d))
    ensures forall e :: multiset(Selected(table, f, d))[e] == if Matches(f, e) && e in table then 1 else 0
  {
    OrderBySorts(d, Where(table, f));
    OrderByKeeps(d, Where(table, f));
    forall e
      ensures multiset(Selected(table, f, d))[e] == if Matches(f, e) && e in table then 1 else 0
    {
      WhereMembers(table, f, e);
      DistinctOnce(table, e);
    }
    SelectedIds(table, f, d);
  }

  lemma {:induction false} DistinctOnce(rows: seq<Event>, e: Event)
    requires UniqueIds(rows)
    ensures multiset(rows)[e] == if e in rows then 1 else 0
  {
    if rows != [] {
      DistinctOnce(rows[1..], e);
      assert rows == [rows[0]] + rows[1..];
    }
  }

  lemma {:induction false} WhereIds(table: seq<Event>, f: Filter)
    requires UniqueIds(table)
    ensures UniqueIds(Where(table, f))
  {
    if table != [] {
      WhereIds(table[1..], f);
      forall e | e in Where(table[1..], f)
        ensures e.id != table[0].id
      {
        WhereMembers(table[1..], f, e);
      }
    }
  }

  lemma {:induction false} OrderByIds(d: Direction, rows: seq<Event>)
    requires UniqueIds(rows)
    ensures UniqueIds(OrderBy(d, rows))
  {
    if rows != [] {
      var rest := OrderBy(d, rows[1..]);
      OrderByIds(d, rows[1..]);
      OrderByKeeps(d, rows[1..]);
      forall i | 0 <= i < |rest|
        ensures rest[i].id != rows[0].id
      {
        assert rest[i] in multiset(rest);
        assert rest[i] in rows[1..];
      }
      InsertIds(d, rows[0], rest);
    }
  }

  lemma {:induction false} InsertIds(d: Direction, e: Event, rows: seq<Event>)
    requires UniqueIds(rows) && forall i :: 0 <= i < |rows| ==> rows[i].id != e.id
    ensures UniqueIds(Insert(d, e, rows))
  {
    if rows == [] || InOrder(d, e, rows[0]) {
    } else {
      InsertIds(d, e, rows[1..]);
      InsertKeeps(d, e, rows[1..]);
      var rest := Insert(d, e, rows[1..]);
      forall x | x in rest
        ensures x.id != rows[0].id
      {
        assert x in multiset(rest);
        assert x in rows[1..] || x == e;
      }
    }
  }

  lemma SelectedIds(table: seq<Event>, f: Filter, d: Direction)
    requires UniqueIds(table)
    ensures UniqueIds(Selected(table, f, d))
  {
    WhereIds(table, f);
    OrderByIds(d, Where(table, f));
  }

  lemma {:induction false} PositionAfterRow(rows: seq<Event>, k: nat)
    requires k < |rows|
    requires UniqueIds(rows)
    ensures PositionAfter(rows, rows[k].id) == k + 1
  {
    if k > 0 {
      PositionAfterRow(rows[1..], k - 1);
    }
  }

  /**
   * One row more than the page is asked for: the page is the next stretch of the selected rows, there is more
   * exactly if it does not reach the end, and its last row is the cursor that continues right after it.
   */
  lemma PageOf(table: seq<Event>, f: Filter, d: Direction, size: nat, cursor: Option<Id>)
    requires UniqueIds(table)
    requires size >= 1
    ensures var rows, batch := Selected(table, f, d), FindMany(table, f, d, size + 1, cursor);
            var start, page := Start(rows, cursor), if |batch| > size then batch[..size] else batch;
            && start + |page| <= |rows|
            && page == rows[start..start + |page|]
            && (batch == [] ==> start == |rows|)
            && (|batch| > size <==> start + |page| < |rows|)
            && (page != [] ==> Start(rows, Some(page[|page| - 1].id)) == start + |page|)
  {
    hide Selected, PositionAfter, UniqueIds, Sorted;
    var rows, batch := Selected(table, f, d), FindMany(table, f, d, size + 1, cursor);
    var start, page := Start(rows, cursor), if |batch| > size then batch[..size] else batch;
    assert page == rows[start..start + |page|];
    SelectedIds(table, f, d);
    if page != [] {
      assert page[|page| - 1] == rows[start + |page| - 1];
      PositionAfterRow(rows, start + |page| - 1);
    }
  }

  // ---- The export ----

  datatype ExportRow = ExportRow(event: Event, actorEmail: Option<string>)

  function InRange(organizationId: Id, from: int, to: int): Filter {
    Filter(organizationId, None, None, Some(from), Some(to), None)
  }

  function CountInRange(table: seq<Event>, organizationId: Id, from: int, to: int): nat {
    |Where(table, InRange(organizationId, from, to))|
  }

  // The row with the email its actor has among the users, if there is one.
  function WithEmail(users: map<Id, string>, e: Event): ExportRow {
    ExportRow(e, if e.actorId.Some? && e.actorId.value in users then Some(users[e.actorId.value]) else None)
  }

  function WithEmails(users: map<Id, string>, rows: seq<Event>): seq<ExportRow> {
    seq(|rows|, i requires 0 <= i < |rows| => WithEmail(users, rows[i]))
  }

  lemma WithEmailsAppend(users: map<Id, string>, rows: seq<Event>, done: nat, more: nat)
    requires done + more <= |rows|
    ensures WithEmails(users, rows[..done + more])
            == WithEmails(users, rows[..done]) + WithEmails(users, rows[done..done + more])
  {
  }

  // The row carries the email of its own actor, or none if it has no actor or the actor is not a user.
  ghost predicate OwnEmail(users: map<Id, string>, row: ExportRow) {
    match row.event.actorId
    case Some(id) => if id in users then row.actorEmail == Some(users[id]) else row.actorEmail == None
    case None => row.actorEmail == None
  }

  // One page: the users its actors name are fetched together, then the rows are yielded one by one.
  method YieldPage(users: map<Id, string>, page: seq<Event>) returns (yielded: seq<ExportRow>)
    ensures yielded == WithEmails(users, page)
    ensures |yielded| == |page|
    ensures forall i :: 0 <= i < |page| ==> yielded[i].event == page[i] && OwnEmail(users, yielded[i])
  {
    var actorIds := set e | e in page && e.actorId.Some? :: e.actorId.value;
    var emailByUser: map<Id, string> :=
      if actorIds != {} then map id | id in users && id in actorIds :: users[id] else map[];
    yielded := [];
    for i := 0 to |page|
      invariant yielded == WithEmails(users, page[..i])
    {
      var row := page[i];
      var email :=
        if row.actorId.Some? && row.actorId.value in emailByUser then Some(emailByUser[row.actorId.value]) else None;
      assert row.actorId.Some? ==> row in page && row.actorId.value in actorIds;
      yielded := yielded + [ExportRow(row, email)];
      assert page[..i + 1] == page[..i] + [row];
    }
    assert page[..|page|] == page;
  }

  /** For every batch size the loop ends and yields the selected rows in ascending order, as many as are counted. */
  method StreamForExport(table: seq<Event>, users: map<Id, string>, organizationId: Id, from: int, to: int,
                         batchSize: nat := 500)
    returns (yielded: seq<ExportRow>)
    requires UniqueIds(table)
    requires batchSize >= 1
    ensures yielded == WithEmails(users, Selected(table, InRange(organizationId, from, to), Ascending))
    ensures |yielded| == CountInRange(table, organizationId, from, to)
    ensures forall e :: (exists row :: row in yielded && row.event == e) <==>
                        e in table && e.organizationId == organizationId && from <= e.createdAt < to
    ensures forall i, j :: 0 <= i < j < |yielded| ==>
              yielded[i].event.createdAt <= yielded[j].event.createdAt && yielded[i].event.id != yielded[j].event.id
    ensures forall row :: row in yielded ==> OwnEmail(users, row)
  {
    hide Selected, Where, FindMany, Start, WithEmails, UniqueIds;
    var f := InRange(organizationId, from, to);
    ghost var rows, done := Selected(table, f, Ascending), 0;
    SelectedCount(table, f, Ascending);
    var cursor: Option<Id> := None;
    StartOfList(users, rows);
    yielded := [];
    var hasMore := true;
    while hasMore
      invariant 0 <= done <= |rows|
      invariant yielded == WithEmails(users, rows[..done])
      invariant Start(rows, cursor) == done
      invariant !hasMore ==> done == |rows|
      decreases |rows| - done, hasMore
    {
      PageOf(table, f, Ascending, batchSize, cursor);
      var batch := FindMany(table, f, Ascending, batchSize + 1, cursor);
      if batch == [] {
        break;
      }
      hasMore := |batch| > batchSize;
      var page := if hasMore then batch[..batchSize] else batch;
      cursor := Some(page[|page| - 1].id);
      var more := YieldPage(users, page);
      WithEmailsAppend(users, rows, done, |page|);
      yielded := yielded + more;
      done := done + |page|;
    }
    assert rows[..done] == rows;
    WithEmailsLength(users, rows);
    ExportedRows(table, users, organizationId, from, to);
  }

  lemma WantedInRange(organizationId: Id, from: int, to: int, e: Event)
    ensures Wanted(InRange(organizationId, from, to), e) <==>
            e.organizationId == organizationId && from <= e.createdAt < to
  {
  }

  // What the whole export consists of.
  lemma ExportedRows(table: seq<Event>, users: map<Id, string>, organizationId: Id, from: int, to: int)
    requires UniqueIds(table)
    ensures var out := WithEmails(users, Selected(table, InRange(organizationId, from, to), Ascending));
            && (forall e :: (exists row :: row in out && row.event == e) <==>
                            e in table && e.organizationId == organizationId && from <= e.createdAt < to)
            && (forall i, j :: 0 <= i < j < |out| ==>
                  out[i].event.createdAt <= out[j].event.createdAt && out[i].event.id != out[j].event.id)
            && (forall row :: row in out ==> OwnEmail(users, row))
  {
    hide Selected, Matches;
    var f := InRange(organizationId, from, to);
    var rows := Selected(table, f, Ascending);
    var out := WithEmails(users, rows);
    SelectedIsTheOrderedMatches(table, f, Ascending);
    forall e
      ensures (exists row :: row in out && row.event == e) <==>
              e in table && e.organizationId == organizationId && from <= e.createdAt < to
    {
      WantedInRange(organizationId, from, to, e);
      if e in rows {
        var i :| 0 <= i < |rows| && rows[i] == e;
        assert out[i] in out && out[i].event == e;
      }
      if row :| row in out && row.event == e {
        var i :| 0 <= i < |out| && out[i] == row;
        assert rows[i] in rows;
      }
    }
  }

  lemma StartOfList(users: map<Id, string>, rows: seq<Event>)
    ensures Start(rows, None) == 0 && WithEmails(users, rows[..0]) == []
  {
  }

  lemma WithEmailsLength(users: map<Id, string>, rows: seq<Event>)
    ensures |WithEmails(users, rows)| == |rows|
  {
  }

  lemma SelectedCount(table: seq<Event>, f: Filter, d: Direction)
    ensures |Selected(table, f, d)| == |Where(table, f)|
  {
    OrderByKeeps(d, Where(table, f));
  }

  // ---- The query endpoint ----

  const DEFAULT_LIMIT := 50
  const MAX_LIMIT := 100

  datatype Page = Page(items: seq<Event>, nextCursor: Option<Id>)

  // The page size asked for, capped; 50 when none is asked for.
  function PageSize(limit: Option<nat>): (size: nat)
    ensures size <= 100 && (limit.None? ==> size == 50)
    ensures forall n :: limit == Some(n) ==> size == n || (n > size && size == 100)
  {
    var wanted := if limit.Some? then limit.value else DEFAULT_LIMIT;
    if wanted < MAX_LIMIT then wanted else MAX_LIMIT
  }

  function Query(table: seq<Event>, f: Filter, limit: Option<nat>, cursor: Option<Id>): Page {
    var size := PageSize(limit);
    var rows := FindMany(table, f, Descending, size + 1, cursor);
    var hasMore := |rows| > size;
    var page := if hasMore then rows[..size] else rows;
    Page(page, if hasMore && page != [] then Some(page[|page| - 1].id) else None)
  }

  // A page starts after its cursor, and its own cursor points at the row it ends with.
  lemma QueryAdvances(table: seq<Event>, f: Filter, limit: Option<nat>, cursor: Option<Id>)
    requires UniqueIds(table)
    requires PageSize(limit) >= 1
    ensures var rows, page := Selected(table, f, Descending), Query(table, f, limit, cursor);
            var start, size := Start(rows, cursor), PageSize(limit);
            if page.nextCursor.Some?
            then start + size < |rows| && page.items == rows[start..start + size]
                 && Start(rows, page.nextCursor) == start + size
            else |rows| - start <= size && page.items == rows[start..]
  {
    hide Selected, UniqueIds, FindMany, Start;
    PageOf(table, f, Descending, PageSize(limit), cursor);
  }

  // What a client sees that follows nextCursor until it is null.
  function Follow(table: seq<Event>, f: Filter, limit: Option<nat>, cursor: Option<Id>): (pages: seq<Page>)
    requires UniqueIds(table)
    requires PageSize(limit) >= 1
    decreases |Selected(table, f, Descending)| - Start(Selected(table, f, Descending), cursor)
  {
    QueryAdvances(table, f, limit, cursor);
    var page := Query(table, f, limit, cursor);
    if page.nextCursor.None? then [page] else [page] + Follow(table, f, limit, page.nextCursor)
  }

  function Items(pages: seq<Page>): seq<Event> {
    if pages == [] then [] else pages[0].items + Items(pages[1..])
  }

  lemma {:induction false} FollowFromCursor(table: seq<Event>, f: Filter, limit: Option<nat>, cursor: Option<Id>)
    requires UniqueIds(table)
    requires PageSize(limit) >= 1
    ensures var rows, pages := Selected(table, f, Descending), Follow(table, f, limit, cursor);
            && pages != []
            && Items(pages) == rows[Start(rows, cursor)..]
            && forall i :: 0 <= i < |pages| ==>
                 && (pages[i].nextCursor.None? <==> i == |pages| - 1)
                 && (i < |pages| - 1 ==> |pages[i].items| == PageSize(limit))
    decreases |Selected(table, f, Descending)| - Start(Selected(table, f, Descending), cursor)
  {
    hide Selected, UniqueIds, Query, PageSize, Start;
    QueryAdvances(table, f, limit, cursor);
    var rows, page := Selected(table, f, Descending), Query(table, f, limit, cursor);
    if page.nextCursor.Some? {
      FollowFromCursor(table, f, limit, page.nextCursor);
      var start := Start(rows, cursor);
      assert rows[start..] == page.items + rows[start + PageSize(limit)..];
    } else {
      assert Items([page]) == page.items + Items([]);
    }
  }

  /**
   * From the start, the pages of a query joined together are the selected rows in descending order, each once.
   * Every page but the last is full, and the last is the only one without a next cursor.
   */
  lemma PagesAreTheWholeList(table: seq<Event>, f: Filter, limit: Option<nat>)
    requires UniqueIds(table)
    requires PageSize(limit) >= 1
    ensures var pages := Follow(table, f, limit, None);
            && Items(pages) == Selected(table, f, Descending)
            && forall i :: 0 <= i < |pages| ==>
                 && (pages[i].nextCursor.None? <==> i == |pages| - 1)
                 && (i < |pages| - 1 ==> |pages[i].items| == PageSize(limit))
    ensures var items := Items(Follow(table, f, limit, None));
            && (forall e :: e in items <==> e in table && Wanted(f, e))
            && UniqueIds(items) && Chronological(Descending, items)
  {
    hide Selected, Matches, Wanted;
    FollowFromCursor(table, f, limit, None);
    SelectedIsTheOrderedMatches(table, f, Descending);
  }

  // ---- Ties ----

  // Another order in which the database may return the same rows.
  ghost predicate Rearranges(d: Direction, rows: seq<Event>, others: seq<Event>) {
    Sorted(d, others) && multiset(others) == multiset(rows)
  }

  // No other row shares the instant of row k.
  ghost predicate Untied(rows: seq<Event>, k: nat)
    requires k < |rows|
  {
    forall i :: 0 <= i < |rows| && i != k ==> rows[i].createdAt != rows[k].createdAt
  }

  // The rows after the cursor, in the other order, are those after it in the first.
  ghost predicate CursorContinues(rows: seq<Event>, others: seq<Event>, k: nat)
    requires k < |rows|
  {
    multiset(others[PositionAfter(others, rows[k].id)..]) == multiset(rows[k + 1..])
  }

  lemma {:induction false} PositionOfMember(rows: seq<Event>, e: Event)
    requires UniqueIds(rows) && e in rows
    ensures 1 <= PositionAfter(rows, e.id) && rows[PositionAfter(rows, e.id) - 1] == e
  {
    if rows[0].id != e.id {
      PositionOfMember(rows[1..], e);
    }
  }

  lemma SameRowsUniqueIds(rows: seq<Event>, others: seq<Event>)
    requires UniqueIds(rows) && multiset(others) == multiset(rows)
    ensures UniqueIds(others)
  {
    forall i, j | 0 <= i < j < |others|
      ensures others[i].id != others[j].id
    {
      if others[i].id == others[j].id {
        assert others[i] in multiset(others) && others[j] in multiset(others);
        var a :| 0 <= a < |rows| && rows[a] == others[i];
        var b :| 0 <= b < |rows| && rows[b] == others[j];
        assert a == b;
        assert others == others[..i] + [others[i]] + others[i + 1..j] + [others[j]] + others[j + 1..];
        assert multiset(others)[others[i]] >= 2;
        DistinctOnce(rows, others[i]);
      }
    }
  }

  // The rows after an untied row are those of a later instant, whatever the arrangement.
  lemma AfterUntied(d: Direction, rows: seq<Event>, k: nat, e: Event)
    requires Sorted(d, rows) && UniqueIds(rows) && k < |rows| && Untied(rows, k)
    ensures e in rows[k + 1..] <==> e in rows && e != rows[k] && InOrder(d, rows[k], e)
  {
    var rest := rows[k + 1..];
    if e in rest {
      var i :| 0 <= i < |rest| && rest[i] == e;
      assert rows[k + 1 + i] == e;
    }
    if e in rows && e != rows[k] && InOrder(d, rows[k], e) {
      var i :| 0 <= i < |rows| && rows[i] == e;
      assert InOrder(d, rows[k], rows[i]) && rows[i].createdAt != rows[k].createdAt;
      assert i > k;
      assert rest[i - k - 1] == e;
    }
  }

  lemma UntiedElsewhere(rows: seq<Event>, others: seq<Event>, k: nat, p: nat)
    requires k < |rows| && p < |others| && others[p] == rows[k] && Untied(rows, k)
    requires UniqueIds(others) && multiset(others) == multiset(rows)
    ensures Untied(others, p)
  {
    forall i | 0 <= i < |others| && i != p
      ensures others[i].createdAt != rows[k].createdAt
    {
      assert others[i] in multiset(others) && others[i] in multiset(rows);
      var j :| 0 <= j < |rows| && rows[j] == others[i];
      assert j != k;
    }
  }

  lemma SameMembersOnce(rows: seq<Event>, others: seq<Event>)
    requires UniqueIds(rows) && UniqueIds(others) && forall e :: e in rows <==> e in others
    ensures multiset(rows) == multiset(others)
  {
    var a, b := multiset(rows), multiset(others);
    forall e: Event
      ensures a[e] == b[e]
    {
      DistinctOnce(rows, e);
      DistinctOnce(others, e);
    }
  }

  lemma UntiedContinues(d: Direction, rows: seq<Event>, others: seq<Event>, k: nat)
    requires Sorted(d, rows) && UniqueIds(rows) && k < |rows| && Untied(rows, k) && Rearranges(d, rows, others)
    ensures CursorContinues(rows, others, k)
  {
    hide Sorted, Untied, PositionAfter;
    var c := rows[k];
    SameRowsUniqueIds(rows, others);
    assert c in multiset(rows) && c in multiset(others);
    PositionOfMember(others, c);
    var p := PositionAfter(others, c.id) - 1;
    UntiedElsewhere(rows, others, k, p);
    var after, rest := rows[k + 1..], others[p + 1..];
    forall e
      ensures e in after <==> e in rest
    {
      AfterUntied(d, rows, k, e);
      AfterUntied(d, others, p, e);
      assert e in rows <==> e in multiset(rows);
      assert e in others <==> e in multiset(others);
    }
    SameMembersOnce(rest, after);
  }

  // Swapping the cursor's row with a neighbour of the same instant loses that row or shows it twice.
  lemma TiedBreaks(d: Direction, rows: seq<Event>, k: nat, n: nat)
    requires Sorted(d, rows) && UniqueIds(rows) && k < |rows| && n < |rows| && (n == k + 1 || k == n + 1)
    requires rows[n].createdAt == rows[k].createdAt
    ensures exists others :: Rearranges(d, rows, others) && !CursorContinues(rows, others, k)
  {
    hide Sorted;
    var others := rows[k := rows[n]][n := rows[k]];
    SwapStaysSorted(d, rows, k, n);
    SwapKeepsRows(rows, k, n);
    SameRowsUniqueIds(rows, others);
    PositionAfterRow(others, n);
    assert |others[n + 1..]| != |rows[k + 1..]|;
    assert |multiset(others[n + 1..])| != |multiset(rows[k + 1..])|;
    assert Rearranges(d, rows, others) && !CursorContinues(rows, others, k);
  }

  lemma SwapStaysSorted(d: Direction, rows: seq<Event>, k: nat, n: nat)
    requires Sorted(d, rows) && k < |rows| && n < |rows| && (n == k + 1 || k == n + 1)
    requires rows[n].createdAt == rows[k].createdAt
    ensures Sorted(d, rows[k := rows[n]][n := rows[k]])
  {
  }

  lemma SwapKeepsRows(rows: seq<Event>, k: nat, n: nat)
    requires k < |rows| && n < |rows|
    ensures multiset(rows[k := rows[n]][n := rows[k]]) == multiset(rows)
  {
  }

  /**
   * A cursor continues with exactly the rows after its page, however the database arranges rows of one instant in
   * the next query, precisely if no other row shares the instant of the page's last row.
   */
  lemma CursorSurvivesRearrangementIff(d: Direction, rows: seq<Event>, k: nat)
    requires Sorted(d, rows) && UniqueIds(rows) && k < |rows|
    ensures (forall others :: Rearranges(d, rows, others) ==> CursorContinues(rows, others, k)) <==> Untied(rows, k)
  {
    hide Rearranges, CursorContinues;
    if Untied(rows, k) {
      forall others | Rearranges(d, rows, others)
        ensures CursorContinues(rows, others, k)
      {
        UntiedContinues(d, rows, others, k);
      }
    } else {
      var i :| 0 <= i < |rows| && i != k && rows[i].createdAt == rows[k].createdAt;
      var n := if i > k then k + 1 else k - 1;
      assert rows[n].createdAt == rows[k].createdAt;
      TiedBreaks(d, rows, k, n);
    }
  }
}
