/** Keyset pagination of a tenant's audit log, newest first. */
module AuditTrail {
  import opened Options
  import opened Instants
  import opened Sorting
  import opened AuditCursor

  datatype Row = Row(id: nat, createdAt: Instant, details: string)

  /** ORDER BY created_at DESC, id DESC. */
  function NewestFirst(): (Row, Row) -> bool {
    (a: Row, b: Row) => Earlier(b.createdAt, a.createdAt) || (a.createdAt == b.createdAt && a.id >= b.id)
  }

  /** The cursor's clause in the WHERE condition. */
  predicate Beyond(cursor: Cursor, row: Row) {
    || Earlier(row.createdAt, cursor.createdAt)
    || (row.createdAt == cursor.createdAt && row.id < cursor.id)
  }

  function Within(cursor: Option<Cursor>): Row -> bool {
    (row: Row) => cursor.None? || Beyond(cursor.value, row)
  }

  function Take(rows: seq<Row>, n: nat): seq<Row> {
    if |rows| <= n then rows else rows[..n]
  }

  /** The rows the filters let through, in listing order; `matches` stands for the date
      bounds, the action list and the e-mail search. */
  function Listing(log: seq<Row>, matches: Row -> bool): seq<Row> {
    Sort(NewestFirst(), Filter(matches, log))
  }

  /** SELECT ... WHERE ... ORDER BY ... LIMIT. */
  function Query(log: seq<Row>, matches: Row -> bool, cursor: Option<Cursor>, limit: nat): seq<Row> {
    Take(Sort(NewestFirst(), Filter(Within(cursor), Filter(matches, log))), limit)
  }

  function SafeLimit(limit: int): nat {
    var given := if limit == 0 then 50 else limit;
    if given < 1 then 1 else if given > 200 then 200 else given
  }

  function SafeMaxRows(maxRows: int): nat {
    var given := if maxRows == 0 then 50000 else maxRows;
    if given < 1 then 1 else if given > 50000 then 50000 else given
  }

  /** How many rows a page asked for with a limit holds: fifty for none or zero, and otherwise
      the limit itself, kept between one and two hundred. */
  predicate PageSize(limit: int, n: nat) {
    || (limit == 0 && n == 50) || (limit < 0 && n == 1) || (1 <= limit <= 200 && n == limit) || (limit > 200 && n == 200)
  }

  /** The same for an export, of fifty thousand rows at most. */
  predicate ExportSize(maxRows: int, n: nat) {
    || (maxRows == 0 && n == 50_000) || (maxRows < 0 && n == 1) || (1 <= maxRows <= 50_000 && n == maxRows)
    || (maxRows > 50_000 && n == 50_000)
  }

  /** A log whose ids are unique: an id names one row, and no row is there twice. */
  ghost predicate WellFormed(log: seq<Row>) {
    && (forall r :: r in log ==> Representable(r.createdAt) && multiset(log)[r] == 1)
    && (forall r, q :: r in log && q in log && r.id == q.id ==> r == q)
  }

  function CursorOf(row: Row): Cursor {
    Cursor(row.createdAt, row.id)
  }

  /** One page: a row more is fetched to see whether another page follows. */
  function PageFrom(log: seq<Row>, matches: Row -> bool, limit: int, cursor: Option<Cursor>): (seq<Row>, Option<Cursor>) {
    var n := SafeLimit(limit);
    var rows := Query(log, matches, cursor, n + 1);
    var items := Take(rows, n);
    (items, if |rows| > n && items != [] then Some(CursorOf(items[|items| - 1])) else None)
  }

  function Export(log: seq<Row>, matches: Row -> bool, maxRows: int): seq<Row> {
    Query(log, matches, None, SafeMaxRows(maxRows))
  }

  // ----- filtering and sorting commute

  lemma {:induction false} FilterElements<T>(keep: T -> bool, s: seq<T>)
    ensures forall x :: x in Filter(keep, s) <==> x in s && keep(x)
    ensures |Filter(keep, s)| <= |s|
  {
    if s != [] {
      FilterElements(keep, s[1..]);
    }
  }

  lemma QueryFromLog(log: seq<Row>, matches: Row -> bool, cursor: Option<Cursor>, limit: nat)
    ensures forall r :: r in Query(log, matches, cursor, limit) ==> r in log
  {
    var kept := Filter(Within(cursor), Filter(matches, log));
    FilterElements(matches, log);
    FilterElements(Within(cursor), Filter(matches, log));
    SortPermutes(NewestFirst(), kept);
    SameElements(Sort(NewestFirst(), kept), kept);
  }

  lemma {:induction false} FilterPrefix<T>(keep: T -> bool, x: T, s: seq<T>)
    ensures Filter(keep, [x] + s) == (if keep(x) then [x] else []) + Filter(keep, s)
  {
    assert ([x] + s)[1..] == s;
  }

  /** `x` goes where it would go among the kept rows alone. */
  lemma {:induction false} InsertFilter(keep: Row -> bool, x: Row, s: seq<Row>)
    requires SortedBy(NewestFirst(), s)
    ensures Filter(keep, Insert(NewestFirst(), x, s))
         == if keep(x) then Insert(NewestFirst(), x, Filter(keep, s)) else Filter(keep, s)
  {
    if s == [] || NewestFirst()(x, s[0]) {
      FilterPrefix(keep, x, s);
      InsertInFront(keep, x, s);
    } else {
      InsertFilter(keep, x, s[1..]);
      FilterPrefix(keep, s[0], Insert(NewestFirst(), x, s[1..]));
      if keep(s[0]) {
        assert ([s[0]] + Filter(keep, s[1..]))[1..] == Filter(keep, s[1..]);
      }
    }
  }

  lemma OrderIsTotal()
    ensures TotalPreorder(NewestFirst())
  {
  }

  lemma InsertInFront(keep: Row -> bool, x: Row, s: seq<Row>)
    requires SortedBy(NewestFirst(), s) && (s == [] || NewestFirst()(x, s[0]))
    ensures Insert(NewestFirst(), x, Filter(keep, s)) == [x] + Filter(keep, s)
  {
    var kept := Filter(keep, s);
    if kept != [] {
      FilterElements(keep, s);
      OrderIsTotal();
      assert kept[0] in s;
      var i :| 0 <= i < |s| && s[i] == kept[0];
      assert NewestFirst()(s[0], s[i]) || i == 0;
    }
  }

  lemma {:induction false} SortFilter(keep: Row -> bool, s: seq<Row>)
    ensures Sort(NewestFirst(), Filter(keep, s)) == Filter(keep, Sort(NewestFirst(), s))
  {
    if s != [] {
      SortFilter(keep, s[1..]);
      OrderIsTotal();
      SortSorts(NewestFirst(), s[1..]);
      InsertFilter(keep, s[0], Sort(NewestFirst(), s[1..]));
      if keep(s[0]) {
        assert ([s[0]] + Filter(keep, s[1..]))[1..] == Filter(keep, s[1..]);
      }
    }
  }

  // ----- the listing is strictly ordered, so a cursor splits it

  lemma {:induction false} FilterCounts(keep: Row -> bool, log: seq<Row>)
    ensures multiset(Filter(keep, log)) <= multiset(log)
  {
    if log != [] {
      FilterCounts(keep, log[1..]);
      assert log == [log[0]] + log[1..];
    }
  }

  /** Filtering and sorting keep the rows unique. */
  lemma ListingUnique(log: seq<Row>, matches: Row -> bool)
    requires WellFormed(log)
    ensures WellFormed(Listing(log, matches))
  {
    var kept, all := Filter(matches, log), Listing(log, matches);
    FilterElements(matches, log);
    FilterCounts(matches, log);
    SortPermutes(NewestFirst(), kept);
    SameElements(all, kept);
    forall r | r in all ensures multiset(all)[r] == 1 {
      assert r in multiset(all) && multiset(kept)[r] <= multiset(log)[r];
    }
  }

  lemma DistinctPlaces(s: seq<Row>, i: nat, j: nat)
    requires WellFormed(s) && i < j < |s|
    ensures s[i].id != s[j].id
  {
    assert s[i] in s && s[j] in s;
    assert s == (s[..i] + [s[i]]) + (s[i + 1..j] + [s[j]] + s[j + 1..]);
    assert s[i] == s[j] ==> multiset(s)[s[i]] >= 2;
  }

  /** Of a sorted list the rows beyond its k-th are exactly those that follow it. */
  lemma BeyondIsAfter(s: seq<Row>, k: nat, i: nat)
    requires SortedBy(NewestFirst(), s) && WellFormed(s) && k < |s| && i < |s|
    ensures Beyond(CursorOf(s[k]), s[i]) <==> i > k
  {
    if i < k {
      assert NewestFirst()(s[i], s[k]);
    } else if i > k {
      assert NewestFirst()(s[k], s[i]);
      DistinctPlaces(s, k, i);
    }
  }

  lemma {:induction false} FilterAll(keep: Row -> bool, s: seq<Row>)
    requires forall i :: 0 <= i < |s| ==> keep(s[i])
    ensures Filter(keep, s) == s
  {
    if s != [] {
      FilterAll(keep, s[1..]);
    }
  }

  lemma ListingFacts(log: seq<Row>, matches: Row -> bool)
    requires WellFormed(log)
    ensures SortedBy(NewestFirst(), Listing(log, matches)) && WellFormed(Listing(log, matches))
  {
    OrderIsTotal();
    SortSorts(NewestFirst(), Filter(matches, log));
    ListingUnique(log, matches);
  }

  /** A query whose cursor is the k-th listed row returns what follows it. */
  lemma QueryResumes(log: seq<Row>, matches: Row -> bool, k: nat, limit: nat)
    requires WellFormed(log) && k < |Listing(log, matches)|
    ensures var all := Listing(log, matches);
      Query(log, matches, Some(CursorOf(all[k])), limit) == Take(all[k + 1..], limit)
  {
    var all := Listing(log, matches);
    var keep := Within(Some(CursorOf(all[k])));
    ListingFacts(log, matches);
    SortFilter(keep, Filter(matches, log));
    forall i | 0 <= i < |all| ensures keep(all[i]) <==> i > k {
      BeyondIsAfter(all, k, i);
    }
    FilterSuffix(keep, all, k + 1);
  }

  lemma {:induction false} FilterSuffix(keep: Row -> bool, s: seq<Row>, k: nat)
    requires k <= |s| && forall i :: 0 <= i < |s| ==> (keep(s[i]) <==> i >= k)
    ensures Filter(keep, s) == s[k..]
  {
    if k == 0 {
      FilterAll(keep, s);
    } else {
      FilterSuffix(keep, s[1..], k - 1);
    }
  }

  lemma QueryStarts(log: seq<Row>, matches: Row -> bool, limit: nat)
    ensures Query(log, matches, None, limit) == Take(Listing(log, matches), limit)
  {
    var kept := Filter(matches, log);
    FilterAll(Within(None), kept);
  }

  // ----- following the cursors

  /** The cursor that resumes a listing at its k-th row. */
  function CursorAt(all: seq<Row>, k: nat): Option<Cursor>
    requires k <= |all|
  {
    if k == 0 then None else Some(CursorOf(all[k - 1]))
  }

  lemma SizeIs(limit: int, n: nat)
    requires PageSize(limit, n)
    ensures SafeLimit(limit) == n
  {
  }

  /** The rows of the listing from the k-th on, at most n of them. */
  function Slice(all: seq<Row>, k: nat, n: nat): seq<Row>
    requires k <= |all|
  {
    if |all| - k > n then all[k..k + n] else all[k..]
  }

  /** A page and what follows it. */
  lemma PageAndRest(all: seq<Row>, k: nat, n: nat, page: seq<Row>, rest: seq<Row>)
    requires k <= |all| && page == Slice(all, k, n)
    ensures |all| - k <= n ==> page == all[k..]
    ensures |all| - k > n && rest == all[k + n..] ==> page + rest == all[k..]
  {
  }

  lemma SliceIsTake(all: seq<Row>, k: nat, n: nat)
    requires k <= |all|
    ensures Take(all[k..], n) == Slice(all, k, n)
  {
    assert |all| - k > n ==> all[k..][..n] == all[k..k + n];
  }

  /** The page that resumes the listing at its k-th row holds the next rows of it, as many as the
      limit says; a cursor comes with it exactly when rows are left, and resumes behind it. */
  lemma PageAt(log: seq<Row>, matches: Row -> bool, limit: int, n: nat, k: nat)
    requires WellFormed(log) && PageSize(limit, n) && k <= |Listing(log, matches)|
    ensures var all := Listing(log, matches);
            var (items, next) := PageFrom(log, matches, limit, CursorAt(all, k));
      && items == Slice(all, k, n)
      && (next.Some? <==> |all| - k > n)
      && (next.Some? ==> next == CursorAt(all, k + n))
  {
    var all := Listing(log, matches);
    SizeIs(limit, n);
    RowsFrom(log, matches, all, k, n);
    PageOfListing(all, k, n, PageFrom(log, matches, limit, CursorAt(all, k)), Query(log, matches, CursorAt(all, k), n + 1));
  }

  lemma RowsFrom(log: seq<Row>, matches: Row -> bool, all: seq<Row>, k: nat, n: nat)
    requires WellFormed(log) && all == Listing(log, matches) && k <= |all|
    ensures Query(log, matches, CursorAt(all, k), n + 1) == Take(all[k..], n + 1)
  {
    if k == 0 {
      QueryStarts(log, matches, n + 1);
      FromTheTop(all);
    } else {
      assert CursorAt(all, k) == Some(CursorOf(all[k - 1]));
      QueryResumes(log, matches, k - 1, n + 1);
    }
  }

  lemma FromTheTop(all: seq<Row>)
    ensures all[0..] == all
  {
  }

  lemma PageOfListing(all: seq<Row>, k: nat, n: nat, page: (seq<Row>, Option<Cursor>), rows: seq<Row>)
    requires k <= |all| && n > 0 && rows == Take(all[k..], n + 1)
    requires var items := Take(rows, n);
      page == (items, if |rows| > n && items != [] then Some(CursorOf(items[|items| - 1])) else None)
    ensures page.0 == Slice(all, k, n)
    ensures page.1 == if |all| - k > n then CursorAt(all, k + n) else None
  {
    PageFollows(all, k, n, rows);
  }

  lemma PageFollows(all: seq<Row>, k: nat, n: nat, rows: seq<Row>)
    requires k <= |all| && n > 0 && rows == Take(all[k..], n + 1)
    ensures Take(rows, n) == Slice(all, k, n) && (|rows| > n <==> |all| - k > n)
    ensures |rows| > n ==> Slice(all, k, n) != [] && Slice(all, k, n)[|Slice(all, k, n)| - 1] == all[k + n - 1]
  {
    PageOf(all[k..], n);
    SliceIsTake(all, k, n);
  }

  /** Fetching one row too many and cutting it off. */
  lemma PageOf(rows: seq<Row>, n: nat)
    requires n > 0
    ensures Take(Take(rows, n + 1), n) == Take(rows, n)
    ensures |Take(rows, n + 1)| > n <==> |rows| > n
    ensures |rows| > n ==> Take(rows, n) != [] && Take(rows, n)[|Take(rows, n)| - 1] == rows[n - 1]
  {
  }

  /** A request as the client makes it, with the cursor as text. */
  method ListTenantAuditTrail(log: seq<Row>, matches: Row -> bool, limit: int, cursor: string)
      returns (items: seq<Row>, nextCursor: Option<string>)
    requires WellFormed(log)
    ensures items == PageFrom(log, matches, limit, DecodeCursor(cursor)).0
    ensures nextCursor.Some? <==> PageFrom(log, matches, limit, DecodeCursor(cursor)).1.Some?
    ensures nextCursor.Some? ==>
              DecodeCursor(nextCursor.value) == PageFrom(log, matches, limit, DecodeCursor(cursor)).1
  {
    var n := SafeLimit(limit);
    var rows := Query(log, matches, DecodeCursor(cursor), n + 1);
    QueryFromLog(log, matches, DecodeCursor(cursor), n + 1);
    items := Take(rows, n);
    nextCursor := None;
    if |rows| > n && items != [] {
      var last := items[|items| - 1];
      assert last in rows;
      CursorRoundTrip(CursorOf(last));
      nextCursor := Some(EncodeCursor(CursorOf(last)));
    }
  }

  ghost predicate Mentioned(text: string) {
    true
  }

  /** A table of what texts decode to; mentioning a text looks it up. */
  ghost predicate DecodingTable(table: imap<string, Option<Cursor>>) {
    forall t {:trigger Mentioned(t)} :: Mentioned(t) ==> t in table && table[t] == DecodeCursor(t)
  }

  /** `text` decodes to the cursor, said without showing how to the paging proof. */
  ghost predicate Names(text: string, cursor: Option<Cursor>) {
    forall table {:trigger DecodingTable(table)} :: DecodingTable(table) ==> text in table && table[text] == cursor
  }

  lemma NamesMeaning(text: string, cursor: Option<Cursor>)
    ensures Names(text, cursor) <==> DecodeCursor(text) == cursor
  {
    var table := imap t: string | true :: DecodeCursor(t);
    assert DecodingTable(table);
    assert Mentioned(text);
  }

  /** A request that resumes the listing at its k-th row. */
  method RequestPage(log: seq<Row>, matches: Row -> bool, limit: int, cursor: string, ghost n: nat, ghost all: seq<Row>,
                     ghost k: nat)
      returns (items: seq<Row>, nextCursor: Option<string>)
    requires WellFormed(log) && PageSize(limit, n) && all == Listing(log, matches) && k <= |all|
    requires Names(cursor, CursorAt(all, k))
    ensures items == Slice(all, k, n)
    ensures nextCursor.Some? <==> |all| - k > n
    ensures nextCursor.Some? ==> Names(nextCursor.value, CursorAt(all, k + n))
  {
    PageAt(log, matches, limit, n, k);
    NamesMeaning(cursor, CursorAt(all, k));
    items, nextCursor := ListTenantAuditTrail(log, matches, limit, cursor);
    if nextCursor.Some? {
      NamesMeaning(nextCursor.value, CursorAt(all, k + n));
    }
  }

  function PageCount(rows: nat, n: nat): nat
    requires n > 0
    decreases rows
  {
    if rows <= n then 1 else 1 + PageCount(rows - n, n)
  }

  /** As many pages as the rows fill, and one where there are none. */
  lemma {:induction false} PagesFilled(rows: nat, n: nat)
    requires n > 0
    ensures var pages := PageCount(rows, n);
      1 <= pages && rows <= pages * n && (1 < pages ==> (pages - 1) * n < rows)
    decreases rows
  {
    if n < rows {
      PagesFilled(rows - n, n);
      var fewer := PageCount(rows - n, n);
      assert (fewer + 1) * n == fewer * n + n && fewer * n == (fewer - 1) * n + n;
    }
  }

  /** Requests pages from the k-th row on until no cursor comes back. */
  method CollectFrom(log: seq<Row>, matches: Row -> bool, limit: int, cursor: string, ghost n: nat, ghost all: seq<Row>,
                     ghost k: nat)
      returns (items: seq<Row>, pages: nat)
    requires WellFormed(log) && PageSize(limit, n) && all == Listing(log, matches) && k <= |all|
    requires Names(cursor, CursorAt(all, k))
    ensures items == all[k..] && pages == PageCount(|all| - k, n)
    decreases |all| - k
  {
    var page, next := RequestPage(log, matches, limit, cursor, n, all, k);
    if next.Some? {
      var rest, more := CollectFrom(log, matches, limit, next.value, n, all, k + n);
      PageAndRest(all, k, n, page, rest);
      items, pages := page + rest, 1 + more;
    } else {
      PageAndRest(all, k, n, page, []);
      items, pages := page, 1;
    }
  }

  /** Following the cursors from the first page ends, and yields the whole listing. */
  method CollectPages(log: seq<Row>, matches: Row -> bool, limit: int, ghost n: nat) returns (items: seq<Row>, pages: nat)
    requires WellFormed(log) && PageSize(limit, n)
    ensures items == Listing(log, matches)
    ensures 1 <= pages && |items| <= pages * n && (1 < pages ==> (pages - 1) * n < |items|)
  {
    NamesMeaning("", None);
    items, pages := CollectFrom(log, matches, limit, "", n, Listing(log, matches), 0);
    PagesFilled(|items|, n);
  }

  /** The listing holds every matching row exactly once, newest first. */
  lemma ListingIsComplete(log: seq<Row>, matches: Row -> bool)
    requires WellFormed(log)
    ensures var all := Listing(log, matches);
      && (forall r :: r in all <==> r in log && matches(r))
      && (forall i, j :: 0 <= i < j < |all| ==> all[i].id != all[j].id)
      && (forall i, j :: 0 <= i < j < |all| ==>
            Earlier(all[j].createdAt, all[i].createdAt)
            || (all[i].createdAt == all[j].createdAt && all[i].id > all[j].id))
  {
    var all := Listing(log, matches);
    ListingFacts(log, matches);
    SortPermutes(NewestFirst(), Filter(matches, log));
    SameElements(all, Filter(matches, log));
    FilterElements(matches, log);
    forall i, j | 0 <= i < j < |all|
      ensures all[i].id != all[j].id
      ensures Earlier(all[j].createdAt, all[i].createdAt)
              || (all[i].createdAt == all[j].createdAt && all[i].id > all[j].id)
    {
      DistinctPlaces(all, i, j);
      assert NewestFirst()(all[i], all[j]);
    }
  }

  /** The export is the beginning of the same list, as long as its row limit allows. */
  lemma ExportIsPrefix(log: seq<Row>, matches: Row -> bool, maxRows: int, n: nat)
    requires ExportSize(maxRows, n)
    ensures var all := Listing(log, matches);
      Export(log, matches, maxRows) == if |all| <= n then all else all[..n]
  {
    QueryStarts(log, matches, n);
  }
}
