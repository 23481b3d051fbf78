/** Keyset pagination: one page of a listing, its next cursor, and what following
    the cursors from the first page to the last enumerates. */
module Pagination {
  import opened Wrappers
  import opened CursorAfter

  // ----- The database's side of a listing -----

  function Select(lt: Order, rows: seq<Row>, w: Where): seq<Row> {
    if rows == [] then []
    else (if Holds(lt, w, rows[0]) then [rows[0]] else []) + Select(lt, rows[1..], w)
  }

  /** ORDER BY. */
  function OrderBy(lt: Order, sort: seq<SortSpec>, rows: seq<Row>): seq<Row> {
    if rows == [] then [] else Insert(lt, sort, rows[0], OrderBy(lt, sort, rows[1..]))
  }

  function Insert(lt: Order, sort: seq<SortSpec>, x: Row, rows: seq<Row>): seq<Row> {
    if rows == [] then [x]
    else if LexAfter(lt, sort, rows[0], x) then [rows[0]] + Insert(lt, sort, x, rows[1..])
    else [x] + rows
  }

  function FindMany(lt: Order, table: seq<Row>, w: Where, sort: seq<SortSpec>, take: nat): seq<Row> {
    var found := OrderBy(lt, sort, Select(lt, table, w));
    if take <= |found| then found[..take] else found
  }

  // ----- The application's side -----

  function NonEmpty(clauses: seq<Where>): (r: seq<Where>)
    ensures forall c :: c in r <==> c in clauses && !c.Everything?
  {
    if clauses == [] then []
    else (if clauses[0].Everything? then [] else [clauses[0]]) + NonEmpty(clauses[1..])
  }

  function MergeWhereClauses(clauses: seq<Where>): Where {
    var nonEmpty := NonEmpty(clauses);
    if |nonEmpty| == 0 then Everything
    else if |nonEmpty| == 1 then nonEmpty[0]
    else And(nonEmpty)
  }

  /** Dropping the empty clauses loses none of the conditions. */
  lemma MergeMeansAll(lt: Order, clauses: seq<Where>, row: Row)
    ensures Holds(lt, MergeWhereClauses(clauses), row) <==> forall c :: c in clauses ==> Holds(lt, c, row)
  {
    var nonEmpty := NonEmpty(clauses);
    if |nonEmpty| == 1 {
      assert nonEmpty[0] in nonEmpty;
      assert forall c :: c in nonEmpty ==> c == nonEmpty[0];
    } else if |nonEmpty| > 1 {
      assert forall i :: 0 <= i < |nonEmpty| ==> nonEmpty[i] in nonEmpty;
    }
  }

  datatype Query = Query(limit: nat, sort: seq<SortSpec>, base: Where, cursor: Option<Row>)

  datatype Page = Page(items: seq<Row>, hasMore: bool, nextCursor: Option<Row>)

  /** The cursor of a row: its values on the sort fields. */
  function CursorOf(sort: seq<SortSpec>, row: Row): Row {
    map spec | spec in sort && spec.field in row :: spec.field := row[spec.field]
  }

  method BuildNextCursor(sort: seq<SortSpec>, hasMore: bool, last: Option<Row>) returns (r: Option<Row>)
    ensures r == if hasMore && last.Some? then Some(CursorOf(sort, last.value)) else None
  {
    if !hasMore || last.None? { return None; }
    var after: Row := map[];
    for i := 0 to |sort|
      invariant forall f :: f in after ==> exists k :: 0 <= k < i && sort[k].field == f && f in last.value
      invariant forall k :: 0 <= k < i && sort[k].field in last.value ==>
        sort[k].field in after && after[sort[k].field] == last.value[sort[k].field]
    {
      if sort[i].field in last.value { after := after[sort[i].field := last.value[sort[i].field]]; }
    }
    assert after == CursorOf(sort, last.value);
    return Some(after);
  }

  predicate CursorCovers(q: Query) {
    q.cursor.Some? ==> Covers(q.cursor.value, q.sort)
  }

  /** A cursor that misses a sort field is refused before it gets here. */
  function AfterPart(cursor: Option<Row>, sort: seq<SortSpec>): Where {
    if cursor.Some? && Covers(cursor.value, sort) then AfterWhere(sort, cursor.value) else Everything
  }

  function WhereOf(q: Query): Where {
    MergeWhereClauses([q.base, AfterPart(q.cursor, q.sort)])
  }

  /** Cut one row more than asked for down to a page. */
  function CutPage(rows: seq<Row>, sort: seq<SortSpec>, limit: nat): Page
    requires limit >= 1
  {
    if |rows| > limit then Page(rows[..limit], true, Some(CursorOf(sort, rows[limit - 1])))
    else Page(rows, false, None)
  }

  function ListPage(lt: Order, table: seq<Row>, q: Query): Page
    requires q.limit >= 1
  {
    CutPage(FindMany(lt, table, WhereOf(q), q.sort, q.limit + 1), q.sort, q.limit)
  }

  /** The listing as it runs: build the cursor clause, merge, fetch one row too many, cut,
      and build the next cursor from the last row kept. */
  method ListUsers(lt: Order, table: seq<Row>, q: Query) returns (r: Result<Page, Field>)
    requires q.limit >= 1
    ensures r.Ok? <==> CursorCovers(q)
    ensures r.Ok? ==> r.value == ListPage(lt, table, q)
  {
    hide FindMany, MergeWhereClauses, AfterWhere;
    var afterWhere := Everything;
    if q.cursor.Some? {
      var built := BuildCursorAfterWhere(q.sort, q.cursor.value);
      if built.Err? { return Err(built.error); }
      afterWhere := built.value;
    }
    var rows := FindMany(lt, table, MergeWhereClauses([q.base, afterWhere]), q.sort, q.limit + 1);
    var hasMore := |rows| > q.limit;
    var page := if hasMore then rows[..q.limit] else rows;
    var next := BuildNextCursor(q.sort, hasMore, if page == [] then None else Some(page[|page| - 1]));
    return Ok(Page(page, hasMore, next));
  }

  // ----- Select and OrderBy -----

  lemma {:induction false} SelectCounts(lt: Order, rows: seq<Row>, w: Where, x: Row)
    ensures multiset(Select(lt, rows, w))[x] == if Holds(lt, w, x) then multiset(rows)[x] else 0
    decreases |rows|
  {
    if rows != [] {
      SelectCounts(lt, rows[1..], w, x);
      assert rows == [rows[0]] + rows[1..];
    }
  }

  lemma SelectMembers(lt: Order, rows: seq<Row>, w: Where)
    ensures forall x :: x in Select(lt, rows, w) <==> x in rows && Holds(lt, w, x)
  {
    forall x
      ensures x in Select(lt, rows, w) <==> x in rows && Holds(lt, w, x)
    {
      SelectCounts(lt, rows, w, x);
      assert x in Select(lt, rows, w) <==> x in multiset(Select(lt, rows, w));
    }
  }

  lemma {:induction false} InsertBag(lt: Order, sort: seq<SortSpec>, x: Row, rows: seq<Row>)
    ensures multiset(Insert(lt, sort, x, rows)) == multiset(rows) + multiset{x}
    decreases |rows|
  {
    if rows != [] && LexAfter(lt, sort, rows[0], x) {
      InsertBag(lt, sort, x, rows[1..]);
      assert rows == [rows[0]] + rows[1..];
    }
  }

  lemma {:induction false} OrderByBag(lt: Order, sort: seq<SortSpec>, rows: seq<Row>)
    ensures multiset(OrderBy(lt, sort, rows)) == multiset(rows)
    decreases |rows|
  {
    if rows != [] {
      OrderByBag(lt, sort, rows[1..]);
      InsertBag(lt, sort, rows[0], OrderBy(lt, sort, rows[1..]));
      assert rows == [rows[0]] + rows[1..];
    }
  }

  lemma SameBagSameMembers(a: seq<Row>, b: seq<Row>)
    requires multiset(a) == multiset(b)
    ensures |a| == |b| && forall x :: x in a <==> x in b
  {
    assert |multiset(a)| == |a| && |multiset(b)| == |b|;
    forall x ensures x in a <==> x in b { assert x in a <==> x in multiset(a); assert x in b <==> x in multiset(b); }
  }

  // ----- Ordering facts -----

  predicate AllCover(rows: seq<Row>, sort: seq<SortSpec>) {
    forall x :: x in rows ==> Covers(x, sort)
  }

  ghost predicate Ascending(lt: Order, sort: seq<SortSpec>, rows: seq<Row>) {
    forall i, j :: 0 <= i < j < |rows| ==> LexAfter(lt, sort, rows[i], rows[j])
  }

  predicate Differ(x: Row, y: Row, f: Field) {
    f in x && f in y && x[f] != y[f]
  }

  /** The tie-breaker: no two rows of the table share its value. */
  ghost predicate UniqueOn(rows: seq<Row>, f: Field) {
    forall i, j :: 0 <= i < j < |rows| ==> Differ(rows[i], rows[j], f)
  }

  lemma AscendingTail(lt: Order, sort: seq<SortSpec>, rows: seq<Row>)
    requires rows != [] && AllCover(rows, sort) && Ascending(lt, sort, rows)
    ensures AllCover(rows[1..], sort) && Ascending(lt, sort, rows[1..])
  {
    hide LexAfter;
    assert forall i :: 0 <= i < |rows| - 1 ==> rows[1..][i] == rows[i + 1];
  }

  lemma UniqueTail(rows: seq<Row>, f: Field)
    requires rows != [] && UniqueOn(rows, f)
    ensures UniqueOn(rows[1..], f)
    ensures forall y :: y in rows[1..] ==> Differ(rows[0], y, f)
  {
    var rest := rows[1..];
    assert forall i :: 0 <= i < |rest| ==> rest[i] == rows[i + 1];
    forall y | y in rest ensures Differ(rows[0], y, f) {
      var i :| 0 <= i < |rest| && rest[i] == y;
      assert Differ(rows[0], rows[i + 1], f);
    }
  }

  lemma {:induction false} InsertAscending(lt: Order, sort: seq<SortSpec>, x: Row, rows: seq<Row>, k: nat)
    requires Ordered(lt, sort) && AllCover(rows, sort) && Covers(x, sort) && Ascending(lt, sort, rows)
    requires k < |sort| && forall y :: y in rows ==> Differ(x, y, sort[k].field)
    ensures Ascending(lt, sort, Insert(lt, sort, x, rows))
    decreases |rows|
  {
    hide LexAfter, Covers, Ordered, Differ;
    if rows != [] {
      if LexAfter(lt, sort, rows[0], x) {
        var rest := Insert(lt, sort, x, rows[1..]);
        AscendingTail(lt, sort, rows);
        InsertAscending(lt, sort, x, rows[1..], k);
        InsertBag(lt, sort, x, rows[1..]);
        forall j | 0 <= j < |rest| ensures LexAfter(lt, sort, rows[0], rest[j]) {
          assert rest[j] in multiset(rest) && (rest[j] == x || rest[j] in rows[1..]);
        }
      } else {
        HeadFirst(lt, sort, x, rows, k);
      }
    }
  }

  lemma HeadFirst(lt: Order, sort: seq<SortSpec>, x: Row, rows: seq<Row>, k: nat)
    requires Ordered(lt, sort) && AllCover(rows, sort) && Covers(x, sort) && Ascending(lt, sort, rows)
    requires k < |sort| && rows != [] && Differ(x, rows[0], sort[k].field) && !LexAfter(lt, sort, rows[0], x)
    ensures Ascending(lt, sort, [x] + rows)
  {
    hide LexAfter, Ordered;
    LexAfterConnected(lt, sort, x, rows[0], k);
    forall j | 0 <= j < |rows| ensures LexAfter(lt, sort, x, rows[j]) {
      if j > 0 {
        assert LexAfter(lt, sort, rows[0], rows[j]);
        LexAfterTransitive(lt, sort, x, rows[0], rows[j]);
      }
    }
    var all := [x] + rows;
    forall i, j | 0 <= i < j < |all| ensures LexAfter(lt, sort, all[i], all[j]) {
      assert all[j] == rows[j - 1];
      if i > 0 { assert all[i] == rows[i - 1]; }
    }
  }

  lemma {:induction false} OrderByAscending(lt: Order, sort: seq<SortSpec>, rows: seq<Row>, k: nat)
    requires Ordered(lt, sort) && AllCover(rows, sort) && k < |sort| && UniqueOn(rows, sort[k].field)
    ensures AllCover(OrderBy(lt, sort, rows), sort) && Ascending(lt, sort, OrderBy(lt, sort, rows))
    decreases |rows|
  {
    assert Ascending(lt, sort, []);
    hide LexAfter, Covers, Ordered, Ascending, Differ, Insert;
    OrderByBag(lt, sort, rows);
    SameBagSameMembers(rows, OrderBy(lt, sort, rows));
    if rows != [] {
      UniqueTail(rows, sort[k].field);
      OrderByAscending(lt, sort, rows[1..], k);
      var rest := OrderBy(lt, sort, rows[1..]);
      OrderByBag(lt, sort, rows[1..]);
      SameBagSameMembers(rows[1..], rest);
      InsertAscending(lt, sort, rows[0], rest, k);
    }
  }

  lemma HeadsAgree(lt: Order, sort: seq<SortSpec>, a: seq<Row>, b: seq<Row>)
    requires Ordered(lt, sort) && AllCover(a, sort) && AllCover(b, sort)
    requires Ascending(lt, sort, a) && Ascending(lt, sort, b)
    requires a != [] && b != [] && a[0] in b && b[0] in a
    ensures a[0] == b[0]
  {
    hide LexAfter, Ordered;
    var i :| 0 <= i < |a| && a[i] == b[0];
    var j :| 0 <= j < |b| && b[j] == a[0];
    LexAfterIrreflexive(lt, sort, a[0]);
    if i > 0 && j > 0 { LexAfterTransitive(lt, sort, a[0], b[0], a[0]); }
  }

  lemma TailBag(a: seq<Row>)
    requires a != []
    ensures multiset(a[1..]) == multiset(a) - multiset{a[0]}
  {
    assert a == [a[0]] + a[1..];
  }

  /** There is only one ascending arrangement of the same rows. */
  lemma {:induction false} AscendingUnique(lt: Order, sort: seq<SortSpec>, a: seq<Row>, b: seq<Row>)
    requires Ordered(lt, sort) && AllCover(a, sort) && AllCover(b, sort)
    requires Ascending(lt, sort, a) && Ascending(lt, sort, b) && multiset(a) == multiset(b)
    ensures a == b
    decreases |a|
  {
    hide *;
    SameBagSameMembers(a, b);
    if a != [] {
      assert a[0] in a && b[0] in b;
      HeadsAgree(lt, sort, a, b);
      TailBag(a);
      TailBag(b);
      AscendingTail(lt, sort, a);
      AscendingTail(lt, sort, b);
      AscendingUnique(lt, sort, a[1..], b[1..]);
      assert a == [a[0]] + a[1..] && b == [b[0]] + b[1..];
    }
  }

  lemma {:induction false} SelectUnique(lt: Order, rows: seq<Row>, w: Where, f: Field)
    requires UniqueOn(rows, f)
    ensures UniqueOn(Select(lt, rows, w), f)
    decreases |rows|
  {
    if rows != [] {
      UniqueTail(rows, f);
      SelectUnique(lt, rows[1..], w, f);
      SelectMembers(lt, rows[1..], w);
    }
  }

  /** A condition that holds from position `k` on, and nowhere before. */
  predicate Picks(lt: Order, w: Where, rows: seq<Row>, k: nat) {
    forall i :: 0 <= i < |rows| ==> (Holds(lt, w, rows[i]) <==> k <= i)
  }

  lemma PicksTail(lt: Order, w: Where, rows: seq<Row>, k: nat)
    requires rows != [] && Picks(lt, w, rows, k)
    ensures Holds(lt, w, rows[0]) <==> k == 0
    ensures Picks(lt, w, rows[1..], if k == 0 then 0 else k - 1)
  {
    hide Holds;
  }

  lemma {:induction false} SelectTail(lt: Order, rows: seq<Row>, w: Where, k: nat)
    requires k <= |rows| && Picks(lt, w, rows, k)
    ensures Select(lt, rows, w) == rows[k..]
    decreases |rows|
  {
    hide Holds, Picks;
    if rows != [] {
      var rest := rows[1..];
      PicksTail(lt, w, rows, k);
      SelectTail(lt, rest, w, if k == 0 then 0 else k - 1);
      if k == 0 {
        assert rows[0..] == [rows[0]] + rest[0..];
      } else {
        assert [] + rest[k - 1..] == rows[k..];
      }
    }
  }

  // ----- Walking the pages -----

  /** A listing that can be walked: the sort ends in a unique tie-breaker, every column
      is totally ordered, and the table does not change. */
  ghost predicate Walkable(lt: Order, table: seq<Row>, q: Query, tieBreaker: nat) {
    && q.limit >= 1 && q.cursor.None?
    && AllCover(table, q.sort) && Ordered(lt, q.sort)
    && tieBreaker < |q.sort| && UniqueOn(table, q.sort[tieBreaker].field)
  }

  /** All matching rows in sort order. */
  function Listing(lt: Order, table: seq<Row>, q: Query): seq<Row> {
    OrderBy(lt, q.sort, Select(lt, table, q.base))
  }

  lemma ListingFacts(lt: Order, table: seq<Row>, q: Query, tieBreaker: nat)
    requires Walkable(lt, table, q, tieBreaker)
    ensures var listing := Listing(lt, table, q);
      && AllCover(listing, q.sort) && Ascending(lt, q.sort, listing)
      && multiset(listing) == multiset(Select(lt, table, q.base))
  {
    hide LexAfter, Ordered, Covers, Holds;
    SelectMembers(lt, table, q.base);
    SelectUnique(lt, table, q.base, q.sort[tieBreaker].field);
    OrderByAscending(lt, q.sort, Select(lt, table, q.base), tieBreaker);
    OrderByBag(lt, q.sort, Select(lt, table, q.base));
  }

  function CursorAt(listing: seq<Row>, sort: seq<SortSpec>, k: nat): Option<Row>
    requires k <= |listing|
  {
    if k == 0 then None else Some(CursorOf(sort, listing[k - 1]))
  }

  lemma {:induction false} CursorStandsForRow(lt: Order, sort: seq<SortSpec>, c: Row, row: Row, x: Row)
    requires Covers(c, sort) && Covers(row, sort) && Covers(x, sort)
    requires forall spec :: spec in sort ==> c[spec.field] == row[spec.field]
    ensures LexAfter(lt, sort, c, x) <==> LexAfter(lt, sort, row, x)
    decreases |sort|
  {
    if sort != [] {
      assert sort[0] in sort;
      CursorStandsForRow(lt, sort[1..], c, row, x);
    }
  }

  lemma RowsAfterCursor(lt: Order, sort: seq<SortSpec>, listing: seq<Row>, k: nat)
    requires sort != [] && Ordered(lt, sort) && AllCover(listing, sort) && Ascending(lt, sort, listing)
    requires 0 < k <= |listing|
    ensures Covers(CursorOf(sort, listing[k - 1]), sort)
    ensures Select(lt, listing, AfterWhere(sort, CursorOf(sort, listing[k - 1]))) == listing[k..]
  {
    hide LexAfter, AfterWhere, Ordered;
    assert listing[k - 1] in listing;
    var c := CursorOf(sort, listing[k - 1]);
    forall i | 0 <= i < |listing|
      ensures Holds(lt, AfterWhere(sort, c), listing[i]) <==> k <= i
    {
      assert listing[i] in listing && listing[k - 1] in listing;
      AfterWhereMeansLexAfter(lt, sort, c, listing[i]);
      CursorStandsForRow(lt, sort, c, listing[k - 1], listing[i]);
      LexAfterIrreflexive(lt, sort, listing[i]);
      if i < k - 1 && LexAfter(lt, sort, listing[k - 1], listing[i]) {
        LexAfterTransitive(lt, sort, listing[i], listing[k - 1], listing[i]);
      }
    }
    SelectTail(lt, listing, AfterWhere(sort, c), k);
  }

  lemma RowsFromCursor(lt: Order, sort: seq<SortSpec>, listing: seq<Row>, k: nat)
    requires sort != [] && Ordered(lt, sort) && AllCover(listing, sort) && Ascending(lt, sort, listing)
    requires k <= |listing|
    ensures Select(lt, listing, AfterPart(CursorAt(listing, sort, k), sort)) == listing[k..]
  {
    hide LexAfter, AfterWhere, Ordered, Covers, Select;
    if k == 0 { SelectTail(lt, listing, Everything, 0); } else { RowsAfterCursor(lt, sort, listing, k); }
  }

  /** Selecting twice is selecting with both conditions, whatever the order of the rows. */
  lemma SelectTwice(lt: Order, table: seq<Row>, listing: seq<Row>, base: Where, after: Where)
    requires multiset(listing) == multiset(Select(lt, table, base))
    ensures multiset(Select(lt, table, MergeWhereClauses([base, after]))) == multiset(Select(lt, listing, after))
  {
    hide Select, Holds, MergeWhereClauses;
    var w := MergeWhereClauses([base, after]);
    forall x
      ensures multiset(Select(lt, table, w))[x] == multiset(Select(lt, listing, after))[x]
    {
      MergeMeansAll(lt, [base, after], x);
      assert base in [base, after] && after in [base, after];
      SelectCounts(lt, table, w, x);
      SelectCounts(lt, table, base, x);
      SelectCounts(lt, listing, after, x);
    }
  }

  /** The database finds, from a cursor, exactly the rest of the listing. */
  lemma FoundFromCursor(lt: Order, table: seq<Row>, q: Query, tieBreaker: nat, k: nat)
    requires Walkable(lt, table, q, tieBreaker) && k <= |Listing(lt, table, q)|
    ensures var listing := Listing(lt, table, q);
      OrderBy(lt, q.sort, Select(lt, table, WhereOf(q.(cursor := CursorAt(listing, q.sort, k))))) == listing[k..]
  {
    hide LexAfter, OrderBy, Select, AfterPart, CursorAt, Holds, MergeWhereClauses, Covers, Ordered, Listing, UniqueOn;
    var listing := Listing(lt, table, q);
    var w := WhereOf(q.(cursor := CursorAt(listing, q.sort, k)));
    ListingFacts(lt, table, q, tieBreaker);
    RowsFromCursor(lt, q.sort, listing, k);
    SelectTwice(lt, table, listing, q.base, AfterPart(CursorAt(listing, q.sort, k), q.sort));
    SelectMembers(lt, table, w);
    SelectUnique(lt, table, w, q.sort[tieBreaker].field);
    OrderByAscending(lt, q.sort, Select(lt, table, w), tieBreaker);
    OrderByBag(lt, q.sort, Select(lt, table, w));
    assert forall x :: x in listing[k..] ==> x in listing;
    AscendingSuffix(lt, q.sort, listing, k);
    AscendingUnique(lt, q.sort, OrderBy(lt, q.sort, Select(lt, table, w)), listing[k..]);
  }

  lemma AscendingSuffix(lt: Order, sort: seq<SortSpec>, rows: seq<Row>, k: nat)
    requires Ascending(lt, sort, rows) && k <= |rows|
    ensures Ascending(lt, sort, rows[k..])
  {
    hide LexAfter;
  }

  /** The page that shows the listing from `k` on. */
  ghost predicate IsSlice(listing: seq<Row>, sort: seq<SortSpec>, limit: nat, page: Page, k: nat)
    requires k <= |listing|
  {
    && page.hasMore == (k + limit < |listing|)
    && page.items == listing[k..if k + limit < |listing| then k + limit else |listing|]
    && page.nextCursor == if k + limit < |listing| then CursorAt(listing, sort, k + limit) else None
  }

  lemma PageFromCursor(lt: Order, table: seq<Row>, q: Query, tieBreaker: nat, k: nat)
    requires Walkable(lt, table, q, tieBreaker) && k <= |Listing(lt, table, q)|
    ensures var listing := Listing(lt, table, q);
      IsSlice(listing, q.sort, q.limit, ListPage(lt, table, q.(cursor := CursorAt(listing, q.sort, k))), k)
  {
    var listing := Listing(lt, table, q);
    var cursor := CursorAt(listing, q.sort, k);
    FoundFromCursor(lt, table, q, tieBreaker, k);
    PageIsCut(lt, table, q.(cursor := cursor));
    CutIsSlice(listing, q.sort, q.limit, k);
    hide *;
  }

  lemma PageIsCut(lt: Order, table: seq<Row>, q: Query)
    requires q.limit >= 1
    ensures var found := OrderBy(lt, q.sort, Select(lt, table, WhereOf(q)));
      ListPage(lt, table, q) == CutPage(if q.limit + 1 <= |found| then found[..q.limit + 1] else found, q.sort, q.limit)
  {
  }

  lemma CutIsSlice(listing: seq<Row>, sort: seq<SortSpec>, limit: nat, k: nat)
    requires limit >= 1 && k <= |listing|
    ensures var found := listing[k..];
      IsSlice(listing, sort, limit, CutPage(if limit + 1 <= |found| then found[..limit + 1] else found, sort, limit), k)
  {
    hide CursorOf;
    var found := listing[k..];
    if limit + 1 <= |found| {
      assert found[..limit + 1][..limit] == listing[k..k + limit];
      assert found[..limit + 1][limit - 1] == listing[k + limit - 1];
    }
  }

  /** A client that starts without a cursor and follows `nextCursor`. */
  ghost predicate Follows(lt: Order, table: seq<Row>, q: Query, pages: seq<Page>)
    requires q.limit >= 1
  {
    var n := |pages|;
    if n == 0 then true
    else if n == 1 then pages[0] == ListPage(lt, table, q.(cursor := None))
    else
      && Follows(lt, table, q, pages[..n - 1])
      && pages[n - 2].nextCursor.Some?
      && pages[n - 1] == ListPage(lt, table, q.(cursor := pages[n - 2].nextCursor))
  }

  function Items(pages: seq<Page>): seq<Row> {
    if pages == [] then [] else Items(pages[..|pages| - 1]) + pages[|pages| - 1].items
  }

  /** The number of rows on that many full pages. */
  function Offset(pages: nat, limit: nat): nat {
    if pages == 0 then 0 else Offset(pages - 1, limit) + limit
  }

  /** After `n` pages the client has seen exactly a prefix of the listing. */
  ghost predicate Seen(listing: seq<Row>, sort: seq<SortSpec>, limit: nat, n: nat, next: Option<Row>, items: seq<Row>) {
    && (n > 1 ==> Offset(n - 1, limit) < |listing|)
    && (if Offset(n, limit) < |listing|
        then next == CursorAt(listing, sort, Offset(n, limit)) && items == listing[..Offset(n, limit)]
        else next == None && items == listing)
  }

  lemma SeenFirst(listing: seq<Row>, sort: seq<SortSpec>, limit: nat, page: Page)
    requires IsSlice(listing, sort, limit, page, 0)
    ensures Seen(listing, sort, limit, 1, page.nextCursor, page.items)
  {
    hide CursorAt;
    assert Offset(1, limit) == limit;
  }

  lemma SeenExtends(listing: seq<Row>, sort: seq<SortSpec>, limit: nat, n: nat, items: seq<Row>, page: Page)
    requires limit >= 1 && n >= 1
    requires Offset(n, limit) < |listing| && items == listing[..Offset(n, limit)]
    requires IsSlice(listing, sort, limit, page, Offset(n, limit))
    ensures Seen(listing, sort, limit, n + 1, page.nextCursor, items + page.items)
  {
    hide CursorAt;
    var k := Offset(n, limit);
    assert Offset(n + 1, limit) == k + limit;
    if k + limit < |listing| {
      assert listing[..k] + listing[k..k + limit] == listing[..k + limit];
    } else {
      assert listing[..k] + listing[k..] == listing;
    }
  }

  /** A page that has a next cursor was not the last of the listing. */
  lemma SeenMore(listing: seq<Row>, sort: seq<SortSpec>, limit: nat, n: nat, next: Option<Row>, items: seq<Row>)
    requires Seen(listing, sort, limit, n, next, items) && next.Some?
    ensures Offset(n, limit) < |listing| && items == listing[..Offset(n, limit)]
    ensures next == CursorAt(listing, sort, Offset(n, limit))
  {
  }

  lemma FollowsUnfolds(lt: Order, table: seq<Row>, q: Query, pages: seq<Page>)
    requires q.limit >= 1 && Follows(lt, table, q, pages) && pages != []
    ensures |pages| == 1 ==> pages[0] == ListPage(lt, table, q.(cursor := None)) && Items(pages) == pages[0].items
    ensures |pages| > 1 ==>
      && Follows(lt, table, q, pages[..|pages| - 1])
      && pages[|pages| - 2].nextCursor.Some?
      && pages[|pages| - 1] == ListPage(lt, table, q.(cursor := pages[|pages| - 2].nextCursor))
      && Items(pages) == Items(pages[..|pages| - 1]) + pages[|pages| - 1].items
  {
    hide ListPage;
  }

  lemma WalkableLimit(lt: Order, table: seq<Row>, q: Query, tieBreaker: nat)
    requires Walkable(lt, table, q, tieBreaker)
    ensures q.limit >= 1
  {
  }

  lemma {:induction false} PagesSoFar(lt: Order, table: seq<Row>, q: Query, tieBreaker: nat, pages: seq<Page>)
    requires Walkable(lt, table, q, tieBreaker) && Follows(lt, table, q, pages) && pages != []
    ensures Seen(Listing(lt, table, q), q.sort, q.limit, |pages|, pages[|pages| - 1].nextCursor, Items(pages))
    decreases |pages|
  {
    hide *;
    WalkableLimit(lt, table, q, tieBreaker);
    FollowsUnfolds(lt, table, q, pages);
    var n := |pages| - 1;
    if n == 0 {
      FirstPage(lt, table, q, tieBreaker);
    } else {
      PagesSoFar(lt, table, q, tieBreaker, pages[..n]);
      assert pages[..n][n - 1] == pages[n - 1];
      NextPage(lt, table, q, tieBreaker, n, pages[n - 1].nextCursor, Items(pages[..n]));
    }
  }

  lemma FirstPage(lt: Order, table: seq<Row>, q: Query, tieBreaker: nat)
    requires Walkable(lt, table, q, tieBreaker)
    ensures var page := ListPage(lt, table, q.(cursor := None));
      Seen(Listing(lt, table, q), q.sort, q.limit, 1, page.nextCursor, page.items)
  {
    assert CursorAt(Listing(lt, table, q), q.sort, 0) == None;
    hide *;
    PageFromCursor(lt, table, q, tieBreaker, 0);
    SeenFirst(Listing(lt, table, q), q.sort, q.limit, ListPage(lt, table, q.(cursor := None)));
  }

  lemma NextPage(lt: Order, table: seq<Row>, q: Query, tieBreaker: nat, n: nat, next: Option<Row>, items: seq<Row>)
    requires Walkable(lt, table, q, tieBreaker) && n >= 1 && next.Some?
    requires Seen(Listing(lt, table, q), q.sort, q.limit, n, next, items)
    ensures var page := ListPage(lt, table, q.(cursor := next));
      Seen(Listing(lt, table, q), q.sort, q.limit, n + 1, page.nextCursor, items + page.items)
  {
    hide *;
    WalkableLimit(lt, table, q, tieBreaker);
    SeenMore(Listing(lt, table, q), q.sort, q.limit, n, next, items);
    PageFromCursor(lt, table, q, tieBreaker, Offset(n, q.limit));
    SeenExtends(Listing(lt, table, q), q.sort, q.limit, n, items, ListPage(lt, table, q.(cursor := next)));
  }

  /** Following the cursors visits every matching row exactly once, in sort order, and
      ends after ceil(n / limit) pages, or one page when nothing matches. */
  lemma WalkEnumeratesListing(lt: Order, table: seq<Row>, q: Query, tieBreaker: nat, pages: seq<Page>)
    requires Walkable(lt, table, q, tieBreaker) && Follows(lt, table, q, pages)
    requires pages != [] && pages[|pages| - 1].nextCursor.None?
    ensures var matching := Select(lt, table, q.base);
      && multiset(Items(pages)) == multiset(matching)
      && Ascending(lt, q.sort, Items(pages))
      && |pages| == PageCount(|matching|, q.limit)
  {
    hide Follows, ListPage, Select, OrderBy, Ascending, Ordered, UniqueOn, AllCover;
    PagesSoFar(lt, table, q, tieBreaker, pages);
    ListingFacts(lt, table, q, tieBreaker);
    SameBagSameMembers(Listing(lt, table, q), Select(lt, table, q.base));
    CountPages(|Select(lt, table, q.base)|, q.limit, |pages|);
  }

  function PageCount(rows: nat, limit: nat): nat
    requires limit >= 1
  {
    if rows == 0 then 1 else (rows + limit - 1) / limit
  }

  lemma CountPages(rows: nat, limit: nat, pages: nat)
    requires limit >= 1 && pages >= 1 && (pages > 1 ==> Offset(pages - 1, limit) < rows) && rows <= Offset(pages, limit)
    ensures pages == PageCount(rows, limit)
  {
    OffsetIsProduct(pages, limit);
    OffsetIsProduct(pages - 1, limit);
    if rows != 0 {
      var r := rows - 1 - Offset(pages - 1, limit);
      QuotientIs(rows + limit - 1, limit, pages, r);
    }
  }

  lemma {:induction false} OffsetIsProduct(pages: nat, limit: nat)
    ensures Offset(pages, limit) == pages * limit
  {
    if pages > 0 {
      OffsetIsProduct(pages - 1, limit);
      assert pages * limit == (pages - 1) * limit + limit;
    }
  }

  lemma QuotientIs(a: int, d: int, q: int, r: int)
    requires d >= 1 && a == q * d + r && 0 <= r < d
    ensures a / d == q
  {
    var e, s := a / d, a % d;
    assert a == e * d + s && (e - q) * d == r - s;
    assert e - q >= 1 ==> (e - q) * d >= d;
    assert e - q <= -1 ==> (e - q) * d <= -d;
  }

  /** And the walk always gets to its end: it can be continued until no cursor is left. */
  lemma {:induction false} WalkCanBeFinished(lt: Order, table: seq<Row>, q: Query, tieBreaker: nat, pages: seq<Page>)
    returns (all: seq<Page>)
    requires Walkable(lt, table, q, tieBreaker) && Follows(lt, table, q, pages) && pages != []
    ensures pages <= all && Follows(lt, table, q, all) && all[|all| - 1].nextCursor.None?
    decreases |Listing(lt, table, q)| + q.limit - Offset(|pages|, q.limit)
  {
    hide ListPage, Ordered, UniqueOn, OrderBy, AllCover, Listing;
    PagesSoFar(lt, table, q, tieBreaker, pages);
    all := pages;
    var next := pages[|pages| - 1].nextCursor;
    if next.Some? {
      var more := pages + [ListPage(lt, table, q.(cursor := next))];
      assert more[..|more| - 1] == pages;
      all := WalkCanBeFinished(lt, table, q, tieBreaker, more);
    }
  }
}
