/** Sort, cursor and pages together: the cursor of a page comes back as it was handed out. */
module ListQuery {
  import opened Wrappers
  import opened CursorAfter
  import opened Scalars
  import opened ListSort
  import opened ListCursor
  import P = Pagination
  import T = Text

  lemma {:induction false} EndKeepsStart(s: string)
    requires s != "" && !T.Space(s[0])
    ensures T.TrimEnd(s) != ""
    decreases |s|
  {
    hide T.Space;
    if T.Space(s[|s| - 1]) { EndKeepsStart(s[..|s| - 1]); }
  }

  lemma NormalizedIsNotBlank(sort: seq<SortSpec>)
    requires sort != [] && PlainNames(sort)
    ensures T.Trim(NormalizeSort(sort)) != ""
  {
    hide T.Space, T.TrimEnd;
    var first := TokenOf(sort[0]);
    assert TokensOf(sort)[0] == first;
    assert PlainName(sort[0].field);
    assert first[0] == '-' || first[0] == sort[0].field[0];
    assert !T.Space('-') by { DashIsNoSpace(); }
    var s := NormalizeSort(sort);
    assert s[0] == first[0];
    EndKeepsStart(s);
  }

  lemma DashIsNoSpace()
    ensures !T.Space('-')
  {
  }

  /** The values of a row on the sort columns, in the form cursors carry them. */
  predicate CanonicalOn(env: Env, allowed: map<Field, FieldType>, sort: seq<SortSpec>, row: Row) {
    forall i :: 0 <= i < |sort| ==>
      sort[i].field in row && sort[i].field in allowed && Canonical(env, allowed[sort[i].field], row[sort[i].field])
  }

  function FieldsOf(sort: seq<SortSpec>): seq<Field> {
    seq(|sort|, i requires 0 <= i < |sort| => sort[i].field)
  }

  /** For every sort the parser returns, the cursor built from the last row of a page is
      decoded, on the next request for the same sort, to exactly that cursor. */
  lemma NextCursorSurvives(env: Env, raw: RawSort, o: SortOptions, row: Row, length: nat)
    requires GoodOptions(o) && ParseSort(raw, o).Ok? && length <= MAX_CURSOR_LENGTH
    requires CanonicalOn(env, o.allowed, ParseSort(raw, o).value, row)
    ensures var sort := ParseSort(raw, o).value; var text := NormalizeSort(sort); var after := P.CursorOf(sort, row);
      var co := CursorOptions(text, FieldsOf(sort), o.allowed);
      && DecodeCursor(env, CursorText(length, Some(EncodeCursor(text, after))), co) == Ok(after)
      && Covers(after, sort)
  {
    hide NormalizeSort, DecodeCursor, EncodeCursor, Canonical, T.Trim, ParseSort, GoodOptions;
    var sort := ParseSort(raw, o).value;
    ParsedSort(raw, o);
    NormalizedIsNotBlank(sort);
    var after := P.CursorOf(sort, row);
    var fields := FieldsOf(sort);
    forall i | 0 <= i < |sort| ensures sort[i].field in after { assert sort[i] in sort; }
    var co := CursorOptions(NormalizeSort(sort), fields, o.allowed);
    forall f | f in after ensures f in o.allowed && Canonical(env, o.allowed[f], after[f]) {
      var spec :| spec in sort && spec.field == f;
      var i :| 0 <= i < |sort| && sort[i] == spec;
    }
    assert Proper(env, co, after);
    CursorRoundTrip(env, co, NormalizeSort(sort), after, length);
  }

  // ----- The walk of a client -----

  /** A listing as a client keeps asking for it: the raw sort, the filters and the limit stay,
      and so do the rows; `lengthOf` is the length of a cursor's text. */
  datatype Request = Request(
    env: Env,
    lt: Order,
    table: seq<Row>,
    raw: RawSort,
    options: SortOptions,
    base: Where,
    limit: nat,
    lengthOf: (string, Row) -> nat)

  datatype Refusal = BadSort | BadCursor

  function Encoded(r: Request, sort: seq<SortSpec>, after: Row): CursorText {
    CursorText(r.lengthOf(NormalizeSort(sort), after), Some(EncodeCursor(NormalizeSort(sort), after)))
  }

  /** One request: parse the sort, decode the cursor, list a page. */
  function Respond(r: Request, cursor: Option<CursorText>): Result<P.Page, Refusal>
    requires r.limit >= 1
  {
    match ParseSort(r.raw, r.options)
    case Err(_) => Err(BadSort)
    case Ok(sort) =>
      if cursor.None? then Ok(P.ListPage(r.lt, r.table, P.Query(r.limit, sort, r.base, None)))
      else
        match DecodeCursor(r.env, cursor.value, CursorOptions(NormalizeSort(sort), FieldsOf(sort), r.options.allowed))
        case Err(_) => Err(BadCursor)
        case Ok(after) => Ok(P.ListPage(r.lt, r.table, P.Query(r.limit, sort, r.base, Some(after))))
  }

  /** A client that sends back, as it got it, the cursor of each page it received. */
  ghost predicate ClientFollows(r: Request, sort: seq<SortSpec>, pages: seq<P.Page>)
    requires r.limit >= 1
  {
    var n := |pages|;
    if n == 0 then true
    else if n == 1 then Respond(r, None) == Ok(pages[0])
    else
      && ClientFollows(r, sort, pages[..n - 1])
      && pages[n - 2].nextCursor.Some?
      && Respond(r, Some(Encoded(r, sort, pages[n - 2].nextCursor.value))) == Ok(pages[n - 1])
  }

  /** The rows can be listed in this sort: canonical values, ordered columns, a unique
      tie-breaker, and cursors that fit. */
  ghost predicate Listable(r: Request, sort: seq<SortSpec>) {
    && r.limit >= 1 && GoodOptions(r.options) && ParseSort(r.raw, r.options) == Ok(sort)
    && Ordered(r.lt, sort) && P.UniqueOn(r.table, r.options.tieBreaker.field)
    && forall row :: row in r.table ==> CanonicalOn(r.env, r.options.allowed, sort, row) && Fits(r, sort, row)
  }

  predicate Fits(r: Request, sort: seq<SortSpec>, row: Row) {
    r.lengthOf(NormalizeSort(sort), P.CursorOf(sort, row)) <= MAX_CURSOR_LENGTH
  }

  function QueryOf(r: Request, sort: seq<SortSpec>): P.Query {
    P.Query(r.limit, sort, r.base, None)
  }

  lemma ListableIsWalkable(r: Request, sort: seq<SortSpec>) returns (k: nat)
    requires Listable(r, sort)
    ensures P.Walkable(r.lt, r.table, QueryOf(r, sort), k)
  {
    hide ParseSort, Canonical, GoodOptions, TotalOrder, P.Differ;
    ParsedSort(r.raw, r.options);
    k :| 0 <= k < |sort| && sort[k].field == r.options.tieBreaker.field;
    forall row | row in r.table ensures Covers(row, sort) {
      assert CanonicalOn(r.env, r.options.allowed, sort, row);
    }
  }

  /** The cursor of a page is that of a row of the table. */
  lemma CursorOfRow(lt: Order, table: seq<Row>, q: P.Query) returns (row: Row)
    requires q.limit >= 1 && P.ListPage(lt, table, q).nextCursor.Some?
    ensures row in table && P.ListPage(lt, table, q).nextCursor == Some(P.CursorOf(q.sort, row))
  {
    hide P.Select, P.OrderBy, P.WhereOf, P.CursorOf;
    var selected := P.Select(lt, table, P.WhereOf(q));
    var found := P.OrderBy(lt, q.sort, selected);
    P.SelectMembers(lt, table, P.WhereOf(q));
    P.OrderByBag(lt, q.sort, selected);
    P.SameBagSameMembers(found, selected);
    row := found[q.limit - 1];
    assert row in found;
  }

  /** The cursor of any page is accepted, and stands for itself. */
  lemma CursorIsTaken(r: Request, sort: seq<SortSpec>, cursor: Option<Row>)
    requires Listable(r, sort) && P.ListPage(r.lt, r.table, QueryOf(r, sort).(cursor := cursor)).nextCursor.Some?
    ensures var next := P.ListPage(r.lt, r.table, QueryOf(r, sort).(cursor := cursor)).nextCursor;
      Respond(r, Some(Encoded(r, sort, next.value))) == Ok(P.ListPage(r.lt, r.table, QueryOf(r, sort).(cursor := next)))
  {
    hide P.ListPage, P.UniqueOn, ParseSort, DecodeCursor, EncodeCursor, NormalizeSort, GoodOptions, CanonicalOn,
      Ordered;
    var row := CursorOfRow(r.lt, r.table, QueryOf(r, sort).(cursor := cursor));
    NextCursorSurvives(r.env, r.raw, r.options, row, r.lengthOf(NormalizeSort(sort), P.CursorOf(sort, row)));
  }

  /** The pages a client gets are those of the walk over cursors. */
  lemma {:induction false} ClientWalks(r: Request, sort: seq<SortSpec>, pages: seq<P.Page>)
    requires Listable(r, sort) && ClientFollows(r, sort, pages)
    ensures P.Follows(r.lt, r.table, QueryOf(r, sort), pages)
    ensures pages != [] ==> exists cursor ::
      pages[|pages| - 1] == P.ListPage(r.lt, r.table, QueryOf(r, sort).(cursor := cursor))
    decreases |pages|
  {
    hide P.ListPage, DecodeCursor, EncodeCursor, NormalizeSort;
    var n, q := |pages|, QueryOf(r, sort);
    if n == 1 {
      assert pages[0] == P.ListPage(r.lt, r.table, q.(cursor := None));
    } else if n > 1 {
      ClientWalks(r, sort, pages[..n - 1]);
      var last := pages[..n - 1][n - 2];
      var cursor :| last == P.ListPage(r.lt, r.table, q.(cursor := cursor));
      hide Listable, Respond;
      CursorIsTaken(r, sort, cursor);
      assert pages[n - 1] == P.ListPage(r.lt, r.table, q.(cursor := last.nextCursor));
    }
  }

  /** A client that follows nextCursor, sending each cursor back with the same sort, is never
      refused, and when no cursor is left it has received every matching row exactly once, in
      order, in max(1, ceil(n / limit)) pages. */
  lemma ClientReceivesListing(r: Request, sort: seq<SortSpec>, pages: seq<P.Page>)
    requires Listable(r, sort) && ClientFollows(r, sort, pages) && pages != []
    ensures var next := pages[|pages| - 1].nextCursor;
      && (next.Some? ==> Respond(r, Some(Encoded(r, sort, next.value))).Ok?)
      && (next.None? ==>
            var matching := P.Select(r.lt, r.table, r.base);
            && multiset(P.Items(pages)) == multiset(matching)
            && P.Ascending(r.lt, sort, P.Items(pages))
            && |pages| == P.PageCount(|matching|, r.limit))
  {
    assert r.limit >= 1;
    var k := ListableIsWalkable(r, sort);
    hide Listable, Respond, P.ListPage, P.Walkable, P.Follows, P.Ascending, P.Select, P.Items, P.PageCount,
      ClientFollows, Encoded;
    ClientWalks(r, sort, pages);
    var next := pages[|pages| - 1].nextCursor;
    if next.Some? {
      var cursor :| pages[|pages| - 1] == P.ListPage(r.lt, r.table, QueryOf(r, sort).(cursor := cursor));
      CursorIsTaken(r, sort, cursor);
    } else {
      P.WalkEnumeratesListing(r.lt, r.table, QueryOf(r, sort), k, pages);
    }
  }
}
