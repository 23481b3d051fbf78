/** From accepted filters of the admin user listing to the clause sent to the database. */
module AdminUsersFilters {
  import opened Wrappers
  import opened CursorAfter
  import opened Scalars
  import opened Filters
  import opened FilterMeaning
  import P = Pagination
  import T = Text
  import J = JsonValue

  const ROLE := "role"
  const EMAIL_VERIFIED := "emailVerified"
  const EMAIL_VERIFIED_AT := "emailVerifiedAt"
  const CREATED_AT := "createdAt"
  const EMAIL := "email"
  const ROLES := ["USER", "ADMIN"]

  /** The filters of GET /admin/users. */
  const USERS_ALLOWLIST: Allowlist := map[
    ROLE := Config(Enum, {Eq, In}, ROLES),
    EMAIL_VERIFIED := Config(Of(BooleanType), {Eq}, []),
    CREATED_AT := Config(Of(DatetimeType), {Gte, Lte}, []),
    EMAIL := Config(Of(StringType), {Eq}, [])
  ]

  predicate IsRole(s: Scalar) {
    s.Text? && s.s in ROLES
  }

  /** The roles among the values. */
  function OnlyRoles(values: seq<Scalar>): (r: seq<Scalar>)
    ensures forall v :: v in r <==> v in values && IsRole(v)
  {
    if values == [] then []
    else (if IsRole(values[0]) then [values[0]] else []) + OnlyRoles(values[1..])
  }

  /** The clause of one filter; none where the mapping breaks out of its switch. */
  function Clause(env: Env, f: FilterExpr): Option<Where> {
    if f.field == ROLE then
      match f
      case One(_, op, value) => if op == Eq && IsRole(value) then Some(Equals(ROLE, value)) else None
      case Among(_, values) => if OnlyRoles(values) != [] then Some(OneOf(ROLE, OnlyRoles(values))) else None
    else if f.field == EMAIL_VERIFIED then
      if f.One? && f.op == Eq && f.value.Flag? then
        Some(if f.value.b then NotNull(EMAIL_VERIFIED_AT) else IsNull(EMAIL_VERIFIED_AT))
      else None
    else if f.field == CREATED_AT then
      if f.One? && f.value.Text? && env.dateOf(f.value.s).Some? then
        var date := Text(env.dateOf(f.value.s).value);
        if f.op == Gte then Some(AtLeast(CREATED_AT, date))
        else if f.op == Lte then Some(AtMost(CREATED_AT, date))
        else None
      else None
    else if f.field == EMAIL then
      if f.One? && f.op == Eq && f.value.Text? then Some(EqualsIgnoringCase(EMAIL, f.value.s)) else None
    else None
  }

  function Clauses(env: Env, filters: seq<FilterExpr>): seq<Where> {
    if filters == [] then []
    else
      var last := Clause(env, filters[|filters| - 1]);
      Clauses(env, filters[..|filters| - 1]) + if last.Some? then [last.value] else []
  }

  function UsersFiltersWhere(env: Env, filters: seq<FilterExpr>): Where {
    if Clauses(env, filters) != [] then And(Clauses(env, filters)) else Everything
  }

  method MapUsersFilters(env: Env, filters: seq<FilterExpr>) returns (w: Where)
    ensures w == UsersFiltersWhere(env, filters)
  {
    var conj: seq<Where> := [];
    for i := 0 to |filters|
      invariant conj == Clauses(env, filters[..i])
    {
      var filter := filters[i];
      assert filters[..i + 1][..i] == filters[..i];
      if filter.field == ROLE {
        match filter
        case One(_, op, value) => if op == Eq && IsRole(value) { conj := conj + [Equals(ROLE, value)]; }
        case Among(_, values) =>
          var parsed := OnlyRoles(values);
          if |parsed| > 0 { conj := conj + [OneOf(ROLE, parsed)]; }
      } else if filter.field == EMAIL_VERIFIED {
        if filter.One? && filter.op == Eq && filter.value.Flag? {
          if filter.value.b {
            conj := conj + [NotNull(EMAIL_VERIFIED_AT)];
          } else {
            conj := conj + [IsNull(EMAIL_VERIFIED_AT)];
          }
        }
      } else if filter.field == CREATED_AT {
        if filter.One? && filter.value.Text? {
          var date := env.dateOf(filter.value.s);
          if date.Some? {
            if filter.op == Gte { conj := conj + [AtLeast(CREATED_AT, Text(date.value))]; }
            else if filter.op == Lte { conj := conj + [AtMost(CREATED_AT, Text(date.value))]; }
          }
        }
      } else if filter.field == EMAIL {
        if filter.One? && filter.op == Eq && filter.value.Text? {
          conj := conj + [EqualsIgnoringCase(EMAIL, filter.value.s)];
        }
      }
    }
    assert filters[..|filters|] == filters;
    return if |conj| > 0 then And(conj) else Everything;
  }

  // ----- What a filter means -----

  /** A row has this role, is verified or not, was created in time, has this email. */
  predicate Meets(env: Env, lt: Order, f: FilterExpr, row: Row) {
    if f.field == ROLE then
      ROLE in row && match f case One(_, _, value) => row[ROLE] == value case Among(_, values) => row[ROLE] in values
    else if f.field == EMAIL_VERIFIED then
      f.One? && (EMAIL_VERIFIED_AT in row <==> f.value == Flag(true))
    else if f.field == CREATED_AT then
      f.One? && f.value.Text? && env.dateOf(f.value.s).Some? && CREATED_AT in row &&
      var date := Text(env.dateOf(f.value.s).value);
      row[CREATED_AT] == date ||
      if f.op == Gte then lt(CREATED_AT, date, row[CREATED_AT]) else lt(CREATED_AT, row[CREATED_AT], date)
    else
      f.One? && EMAIL in row && row[EMAIL].Text? && f.value.Text? && T.Lower(row[EMAIL].s) == T.Lower(f.value.s)
  }

  /** Formatting a date again gives the same text. */
  ghost predicate DatesSettle(env: Env) {
    forall s: string :: env.dateOf(s).Some? ==> env.dateOf(env.dateOf(s).value) == env.dateOf(s)
  }

  /** What an accepted filter looks like. */
  predicate Accepted(env: Env, f: FilterExpr) {
    || (f.field == ROLE && (if f.One? then f.op == Eq && IsRole(f.value)
         else f.values != [] && forall v :: v in f.values ==> IsRole(v)))
    || (f.field == EMAIL_VERIFIED && f.One? && f.op == Eq && f.value.Flag?)
    || (f.field == CREATED_AT && f.One? && (f.op == Gte || f.op == Lte) && f.value.Text? &&
         env.dateOf(f.value.s) == Some(f.value.s))
    || (f.field == EMAIL && f.One? && f.op == Eq && f.value.Text?)
  }

  lemma ColumnsDiffer()
    ensures ROLE != EMAIL_VERIFIED && ROLE != CREATED_AT && ROLE != EMAIL && EMAIL_VERIFIED != CREATED_AT
    ensures EMAIL_VERIFIED != EMAIL && CREATED_AT != EMAIL
  {
    assert |ROLE| == 4 && |EMAIL_VERIFIED| == 13 && |CREATED_AT| == 9 && |EMAIL| == 5;
  }

  lemma Allowed(f: Field)
    requires f in USERS_ALLOWLIST
    ensures f == ROLE ==> USERS_ALLOWLIST[f] == Config(Enum, {Eq, In}, ROLES)
    ensures f == EMAIL_VERIFIED ==> USERS_ALLOWLIST[f] == Config(Of(BooleanType), {Eq}, [])
    ensures f == CREATED_AT ==> USERS_ALLOWLIST[f] == Config(Of(DatetimeType), {Gte, Lte}, [])
    ensures f == EMAIL ==> USERS_ALLOWLIST[f] == Config(Of(StringType), {Eq}, [])
    ensures f == ROLE || f == EMAIL_VERIFIED || f == CREATED_AT || f == EMAIL
  {
    ColumnsDiffer();
  }

  lemma {:induction false} ItemsAreRoles(env: Env, items: seq<string>)
    ensures var r := ParseItems(env, Config(Enum, {Eq, In}, ROLES), items);
      r.Some? ==> |r.value| == |items| && forall v :: v in r.value ==> IsRole(v)
    decreases |items|
  {
    hide ParseString;
    if items != [] { ItemsAreRoles(env, items[1..]); }
  }

  lemma ExprAccepted(env: Env, field: Field, op: Op, v: J.Value)
    requires DatesSettle(env) && field in USERS_ALLOWLIST && ParseExpr(env, field, op, v, USERS_ALLOWLIST[field]).Ok?
    ensures Accepted(env, ParseExpr(env, field, op, v, USERS_ALLOWLIST[field]).value)
  {
    Allowed(field);
    hide ParseItems, ParseInList, ParseString, ParseUuid, ParseNumber, ParseBoolean, T.Trim;
    if field == ROLE && op == In && ParseInList(v).Some? {
      ItemsAreRoles(env, ParseInList(v).value);
      InListNonEmpty(v);
    }
  }

  lemma InListNonEmpty(v: J.Value)
    ensures ParseInList(v).Some? ==> ParseInList(v).value != []
  {
  }

  /** Every filter that is accepted has one of the forms the mapping handles. */
  lemma ParsedAreAccepted(env: Env, raw: RawFilter, i: nat)
    requires DatesSettle(env)
    requires ParseFilters(env, raw, USERS_ALLOWLIST).Ok? && i < |ParseFilters(env, raw, USERS_ALLOWLIST).value|
    ensures Accepted(env, ParseFilters(env, raw, USERS_ALLOWLIST).value[i])
  {
    hide Judge, Collect, Items, Accepted, DatesSettle;
    var entries := raw.entries;
    var items := Items(entries, IsBracketed(entries), USERS_ALLOWLIST);
    CollectAll(env, USERS_ALLOWLIST, items);
    ItemAccepted(env, items[i]);
  }

  lemma ItemAccepted(env: Env, item: Item)
    requires DatesSettle(env) && Judge(env, USERS_ALLOWLIST, item).Ok?
    ensures Accepted(env, Judge(env, USERS_ALLOWLIST, item).value)
  {
    hide ParseExpr, Accepted, DatesSettle, ReadOp;
    if item.Ask? && item.field in USERS_ALLOWLIST && ReadOp(item.op).Some? {
      ExprAccepted(env, item.field, ReadOp(item.op).value, item.v);
    }
  }

  /** An accepted filter is mapped to a clause that means what the filter says. */
  lemma ClauseMeans(env: Env, lt: Order, f: FilterExpr, row: Row)
    requires Accepted(env, f)
    ensures Clause(env, f).Some? && (Holds(lt, Clause(env, f).value, row) <==> Meets(env, lt, f, row))
  {
    hide T.Lower;
    ColumnsDiffer();
    if f.field == ROLE && f.Among? {
      assert f.values[0] in f.values;
      assert f.values[0] in OnlyRoles(f.values);
    }
  }

  predicate MeetsAll(env: Env, lt: Order, filters: seq<FilterExpr>, row: Row) {
    forall i :: 0 <= i < |filters| ==> Meets(env, lt, filters[i], row)
  }

  lemma {:induction false} ClausesMean(env: Env, lt: Order, filters: seq<FilterExpr>, row: Row)
    requires forall i :: 0 <= i < |filters| ==> Accepted(env, filters[i])
    ensures |Clauses(env, filters)| == |filters|
    ensures (forall i :: 0 <= i < |filters| ==>
      Holds(lt, Clauses(env, filters)[i], row)) <==> MeetsAll(env, lt, filters, row)
    decreases |filters|
  {
    hide Clause, Accepted, Holds, Meets;
    if filters != [] {
      var n := |filters| - 1;
      assert forall i :: 0 <= i < n ==> filters[..n][i] == filters[i];
      ClausesMean(env, lt, filters[..n], row);
      ClauseMeans(env, lt, filters[n], row);
      var before, all := Clauses(env, filters[..n]), Clauses(env, filters);
      assert all == before + [all[n]];
      assert forall i :: 0 <= i < n ==> all[i] == before[i];
      assert MeetsAll(env, lt, filters, row) <==>
        MeetsAll(env, lt, filters[..n], row) && Meets(env, lt, filters[n], row);
    }
  }

  /** The where clause of the listing: search and filters, then the cursor. */
  function UsersWhere(env: Env, filters: seq<FilterExpr>, search: Where, after: Where): Where {
    P.MergeWhereClauses([P.MergeWhereClauses([search, UsersFiltersWhere(env, filters)]), after])
  }

  /** For every raw filter the parser accepts, in either spelling, the listing selects
      exactly the rows that meet every parsed filter and the other conditions merged with
      them: no filter is dropped on the way. */
  lemma AcceptedFiltersSelect(env: Env, lt: Order, raw: RawFilter, search: Where, after: Where, row: Row)
    requires DatesSettle(env) && ParseFilters(env, raw, USERS_ALLOWLIST).Ok?
    ensures var filters := ParseFilters(env, raw, USERS_ALLOWLIST).value;
      Holds(lt, UsersWhere(env, filters, search, after), row) <==>
      MeetsAll(env, lt, filters, row) && Holds(lt, search, row) && Holds(lt, after, row)
  {
    hide ParseFilters, Clauses, Accepted, Meets, DatesSettle, P.MergeWhereClauses;
    var filters := ParseFilters(env, raw, USERS_ALLOWLIST).value;
    forall i | 0 <= i < |filters| ensures Accepted(env, filters[i]) { ParsedAreAccepted(env, raw, i); }
    ClausesMean(env, lt, filters, row);
    var own := UsersFiltersWhere(env, filters);
    assert Holds(lt, own, row) <==> MeetsAll(env, lt, filters, row) by { OwnMeans(env, lt, filters, row); }
    hide Holds, UsersFiltersWhere, MeetsAll;
    MergeTwo(lt, search, own, row);
    MergeTwo(lt, P.MergeWhereClauses([search, own]), after, row);
  }

  lemma MergeTwo(lt: Order, a: Where, b: Where, row: Row)
    ensures Holds(lt, P.MergeWhereClauses([a, b]), row) <==> Holds(lt, a, row) && Holds(lt, b, row)
  {
    hide Holds, P.MergeWhereClauses;
    var parts := [a, b];
    P.MergeMeansAll(lt, parts, row);
    assert a in parts && b in parts;
    assert forall c :: c in parts ==> c == a || c == b;
  }

  lemma OwnMeans(env: Env, lt: Order, filters: seq<FilterExpr>, row: Row)
    requires |Clauses(env, filters)| == |filters|
    requires (forall i :: 0 <= i < |filters| ==>
      Holds(lt, Clauses(env, filters)[i], row)) <==> MeetsAll(env, lt, filters, row)
    ensures Holds(lt, UsersFiltersWhere(env, filters), row) <==> MeetsAll(env, lt, filters, row)
  {
    hide Clauses, Meets;
  }

  // ----- From the raw filter to the rows -----

  predicate SaysTrue(v: J.Value) {
    v == J.Bool(true) || (v.Str? && T.Lower(T.Trim(v.s)) in {"true", "1"})
  }

  predicate SaysFalse(v: J.Value) {
    v == J.Bool(false) || (v.Str? && T.Lower(T.Trim(v.s)) in {"false", "0"})
  }

  /** What `field op v` says of a row: this role, or one of these; verified, or not; created at
      or after, or at or before, the date the text denotes; this email in any case. */
  ghost predicate Says(env: Env, lt: Order, field: string, op: string, v: J.Value, row: Row) {
    if field == ROLE then
      ROLE in row && row[ROLE].Text? &&
      if op == "in" then Listed(v, row[ROLE].s) else op == "eq" && v.Str? && row[ROLE].s == T.Trim(v.s)
    else if field == EMAIL_VERIFIED then
      op == "eq" && if EMAIL_VERIFIED_AT in row then SaysTrue(v) else SaysFalse(v)
    else if field == CREATED_AT then
      v.Str? && env.dateOf(T.Trim(v.s)).Some? && CREATED_AT in row &&
      var date, created := Text(env.dateOf(T.Trim(v.s)).value), row[CREATED_AT];
      || ((op == "gte" || op == "lte") && created == date)
      || (op == "gte" && lt(CREATED_AT, date, created))
      || (op == "lte" && lt(CREATED_AT, created, date))
    else
      && field == EMAIL && op == "eq" && v.Str? && EMAIL in row && row[EMAIL].Text?
      && T.Lower(row[EMAIL].s) == T.Lower(T.Trim(v.s))
  }

  ghost predicate SaysAll(env: Env, lt: Order, raw: RawFilter, row: Row) {
    forall field, op, v :: Stated(raw, field, op, v) ==> Says(env, lt, field, op, v, row)
  }

  lemma OpsDiffer()
    ensures OpText(Eq) == "eq" && OpText(In) == "in" && OpText(Gte) == "gte" && OpText(Lte) == "lte"
    ensures "eq" != "in" && "eq" != "gte" && "eq" != "lte" && "in" != "gte" && "in" != "lte" && "gte" != "lte"
  {
    assert |"eq"| == 2 && |"in"| == 2 && |"gte"| == 3 && |"lte"| == 3;
    assert "eq"[0] != "in"[0] && "gte"[0] != "lte"[0];
  }

  /** The expression of a statement selects the rows of which the statement is true. */
  lemma StatementSelects(env: Env, lt: Order, field: string, op: string, v: J.Value, e: FilterExpr, row: Row)
    requires DatesSettle(env) && FitsIn(env, USERS_ALLOWLIST, field, op, v)
    requires Expresses(env, USERS_ALLOWLIST, field, op, v, e)
    ensures Meets(env, lt, e, row) <==> Says(env, lt, field, op, v, row)
  {
    Allowed(field);
    OpsDiffer();
    hide T.Trim, T.Lower, FitsValue, Listed, Denotes;
    if field == ROLE {
      if op == "in" { RolesListed(env, v, e, row); }
    } else if field == EMAIL_VERIFIED {
      VerifiedSays(env, v, e.value);
    } else if field == CREATED_AT {
      DateSays(env, v, e.value);
    } else {
      TextSays(env, v, e.value);
    }
  }

  lemma RolesListed(env: Env, v: J.Value, e: FilterExpr, row: Row)
    requires e.Among? && FitsValue(env, Config(Enum, {Eq, In}, ROLES), "in", v)
    requires forall s :: s in e.values <==> ListDenotes(env, Config(Enum, {Eq, In}, ROLES), v, s)
    ensures ROLE in row ==> (row[ROLE] in e.values <==> row[ROLE].Text? && Listed(v, row[ROLE].s))
  {
    hide Listed, T.Trim;
    var c := Config(Enum, {Eq, In}, ROLES);
    if ROLE in row {
      assert row[ROLE] in e.values <==> ListDenotes(env, c, v, row[ROLE]);
      forall item | Listed(v, item) ensures T.Trim(item) == item { ListedIsTrimmed(v, item); }
      if row[ROLE].Text? && Listed(v, row[ROLE].s) {
        assert HasMeaning(env, c, J.Str(row[ROLE].s));
        assert DenotesIn(env, c, J.Str(row[ROLE].s), row[ROLE]);
      }
    }
  }

  lemma ListedIsTrimmed(v: J.Value, item: string)
    requires Listed(v, item)
    ensures T.Trim(item) == item
  {
    hide T.Trim, T.Trimmed;
    var parts :| Parts(v.s, parts) && Trims(parts, item);
    var i :| 0 <= i < |parts| && T.Trim(parts[i]) == item;
    T.TrimFixes(parts[i]);
    T.TrimFixes(item);
  }

  lemma VerifiedSays(env: Env, v: J.Value, s: Scalar)
    requires Denotes(env, BooleanType, v, s)
    ensures s.Flag? && (SaysTrue(v) <==> s == Flag(true)) && (SaysFalse(v) <==> s == Flag(false))
  {
    hide T.Trim;
    assert T.Lower("") == "";
    assert |"true"| == 4 && |"false"| == 5 && |"1"| == 1 && "1"[0] != "0"[0];
  }

  lemma DateSays(env: Env, v: J.Value, s: Scalar)
    requires DatesSettle(env) && Denotes(env, DatetimeType, v, s)
    ensures s.Text? && v.Str? && env.dateOf(T.Trim(v.s)) == Some(s.s) && env.dateOf(s.s) == Some(s.s)
  {
    hide T.Trim;
  }

  lemma TextSays(env: Env, v: J.Value, s: Scalar)
    requires Denotes(env, StringType, v, s)
    ensures s.Text? && v.Str? && s.s == T.Trim(v.s)
  {
    hide T.Trim;
  }

  lemma SaysWhatIsMet(env: Env, lt: Order, raw: RawFilter, filters: seq<FilterExpr>, row: Row)
    requires DatesSettle(env) && ParseFilters(env, raw, USERS_ALLOWLIST) == Ok(filters)
    ensures MeetsAll(env, lt, filters, row) <==> SaysAll(env, lt, raw, row)
  {
    hide Meets, Says, Expresses, ParseFilters, Stated, DatesSettle, FitsIn;
    ParsedMeans(env, raw, USERS_ALLOWLIST);
    if MeetsAll(env, lt, filters, row) {
      forall field: string, op: string, v: J.Value | Stated(raw, field, op, v)
        ensures Says(env, lt, field, op, v, row)
      {
        StatedFits(env, raw, USERS_ALLOWLIST, field, op, v);
        assert HasExpression(env, USERS_ALLOWLIST, filters, field, op, v);
        var e :| e in filters && Expresses(env, USERS_ALLOWLIST, field, op, v, e);
        var i :| 0 <= i < |filters| && filters[i] == e;
        StatementSelects(env, lt, field, op, v, e, row);
        assert Meets(env, lt, filters[i], row);
      }
    }
    if SaysAll(env, lt, raw, row) {
      forall i | 0 <= i < |filters| ensures Meets(env, lt, filters[i], row) {
        assert HasStatement(env, USERS_ALLOWLIST, raw, filters[i]);
        var field: string, op: string, v: J.Value :| Stated(raw, field, op, v) &&
          Expresses(env, USERS_ALLOWLIST, field, op, v, filters[i]);
        StatedFits(env, raw, USERS_ALLOWLIST, field, op, v);
        StatementSelects(env, lt, field, op, v, filters[i], row);
      }
    }
  }

  /** Whatever filter is accepted, in either spelling: the listing selects exactly the rows of
      which everything the raw filter states is true, and which meet the conditions merged with
      it. */
  lemma RawFilterSelects(env: Env, lt: Order, raw: RawFilter, filters: seq<FilterExpr>, search: Where, after: Where,
      row: Row)
    requires DatesSettle(env) && ParseFilters(env, raw, USERS_ALLOWLIST) == Ok(filters)
    ensures Holds(lt, UsersWhere(env, filters, search, after), row) <==>
      SaysAll(env, lt, raw, row) && Holds(lt, search, row) && Holds(lt, after, row)
  {
    hide *;
    SaysWhatIsMet(env, lt, raw, filters, row);
    AcceptedFiltersSelect(env, lt, raw, search, after, row);
  }

  // ----- The mapping by itself -----

  /** The filters, among all there are, that the mapping turns into a clause. */
  predicate Recognized(env: Env, f: FilterExpr) {
    || (f.field == ROLE && f.One? && f.op == Eq && IsRole(f.value))
    || (f.field == ROLE && f.Among? && exists v :: v in f.values && IsRole(v))
    || (f.field == EMAIL_VERIFIED && f.One? && f.op == Eq && f.value.Flag?)
    || (f.field == CREATED_AT && f.One? && (f.op == Gte || f.op == Lte) && f.value.Text? &&
         env.dateOf(f.value.s).Some?)
    || (f.field == EMAIL && f.One? && f.op == Eq && f.value.Text?)
  }

  /** The role column holds a role. */
  predicate RoleColumn(row: Row) {
    ROLE in row ==> IsRole(row[ROLE])
  }

  lemma RecognizedClause(env: Env, f: FilterExpr)
    ensures Clause(env, f).Some? <==> Recognized(env, f)
  {
    ColumnsDiffer();
    if f.field == ROLE && f.Among? {
      if OnlyRoles(f.values) != [] {
        assert OnlyRoles(f.values)[0] in OnlyRoles(f.values);
      }
    }
  }

  lemma RecognizedMeans(env: Env, lt: Order, f: FilterExpr, row: Row)
    requires Recognized(env, f) && RoleColumn(row)
    ensures Clause(env, f).Some? && (Holds(lt, Clause(env, f).value, row) <==> Meets(env, lt, f, row))
  {
    hide T.Lower;
    ColumnsDiffer();
    RecognizedClause(env, f);
  }

  /** A row that a filter rejects. */
  function Rejected(f: FilterExpr): (row: Row)
    ensures RoleColumn(row)
  {
    if f.field == EMAIL_VERIFIED && f.One? && f.value != Flag(true) then map[EMAIL_VERIFIED_AT := Text("")] else map[]
  }

  lemma RejectedIsNotMet(env: Env, lt: Order, f: FilterExpr)
    ensures !Meets(env, lt, f, Rejected(f))
  {
    hide T.Lower;
    ColumnsDiffer();
  }

  lemma OneClause(env: Env, f: FilterExpr)
    ensures UsersFiltersWhere(env, [f]) == if Clause(env, f).Some? then And([Clause(env, f).value]) else Everything
  {
    hide Clause;
    assert [f][..0] == [] && Clauses(env, []) == [];
  }

  /** Over all filters, not only those the parser lets through: the mapping selects the rows
      that meet a filter exactly when it recognizes the filter; any other it drops. */
  lemma AppliedExactlyWhenRecognized(env: Env, lt: Order, f: FilterExpr)
    ensures Recognized(env, f) <==>
      forall row :: RoleColumn(row) ==> (Holds(lt, UsersFiltersWhere(env, [f]), row) <==> Meets(env, lt, f, row))
    ensures !Recognized(env, f) ==> forall row :: Holds(lt, UsersFiltersWhere(env, [f]), row)
  {
    hide Meets, Clause, Clauses, UsersFiltersWhere, Recognized, RoleColumn;
    OneClause(env, f);
    RecognizedClause(env, f);
    if Recognized(env, f) {
      forall row | RoleColumn(row)
        ensures Holds(lt, UsersFiltersWhere(env, [f]), row) <==> Meets(env, lt, f, row)
      {
        RecognizedMeans(env, lt, f, row);
        SingleClause(lt, Clause(env, f).value, row);
      }
    } else {
      RejectedIsNotMet(env, lt, f);
      assert RoleColumn(Rejected(f)) && Holds(lt, Everything, Rejected(f));
    }
  }

  lemma SingleClause(lt: Order, w: Where, row: Row)
    ensures Holds(lt, And([w]), row) <==> Holds(lt, w, row)
  {
    assert [w][0] == w;
  }
}
