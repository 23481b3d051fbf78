/** What a raw filter means, entry by entry, and that the parser accepts and returns exactly
    that. */
module FilterMeaning {
  import opened Wrappers
  import opened CursorAfter
  import opened Scalars
  import opened Filters
  import T = Text
  import J = JsonValue

  // ----- What a raw filter states -----

  /** The entry states `field op v`. A plain nested value means eq; a bracketed key names the
      field, or the field and the operator. */
  predicate StatedBy(entry: (string, RawValue), bracketed: bool, field: string, op: string, v: J.Value) {
    if bracketed then
      && Name(field)
      && ((op == "eq" && entry.0 == PREFIX + field + "]")
          || (Name(op) && entry.0 == PREFIX + field + "][" + op + "]"))
      && v == ValueOf(entry.1)
    else
      && entry.0 == field
      && match entry.1 case Plain(w) => op == "eq" && v == w case Nested(ops) => (op, v) in ops
  }

  predicate Stated(raw: RawFilter, field: string, op: string, v: J.Value) {
    raw.Object? &&
    exists i :: 0 <= i < |raw.entries| && StatedBy(raw.entries[i], IsBracketed(raw.entries), field, op, v)
  }

  // ----- What a statement needs to be accepted -----

  predicate DenotesIn(env: Env, c: Config, v: J.Value, s: Scalar) {
    match c.kind
    case Of(t) => Denotes(env, t, v, s)
    case Enum => v.Str? && T.Trim(v.s) != "" && T.Trim(v.s) in c.enumValues && s == Text(T.Trim(v.s))
  }

  ghost predicate HasMeaning(env: Env, c: Config, v: J.Value) {
    exists s :: DenotesIn(env, c, v, s)
  }

  /** The parts of a text between its commas. */
  predicate Parts(s: string, parts: seq<string>) {
    parts != [] && T.Join(parts, ',') == s && forall i :: 0 <= i < |parts| ==> T.NoComma(parts[i])
  }

  predicate Trims(parts: seq<string>, item: string) {
    exists i :: 0 <= i < |parts| && T.Trim(parts[i]) == item
  }

  /** One of the parts, trimmed and not blank. */
  ghost predicate Listed(v: J.Value, item: string) {
    v.Str? && item != "" && exists parts :: Parts(v.s, parts) && Trims(parts, item)
  }

  predicate Allows(c: Config, op: string) {
    || (op == "eq" && Eq in c.ops) || (op == "in" && In in c.ops)
    || (op == "gte" && Gte in c.ops) || (op == "lte" && Lte in c.ops)
  }

  ghost predicate FitsValue(env: Env, c: Config, op: string, v: J.Value) {
    if op == "in" then
      (exists item :: Listed(v, item)) && forall item :: Listed(v, item) ==> HasMeaning(env, c, J.Str(item))
    else HasMeaning(env, c, v)
  }

  ghost predicate Fits(env: Env, c: Config, op: string, v: J.Value) {
    Allows(c, op) && FitsValue(env, c, op, v)
  }

  ghost predicate FitsIn(env: Env, allow: Allowlist, field: string, op: string, v: J.Value) {
    field in allow && Fits(env, allow[field], op, v)
  }

  /** Every statement fits its field, and a nested filter names no other field. */
  ghost predicate RawFits(env: Env, raw: RawFilter, allow: Allowlist) {
    && !raw.NotAnObject?
    && (raw.Object? && !IsBracketed(raw.entries) ==>
          forall i :: 0 <= i < |raw.entries| ==> raw.entries[i].0 in allow)
    && (forall field, op, v :: Stated(raw, field, op, v) ==> FitsIn(env, allow, field, op, v))
  }

  // ----- The expression of a statement -----

  ghost predicate ListDenotes(env: Env, c: Config, v: J.Value, s: Scalar) {
    exists item :: Listed(v, item) && DenotesIn(env, c, J.Str(item), s)
  }

  ghost predicate Expresses(env: Env, allow: Allowlist, field: string, op: string, v: J.Value, e: FilterExpr) {
    field in allow && e.field == field &&
    if op == "in" then e.Among? && forall s :: s in e.values <==> ListDenotes(env, allow[field], v, s)
    else e.One? && op == OpText(e.op) && DenotesIn(env, allow[field], v, e.value)
  }

  // ----- Scalars and lists -----

  lemma ScalarMeans(env: Env, c: Config, v: J.Value, s: Scalar)
    ensures ParseFilterScalar(env, c, v) == Some(s) <==> DenotesIn(env, c, v, s)
  {
    hide T.Trim, Denotes, ParseScalar;
    if c.kind.Of? { ParseScalarMeans(env, c.kind.scalar, v, s); }
  }

  lemma ScalarMeansSome(env: Env, c: Config, v: J.Value)
    ensures ParseFilterScalar(env, c, v).Some? <==> HasMeaning(env, c, v)
  {
    hide ParseFilterScalar, DenotesIn;
    if ParseFilterScalar(env, c, v).Some? { ScalarMeans(env, c, v, ParseFilterScalar(env, c, v).value); }
    forall s ensures DenotesIn(env, c, v, s) ==> ParseFilterScalar(env, c, v) == Some(s) { ScalarMeans(env, c, v, s); }
  }

  lemma {:induction false} SplitIsParts(s: string)
    ensures Parts(s, T.Split(s))
    decreases |s|
  {
    if s != "" {
      SplitIsParts(s[1..]);
      var rest, all := T.Split(s[1..]), T.Split(s);
      assert T.Join(rest, ',') == s[1..];
      if s[0] == ',' {
        assert all[1..] == rest;
        assert [] + [','] + s[1..] == s;
      } else {
        assert all[1..] == rest[1..];
        var first: string := [s[0]] + rest[0];
        assert T.NoComma(first);
        if |rest| > 1 {
          assert first + [','] + T.Join(rest[1..], ',') == [s[0]] + (rest[0] + [','] + T.Join(rest[1..], ','));
        }
        assert T.Join(all, ',') == [s[0]] + s[1..];
      }
    }
  }

  lemma {:induction false} NonBlankTrims(parts: seq<string>, item: string)
    ensures item in T.NonBlank(parts) <==> item != "" && Trims(parts, item)
    decreases |parts|
  {
    hide T.Trim;
    if parts != [] {
      NonBlankTrims(parts[1..], item);
      assert Trims(parts, item) <==> T.Trim(parts[0]) == item || Trims(parts[1..], item) by {
        assert forall i :: 0 < i < |parts| ==> parts[i] == parts[1..][i - 1];
      }
    }
  }

  lemma ListMeans(v: J.Value, item: string)
    requires v.Str?
    ensures item in T.NonBlank(T.Split(v.s)) <==> Listed(v, item)
  {
    hide T.Split, T.NonBlank, Trims, T.Join;
    SplitIsParts(v.s);
    NonBlankTrims(T.Split(v.s), item);
    forall parts | Parts(v.s, parts) ensures parts == T.Split(v.s) { T.SplitUndoesJoin(parts); }
  }

  lemma InListMeans(v: J.Value)
    ensures ParseInList(v).Some? <==> exists item :: Listed(v, item)
    ensures ParseInList(v).Some? ==> forall item :: item in ParseInList(v).value <==> Listed(v, item)
  {
    hide T.Split, T.NonBlank, Listed;
    if v.Str? {
      var items := T.NonBlank(T.Split(v.s));
      forall item ensures item in items <==> Listed(v, item) { ListMeans(v, item); }
      if items != [] { assert items[0] in items; }
    } else {
      NothingListed(v);
    }
  }

  lemma NothingListed(v: J.Value)
    requires !v.Str?
    ensures !exists item :: Listed(v, item)
  {
  }

  lemma {:induction false} ItemsMean(env: Env, c: Config, items: seq<string>)
    ensures var r := ParseItems(env, c, items);
      && (r.Some? <==> forall item :: item in items ==> HasMeaning(env, c, J.Str(item)))
      && (r.Some? ==> forall s :: s in r.value <==> exists item :: item in items && DenotesIn(env, c, J.Str(item), s))
    decreases |items|
  {
    hide ParseFilterScalar, DenotesIn, HasMeaning;
    if items != [] {
      ItemsMean(env, c, items[1..]);
      ScalarMeansSome(env, c, J.Str(items[0]));
      assert forall item :: item in items <==> item == items[0] || item in items[1..];
      var r, rest := ParseItems(env, c, items), ParseItems(env, c, items[1..]);
      if r.Some? {
        var first := ParseFilterScalar(env, c, J.Str(items[0])).value;
        forall s ensures s in r.value <==> exists item :: item in items && DenotesIn(env, c, J.Str(item), s) {
          ScalarMeans(env, c, J.Str(items[0]), s);
          assert s in r.value <==> s == first || s in rest.value;
        }
      }
    }
  }

  // ----- One statement -----

  lemma ReadOpMeans(op: string)
    ensures ReadOp(op).Some? <==> op == "eq" || op == "in" || op == "gte" || op == "lte"
    ensures ReadOp(op).Some? ==> OpText(ReadOp(op).value) == op && (ReadOp(op) == Some(In) <==> op == "in")
  {
  }

  lemma AllowsMeans(c: Config, op: string)
    ensures Allows(c, op) <==> ReadOp(op).Some? && ReadOp(op).value in c.ops
  {
    assert |"eq"| == 2 && |"in"| == 2 && "eq"[0] != "in"[0] && |"gte"| == 3 && |"lte"| == 3 && "gte"[0] != "lte"[0];
  }

  /** A statement is judged acceptable exactly when it fits, and then gives its expression. */
  lemma StatementMeans(env: Env, allow: Allowlist, field: string, op: string, v: J.Value)
    ensures var r := Judge(env, allow, Ask(field, op, v));
      (r.Ok? <==> FitsIn(env, allow, field, op, v)) && (r.Ok? ==> Expresses(env, allow, field, op, v, r.value))
  {
    ReadOpMeans(op);
    if field in allow {
      AllowsMeans(allow[field], op);
      if ReadOp(op).Some? {
        hide ReadOp, Allows, ParseExpr, OpText, FitsValue;
        ExprMeans(env, field, op, ReadOp(op).value, v, allow[field]);
        assert Judge(env, allow, Ask(field, op, v)) == ParseExpr(env, field, ReadOp(op).value, v, allow[field]);
      }
    }
  }

  lemma ExprMeans(env: Env, field: string, op: string, read: Op, v: J.Value, c: Config)
    requires OpText(read) == op && (read == In <==> op == "in")
    ensures var r := ParseExpr(env, field, read, v, c);
      && (r.Ok? <==> read in c.ops && FitsValue(env, c, op, v))
      && (r.Ok? && op == "in" ==>
            && r.value.Among? && r.value.field == field
            && forall s :: s in r.value.values <==> ListDenotes(env, c, v, s))
      && (r.Ok? && op != "in" ==>
            r.value.One? && r.value == One(field, read, r.value.value) && DenotesIn(env, c, v, r.value.value))
  {
    hide ParseItems, ParseInList, ParseFilterScalar, DenotesIn, HasMeaning, Listed, FormatFilterField, OpText;
    if read in c.ops && op == "in" {
      InListMeans(v);
      if ParseInList(v).Some? { ItemsMean(env, c, ParseInList(v).value); }
    } else if read in c.ops {
      ScalarMeansSome(env, c, v);
      var parsed := ParseFilterScalar(env, c, v);
      if parsed.Some? { ScalarMeans(env, c, v, parsed.value); }
    }
  }

  // ----- Keys and entries -----

  lemma {:induction false} ClosingIsFirst(s: string)
    ensures ']' !in s[..Closing(s)]
    decreases |s|
  {
    if s != "" && s[0] != ']' {
      ClosingIsFirst(s[1..]);
      assert s[..Closing(s)] == [s[0]] + s[1..][..Closing(s[1..])];
    }
  }

  /** A key is read as a field and an operator exactly when it is spelled so. */
  lemma ReadKeyMeans(key: string, field: string, op: string)
    ensures ReadKey(key) == Some((field, None)) <==> Name(field) && key == PREFIX + field + "]"
    ensures ReadKey(key) == Some((field, Some(op))) <==>
      Name(field) && Name(op) && key == PREFIX + field + "][" + op + "]"
  {
    hide ReadKey;
    if Name(field) && key == PREFIX + field + "]" { ReadsFieldKey(field); }
    if Name(field) && Name(op) && key == PREFIX + field + "][" + op + "]" { ReadsOpKey(field, op); }
    ReadKeySpells(key);
  }

  lemma ReadKeySpells(key: string)
    ensures ReadKey(key).Some? ==>
      var (field, op) := ReadKey(key).value;
      Name(field) && if op.None? then key == PREFIX + field + "]"
        else Name(op.value) && key == PREFIX + field + "][" + op.value + "]"
  {
    if ReadKey(key).Some? {
      var rest := ReadsRest(key);
      CutAtClosing(rest);
      var i := Closing(rest);
      var field, tail := rest[..i], rest[i + 1..];
      if tail == "" {
        hide ReadKey;
        FieldKey(field);
      } else {
        var j := Closing(tail[1..]);
        CutAtClosing(tail[1..]);
        var op := tail[1..][..j];
        hide *;
        assert tail[1..j + 1] == op;
        OpKey(field, tail, op);
      }
    }
  }

  lemma ReadsRest(key: string) returns (rest: string)
    requires ReadKey(key).Some?
    ensures key == PREFIX + rest && 0 < Closing(rest) < |rest|
    ensures var field, tail := rest[..Closing(rest)], rest[Closing(rest) + 1..];
      if tail == "" then ReadKey(key).value == (field, None)
      else
        var j := Closing(tail[1..]);
        tail[0] == '[' && 0 < j && j + 2 == |tail| && ReadKey(key).value == (field, Some(tail[1..j + 1]))
  {
    hide Closing;
    rest := key[|PREFIX|..];
  }

  lemma CutAtClosing(s: string)
    ensures ']' !in s[..Closing(s)]
    ensures Closing(s) < |s| ==> s == s[..Closing(s)] + "]" + s[Closing(s) + 1..]
  {
    ClosingIsFirst(s);
    if Closing(s) < |s| { CutAt(s, Closing(s)); }
  }

  lemma CutAt(s: string, n: nat)
    requires n < |s| && s[n] == ']'
    ensures s == s[..n] + "]" + s[n + 1..]
  {
  }

  lemma FieldKey(field: string)
    ensures PREFIX + (field + "]" + "") == PREFIX + field + "]"
  {
  }

  lemma OpKey(field: string, tail: string, op: string)
    requires |tail| == |op| + 2 && tail[0] == '[' && tail[1..] == op + "]" + ""
    ensures PREFIX + (field + "]" + tail) == PREFIX + field + "][" + op + "]"
  {
    assert tail == "[" + op + "]";
  }

  lemma AskedBy(entry: (string, RawValue), bracketed: bool, allow: Allowlist, field: string, op: string, v: J.Value)
    ensures Ask(field, op, v) in ItemsOf(entry, bracketed, allow) <==>
      field in allow && StatedBy(entry, bracketed, field, op, v)
  {
    hide ReadKey, Name;
    if bracketed {
      ReadKeyMeans(entry.0, field, op);
    } else if entry.0 in allow && entry.1.Nested? {
      var ops := entry.1.ops;
      if (op, v) in ops && entry.0 == field {
        var k :| 0 <= k < |ops| && ops[k] == (op, v);
        assert AskEach(entry.0, ops)[k] == Ask(field, op, v);
      }
    }
  }

  predicate HasStray(items: seq<Item>) {
    exists k :: 0 <= k < |items| && items[k].Stray?
  }

  predicate Foreign(entry: (string, RawValue), allow: Allowlist) {
    ReadKey(entry.0).Some? && ReadKey(entry.0).value.0 !in allow
  }

  predicate Unsupported(entry: (string, RawValue), bracketed: bool, allow: Allowlist) {
    if bracketed then Foreign(entry, allow) else entry.0 !in allow
  }

  lemma StrayedBy(entry: (string, RawValue), bracketed: bool, allow: Allowlist)
    ensures HasStray(ItemsOf(entry, bracketed, allow)) <==> Unsupported(entry, bracketed, allow)
  {
    hide ReadKey;
    var items := ItemsOf(entry, bracketed, allow);
    if bracketed && Foreign(entry, allow) { assert items[0].Stray?; }
    if !bracketed && entry.0 !in allow { assert items[0].Stray?; }
  }

  lemma ForeignIsStated(entry: (string, RawValue), allow: Allowlist) returns (field: string, op: string, v: J.Value)
    requires Foreign(entry, allow)
    ensures StatedBy(entry, true, field, op, v) && field !in allow
  {
    hide ReadKey, Name;
    ReadKeySpells(entry.0);
    field, op, v := ReadKey(entry.0).value.0, ReadKey(entry.0).value.1.GetOr("eq"), ValueOf(entry.1);
  }

  predicate StatedIn(entries: seq<(string, RawValue)>, bracketed: bool, field: string, op: string, v: J.Value) {
    exists i :: 0 <= i < |entries| && StatedBy(entries[i], bracketed, field, op, v)
  }

  lemma {:induction false} ItemsState(entries: seq<(string, RawValue)>, bracketed: bool, allow: Allowlist,
      field: string, op: string, v: J.Value)
    ensures Ask(field, op, v) in Items(entries, bracketed, allow) <==>
      field in allow && StatedIn(entries, bracketed, field, op, v)
    decreases |entries|
  {
    hide StatedBy, ItemsOf;
    if entries != [] {
      var n := |entries| - 1;
      ItemsState(entries[..n], bracketed, allow, field, op, v);
      AskedBy(entries[n], bracketed, allow, field, op, v);
      assert StatedIn(entries, bracketed, field, op, v) <==>
        StatedIn(entries[..n], bracketed, field, op, v) || StatedBy(entries[n], bracketed, field, op, v) by {
        assert forall i :: 0 <= i < n ==> entries[..n][i] == entries[i];
      }
    }
  }

  predicate Strays(entries: seq<(string, RawValue)>, bracketed: bool, allow: Allowlist) {
    exists i :: 0 <= i < |entries| && Unsupported(entries[i], bracketed, allow)
  }

  lemma {:induction false} ItemsStray(entries: seq<(string, RawValue)>, bracketed: bool, allow: Allowlist)
    ensures HasStray(Items(entries, bracketed, allow)) <==> Strays(entries, bracketed, allow)
    decreases |entries|
  {
    hide Unsupported, ItemsOf;
    if entries != [] {
      var n := |entries| - 1;
      ItemsStray(entries[..n], bracketed, allow);
      StrayedBy(entries[n], bracketed, allow);
      var before, own := Items(entries[..n], bracketed, allow), ItemsOf(entries[n], bracketed, allow);
      StrayConcat(before, own);
      assert Strays(entries, bracketed, allow) <==>
        Strays(entries[..n], bracketed, allow) || Unsupported(entries[n], bracketed, allow) by {
        assert forall i :: 0 <= i < n ==> entries[..n][i] == entries[i];
      }
    }
  }

  lemma StrayConcat(a: seq<Item>, b: seq<Item>)
    ensures HasStray(a + b) <==> HasStray(a) || HasStray(b)
  {
    if HasStray(b) {
      var k :| 0 <= k < |b| && b[k].Stray?;
      assert (a + b)[|a| + k].Stray?;
    }
    if HasStray(a) {
      var k :| 0 <= k < |a| && a[k].Stray?;
      assert (a + b)[k].Stray?;
    }
  }

  // ----- The whole filter -----

  ghost predicate HasExpression(env: Env, allow: Allowlist, filters: seq<FilterExpr>, field: string, op: string,
      v: J.Value)
  {
    exists e :: e in filters && Expresses(env, allow, field, op, v, e)
  }

  ghost predicate HasStatement(env: Env, allow: Allowlist, raw: RawFilter, e: FilterExpr) {
    exists field, op, v :: Stated(raw, field, op, v) && Expresses(env, allow, field, op, v, e)
  }

  lemma StatedInObject(raw: RawFilter, field: string, op: string, v: J.Value)
    requires raw.Object?
    ensures Stated(raw, field, op, v) <==> StatedIn(raw.entries, IsBracketed(raw.entries), field, op, v)
  {
    hide StatedBy;
  }

  /** A raw filter is accepted exactly when everything it states fits. The expressions it is
      parsed to are then exactly those of its statements. */
  ghost predicate Parsed(env: Env, raw: RawFilter, allow: Allowlist, r: Result<seq<FilterExpr>, seq<Filters.Issue>>) {
    && (r.Ok? <==> RawFits(env, raw, allow))
    && (r.Ok? ==> forall field, op, v :: Stated(raw, field, op, v) ==>
          HasExpression(env, allow, r.value, field, op, v))
    && (r.Ok? ==> forall e :: e in r.value ==> HasStatement(env, allow, raw, e))
  }

  lemma ParsedMeans(env: Env, raw: RawFilter, allow: Allowlist)
    ensures Parsed(env, raw, allow, ParseFilters(env, raw, allow))
  {
    if raw.Object? {
      var bracketed := IsBracketed(raw.entries);
      var items := Items(raw.entries, bracketed, allow);
      hide Items, Judge, RawFits, Fine, Expresses, StatedBy, IsBracketed, Foreign;
      CollectAll(env, allow, items);
      AcceptedItems(env, raw, allow);
      var r := ParseFilters(env, raw, allow);
      assert r.Ok? <==> AllFine(env, allow, items);
      if r.Ok? {
        forall field: string, op: string, v: J.Value | Stated(raw, field, op, v)
          ensures HasExpression(env, allow, r.value, field, op, v)
        {
          StatedInObject(raw, field, op, v);
          ItemsState(raw.entries, bracketed, allow, field, op, v);
          StatedFits(env, raw, allow, field, op, v);
          var i :| 0 <= i < |items| && items[i] == Ask(field, op, v);
          StatementMeans(env, allow, field, op, v);
          assert Ok(r.value[i]) == Judge(env, allow, items[i]);
        }
        forall e | e in r.value ensures HasStatement(env, allow, raw, e) {
          var i :| 0 <= i < |items| && r.value[i] == e;
          assert Ok(e) == Judge(env, allow, items[i]) && Fine(env, allow, items[i]);
          AskIsStated(env, raw, allow, i);
        }
      }
    }
  }

  predicate AllFine(env: Env, allow: Allowlist, items: seq<Item>) {
    forall i :: 0 <= i < |items| ==> Fine(env, allow, items[i])
  }

  lemma AskIsStated(env: Env, raw: RawFilter, allow: Allowlist, i: nat)
    requires raw.Object?
    requires var items := Items(raw.entries, IsBracketed(raw.entries), allow);
      i < |items| && Fine(env, allow, items[i])
    ensures var items := Items(raw.entries, IsBracketed(raw.entries), allow);
      HasStatement(env, allow, raw, Judge(env, allow, items[i]).value)
  {
    var bracketed := IsBracketed(raw.entries);
    var item := Items(raw.entries, bracketed, allow)[i];
    assert item.Ask?;
    hide Items, Judge, Expresses, StatedBy, IsBracketed, FitsIn;
    ItemsState(raw.entries, bracketed, allow, item.field, item.op, item.v);
    StatementMeans(env, allow, item.field, item.op, item.v);
    StatedInObject(raw, item.field, item.op, item.v);
  }

  lemma AcceptedItems(env: Env, raw: RawFilter, allow: Allowlist)
    requires raw.Object?
    ensures AllFine(env, allow, Items(raw.entries, IsBracketed(raw.entries), allow)) <==> RawFits(env, raw, allow)
  {
    var bracketed := IsBracketed(raw.entries);
    var items := Items(raw.entries, bracketed, allow);
    hide Items, Judge, Fits, StatedBy, IsBracketed, Foreign;
    ItemsStray(raw.entries, bracketed, allow);
    if AllFine(env, allow, items) {
      assert !HasStray(items) by { FineAsk(env, allow, items); }
      forall field: string, op: string, v: J.Value | Stated(raw, field, op, v)
        ensures FitsIn(env, allow, field, op, v)
      {
        StatedInObject(raw, field, op, v);
        ItemsState(raw.entries, bracketed, allow, field, op, v);
        assert field in allow by { NoForeign(raw, allow, field, op, v); }
        var i :| 0 <= i < |items| && items[i] == Ask(field, op, v);
        assert Fine(env, allow, items[i]);
        StatementMeans(env, allow, field, op, v);
      }
    }
    if RawFits(env, raw, allow) {
      assert !HasStray(items) by { FitsNoStray(env, raw, allow); }
      forall i | 0 <= i < |items| ensures Fine(env, allow, items[i]) {
        assert items[i].Ask?;
        var item := items[i];
        ItemsState(raw.entries, bracketed, allow, item.field, item.op, item.v);
        StatedInObject(raw, item.field, item.op, item.v);
        StatementMeans(env, allow, item.field, item.op, item.v);
      }
    }
  }

  lemma FineAsk(env: Env, allow: Allowlist, items: seq<Item>)
    requires AllFine(env, allow, items)
    ensures !HasStray(items)
  {
    hide ParseExpr, ReadOp;
  }

  lemma NoForeign(raw: RawFilter, allow: Allowlist, field: string, op: string, v: J.Value)
    requires raw.Object? && Stated(raw, field, op, v) && !Strays(raw.entries, IsBracketed(raw.entries), allow)
    ensures field in allow
  {
    hide ReadKey, Name;
    var i :| 0 <= i < |raw.entries| && StatedBy(raw.entries[i], IsBracketed(raw.entries), field, op, v);
    if IsBracketed(raw.entries) { ReadKeyMeans(raw.entries[i].0, field, op); }
  }

  lemma FitsNoStray(env: Env, raw: RawFilter, allow: Allowlist)
    requires raw.Object? && RawFits(env, raw, allow)
    ensures !HasStray(Items(raw.entries, IsBracketed(raw.entries), allow))
  {
    var bracketed := IsBracketed(raw.entries);
    hide Items, StatedBy, Foreign, Fits;
    ItemsStray(raw.entries, bracketed, allow);
    if Strays(raw.entries, bracketed, allow) && bracketed {
      var i :| 0 <= i < |raw.entries| && Unsupported(raw.entries[i], bracketed, allow);
      var field, op, v := ForeignIsStated(raw.entries[i], allow);
      FittingIsAllowed(env, raw, allow, i, field, op, v);
    }
  }

  lemma StatedFits(env: Env, raw: RawFilter, allow: Allowlist, field: string, op: string, v: J.Value)
    requires RawFits(env, raw, allow) && Stated(raw, field, op, v)
    ensures FitsIn(env, allow, field, op, v) && field in allow
  {
    hide Stated, Fits;
  }

  lemma FittingIsAllowed(env: Env, raw: RawFilter, allow: Allowlist, i: nat, field: string, op: string, v: J.Value)
    requires raw.Object? && RawFits(env, raw, allow) && i < |raw.entries|
    requires StatedBy(raw.entries[i], IsBracketed(raw.entries), field, op, v)
    ensures field in allow
  {
    hide StatedBy, Fits;
    assert Stated(raw, field, op, v);
    assert FitsIn(env, allow, field, op, v);
  }

  // ----- What is complained of -----

  predicate NamesField(at: string, field: string) {
    at == "filter[" + field + "]"
  }

  predicate NamesOperator(at: string, field: string, op: string) {
    at == "filter[" + field + "][" + op + "]"
  }

  /** The complaint is about a statement that does not fit, or a nested field that is not
      allowed, and names it. */
  ghost predicate Justified(env: Env, raw: RawFilter, allow: Allowlist, issue: Filters.Issue) {
    || (exists field, op, v :: Stated(raw, field, op, v) && !FitsIn(env, allow, field, op, v) &&
          (NamesField(issue.at, field) || NamesOperator(issue.at, field, op)))
    || (raw.Object? && exists i ::
          0 <= i < |raw.entries| && raw.entries[i].0 !in allow && NamesField(issue.at, raw.entries[i].0))
  }

  lemma {:induction false} IssuesFrom(env: Env, allow: Allowlist, items: seq<Item>, issue: Filters.Issue)
    requires issue in Collect(env, allow, items).1
    ensures exists i :: 0 <= i < |items| && Judge(env, allow, items[i]) == Err(issue)
    decreases |items|
  {
    hide Judge;
    var n := |items| - 1;
    if Judge(env, allow, items[n]) == Err(issue) {
    } else {
      IssuesFrom(env, allow, items[..n], issue);
      var i :| 0 <= i < n && Judge(env, allow, items[..n][i]) == Err(issue);
      assert items[i] == items[..n][i];
    }
  }

  lemma JudgeNames(env: Env, allow: Allowlist, field: string, op: string, v: J.Value)
    requires Judge(env, allow, Ask(field, op, v)).Err?
    ensures var at := Judge(env, allow, Ask(field, op, v)).error.at;
      NamesField(at, field) || NamesOperator(at, field, op)
  {
    ReadOpMeans(op);
    hide ReadOp, OpText, ParseItems, ParseInList, ParseFilterScalar;
  }

  /** Every complaint is justified. */
  lemma ComplaintsAreJustified(env: Env, raw: RawFilter, allow: Allowlist, issue: Filters.Issue)
    requires raw.Object? && ParseFilters(env, raw, allow).Err? && issue in ParseFilters(env, raw, allow).error
    ensures Justified(env, raw, allow, issue)
  {
    var bracketed := IsBracketed(raw.entries);
    var items := Items(raw.entries, bracketed, allow);
    IssuesFrom(env, allow, items, issue);
    var i :| 0 <= i < |items| && Judge(env, allow, items[i]) == Err(issue);
    var item := items[i];
    hide Items, Collect, StatedBy, IsBracketed, FitsIn, NamesField, NamesOperator;
    if item.Ask? {
      hide Judge;
      ItemsState(raw.entries, bracketed, allow, item.field, item.op, item.v);
      StatedInObject(raw, item.field, item.op, item.v);
      StatementMeans(env, allow, item.field, item.op, item.v);
      JudgeNames(env, allow, item.field, item.op, item.v);
    } else {
      var k := StrayFrom(raw.entries, bracketed, allow, item);
      var op, v := StrayMeans(raw.entries[k], bracketed, allow, item);
      if bracketed { assert Stated(raw, item.field, op, v) && !FitsIn(env, allow, item.field, op, v); }
    }
  }

  lemma {:induction false} StrayFrom(entries: seq<(string, RawValue)>, bracketed: bool, allow: Allowlist, item: Item)
    returns (k: nat)
    requires item.Stray? && item in Items(entries, bracketed, allow)
    ensures k < |entries| && item in ItemsOf(entries[k], bracketed, allow)
    decreases |entries|
  {
    hide ItemsOf;
    var n := |entries| - 1;
    if item in ItemsOf(entries[n], bracketed, allow) {
      k := n;
    } else {
      k := StrayFrom(entries[..n], bracketed, allow, item);
    }
  }

  lemma StrayMeans(entry: (string, RawValue), bracketed: bool, allow: Allowlist, item: Item)
    returns (op: string, v: J.Value)
    requires item.Stray? && item in ItemsOf(entry, bracketed, allow)
    ensures item.field !in allow
    ensures var at := FormatFilterField(item.field, item.given);
      if bracketed then
        StatedBy(entry, true, item.field, op, v) && (NamesField(at, item.field) || NamesOperator(at, item.field, op))
      else entry.0 == item.field && NamesField(at, item.field)
  {
    hide ReadKey, Name;
    ReadKeySpells(entry.0);
    op, v := item.given.GetOr("eq"), ValueOf(entry.1);
  }
}
