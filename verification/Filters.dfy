/** The filter parameter of a list query, in its nested and its bracketed spelling. */
module Filters {
  import opened Wrappers
  import opened CursorAfter
  import opened Scalars
  import T = Text
  import J = JsonValue

  datatype Op = Eq | In | Gte | Lte

  datatype FilterType = Of(scalar: FieldType) | Enum

  datatype Config = Config(kind: FilterType, ops: set<Op>, enumValues: seq<string>)

  type Allowlist = map<Field, Config>

  datatype FilterExpr = One(field: Field, op: Op, value: Scalar) | Among(field: Field, values: seq<Scalar>)

  /** A value of the raw filter: an object, with its entries in order, or anything else. */
  datatype RawValue = Plain(v: J.Value) | Nested(ops: seq<(string, J.Value)>)

  datatype RawFilter = Absent | NotAnObject | Object(entries: seq<(string, RawValue)>)

  datatype Message = MustBeObject | UnsupportedField | UnsupportedOperator | ExpectedList | InvalidItem | InvalidValue

  datatype Issue = Issue(at: string, message: Message)

  // ----- One expression -----

  function FormatFilterField(field: string, op: Option<string>): string {
    if op.Some? && op.value != "" then "filter[" + field + "][" + op.value + "]" else "filter[" + field + "]"
  }

  function OpText(op: Op): string {
    match op case Eq => "eq" case In => "in" case Gte => "gte" case Lte => "lte"
  }

  function ReadOp(s: string): Option<Op> {
    if s == "eq" then Some(Eq) else if s == "in" then Some(In)
    else if s == "gte" then Some(Gte) else if s == "lte" then Some(Lte) else None
  }

  function ParseFilterScalar(env: Env, c: Config, v: J.Value): Option<Scalar> {
    match c.kind
    case Of(t) => ParseScalar(env, t, v)
    case Enum =>
      var s := ParseString(v);
      if s.Some? && s.value in c.enumValues then Some(Text(s.value)) else None
  }

  function ParseInList(v: J.Value): Option<seq<string>> {
    if v.Str? && T.NonBlank(T.Split(v.s)) != [] then Some(T.NonBlank(T.Split(v.s))) else None
  }

  /** All the items, unless one of them is invalid. */
  function ParseItems(env: Env, c: Config, items: seq<string>): Option<seq<Scalar>> {
    if items == [] then Some([])
    else
      var first, rest := ParseFilterScalar(env, c, J.Str(items[0])), ParseItems(env, c, items[1..]);
      if first.Some? && rest.Some? then Some([first.value] + rest.value) else None
  }

  function ParseExpr(env: Env, field: Field, op: Op, v: J.Value, c: Config): Result<FilterExpr, Issue> {
    if op !in c.ops then Err(Issue(FormatFilterField(field, Some(OpText(op))), UnsupportedOperator))
    else if op == In then
      var list := ParseInList(v);
      if list.None? then Err(Issue(FormatFilterField(field, Some("in")), ExpectedList))
      else
        var parsed := ParseItems(env, c, list.value);
        if parsed.None? then Err(Issue(FormatFilterField(field, Some("in")), InvalidItem))
          else Ok(Among(field, parsed.value))
    else
      var parsed := ParseFilterScalar(env, c, v);
      var shown := if op == Eq then None else Some(OpText(op));
      if parsed.None? then Err(Issue(FormatFilterField(field, shown), InvalidValue))
      else Ok(One(field, op, parsed.value))
  }

  // ----- What a raw filter asks for -----

  datatype Item = Stray(field: string, given: Option<string>) | Ask(field: Field, op: string, v: J.Value)

  /** An object is never a scalar, whatever it holds. */
  function ValueOf(r: RawValue): J.Value {
    match r case Plain(v) => v case Nested(_) => J.Obj(map[])
  }

  function AskEach(field: Field, ops: seq<(string, J.Value)>): (items: seq<Item>)
    ensures |items| == |ops|
  {
    seq(|ops|, i requires 0 <= i < |ops| => Ask(field, ops[i].0, ops[i].1))
  }

  function NestedItem(entry: (string, RawValue), allow: Allowlist): seq<Item> {
    if entry.0 !in allow then [Stray(entry.0, None)]
    else match entry.1 case Plain(v) => [Ask(entry.0, "eq", v)] case Nested(ops) => AskEach(entry.0, ops)
  }

  /** The position of the first closing bracket, or the length. */
  function Closing(s: string): (n: nat)
    ensures n <= |s| && (n < |s| ==> s[n] == ']')
  {
    if s == "" || s[0] == ']' then 0 else 1 + Closing(s[1..])
  }

  const PREFIX := "filter["

  /** filter[field] or filter[field][op]; other keys mean nothing. */
  function ReadKey(key: string): Option<(string, Option<string>)> {
    if !(PREFIX <= key) then None
    else
      var rest := key[|PREFIX|..];
      var i := Closing(rest);
      if i == 0 || i == |rest| then None
      else
        var field, tail := rest[..i], rest[i + 1..];
        if tail == "" then Some((field, None))
        else
          var j := Closing(tail[1..]);
          if tail[0] != '[' || j == 0 || j + 2 != |tail| then None else Some((field, Some(tail[1..j + 1])))
  }

  function BracketedItem(entry: (string, RawValue), allow: Allowlist): seq<Item> {
    var key := ReadKey(entry.0);
    if key.None? then []
    else if key.value.0 !in allow then [Stray(key.value.0, key.value.1)]
    else [Ask(key.value.0, key.value.1.GetOr("eq"), ValueOf(entry.1))]
  }

  predicate IsBracketed(entries: seq<(string, RawValue)>) {
    exists i :: 0 <= i < |entries| && PREFIX <= entries[i].0
  }

  function ItemsOf(entry: (string, RawValue), bracketed: bool, allow: Allowlist): seq<Item> {
    if bracketed then BracketedItem(entry, allow) else NestedItem(entry, allow)
  }

  function Items(entries: seq<(string, RawValue)>, bracketed: bool, allow: Allowlist): seq<Item> {
    if entries == [] then []
    else Items(entries[..|entries| - 1], bracketed, allow) + ItemsOf(entries[|entries| - 1], bracketed, allow)
  }

  function Judge(env: Env, allow: Allowlist, item: Item): Result<FilterExpr, Issue> {
    match item
    case Stray(field, op) => Err(Issue(FormatFilterField(field, op), UnsupportedField))
    case Ask(field, op, v) =>
      if ReadOp(op).None? then Err(Issue(FormatFilterField(field, Some(op)), UnsupportedOperator))
      else if field in allow then ParseExpr(env, field, ReadOp(op).value, v, allow[field])
      else Err(Issue(FormatFilterField(field, Some(op)), UnsupportedField))
  }

  function Collect(env: Env, allow: Allowlist, items: seq<Item>): (seq<FilterExpr>, seq<Issue>) {
    if items == [] then ([], [])
    else
      var (filters, issues) := Collect(env, allow, items[..|items| - 1]);
      match Judge(env, allow, items[|items| - 1])
      case Ok(expr) => (filters + [expr], issues)
      case Err(issue) => (filters, issues + [issue])
  }

  function ParseFilters(env: Env, raw: RawFilter, allow: Allowlist): Result<seq<FilterExpr>, seq<Issue>> {
    match raw
    case Absent => Ok([])
    case NotAnObject => Err([Issue("filter", MustBeObject)])
    case Object(entries) =>
      var (filters, issues) := Collect(env, allow, Items(entries, IsBracketed(entries), allow));
      if issues != [] then Err(issues) else Ok(filters)
  }

  // ----- One item after another -----

  lemma CollectNext(env: Env, allow: Allowlist, items: seq<Item>, item: Item)
    ensures var (filters, issues) := Collect(env, allow, items);
      Collect(env, allow, items + [item]) ==
        match Judge(env, allow, item)
        case Ok(expr) => (filters + [expr], issues)
        case Err(issue) => (filters, issues + [issue])
  {
    hide Judge;
    assert (items + [item])[..|items|] == items;
  }

  // ----- Accepted filters -----

  predicate Fine(env: Env, allow: Allowlist, item: Item) {
    Judge(env, allow, item).Ok?
  }

  /** A filter is accepted exactly when every item is, and then it is the items' expressions. */
  lemma {:induction false} CollectAll(env: Env, allow: Allowlist, items: seq<Item>)
    ensures var (filters, issues) := Collect(env, allow, items);
      && (issues == [] <==> forall i :: 0 <= i < |items| ==> Fine(env, allow, items[i]))
      && (issues == [] ==> |filters| == |items| && forall i :: 0 <= i < |items| ==>
           Ok(filters[i]) == Judge(env, allow, items[i]))
    decreases |items|
  {
    hide Judge;
    if items != [] {
      var n := |items| - 1;
      CollectAll(env, allow, items[..n]);
      assert forall i :: 0 <= i < n ==> items[..n][i] == items[i];
      assert Fine(env, allow, items[n]) <==> Judge(env, allow, items[n]).Ok?;
    }
  }

  // ----- Two spellings -----

  /** The bracketed spelling of one nested entry. */
  function SpellOps(field: Field, ops: seq<(string, J.Value)>): (r: seq<(string, RawValue)>)
    ensures |r| == |ops|
  {
    seq(|ops|, i requires 0 <= i < |ops| =>
      (PREFIX + field + "][" + ops[i].0 + "]", if ops[i].1.Obj? then Nested([]) else Plain(ops[i].1)))
  }

  function Spell(entry: (string, RawValue)): seq<(string, RawValue)> {
    match entry.1
    case Plain(v) => [(PREFIX + entry.0 + "]", Plain(v))]
    case Nested(ops) => SpellOps(entry.0, ops)
  }

  function Bracketed(entries: seq<(string, RawValue)>): seq<(string, RawValue)> {
    if entries == [] then [] else Bracketed(entries[..|entries| - 1]) + Spell(entries[|entries| - 1])
  }

  /** A name that can stand between brackets. */
  predicate Name(s: string) {
    s != "" && ']' !in s
  }

  predicate Spellable(entry: (string, RawValue)) {
    && Name(entry.0) && !(PREFIX <= entry.0)
    && (entry.1.Nested? ==> entry.1.ops != [] && forall i :: 0 <= i < |entry.1.ops| ==> Name(entry.1.ops[i].0))
  }

  predicate AllSpellable(entries: seq<(string, RawValue)>) {
    forall i :: 0 <= i < |entries| ==> Spellable(entries[i])
  }

  lemma {:induction false} ClosingAt(name: string, rest: string)
    requires ']' !in name
    ensures Closing(name + "]" + rest) == |name|
    decreases |name|
  {
    if name != "" {
      ClosingAt(name[1..], rest);
      assert (name + "]" + rest)[1..] == name[1..] + "]" + rest;
    }
  }

  lemma ReadsFieldKey(field: string)
    requires Name(field)
    ensures ReadKey(PREFIX + field + "]") == Some((field, None))
  {
    var key, rest := PREFIX + field + "]", field + "]" + "";
    assert key[|PREFIX|..] == rest && PREFIX <= key;
    ClosingAt(field, "");
    assert rest[..|field|] == field && rest[|field| + 1..] == "";
  }

  lemma ReadsOpKey(field: string, op: string)
    requires Name(field) && Name(op)
    ensures ReadKey(PREFIX + field + "][" + op + "]") == Some((field, Some(op)))
  {
    var key := PREFIX + field + "][" + op + "]";
    var tail := "[" + op + "]";
    assert key[|PREFIX|..] == field + "]" + tail && PREFIX <= key;
    ClosingAt(field, tail);
    var rest := field + "]" + tail;
    assert rest[..|field|] == field && rest[|field| + 1..] == tail;
    assert tail[1..] == op + "]" + "";
    ClosingAt(op, "");
    assert tail[1..|op| + 1] == op;
  }

  /** Item lists that are accepted together, and then give the same expressions. */
  predicate Agree(env: Env, allow: Allowlist, a: seq<Item>, b: seq<Item>) {
    var (fa, ia) := Collect(env, allow, a);
    var (fb, ib) := Collect(env, allow, b);
    (ia == [] <==> ib == []) && (ia == [] ==> fa == fb)
  }

  lemma {:induction false} CollectConcat(env: Env, allow: Allowlist, a: seq<Item>, b: seq<Item>)
    ensures var (fa, ia) := Collect(env, allow, a); var (fb, ib) := Collect(env, allow, b);
      Collect(env, allow, a + b) == (fa + fb, ia + ib)
    decreases |b|
  {
    hide Judge;
    var (fa, ia) := Collect(env, allow, a);
    if b == [] {
      assert a + b == a && fa + [] == fa && ia + [] == ia;
    } else {
      var n := |b| - 1;
      CollectConcat(env, allow, a, b[..n]);
      assert a + b == (a + b[..n]) + [b[n]];
      CollectNext(env, allow, a + b[..n], b[n]);
      var (f, i) := Collect(env, allow, b[..n]);
      match Judge(env, allow, b[n])
      case Ok(expr) => assert (fa + f) + [expr] == fa + (f + [expr]);
      case Err(issue) => assert (ia + i) + [issue] == ia + (i + [issue]);
    }
  }

  lemma ObjectsNeverParse(env: Env, allow: Allowlist, field: Field, op: string, v: J.Value, w: J.Value)
    requires v == w || (v.Obj? && w.Obj?)
    ensures Judge(env, allow, Ask(field, op, v)) == Judge(env, allow, Ask(field, op, w))
  {
    hide ReadOp, FormatFilterField, ParseItems, T.NonBlank, T.Split, T.Trim, T.AsNonEmptyString;
  }

  /** One entry, spelled either way. */
  lemma EntriesAgree(env: Env, allow: Allowlist, entry: (string, RawValue))
    requires Spellable(entry)
    ensures Agree(env, allow, NestedItem(entry, allow), Items(Spell(entry), true, allow))
  {
    hide Judge, ReadKey, Collect;
    match entry.1
    case Plain(v) =>
      ReadsFieldKey(entry.0);
      var spelled := (PREFIX + entry.0 + "]", Plain(v));
      assert Spell(entry) == [spelled];
      ItemsOfOne(spelled, allow);
      if entry.0 !in allow { StraysRefused(env, allow, [Stray(entry.0, None)], 0); }
    case Nested(ops) =>
      if entry.0 in allow { KnownAgree(env, allow, entry.0, ops); } else { UnknownAgree(env, allow, entry.0, ops); }
  }

  lemma ItemsOfOne(entry: (string, RawValue), allow: Allowlist)
    ensures Items([entry], true, allow) == BracketedItem(entry, allow)
  {
    hide BracketedItem;
    assert [entry][..0] == [];
    assert Items([entry][..0], true, allow) == [];
    assert [] + BracketedItem(entry, allow) == BracketedItem(entry, allow);
  }

  lemma StraysRefused(env: Env, allow: Allowlist, items: seq<Item>, i: nat)
    requires i < |items| && items[i].Stray?
    ensures Collect(env, allow, items).1 != []
  {
    CollectAll(env, allow, items);
    assert !Fine(env, allow, items[i]);
  }

  lemma {:induction false} SpelledItems(field: Field, ops: seq<(string, J.Value)>, n: nat, allow: Allowlist)
    requires Name(field) && n <= |ops| && forall i :: 0 <= i < |ops| ==> Name(ops[i].0)
    ensures var items := Items(SpellOps(field, ops)[..n], true, allow);
      && |items| == n
      && forall i :: 0 <= i < n ==>
           items[i] == if field in allow then Ask(field, ops[i].0, ValueOf(SpellOps(field, ops)[i].1))
             else Stray(field, Some(ops[i].0))
    decreases n
  {
    hide ReadKey, ValueOf, Name;
    if n > 0 {
      var spelled := SpellOps(field, ops);
      SpelledItems(field, ops, n - 1, allow);
      assert spelled[..n][..n - 1] == spelled[..n - 1];
      ReadsOpKey(field, ops[n - 1].0);
      assert spelled[n - 1].0 == PREFIX + field + "][" + ops[n - 1].0 + "]";
    }
  }

  lemma KnownAgree(env: Env, allow: Allowlist, field: Field, ops: seq<(string, J.Value)>)
    requires field in allow && Name(field) && forall i :: 0 <= i < |ops| ==> Name(ops[i].0)
    ensures Agree(env, allow, AskEach(field, ops), Items(SpellOps(field, ops), true, allow))
  {
    hide Judge, Collect, Name;
    var asked, spelled := AskEach(field, ops), SpellOps(field, ops);
    SpelledItems(field, ops, |ops|, allow);
    assert spelled[..|ops|] == spelled;
    var items := Items(spelled, true, allow);
    hide Items;
    forall i | 0 <= i < |ops| ensures Judge(env, allow, asked[i]) == Judge(env, allow, items[i]) {
      ObjectsNeverParse(env, allow, field, ops[i].0, ops[i].1, ValueOf(spelled[i].1));
    }
    SameVerdicts(env, allow, asked, items);
  }

  lemma SameVerdicts(env: Env, allow: Allowlist, a: seq<Item>, b: seq<Item>)
    requires |a| == |b| && forall i :: 0 <= i < |a| ==> Judge(env, allow, a[i]) == Judge(env, allow, b[i])
    ensures Agree(env, allow, a, b)
  {
    hide Judge, Collect;
    CollectAll(env, allow, a);
    CollectAll(env, allow, b);
    forall i | 0 <= i < |a| ensures Fine(env, allow, a[i]) <==> Fine(env, allow, b[i]) {
      assert Judge(env, allow, a[i]) == Judge(env, allow, b[i]);
    }
    var fa, fb := Collect(env, allow, a).0, Collect(env, allow, b).0;
    if Collect(env, allow, a).1 == [] {
      forall i | 0 <= i < |a| ensures fa[i] == fb[i] {
        assert Ok(fa[i]) == Judge(env, allow, a[i]) && Ok(fb[i]) == Judge(env, allow, b[i]);
      }
      assert fa == fb;
    }
  }

  lemma UnknownAgree(env: Env, allow: Allowlist, field: Field, ops: seq<(string, J.Value)>)
    requires field !in allow && ops != [] && Name(field) && forall i :: 0 <= i < |ops| ==> Name(ops[i].0)
    ensures Agree(env, allow, [Stray(field, None)], Items(SpellOps(field, ops), true, allow))
  {
    hide Judge, Collect, Name;
    var spelled := SpellOps(field, ops);
    SpelledItems(field, ops, |ops|, allow);
    assert spelled[..|ops|] == spelled;
    StraysRefused(env, allow, [Stray(field, None)], 0);
    StraysRefused(env, allow, Items(spelled, true, allow), 0);
  }

  lemma {:induction false} ItemsConcat(a: seq<(string, RawValue)>, b: seq<(string, RawValue)>, allow: Allowlist)
    ensures Items(a + b, true, allow) == Items(a, true, allow) + Items(b, true, allow)
    decreases |b|
  {
    hide BracketedItem;
    if b == [] {
      assert a + b == a;
      assert Items(a, true, allow) + [] == Items(a, true, allow);
    } else {
      var n := |b| - 1;
      ItemsConcat(a, b[..n], allow);
      assert (a + b)[..|a + b| - 1] == a + b[..n] && (a + b)[|a + b| - 1] == b[n];
    }
  }

  lemma {:induction false} ListsAgree(env: Env, allow: Allowlist, entries: seq<(string, RawValue)>)
    requires AllSpellable(entries)
    ensures Agree(env, allow, Items(entries, false, allow), Items(Bracketed(entries), true, allow))
    decreases |entries|
  {
    hide Collect, Spell, NestedItem, BracketedItem, Spellable;
    if entries != [] {
      var n := |entries| - 1;
      ListsAgree(env, allow, entries[..n]);
      EntriesAgree(env, allow, entries[n]);
      ItemsConcat(Bracketed(entries[..n]), Spell(entries[n]), allow);
      CollectConcat(env, allow, Items(entries[..n], false, allow), NestedItem(entries[n], allow));
      CollectConcat(env, allow, Items(Bracketed(entries[..n]), true, allow), Items(Spell(entries[n]), true, allow));
    }
  }

  lemma {:induction false} BracketedIsBracketed(entries: seq<(string, RawValue)>)
    requires AllSpellable(entries)
    ensures IsBracketed(Bracketed(entries)) <==> entries != []
    decreases |entries|
  {
    if entries != [] {
      var n := |entries| - 1;
      var spelled, all := Spell(entries[n]), Bracketed(entries);
      assert Spellable(entries[n]);
      assert spelled != [] && PREFIX <= spelled[0].0;
      assert all[|all| - |spelled|] == spelled[0];
    }
  }

  /** The nested and the bracketed spelling of a filter are accepted together, and parse to
      the same list. */
  lemma SpellingsAgree(env: Env, allow: Allowlist, entries: seq<(string, RawValue)>)
    requires AllSpellable(entries)
    ensures var nested := ParseFilters(env, Object(entries), allow);
      var bracketed := ParseFilters(env, Object(Bracketed(entries)), allow);
      (nested.Ok? <==> bracketed.Ok?) && (nested.Ok? ==> nested.value == bracketed.value)
  {
    hide Collect, Items, Bracketed;
    ListsAgree(env, allow, entries);
    BracketedIsBracketed(entries);
    assert !IsBracketed(entries) by {
      forall i | 0 <= i < |entries| ensures !(PREFIX <= entries[i].0) { assert Spellable(entries[i]); }
    }
    if entries == [] { NoEntries(env, allow); }
  }

  lemma NoEntries(env: Env, allow: Allowlist)
    ensures Bracketed([]) == []
  {
  }
}
