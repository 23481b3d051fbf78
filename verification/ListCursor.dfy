/** The cursor of a list query: what is put into it and what is accepted back. */
module ListCursor {
  import opened Wrappers
  import opened CursorAfter
  import opened Scalars
  import T = Text
  import J = JsonValue

  const MAX_CURSOR_LENGTH := 4096

  /** A cursor: its length, and the JSON inside, if it is JSON. Base64url never fails to decode. */
  datatype CursorText = CursorText(length: nat, parsed: Option<J.Value>)

  datatype CursorOptions = CursorOptions(expectedSort: string, sortFields: seq<Field>, allowed: map<Field, FieldType>)

  datatype Issue =
    | TooLong | InvalidJson | InvalidPayload
    | UnsupportedVersion | SortMissing | SortMismatch | AfterMissing
    | UnsupportedField(field: Field) | InvalidValue(field: Field) | MissingField(field: Field)

  function FieldOf(o: J.Value, key: string): Option<J.Value>
    requires o.Obj?
  {
    if key in o.fields then Some(o.fields[key]) else None
  }

  const V := "v"
  const SORT := "sort"
  const AFTER := "after"

  // ----- Encoding -----

  function AfterJson(after: Row): J.Value {
    J.Obj(map f | f in after :: ToJson(after[f]))
  }

  /** The payload of version 1, as JSON. */
  function EncodeCursor(sort: string, after: Row): J.Value {
    J.Obj(map[V := J.Num(1.0), SORT := J.Str(sort), AFTER := AfterJson(after)])
  }

  // ----- Decoding -----

  function PayloadIssues(payload: J.Value, expectedSort: string): set<Issue>
    requires payload.Obj?
  {
    var v, sort, after := FieldOf(payload, V), FieldOf(payload, SORT), FieldOf(payload, AFTER);
    (if v != Some(J.Num(1.0)) then {UnsupportedVersion} else {})
    + (if sort.None? || !sort.value.Str? || T.Trim(sort.value.s) == "" then {SortMissing}
       else if sort.value.s != expectedSort then {SortMismatch} else {})
    + (if after.None? || !after.value.Obj? then {AfterMissing} else {})
  }

  predicate Readable(env: Env, allowed: map<Field, FieldType>, fields: map<string, J.Value>, f: Field) {
    f in fields && f in allowed && ParseScalar(env, allowed[f], fields[f]).Some?
  }

  /** The values and the complaints from some of the entries. */
  function RowFrom(env: Env, allowed: map<Field, FieldType>, fields: map<string, J.Value>, keys: set<string>): Row {
    map f | f in keys && Readable(env, allowed, fields, f) :: ParseScalar(env, allowed[f], fields[f]).value
  }

  function IssuesFrom(env: Env, allowed: map<Field, FieldType>, fields: map<string, J.Value>,
      keys: set<string>): set<Issue> {
    set f | f in keys && !Readable(env, allowed, fields, f) :: if f in allowed then InvalidValue(f)
      else UnsupportedField(f)
  }

  function ReadAfter(env: Env, allowed: map<Field, FieldType>, fields: map<string, J.Value>): Row {
    RowFrom(env, allowed, fields, fields.Keys)
  }

  function ValueIssues(env: Env, allowed: map<Field, FieldType>, fields: map<string, J.Value>): set<Issue> {
    IssuesFrom(env, allowed, fields, fields.Keys)
  }

  function MissingIssues(sortFields: seq<Field>, row: Row): set<Issue> {
    set f | f in sortFields && f !in row :: MissingField(f)
  }

  function DecodeCursor(env: Env, cursor: CursorText, o: CursorOptions): Result<Row, set<Issue>> {
    if cursor.length > MAX_CURSOR_LENGTH then Err({TooLong})
    else if cursor.parsed.None? then Err({InvalidJson})
    else if !cursor.parsed.value.Obj? then Err({InvalidPayload})
    else
      var payload := cursor.parsed.value;
      var first := PayloadIssues(payload, o.expectedSort);
      if first != {} || FieldOf(payload, AFTER).None? || !FieldOf(payload, AFTER).value.Obj? then Err(first)
      else
        var fields := FieldOf(payload, AFTER).value.fields;
        var row := ReadAfter(env, o.allowed, fields);
        var issues := ValueIssues(env, o.allowed, fields) + MissingIssues(o.sortFields, row);
        if issues != {} then Err(issues) else Ok(row)
  }

  // ----- What is accepted, and as what -----

  /** The cursor is short enough and is a payload of version 1 for the sort in use. */
  predicate ForSort(cursor: CursorText, expectedSort: string) {
    && cursor.length <= MAX_CURSOR_LENGTH && cursor.parsed.Some? && cursor.parsed.value.Obj?
    && var payload := cursor.parsed.value.fields;
    && V in payload && payload[V] == J.Num(1.0)
    && SORT in payload && payload[SORT] == J.Str(expectedSort) && T.Trim(expectedSort) != ""
    && AFTER in payload && payload[AFTER].Obj?
  }

  ghost predicate HasValue(env: Env, allowed: map<Field, FieldType>, f: Field, v: J.Value) {
    f in allowed && exists s :: Denotes(env, allowed[f], v, s)
  }

  /** A cursor is accepted exactly when it was made for this sort, every entry of `after` is a
      value of an allowed column, and every sort field has one; it then has those values. */
  ghost predicate Decoded(env: Env, cursor: CursorText, o: CursorOptions, r: Result<Row, set<Issue>>) {
    && (r.Ok? <==>
          && ForSort(cursor, o.expectedSort)
          && var after := cursor.parsed.value.fields[AFTER].fields;
          && (forall f :: f in after ==> HasValue(env, o.allowed, f, after[f]))
          && (forall i :: 0 <= i < |o.sortFields| ==> o.sortFields[i] in after))
    && (r.Ok? ==>
          var after := cursor.parsed.value.fields[AFTER].fields;
          && r.value.Keys == after.Keys
          && forall f :: f in after ==> f in o.allowed && Denotes(env, o.allowed[f], after[f], r.value[f]))
    && (r.Err? ==> r.error != {})
  }

  lemma ReadableMeans(env: Env, allowed: map<Field, FieldType>, fields: map<string, J.Value>, f: Field)
    requires f in fields
    ensures Readable(env, allowed, fields, f) <==> HasValue(env, allowed, f, fields[f])
    ensures Readable(env, allowed, fields, f) ==>
      Denotes(env, allowed[f], fields[f], ParseScalar(env, allowed[f], fields[f]).value)
  {
    hide ParseScalar, Denotes;
    if f in allowed {
      var parsed := ParseScalar(env, allowed[f], fields[f]);
      if parsed.Some? { ParseScalarMeans(env, allowed[f], fields[f], parsed.value); }
      forall s ensures Denotes(env, allowed[f], fields[f], s) ==> parsed == Some(s) {
        ParseScalarMeans(env, allowed[f], fields[f], s);
      }
    }
  }

  lemma NoPayloadIssues(payload: J.Value, expectedSort: string)
    requires payload.Obj?
    ensures PayloadIssues(payload, expectedSort) == {} <==>
      && FieldOf(payload, V) == Some(J.Num(1.0)) && FieldOf(payload, SORT) == Some(J.Str(expectedSort))
      && T.Trim(expectedSort) != "" && FieldOf(payload, AFTER).Some? && FieldOf(payload, AFTER).value.Obj?
  {
    hide T.Trim;
    var issues := PayloadIssues(payload, expectedSort);
    if issues == {} {
      assert UnsupportedVersion !in issues && SortMissing !in issues;
      assert SortMismatch !in issues && AfterMissing !in issues;
    }
  }

  lemma NoValueIssues(env: Env, allowed: map<Field, FieldType>, fields: map<string, J.Value>)
    ensures ValueIssues(env, allowed, fields) == {} <==>
      forall f :: f in fields ==> HasValue(env, allowed, f, fields[f])
  {
    hide Readable, HasValue;
    var issues := ValueIssues(env, allowed, fields);
    forall f | f in fields
      ensures Readable(env, allowed, fields, f) <==> HasValue(env, allowed, f, fields[f])
      ensures !Readable(env, allowed, fields, f) ==>
        (if f in allowed then InvalidValue(f) else UnsupportedField(f)) in issues
    {
      ReadableMeans(env, allowed, fields, f);
    }
  }

  lemma NoMissingIssues(sortFields: seq<Field>, row: Row)
    ensures MissingIssues(sortFields, row) == {} <==> forall i :: 0 <= i < |sortFields| ==> sortFields[i] in row
  {
    forall i | 0 <= i < |sortFields| && sortFields[i] !in row
      ensures MissingField(sortFields[i]) in MissingIssues(sortFields, row)
    {
      assert sortFields[i] in sortFields;
    }
  }

  lemma DecodeMeans(env: Env, cursor: CursorText, o: CursorOptions)
    ensures Decoded(env, cursor, o, DecodeCursor(env, cursor, o))
  {
    hide ParseScalar, Denotes, PayloadIssues, ValueIssues, MissingIssues, HasValue, T.Trim;
    if cursor.length <= MAX_CURSOR_LENGTH && cursor.parsed.Some? && cursor.parsed.value.Obj? {
      var payload := cursor.parsed.value;
      NoPayloadIssues(payload, o.expectedSort);
      if FieldOf(payload, AFTER).Some? && FieldOf(payload, AFTER).value.Obj? {
        var fields := FieldOf(payload, AFTER).value.fields;
        NoValueIssues(env, o.allowed, fields);
        forall f | f in fields
          ensures Readable(env, o.allowed, fields, f) <==> HasValue(env, o.allowed, f, fields[f])
          ensures Readable(env, o.allowed, fields, f) ==>
            Denotes(env, o.allowed[f], fields[f], ParseScalar(env, o.allowed[f], fields[f]).value)
        {
          ReadableMeans(env, o.allowed, fields, f);
        }
        NoMissingIssues(o.sortFields, ReadAfter(env, o.allowed, fields));
      }
    }
  }

  /** The decoder as it runs, one entry of `after` at a time. */
  method DecodeCursorV1(env: Env, cursor: CursorText, o: CursorOptions) returns (r: Result<Row, set<Issue>>)
    ensures r == DecodeCursor(env, cursor, o) && Decoded(env, cursor, o, r)
  {
    DecodeMeans(env, cursor, o);
    hide ParseScalar, Decoded;
    if cursor.length > MAX_CURSOR_LENGTH { return Err({TooLong}); }
    if cursor.parsed.None? { return Err({InvalidJson}); }
    var payload := cursor.parsed.value;
    if !payload.Obj? { return Err({InvalidPayload}); }
    var issues: set<Issue> := PayloadIssues(payload, o.expectedSort);
    var after := FieldOf(payload, AFTER);
    if issues != {} || after.None? || !after.value.Obj? { return Err(issues); }
    var fields := after.value.fields;
    var outAfter, bad := ReadEntries(env, o.allowed, fields);
    for i := 0 to |o.sortFields|
      invariant issues == MissingIssues(o.sortFields[..i], outAfter)
    {
      assert o.sortFields[..i + 1] == o.sortFields[..i] + [o.sortFields[i]];
      MissingGrows(o.sortFields[..i], o.sortFields[i], outAfter);
      if o.sortFields[i] !in outAfter { issues := issues + {MissingField(o.sortFields[i])}; }
    }
    assert o.sortFields[..|o.sortFields|] == o.sortFields;
    issues := bad + issues;
    if issues != {} { return Err(issues); }
    return Ok(outAfter);
  }

  lemma MissingGrows(fields: seq<Field>, f: Field, row: Row)
    ensures MissingIssues(fields + [f], row) == MissingIssues(fields, row) + if f in row then {} else {MissingField(f)}
  {
  }

  lemma OneMoreEntry(env: Env, allowed: map<Field, FieldType>, fields: map<string, J.Value>, keys: set<string>,
      f: Field)
    requires f in fields
    ensures var row, issues := RowFrom(env, allowed, fields, keys), IssuesFrom(env, allowed, fields, keys);
      var row2, issues2 := RowFrom(env, allowed, fields, keys + {f}), IssuesFrom(env, allowed, fields, keys + {f});
      if f !in allowed then (f in keys || row2 == row) && issues2 == issues + {UnsupportedField(f)}
      else if ParseScalar(env, allowed[f], fields[f]).None? then
        (f in keys || row2 == row) && issues2 == issues + {InvalidValue(f)}
      else row2 == row[f := ParseScalar(env, allowed[f], fields[f]).value] && issues2 == issues
  {
    hide ParseScalar;
    assert Readable(env, allowed, fields, f) <==> f in allowed && ParseScalar(env, allowed[f], fields[f]).Some?;
    hide Readable;
  }

  method ReadEntries(env: Env, allowed: map<Field, FieldType>, fields: map<string, J.Value>) returns (outAfter: Row,
      issues: set<Issue>)
    ensures outAfter == ReadAfter(env, allowed, fields) && issues == ValueIssues(env, allowed, fields)
  {
    hide ParseScalar, Readable, RowFrom, IssuesFrom;
    outAfter, issues := map[], {};
    NoEntries(env, allowed, fields);
    var done, todo := {}, fields.Keys;
    while todo != {}
      invariant done + todo == fields.Keys && done !! todo
      invariant outAfter == RowFrom(env, allowed, fields, done)
      invariant issues == IssuesFrom(env, allowed, fields, done)
      decreases todo
    {
      var f :| f in todo;
      OneMoreEntry(env, allowed, fields, done, f);
      done, todo := done + {f}, todo - {f};
      if f !in allowed {
        issues := issues + {UnsupportedField(f)};
      } else {
        var parsedValue := ParseScalar(env, allowed[f], fields[f]);
        if parsedValue.None? {
          issues := issues + {InvalidValue(f)};
        } else {
          outAfter := outAfter[f := parsedValue.value];
        }
      }
    }
    assert done == fields.Keys;
  }

  lemma NoEntries(env: Env, allowed: map<Field, FieldType>, fields: map<string, J.Value>)
    ensures RowFrom(env, allowed, fields, {}) == map[] && IssuesFrom(env, allowed, fields, {}) == {}
  {
  }

  // ----- Round trip -----

  /** A cursor the service can have handed out for this sort: canonical values of allowed
      columns, every sort field among them. */
  predicate Proper(env: Env, o: CursorOptions, after: Row) {
    && (forall f :: f in after ==> f in o.allowed && Canonical(env, o.allowed[f], after[f]))
    && (forall i :: 0 <= i < |o.sortFields| ==> o.sortFields[i] in after)
  }

  lemma AfterReads(env: Env, o: CursorOptions, after: Row)
    requires Proper(env, o, after)
    ensures ReadAfter(env, o.allowed, AfterJson(after).fields) == after
    ensures ValueIssues(env, o.allowed, AfterJson(after).fields) == {}
    ensures MissingIssues(o.sortFields, after) == {}
  {
    hide ParseScalar, Canonical, ToJson;
    var fields := AfterJson(after).fields;
    forall f | f in fields
      ensures Readable(env, o.allowed, fields, f) && ParseScalar(env, o.allowed[f], fields[f]) == Some(after[f])
    {
      CanonicalReads(env, o.allowed[f], after[f]);
    }
    var read := ReadAfter(env, o.allowed, fields);
    assert read.Keys == after.Keys;
    assert read == after;
  }

  /** A proper cursor decodes to its own values exactly when it fits the length and was
      encoded for the sort now in use; for any other sort it is refused. */
  lemma CursorRoundTrip(env: Env, o: CursorOptions, sort: string, after: Row, length: nat)
    requires Proper(env, o, after) && T.Trim(o.expectedSort) != ""
    ensures var r := DecodeCursor(env, CursorText(length, Some(EncodeCursor(sort, after))), o);
      if length > MAX_CURSOR_LENGTH then r == Err({TooLong})
      else if sort == o.expectedSort then r == Ok(after)
      else r == Err(if T.Trim(sort) == "" then {SortMissing} else {SortMismatch})
  {
    hide T.Trim, ParseScalar, ReadAfter, ValueIssues, MissingIssues, Proper, AfterJson;
    AfterReads(env, o, after);
    PayloadFields(sort, after);
    var payload := EncodeCursor(sort, after);
    hide EncodeCursor;
    assert PayloadIssues(payload, o.expectedSort)
      == if T.Trim(sort) == "" then {SortMissing} else if sort != o.expectedSort then {SortMismatch} else {};
  }

  lemma MissingMember(fields: seq<Field>, row: Row, f: Field)
    requires f in fields
    ensures f in row || MissingField(f) in MissingIssues(fields, row)
  {
  }

  lemma PayloadFields(sort: string, after: Row)
    ensures var payload := EncodeCursor(sort, after);
      && payload.Obj? && FieldOf(payload, V) == Some(J.Num(1.0)) && FieldOf(payload, SORT) == Some(J.Str(sort))
      && FieldOf(payload, AFTER) == Some(AfterJson(after)) && AfterJson(after).Obj?
  {
    assert |V| == 1 && |SORT| == 4 && |AFTER| == 5;
  }

  /** Whatever is accepted was written for this sort, covers it, and can be used as a
      keyset cursor: every sort field has a value, and nothing else but allowed columns. */
  lemma AcceptedCursorCoversSort(env: Env, cursor: CursorText, o: CursorOptions, sort: seq<SortSpec>)
    requires DecodeCursor(env, cursor, o).Ok?
    requires |o.sortFields| == |sort| && forall i :: 0 <= i < |sort| ==> o.sortFields[i] == sort[i].field
    ensures var row := DecodeCursor(env, cursor, o).value;
      && Covers(row, sort) && (forall f :: f in row ==> f in o.allowed)
      && cursor.length <= MAX_CURSOR_LENGTH
      && cursor.parsed.Some? && cursor.parsed.value.Obj? &&
         FieldOf(cursor.parsed.value, SORT) == Some(J.Str(o.expectedSort))
  {
    hide T.Trim, ParseScalar;
    var row := DecodeCursor(env, cursor, o).value;
    assert MissingIssues(o.sortFields, row) == {};
    forall spec | spec in sort ensures spec.field in row {
      var i :| 0 <= i < |sort| && sort[i] == spec;
      assert o.sortFields[i] == spec.field && spec.field in o.sortFields;
      MissingMember(o.sortFields, row, spec.field);
    }
    assert PayloadIssues(cursor.parsed.value, o.expectedSort) == {};
    assert SortMissing !in PayloadIssues(cursor.parsed.value, o.expectedSort);
    assert SortMismatch !in PayloadIssues(cursor.parsed.value, o.expectedSort);
  }
}
