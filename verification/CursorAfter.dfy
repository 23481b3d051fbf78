/** Keyset cursors: the filter "strictly after this row" as the list queries build it. */
module CursorAfter {
  import opened Wrappers
  import T = Text

  type Field = string

  datatype Scalar = Text(s: string) | Number(n: real) | Flag(b: bool)

  datatype Direction = Asc | Desc

  datatype SortSpec = SortSpec(field: Field, direction: Direction)

  /** A row; a column that is NULL is absent. */
  type Row = map<Field, Scalar>

  /** How the database orders the values of a column. */
  type Order = (Field, Scalar, Scalar) -> bool

  datatype Where =
    | Everything
    | Equals(field: Field, value: Scalar)
    | Greater(field: Field, value: Scalar)
    | Less(field: Field, value: Scalar)
    | AtLeast(field: Field, value: Scalar)
    | AtMost(field: Field, value: Scalar)
    | OneOf(field: Field, values: seq<Scalar>)
    | IsNull(field: Field)
    | NotNull(field: Field)
    | EqualsIgnoringCase(field: Field, text: string)
    | And(all: seq<Where>)
    | Or(any: seq<Where>)

  predicate Holds(lt: Order, w: Where, row: Row) {
    match w
    case Everything => true
    case Equals(f, v) => f in row && row[f] == v
    case Greater(f, v) => f in row && lt(f, v, row[f])
    case Less(f, v) => f in row && lt(f, row[f], v)
    case AtLeast(f, v) => f in row && (row[f] == v || lt(f, v, row[f]))
    case AtMost(f, v) => f in row && (row[f] == v || lt(f, row[f], v))
    case OneOf(f, vs) => f in row && row[f] in vs
    case IsNull(f) => f !in row
    case NotNull(f) => f in row
    case EqualsIgnoringCase(f, s) => f in row && row[f].Text? && T.Lower(row[f].s) == T.Lower(s)
    case And(ws) => forall i :: 0 <= i < |ws| ==> Holds(lt, ws[i], row)
    case Or(ws) => exists i :: 0 <= i < |ws| && Holds(lt, ws[i], row)
  }

  // ----- Building the clause -----

  function Compare(spec: SortSpec, value: Scalar): Where {
    if spec.direction == Asc then Greater(spec.field, value) else Less(spec.field, value)
  }

  predicate Covers(after: Row, sort: seq<SortSpec>) {
    forall spec :: spec in sort ==> spec.field in after
  }

  /** Equal on the first `i` sort fields and beyond on the next one. */
  function AfterClause(sort: seq<SortSpec>, after: Row, i: nat): Where
    requires i < |sort| && Covers(after, sort)
  {
    And(seq(i, j requires 0 <= j < i => Equals(sort[j].field, after[sort[j].field]))
        + [Compare(sort[i], after[sort[i].field])])
  }

  function AfterWhere(sort: seq<SortSpec>, after: Row): Where
    requires Covers(after, sort)
  {
    if sort == [] then Everything
    else Or(seq(|sort|, i requires 0 <= i < |sort| => AfterClause(sort, after, i)))
  }

  /** Builds the clause; a sort field without a cursor value is an error. */
  method BuildCursorAfterWhere(sort: seq<SortSpec>, after: Row) returns (r: Result<Where, Field>)
    ensures r.Ok? <==> Covers(after, sort)
    ensures r.Err? ==> r.error !in after
    ensures r.Err? ==> exists i :: 0 <= i < |sort| && sort[i].field == r.error && Covers(after, sort[..i])
    ensures r.Ok? ==> r.value == AfterWhere(sort, after)
  {
    if |sort| == 0 { return Ok(Everything); }
    var clauses: seq<Where> := [];
    for i := 0 to |sort|
      invariant |clauses| == i && forall k :: 0 <= k < i ==> sort[k].field in after
      invariant Covers(after, sort) ==> forall k :: 0 <= k < i ==> clauses[k] == AfterClause(sort, after, k)
    {
      var conj: seq<Where> := [];
      for j := 0 to i
        invariant |conj| == j
        invariant forall k :: 0 <= k < j ==> conj[k] == Equals(sort[k].field, after[sort[k].field])
      {
        conj := conj + [Equals(sort[j].field, after[sort[j].field])];
      }
      var current := sort[i];
      if current.field !in after {
        assert current in sort && Covers(after, sort[..i]);
        return Err(current.field);
      }
      conj := conj + [Compare(current, after[current.field])];
      clauses := clauses + [And(conj)];
      assert Covers(after, sort) ==> And(conj) == AfterClause(sort, after, i) by {
        if Covers(after, sort) { assert conj == AfterClause(sort, after, i).all; }
      }
    }
    assert Covers(after, sort) && clauses == AfterWhere(sort, after).any;
    return Ok(Or(clauses));
  }

  // ----- What it means -----

  /** `y` comes strictly later than `x` in a column listed in this direction. */
  predicate Beyond(lt: Order, spec: SortSpec, x: Scalar, y: Scalar) {
    if spec.direction == Asc then lt(spec.field, x, y) else lt(spec.field, y, x)
  }

  /** The lexicographic order with one direction per field. */
  predicate LexAfter(lt: Order, sort: seq<SortSpec>, a: Row, b: Row)
    decreases |sort|
  {
    sort != [] &&
    var f := sort[0].field;
    f in a && f in b && (Beyond(lt, sort[0], a[f], b[f]) || (a[f] == b[f] && LexAfter(lt, sort[1..], a, b)))
  }

  predicate FirstDifference(lt: Order, sort: seq<SortSpec>, a: Row, b: Row, i: nat)
    requires Covers(a, sort) && Covers(b, sort) && i < |sort|
  {
    && (forall j :: 0 <= j < i ==> a[sort[j].field] == b[sort[j].field])
    && Beyond(lt, sort[i], a[sort[i].field], b[sort[i].field])
  }

  lemma {:induction false} LexAfterAtFirstDifference(lt: Order, sort: seq<SortSpec>, a: Row, b: Row)
    requires Covers(a, sort) && Covers(b, sort)
    ensures LexAfter(lt, sort, a, b) <==> exists i :: 0 <= i < |sort| && FirstDifference(lt, sort, a, b, i)
    decreases |sort|
  {
    if sort != [] {
      var rest := sort[1..];
      LexAfterAtFirstDifference(lt, rest, a, b);
      if Beyond(lt, sort[0], a[sort[0].field], b[sort[0].field]) {
        assert FirstDifference(lt, sort, a, b, 0);
      }
      if a[sort[0].field] == b[sort[0].field] {
        forall i | 0 <= i < |rest| && FirstDifference(lt, rest, a, b, i)
          ensures FirstDifference(lt, sort, a, b, i + 1)
        {
          forall j | 0 <= j < i + 1 ensures a[sort[j].field] == b[sort[j].field] {
            if j > 0 { assert rest[j - 1] == sort[j]; }
          }
        }
        forall i | 0 < i < |sort| && FirstDifference(lt, sort, a, b, i)
          ensures FirstDifference(lt, rest, a, b, i - 1)
        {
          forall j | 0 <= j < i - 1 ensures a[rest[j].field] == b[rest[j].field] { assert rest[j] == sort[j + 1]; }
        }
      } else {
        forall i | 0 < i < |sort| ensures !FirstDifference(lt, sort, a, b, i) {}
      }
    }
  }

  /** The clause selects exactly the rows strictly after the cursor, for any number
      of sort fields, in any directions, whatever the order of each column. */
  lemma AfterWhereMeansLexAfter(lt: Order, sort: seq<SortSpec>, after: Row, row: Row)
    requires sort != [] && Covers(after, sort) && Covers(row, sort)
    ensures Holds(lt, AfterWhere(sort, after), row) <==> LexAfter(lt, sort, after, row)
  {
    LexAfterAtFirstDifference(lt, sort, after, row);
    var w := AfterWhere(sort, after);
    forall i | 0 <= i < |sort|
      ensures Holds(lt, w.any[i], row) <==> FirstDifference(lt, sort, after, row, i)
    {
      ClauseMeansFirstDifference(lt, sort, after, row, i);
    }
  }

  lemma ClauseMeansFirstDifference(lt: Order, sort: seq<SortSpec>, after: Row, row: Row, i: nat)
    requires Covers(after, sort) && Covers(row, sort) && i < |sort|
    ensures Holds(lt, AfterClause(sort, after, i), row) <==> FirstDifference(lt, sort, after, row, i)
  {
    var ws := AfterClause(sort, after, i).all;
    assert ws[i] == Compare(sort[i], after[sort[i].field]);
    assert Holds(lt, ws[i], row) <==> Beyond(lt, sort[i], after[sort[i].field], row[sort[i].field]);
    forall j | 0 <= j < i
      ensures Holds(lt, ws[j], row) <==> after[sort[j].field] == row[sort[j].field]
    {
      assert ws[j] == Equals(sort[j].field, after[sort[j].field]);
    }
  }

  // ----- A strict total order, given one on every column -----

  ghost predicate TotalOrder(lt: Order, f: Field) {
    && (forall x, y :: lt(f, x, y) ==> x != y && !lt(f, y, x))
    && (forall x, y :: x != y ==> lt(f, x, y) || lt(f, y, x))
    && (forall x, y, z :: lt(f, x, y) && lt(f, y, z) ==> lt(f, x, z))
  }

  ghost predicate Ordered(lt: Order, sort: seq<SortSpec>) {
    forall i :: 0 <= i < |sort| ==> TotalOrder(lt, sort[i].field)
  }

  lemma {:induction false} LexAfterTransitive(lt: Order, sort: seq<SortSpec>, a: Row, b: Row, c: Row)
    requires Ordered(lt, sort) && Covers(a, sort) && Covers(b, sort) && Covers(c, sort)
    requires LexAfter(lt, sort, a, b) && LexAfter(lt, sort, b, c)
    ensures LexAfter(lt, sort, a, c)
    decreases |sort|
  {
    var f := sort[0].field;
    assert TotalOrder(lt, f);
    if a[f] == b[f] && b[f] == c[f] {
      LexAfterTransitive(lt, sort[1..], a, b, c);
    }
  }

  lemma {:induction false} LexAfterIrreflexive(lt: Order, sort: seq<SortSpec>, a: Row)
    requires Ordered(lt, sort) && Covers(a, sort)
    ensures !LexAfter(lt, sort, a, a)
    decreases |sort|
  {
    if sort != [] {
      assert TotalOrder(lt, sort[0].field);
      LexAfterIrreflexive(lt, sort[1..], a);
    }
  }

  /** Rows that differ in some sort field are comparable. */
  lemma {:induction false} LexAfterConnected(lt: Order, sort: seq<SortSpec>, a: Row, b: Row, k: nat)
    requires Ordered(lt, sort) && Covers(a, sort) && Covers(b, sort)
    requires k < |sort| && a[sort[k].field] != b[sort[k].field]
    ensures LexAfter(lt, sort, a, b) || LexAfter(lt, sort, b, a)
    decreases |sort|
  {
    assert TotalOrder(lt, sort[0].field);
    if a[sort[0].field] == b[sort[0].field] {
      LexAfterConnected(lt, sort[1..], a, b, k - 1);
    }
  }
}
