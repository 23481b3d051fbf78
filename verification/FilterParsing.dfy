/** The parser of a filter parameter as it runs. */
module FilterParsing {
  import opened Wrappers
  import opened CursorAfter
  import opened Scalars
  import opened Filters
  import opened FilterMeaning
  import J = JsonValue

  /** The two arrays parseFilters pushes into, shared by its loops and its addExpr closure. */
  class FilterParser {
    const env: Env
    const allow: Allowlist
    var filters: seq<FilterExpr>
    var issues: seq<Issue>

    constructor (env: Env, allow: Allowlist)
      ensures this.env == env && this.allow == allow && filters == [] && issues == []
    {
      this.env, this.allow, filters, issues := env, allow, [], [];
    }

    /** The filters and the issues so far come from these items. */
    ghost predicate Has(items: seq<Item>)
      reads this
    {
      (filters, issues) == Collect(env, allow, items)
    }

    method AddIssue(issue: Issue, ghost items: seq<Item>, ghost item: Item)
      requires Has(items) && Judge(env, allow, item) == Err(issue)
      modifies this
      ensures Has(items + [item])
    {
      hide Judge, Collect;
      CollectNext(env, allow, items, item);
      issues := issues + [issue];
    }

    method AddExpr(field: Field, op: Op, v: J.Value, ghost items: seq<Item>, ghost text: string)
      requires Has(items) && field in allow && ReadOp(text) == Some(op)
      modifies this
      ensures Has(items + [Ask(field, text, v)])
    {
      ghost var item := Ask(field, text, v);
      assert Judge(env, allow, item) == ParseExpr(env, field, op, v, allow[field]);
      hide Judge, Collect, ReadOp, ParseExpr;
      CollectNext(env, allow, items, item);
      match ParseExpr(env, field, op, v, allow[field])
      case Ok(expr) => filters := filters + [expr];
      case Err(issue) => AddIssue(issue, items, item);
    }

    method AddNamed(field: Field, op: string, v: J.Value, ghost items: seq<Item>)
      requires Has(items) && field in allow
      modifies this
      ensures Has(items + [Ask(field, op, v)])
    {
      hide Collect, ParseExpr;
      if op == "eq" { AddExpr(field, Eq, v, items, op); }
      else if op == "in" { AddExpr(field, In, v, items, op); }
      else if op == "gte" { AddExpr(field, Gte, v, items, op); }
      else if op == "lte" { AddExpr(field, Lte, v, items, op); }
      else { AddIssue(Issue(FormatFilterField(field, Some(op)), UnsupportedOperator), items, Ask(field, op, v)); }
    }

    method AddNested(entry: (string, RawValue), ghost items: seq<Item>)
      requires Has(items)
      modifies this
      ensures Has(items + NestedItem(entry, allow))
    {
      hide Judge, Collect, Has;
      if entry.0 !in allow {
        AddStray(entry.0, None, items);
        return;
      }
      match entry.1
      case Plain(v) => AddNamed(entry.0, "eq", v, items);
      case Nested(ops) =>
        ghost var asked := AskEach(entry.0, ops);
        assert items + asked[..0] == items;
        for i := 0 to |ops|
          invariant Has(items + asked[..i])
        {
          AddNamed(entry.0, ops[i].0, ops[i].1, items + asked[..i]);
          assert items + asked[..i] + [asked[i]] == items + asked[..i + 1];
        }
        assert asked[..|ops|] == asked;
    }

    method AddStray(field: string, op: Option<string>, ghost items: seq<Item>)
      requires Has(items)
      modifies this
      ensures Has(items + [Stray(field, op)])
    {
      hide Collect, Has;
      AddIssue(Issue(FormatFilterField(field, op), UnsupportedField), items, Stray(field, op));
    }

    method AddBracketed(entry: (string, RawValue), ghost items: seq<Item>)
      requires Has(items)
      modifies this
      ensures Has(items + BracketedItem(entry, allow))
    {
      hide Judge, Collect, Has, ReadKey;
      var key := ReadKey(entry.0);
      if key.None? {
        assert items + [] == items;
      } else if key.value.0 !in allow {
        AddStray(key.value.0, key.value.1, items);
      } else {
        AddNamed(key.value.0, key.value.1.GetOr("eq"), ValueOf(entry.1), items);
      }
    }

    method Parse(raw: RawFilter) returns (r: Result<seq<FilterExpr>, seq<Issue>>)
      requires filters == [] && issues == []
      modifies this
      ensures r == ParseFilters(env, raw, allow) && Parsed(env, raw, allow, r)
    {
      ParsedMeans(env, raw, allow);
      hide Parsed;
      hide Judge, NestedItem, BracketedItem, Has;
      if raw.Absent? { return Ok([]); }
      if raw.NotAnObject? { return Err([Issue("filter", MustBeObject)]); }
      var bracketed := IsBracketed(raw.entries);
      assert Has([]) by { Nothing(); }
      for i := 0 to |raw.entries|
        invariant Has(Items(raw.entries[..i], bracketed, allow))
      {
        assert raw.entries[..i + 1][..i] == raw.entries[..i];
        ghost var items := Items(raw.entries[..i], bracketed, allow);
        if bracketed { AddBracketed(raw.entries[i], items); } else { AddNested(raw.entries[i], items); }
      }
      assert raw.entries[..|raw.entries|] == raw.entries;
      Collected(Items(raw.entries, bracketed, allow));
      if |issues| > 0 { return Err(issues); }
      return Ok(filters);
    }

    lemma Nothing()
      requires filters == [] && issues == []
      ensures Has([])
    {
    }

    lemma Collected(items: seq<Item>)
      requires Has(items)
      ensures (filters, issues) == Collect(env, allow, items)
    {
    }
  }
}
