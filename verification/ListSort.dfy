/** The sort parameter of a list query, and its normalized text. */
module ListSort {
  import opened Wrappers
  import opened CursorAfter
  import opened Scalars
  import T = Text

  datatype SortOptions = SortOptions(allowed: map<Field, FieldType>, default: seq<SortSpec>, maxFields: nat,
    tieBreaker: SortSpec)

  datatype RawSort = Absent | Given(text: string) | NotAString

  datatype Issue = MustBeString | Unsupported(field: Field) | Duplicate(field: Field) | TooMany

  datatype SortError = Misconfigured | Invalid(issues: seq<Issue>)

  // ----- Tokens -----

  function Tokens(raw: RawSort): seq<string> {
    if raw.Given? && raw.text != "" then T.NonBlank(T.Split(raw.text)) else []
  }

  function ReadToken(token: string): SortSpec {
    if token != "" && token[0] == '-' then SortSpec(T.Trim(token[1..]), Desc) else SortSpec(T.Trim(token), Asc)
  }

  predicate HasField(sort: seq<SortSpec>, field: Field) {
    exists i :: 0 <= i < |sort| && sort[i].field == field
  }

  /** What is kept of the tokens, and the complaints, in order. */
  function Keep(tokens: seq<string>, allowed: map<Field, FieldType>): (seq<SortSpec>, seq<Issue>) {
    if tokens == [] then ([], [])
    else
      var (kept, issues) := Keep(tokens[..|tokens| - 1], allowed);
      var spec := ReadToken(tokens[|tokens| - 1]);
      if spec.field !in allowed then (kept, issues + [Unsupported(spec.field)])
      else if HasField(kept, spec.field) then (kept, issues + [Duplicate(spec.field)])
      else (kept + [spec], issues)
  }

  function AllIssues(raw: RawSort, o: SortOptions): seq<Issue> {
    var (kept, issues) := Keep(Tokens(raw), o.allowed);
    (if raw.NotAString? then [MustBeString] else []) + issues + (if |kept| > o.maxFields then [TooMany] else [])
  }

  function Complete(base: seq<SortSpec>, tieBreaker: SortSpec): seq<SortSpec> {
    if HasField(base, tieBreaker.field) then base else base + [tieBreaker]
  }

  function ParseSort(raw: RawSort, o: SortOptions): Result<seq<SortSpec>, SortError> {
    var kept := Keep(Tokens(raw), o.allowed).0;
    var base := if kept != [] then kept else o.default;
    if o.tieBreaker.field !in o.allowed then Err(Misconfigured)
    else if AllIssues(raw, o) != [] then Err(Invalid(AllIssues(raw, o)))
    else if base == [] then Err(Misconfigured)
    else Ok(Complete(base, o.tieBreaker))
  }

  // ----- What a sort parameter means -----

  predicate Descends(token: string) {
    token != "" && token[0] == '-'
  }

  function NamedField(token: string): string {
    T.Trim(if Descends(token) then token[1..] else token)
  }

  /** The token asks for this field in this direction. */
  predicate AsksFor(token: string, spec: SortSpec) {
    spec.field == NamedField(token) && (spec.direction == Desc <==> Descends(token))
  }

  predicate Names(tokens: seq<string>, field: Field) {
    exists i :: 0 <= i < |tokens| && NamedField(tokens[i]) == field
  }

  predicate NamesTwice(tokens: seq<string>, field: Field) {
    exists i, j :: 0 <= i < j < |tokens| && NamedField(tokens[i]) == field && NamedField(tokens[j]) == field
  }

  /** Every token names an allowed field, and none the same as another. */
  predicate ProperTokens(tokens: seq<string>, allowed: map<Field, FieldType>) {
    && (forall i :: 0 <= i < |tokens| ==> NamedField(tokens[i]) in allowed)
    && (forall i, j :: 0 <= i < j < |tokens| ==> NamedField(tokens[i]) != NamedField(tokens[j]))
  }

  predicate AskedInOrder(tokens: seq<string>, sort: seq<SortSpec>) {
    |tokens| <= |sort| && forall i :: 0 <= i < |tokens| ==> AsksFor(tokens[i], sort[i])
  }

  /** When a sort parameter is accepted, which sort it then is, and what is complained of. */
  ghost predicate SortAnswered(raw: RawSort, o: SortOptions, r: Result<seq<SortSpec>, SortError>) {
    var tokens := Tokens(raw);
    && (r.Ok? <==> o.tieBreaker.field in o.allowed && !raw.NotAString? && ProperTokens(tokens, o.allowed)
                   && |tokens| <= o.maxFields && (tokens != [] || o.default != []))
    && (r.Ok? ==>
          var n := if tokens != [] then |tokens| else |o.default|;
          && n <= |r.value| && (if tokens != [] then AskedInOrder(tokens, r.value) else r.value[..n] == o.default)
          && r.value[n..] == if HasField(r.value[..n], o.tieBreaker.field) then [] else [o.tieBreaker])
    && (r.Err? && r.error.Invalid? ==>
          && (MustBeString in r.error.issues <==> raw.NotAString?)
          && (forall f :: Unsupported(f) in r.error.issues <==> Names(tokens, f) && f !in o.allowed)
          && (forall f :: Duplicate(f) in r.error.issues <==> NamesTwice(tokens, f) && f in o.allowed))
    && (r.Err? && o.tieBreaker.field !in o.allowed ==> r.error.Misconfigured?)
  }

  lemma {:induction false} KeepMeans(tokens: seq<string>, allowed: map<Field, FieldType>)
    ensures var (kept, issues) := Keep(tokens, allowed);
      && (forall f :: HasField(kept, f) <==> Names(tokens, f) && f in allowed)
      && (forall f :: Unsupported(f) in issues <==> Names(tokens, f) && f !in allowed)
      && (forall f :: Duplicate(f) in issues <==> NamesTwice(tokens, f) && f in allowed)
      && MustBeString !in issues && TooMany !in issues
      && |kept| + |issues| == |tokens|
      && (issues == [] <==> ProperTokens(tokens, allowed))
      && (issues == [] ==> AskedInOrder(tokens, kept))
    decreases |tokens|
  {
    hide T.Trim, HasField, NamedField, Descends;
    if tokens != [] {
      var n := |tokens| - 1;
      var last := tokens[n];
      KeepMeans(tokens[..n], allowed);
      ReadTokenMeans(last);
      var kept := Keep(tokens[..n], allowed).0;
      SeenGrows(kept, ReadToken(last));
      NamesMore(tokens);
      ProperMore(tokens, allowed);
    } else {
      NothingKept();
    }
  }

  lemma NothingKept()
    ensures forall f :: !HasField([], f)
  {
  }

  lemma ReadTokenMeans(token: string)
    ensures AsksFor(token, ReadToken(token))
  {
    hide T.Trim;
  }

  lemma NamesMore(tokens: seq<string>)
    requires tokens != []
    ensures var n := |tokens| - 1; forall f ::
      && (Names(tokens, f) <==> Names(tokens[..n], f) || NamedField(tokens[n]) == f)
      && (NamesTwice(tokens, f) <==>
            NamesTwice(tokens[..n], f) || (Names(tokens[..n], f) && NamedField(tokens[n]) == f))
  {
    hide NamedField;
    var n := |tokens| - 1;
    assert forall i :: 0 <= i < n ==> tokens[..n][i] == tokens[i];
  }

  lemma ProperMore(tokens: seq<string>, allowed: map<Field, FieldType>)
    requires tokens != []
    ensures var n := |tokens| - 1; var f := NamedField(tokens[n]);
      ProperTokens(tokens, allowed) <==> ProperTokens(tokens[..n], allowed) && f in allowed && !Names(tokens[..n], f)
  {
    hide NamedField;
    var n := |tokens| - 1;
    assert forall i :: 0 <= i < n ==> tokens[..n][i] == tokens[i];
  }

  lemma SortMeans(raw: RawSort, o: SortOptions)
    ensures SortAnswered(raw, o, ParseSort(raw, o))
  {
    hide Tokens, Keep, HasField, NamedField, Descends, Names, NamesTwice, ProperTokens;
    var tokens := Tokens(raw);
    KeepMeans(tokens, o.allowed);
    var (kept, issues) := Keep(tokens, o.allowed);
    assert AllIssues(raw, o) == [] <==> !raw.NotAString? && issues == [] && |kept| <= o.maxFields;
    var r := ParseSort(raw, o);
    if r.Ok? {
      var base := if tokens != [] then kept else o.default;
      assert |kept| == |tokens| && (tokens == [] ==> kept == []);
      assert r.value == Complete(base, o.tieBreaker);
      assert r.value[..|base|] == base;
    }
  }

  /** The parser as it runs: one token after another, with the set of fields seen. */
  method ParseSortQuery(raw: RawSort, o: SortOptions) returns (r: Result<seq<SortSpec>, SortError>)
    ensures r == ParseSort(raw, o) && SortAnswered(raw, o, r)
  {
    SortMeans(raw, o);
    hide T.NonBlank, ReadToken, T.Split, SortAnswered;
    var issues: seq<Issue> := [];
    if o.tieBreaker.field !in o.allowed { return Err(Misconfigured); }
    if raw.NotAString? { issues := issues + [MustBeString]; }
    var tokens := Tokens(raw);
    var userSort: seq<SortSpec> := [];
    var seen: set<Field> := {};
    ghost var start := issues;
    for i := 0 to |tokens|
      invariant userSort == Keep(tokens[..i], o.allowed).0
      invariant issues == start + Keep(tokens[..i], o.allowed).1
      invariant forall f :: f in seen <==> HasField(userSort, f)
    {
      assert tokens[..i + 1][..i] == tokens[..i];
      var spec := ReadToken(tokens[i]);
      if spec.field !in o.allowed {
        issues := issues + [Unsupported(spec.field)];
      } else if spec.field in seen {
        issues := issues + [Duplicate(spec.field)];
      } else {
        SeenGrows(userSort, spec);
        seen := seen + {spec.field};
        userSort := userSort + [spec];
      }
    }
    assert tokens[..|tokens|] == tokens;
    if |userSort| > o.maxFields { issues := issues + [TooMany]; }
    assert issues == AllIssues(raw, o);
    if |issues| > 0 { return Err(Invalid(issues)); }
    var baseSort := if |userSort| > 0 then userSort else o.default;
    if |baseSort| == 0 { return Err(Misconfigured); }
    return Ok(if HasField(baseSort, o.tieBreaker.field) then baseSort else baseSort + [o.tieBreaker]);
  }

  lemma SeenGrows(sort: seq<SortSpec>, spec: SortSpec)
    ensures forall f :: HasField(sort + [spec], f) <==> HasField(sort, f) || f == spec.field
  {
    var all := sort + [spec];
    assert all[|sort|] == spec;
    forall f | HasField(sort, f) ensures HasField(all, f) {
      var i :| 0 <= i < |sort| && sort[i].field == f;
      assert all[i].field == f;
    }
  }

  // ----- The normalized text -----

  function TokenOf(spec: SortSpec): string {
    if spec.direction == Desc then "-" + spec.field else spec.field
  }

  function TokensOf(sort: seq<SortSpec>): (tokens: seq<string>)
    ensures |tokens| == |sort|
  {
    seq(|sort|, i requires 0 <= i < |sort| => TokenOf(sort[i]))
  }

  function NormalizeSort(sort: seq<SortSpec>): string {
    T.Join(TokensOf(sort), ',')
  }

  /** A field name that can stand in a sort parameter. */
  predicate PlainName(f: Field) {
    T.Word(f) && T.NoComma(f) && f[0] != '-'
  }

  predicate PlainNames(sort: seq<SortSpec>) {
    forall i :: 0 <= i < |sort| ==> PlainName(sort[i].field)
  }

  predicate DistinctFields(sort: seq<SortSpec>) {
    forall i, j :: 0 <= i < |sort| && 0 <= j < |sort| && sort[i].field == sort[j].field ==> i == j
  }

  predicate AllAllowed(sort: seq<SortSpec>, allowed: map<Field, FieldType>) {
    forall i :: 0 <= i < |sort| ==> sort[i].field in allowed
  }

  lemma TokenFacts(spec: SortSpec)
    requires PlainName(spec.field)
    ensures var t := TokenOf(spec); t != "" && T.NoComma(t) && T.Trim(t) == t && ReadToken(t) == spec
  {
    hide T.Trim;
    var t := TokenOf(spec);
    T.TrimFixes(spec.field);
    T.TrimFixes(t);
    if spec.direction == Desc {
      assert t[1..] == spec.field && t[|t| - 1] == spec.field[|spec.field| - 1];
    }
  }

  /** A normalized sort splits into the tokens of its fields. */
  lemma TokensOfNormalized(sort: seq<SortSpec>)
    requires sort != [] && PlainNames(sort)
    ensures Tokens(Given(NormalizeSort(sort))) == TokensOf(sort)
  {
    hide TokenOf, T.Trim, T.Split, T.Join, PlainName, T.NoComma;
    var tokens := TokensOf(sort);
    forall i | 0 <= i < |tokens| ensures tokens[i] != "" && T.NoComma(tokens[i]) && T.Trim(tokens[i]) == tokens[i] {
      TokenFacts(sort[i]);
    }
    T.SplitUndoesJoin(tokens);
    T.NonBlankKeeps(tokens);
    SplitNothing();
  }

  lemma SplitNothing()
    ensures T.Split("") == [""]
  {
  }

  lemma HasFieldAt(sort: seq<SortSpec>, i: nat)
    requires DistinctFields(sort) && i < |sort|
    ensures !HasField(sort[..i], sort[i].field)
  {
  }

  lemma {:induction false} KeepReads(sort: seq<SortSpec>, allowed: map<Field, FieldType>, n: nat)
    requires n <= |sort| && PlainNames(sort) && DistinctFields(sort) && AllAllowed(sort, allowed)
    ensures Keep(TokensOf(sort)[..n], allowed) == (sort[..n], [])
    decreases n
  {
    hide TokenOf, ReadToken, PlainName, HasField;
    if n > 0 {
      var tokens := TokensOf(sort)[..n];
      KeepReads(sort, allowed, n - 1);
      assert tokens[..n - 1] == TokensOf(sort)[..n - 1];
      TokenFacts(sort[n - 1]);
      HasFieldAt(sort, n - 1);
      assert sort[..n] == sort[..n - 1] + [sort[n - 1]];
    }
  }

  /** Normalizing loses nothing: two sorts with the same text are the same sort. */
  lemma NormalizeInjective(a: seq<SortSpec>, b: seq<SortSpec>)
    requires a != [] && b != [] && PlainNames(a) && PlainNames(b) && NormalizeSort(a) == NormalizeSort(b)
    ensures a == b
  {
    hide NormalizeSort, Tokens, TokenOf, ReadToken, PlainName;
    TokensOfNormalized(a);
    TokensOfNormalized(b);
    assert TokensOf(a) == TokensOf(b);
    forall i | 0 <= i < |a| ensures a[i] == b[i] {
      TokenFacts(a[i]);
      TokenFacts(b[i]);
      assert TokensOf(a)[i] == TokenOf(a[i]) && TokensOf(b)[i] == TokenOf(b[i]);
    }
  }

  predicate GoodOptions(o: SortOptions) {
    && (forall f :: f in o.allowed ==> PlainName(f))
    && DistinctFields(o.default) && AllAllowed(o.default, o.allowed)
  }

  lemma {:induction false} KeepFacts(tokens: seq<string>, allowed: map<Field, FieldType>)
    ensures var kept := Keep(tokens, allowed).0; DistinctFields(kept) && AllAllowed(kept, allowed)
    decreases |tokens|
  {
    hide ReadToken;
    if tokens != [] { KeepFacts(tokens[..|tokens| - 1], allowed); }
  }

  /** Every sort that is returned has distinct allowed fields, the tie-breaker among them. */
  lemma ParsedSort(raw: RawSort, o: SortOptions)
    requires GoodOptions(o) && ParseSort(raw, o).Ok?
    ensures var sort := ParseSort(raw, o).value;
      && sort != [] && PlainNames(sort) && DistinctFields(sort) && AllAllowed(sort, o.allowed)
      && HasField(sort, o.tieBreaker.field) && o.tieBreaker.field in o.allowed
  {
    hide Keep, Tokens, PlainName;
    var kept := Keep(Tokens(raw), o.allowed).0;
    KeepFacts(Tokens(raw), o.allowed);
    var base := if kept != [] then kept else o.default;
    SeenGrows(base, o.tieBreaker);
    var sort := ParseSort(raw, o).value;
    assert PlainNames(sort) by {
      forall i | 0 <= i < |sort| ensures PlainName(sort[i].field) { assert sort[i].field in o.allowed; }
    }
    CompletedDistinct(base, o.tieBreaker);
  }

  lemma CompletedDistinct(base: seq<SortSpec>, tieBreaker: SortSpec)
    requires DistinctFields(base)
    ensures DistinctFields(Complete(base, tieBreaker))
  {
  }

  lemma ParseOfKept(raw: RawSort, o: SortOptions, sort: seq<SortSpec>)
    requires raw.Given? && o.tieBreaker.field in o.allowed && sort != [] && HasField(sort, o.tieBreaker.field)
    requires Keep(Tokens(raw), o.allowed) == (sort, [])
    ensures ParseSort(raw, o) == if |sort| <= o.maxFields then Ok(sort) else Err(Invalid([TooMany]))
  {
    hide Tokens, Keep, HasField;
    assert AllIssues(raw, o) == if |sort| > o.maxFields then [TooMany] else [];
  }

  /** A returned sort, normalized, parses to itself again exactly when it has no more fields
      than a caller may ask for: the appended tie-breaker counts too. */
  lemma NormalizedReparses(raw: RawSort, o: SortOptions)
    requires GoodOptions(o) && ParseSort(raw, o).Ok?
    ensures var sort := ParseSort(raw, o).value;
      ParseSort(Given(NormalizeSort(sort)), o) == if |sort| <= o.maxFields then Ok(sort) else Err(Invalid([TooMany]))
  {
    hide *;
    var sort := ParseSort(raw, o).value;
    ParsedSort(raw, o);
    TokensOfNormalized(sort);
    KeepReads(sort, o.allowed, |sort|);
    assert TokensOf(sort)[..|sort|] == TokensOf(sort) && sort[..|sort|] == sort;
    ParseOfKept(Given(NormalizeSort(sort)), o, sort);
  }

  /** So a caller who names as many fields as allowed, and not the tie-breaker, gets a sort
      whose own normalized text is refused. */
  lemma FullSortIsRefusedWhenRepeated(sort: seq<SortSpec>, o: SortOptions)
    requires GoodOptions(o) && o.tieBreaker.field in o.allowed && |sort| == o.maxFields > 0
    requires PlainNames(sort) && DistinctFields(sort) && AllAllowed(sort, o.allowed)
    requires !HasField(sort, o.tieBreaker.field)
    ensures ParseSort(Given(NormalizeSort(sort)), o) == Ok(sort + [o.tieBreaker])
    ensures ParseSort(Given(NormalizeSort(sort + [o.tieBreaker])), o) == Err(Invalid([TooMany]))
  {
    var raw := Given(NormalizeSort(sort));
    assert ParseSort(raw, o) == Ok(sort + [o.tieBreaker]) by {
      hide NormalizeSort, Tokens, PlainName, HasField, Keep;
      TokensOfNormalized(sort);
      KeepReads(sort, o.allowed, |sort|);
      assert TokensOf(sort)[..|sort|] == TokensOf(sort) && sort[..|sort|] == sort;
      assert AllIssues(raw, o) == [];
    }
    hide *;
    NormalizedReparses(raw, o);
  }
}
