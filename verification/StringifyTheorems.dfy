/** The canonical text identifies a payload: equal up to key order on one side, equal
    texts on the other. */
module StringifyTheorems {
  import opened StableStringify
  import opened Text

  // ----- Sorted keys -----

  lemma {:induction false} KeyLessIrreflexive(a: Units)
    ensures !KeyLess(a, a)
    decreases |a|
  {
    if a != [] { KeyLessIrreflexive(a[1..]); }
  }

  lemma {:induction false} KeyLessTransitive(a: Units, b: Units, c: Units)
    requires KeyLess(a, b) && KeyLess(b, c)
    ensures KeyLess(a, c)
    decreases |a|
  {
    if a != [] && a[0] == b[0] && b[0] == c[0] { KeyLessTransitive(a[1..], b[1..], c[1..]); }
  }

  lemma {:induction false} KeyLessConnected(a: Units, b: Units)
    ensures a == b || KeyLess(a, b) || KeyLess(b, a)
    decreases |a|
  {
    if a != [] && b != [] && a[0] == b[0] {
      KeyLessConnected(a[1..], b[1..]);
      assert a == [a[0]] + a[1..] && b == [b[0]] + b[1..];
    }
  }

  ghost predicate Sorted(keys: seq<Units>) {
    forall i, j :: 0 <= i < j < |keys| ==> KeyLess(keys[i], keys[j])
  }

  lemma SortedTail(keys: seq<Units>)
    requires keys != [] && Sorted(keys)
    ensures Sorted(keys[1..]) && forall k :: k in keys[1..] ==> KeyLess(keys[0], k)
  {
    hide KeyLess;
    assert forall i :: 0 <= i < |keys| - 1 ==> keys[1..][i] == keys[i + 1];
  }

  lemma SortedCons(x: Units, rest: seq<Units>)
    requires Sorted(rest) && forall y :: y in rest ==> KeyLess(x, y)
    ensures Sorted([x] + rest)
  {
    hide KeyLess;
    var all := [x] + rest;
    forall i, j | 0 <= i < j < |all| ensures KeyLess(all[i], all[j]) {
      assert all[j] == rest[j - 1];
      if i > 0 { assert all[i] == rest[i - 1]; }
    }
  }

  lemma {:induction false} InsertSorts(k: Units, keys: seq<Units>)
    requires Sorted(keys) && k !in keys
    ensures Sorted(InsertKey(k, keys))
    ensures forall x :: x in InsertKey(k, keys) <==> x == k || x in keys
    decreases |keys|
  {
    hide KeyLess, Sorted;
    if keys == [] {
      SortedNil();
      SortedCons(k, []);
      assert [k] + [] == [k];
    } else {
      SortedTail(keys);
      assert keys == [keys[0]] + keys[1..];
      if KeyLess(keys[0], k) {
        InsertSorts(k, keys[1..]);
        SortedCons(keys[0], InsertKey(k, keys[1..]));
      } else {
        KeyLessConnected(k, keys[0]);
        forall x | x in keys[1..] ensures KeyLess(k, x) { KeyLessTransitive(k, keys[0], x); }
        SortedCons(k, keys);
      }
    }
  }

  predicate DistinctSeq(keys: seq<Units>) {
    forall i, j :: 0 <= i < j < |keys| ==> keys[i] != keys[j]
  }

  lemma {:induction false} SortKeysSorts(keys: seq<Units>)
    requires DistinctSeq(keys)
    ensures Sorted(SortKeys(keys))
    ensures forall x :: x in SortKeys(keys) <==> x in keys
    decreases |keys|
  {
    hide KeyLess, Sorted, InsertKey;
    if keys == [] {
      SortedNil();
    } else {
      assert forall i :: 0 <= i < |keys| - 1 ==> keys[1..][i] == keys[i + 1];
      SortKeysSorts(keys[1..]);
      InsertSorts(keys[0], SortKeys(keys[1..]));
    }
  }

  lemma SortedNil()
    ensures Sorted([])
  {
  }

  lemma SomeKey(a: seq<Units>)
    ensures a == [] <==> forall x :: x !in a
  {
    if a != [] { assert a[0] in a; }
  }

  lemma {:induction false} SortedUnique(a: seq<Units>, b: seq<Units>)
    requires Sorted(a) && Sorted(b) && forall x :: x in a <==> x in b
    ensures a == b
    decreases |a|
  {
    hide KeyLess, Sorted;
    assert a == [] <==> b == [] by { SomeKey(a); SomeKey(b); }
    if a != [] {
      assert a[0] in a && b[0] in b;
      SortedTail(a);
      SortedTail(b);
      assert forall x :: x in a <==> x == a[0] || x in a[1..];
      assert forall x :: x in b <==> x == b[0] || x in b[1..];
      KeyLessIrreflexive(a[0]);
      KeyLessIrreflexive(b[0]);
      if a[0] != b[0] { KeyLessTransitive(a[0], b[0], a[0]); }
      SortedUnique(a[1..], b[1..]);
      assert a == [a[0]] + a[1..] && b == [b[0]] + b[1..];
    }
  }

  lemma {:induction false} LookupFinds(entries: seq<Entry>, i: nat)
    requires DistinctKeys(entries) && i < |entries|
    ensures Lookup(entries, entries[i].key) == entries[i].value
    decreases |entries|
  {
    if i > 0 {
      assert entries[1..][i - 1] == entries[i] && DistinctKeys(entries[1..]);
      LookupFinds(entries[1..], i - 1);
    }
  }

  lemma EntriesSorted(entries: seq<Entry>)
    requires DistinctKeys(entries)
    ensures var keys := SortKeys(KeysOf(entries));
      Sorted(keys) && (forall x :: x in keys <==> x in KeysOf(entries))
  {
    SortKeysSorts(KeysOf(entries));
  }

  // ----- Key order does not matter -----

  lemma SameObjects(a: seq<Entry>, b: seq<Entry>)
    requires DistinctKeys(a) && DistinctKeys(b) && Same(JObject(a), JObject(b))
    ensures SortKeys(KeysOf(a)) == SortKeys(KeysOf(b))
    ensures forall k :: k in KeysOf(a) ==> Same(Lookup(a, k), Lookup(b, k))
  {
    hide SortKeys, Lookup;
    EntriesSorted(a);
    EntriesSorted(b);
    forall k
      ensures k in KeysOf(a) ==> k in KeysOf(b) && Same(Lookup(a, k), Lookup(b, k))
    {
      if k in KeysOf(a) {
        var i :| 0 <= i < |a| && a[i].key == k;
        assert Matched(a[i], b);
        var j :| 0 <= j < |b| && a[i].key == b[j].key && Same(a[i].value, b[j].value);
        assert KeysOf(b)[j] == k;
        LookupFinds(a, i);
        LookupFinds(b, j);
      }
    }
    forall k | k in KeysOf(b) ensures k in KeysOf(a) {
      var j :| 0 <= j < |b| && KeysOf(b)[j] == k;
      assert b[j].key in KeysOf(a);
    }
    SortedUnique(SortKeys(KeysOf(a)), SortKeys(KeysOf(b)));
  }

  lemma LookupWellFormed(a: seq<Entry>)
    requires WellFormed(JObject(a))
    ensures forall k :: k in KeysOf(a) ==> WellFormed(Lookup(a, k))
  {
    forall k | k in KeysOf(a) ensures WellFormed(Lookup(a, k)) {
      var i :| 0 <= i < |a| && KeysOf(a)[i] == k;
      LookupFinds(a, i);
    }
  }

  predicate Scalar(v: Json) {
    !v.JArray? && !v.JObject?
  }

  lemma SameScalars(v: Json, w: Json)
    requires Same(v, w) && Scalar(v)
    ensures v == w
  {
  }

  lemma SameKinds(v: Json, w: Json)
    requires Same(v, w)
    ensures v.JArray? == w.JArray? && v.JObject? == w.JObject?
  {
  }

  lemma DeepTexts(v: Json, w: Json, depth: nat)
    requires depth > MAX_DEPTH
    ensures Stringify(v, depth) == Stringify(w, depth)
  {
  }

  /** Payloads that are equal up to key order have the same text, however large they are. */
  lemma {:induction false} KeyOrderIgnored(v: Json, w: Json, depth: nat)
    requires WellFormed(v) && WellFormed(w) && Same(v, w)
    ensures Stringify(v, depth) == Stringify(w, depth)
    decreases Left(depth), 1
  {
    hide Stringify, Same, WellFormed, ObjectText;
    SameKinds(v, w);
    if depth > MAX_DEPTH {
      DeepTexts(v, w, depth);
    } else if v.JArray? {
      ArraysIgnoreOrder(v.items, w.items, depth);
    } else if v.JObject? {
      ObjectsIgnoreOrder(v.entries, w.entries, depth);
      ObjectClipped(v.entries, depth);
      ObjectClipped(w.entries, depth);
    } else {
      SameScalars(v, w);
    }
  }

  lemma ObjectClipped(a: seq<Entry>, depth: nat)
    requires depth <= MAX_DEPTH
    ensures Stringify(JObject(a), depth) == Clip(ObjectText(a, depth))
  {
    hide ObjectText;
  }

  lemma {:induction false} ArraysIgnoreOrder(vs: seq<Json>, ws: seq<Json>, depth: nat)
    requires depth <= MAX_DEPTH && WellFormed(JArray(vs)) && WellFormed(JArray(ws)) && Same(JArray(vs), JArray(ws))
    ensures Stringify(JArray(vs), depth) == Stringify(JArray(ws), depth)
    decreases Left(depth), 0
  {
    ItemsSame(vs, ws);
    hide Same, WellFormed, Texts, Join;
    if |vs| > MAX_ARRAY_LENGTH {
      TextsIgnoreOrder(vs[..MAX_ARRAY_LENGTH], ws[..MAX_ARRAY_LENGTH], depth + 1);
    } else {
      TextsIgnoreOrder(vs, ws, depth + 1);
    }
  }

  lemma ItemsSame(vs: seq<Json>, ws: seq<Json>)
    requires WellFormed(JArray(vs)) && WellFormed(JArray(ws)) && Same(JArray(vs), JArray(ws))
    ensures |vs| == |ws| && forall i :: 0 <= i < |vs| ==> WellFormed(vs[i]) && WellFormed(ws[i]) && Same(vs[i], ws[i])
  {
  }

  lemma {:induction false} TextsIgnoreOrder(vs: seq<Json>, ws: seq<Json>, depth: nat)
    requires |vs| == |ws| && forall i :: 0 <= i < |vs| ==> WellFormed(vs[i]) && WellFormed(ws[i]) && Same(vs[i], ws[i])
    ensures Texts(vs, depth) == Texts(ws, depth)
    decreases Left(depth), 2, |vs|
  {
    hide Stringify, Same, WellFormed;
    if vs != [] {
      KeyOrderIgnored(vs[0], ws[0], depth);
      TextsIgnoreOrder(vs[1..], ws[1..], depth);
    }
  }

  lemma {:induction false} ObjectsIgnoreOrder(a: seq<Entry>, b: seq<Entry>, depth: nat)
    requires depth <= MAX_DEPTH && WellFormed(JObject(a)) && WellFormed(JObject(b)) && Same(JObject(a), JObject(b))
    ensures ObjectText(a, depth) == ObjectText(b, depth)
    decreases Left(depth), 0
  {
    hide Stringify, Join, SortKeys, Lookup, Members;
    SameObjects(a, b);
    EntriesSorted(a);
    LookupWellFormed(a);
    LookupWellFormed(b);
    var keys := SortKeys(KeysOf(a));
    EntriesSorted(b);
    var kept := if |keys| > MAX_OBJECT_KEYS then keys[..MAX_OBJECT_KEYS] else keys;
    assert forall k :: k in kept ==> k in KeysOf(a) && k in KeysOf(b);
    MembersIgnoreOrder(kept, a, b, depth + 1);
  }

  lemma {:induction false} MembersIgnoreOrder(keys: seq<Units>, a: seq<Entry>, b: seq<Entry>, depth: nat)
    requires forall k :: k in keys ==>
      WellFormed(Lookup(a, k)) && WellFormed(Lookup(b, k)) && Same(Lookup(a, k), Lookup(b, k))
    ensures Members(keys, a, depth) == Members(keys, b, depth)
    decreases Left(depth), 2, |keys|
  {
    hide Stringify, Same, WellFormed, Lookup, Quote;
    if keys != [] {
      assert keys[0] in keys;
      KeyOrderIgnored(Lookup(a, keys[0]), Lookup(b, keys[0]), depth);
      MembersIgnoreOrder(keys[1..], a, b, depth);
    }
  }

  // ----- The text can be read back -----

  lemma Strip(p: Units, x: Units, q: Units, y: Units)
    requires p + x == q + y && |p| == |q|
    ensures p == q && x == y
  {
    assert p == (p + x)[..|p|] && q == (q + y)[..|q|];
    assert x == (p + x)[|p|..] && y == (q + y)[|q|..];
  }

  lemma HexInjective(m: Unit, n: Unit)
    requires Hex(m) == Hex(n)
    ensures m == n
  {
    DigitInjective(m / 0x1000, n / 0x1000);
    DigitInjective(m / 0x100 % 16, n / 0x100 % 16);
    DigitInjective(m / 16 % 16, n / 16 % 16);
    DigitInjective(m % 16, n % 16);
    FourDigits(m);
    FourDigits(n);
  }

  lemma DigitInjective(m: nat, n: nat)
    requires m < 16 && n < 16 && HexDigit(m) == HexDigit(n)
    ensures m == n
  {
  }

  lemma FourDigits(n: nat)
    ensures n == n / 0x1000 * 0x1000 + n / 0x100 % 16 * 0x100 + n / 16 % 16 * 16 + n % 16
  {
    assert n / 0x100 == n / 16 / 16 && n / 0x1000 == n / 0x100 / 16;
  }

  /** What a unit that is not half of a pair is written as, and what follows it. */
  lemma EscapeReads(u: Unit, x: Units, v: Unit, y: Units)
    requires Escape(u) + x == Escape(v) + y
    ensures u == v && x == y
  {
    hide Hex;
    var p, q := Escape(u), Escape(v);
    assert (p + x)[0] == p[0] && (q + y)[0] == q[0];
    if |p| >= 2 && |q| >= 2 {
      assert (p + x)[1] == p[1] && (q + y)[1] == q[1];
      assert |Hex(u)| == 4 && |Hex(v)| == 4 by { HexLength(u); HexLength(v); }
      Strip(p, x, q, y);
      if |p| == 6 {
        assert Hex(u) == p[2..] && Hex(v) == q[2..];
        HexInjective(u, v);
      }
    } else {
      Strip(p, x, q, y);
    }
  }

  lemma HexLength(u: Unit)
    ensures |Hex(u)| == 4
  {
  }

  lemma EscapeStarts(u: Unit)
    ensures Escape(u) != [] && !High(Escape(u)[0]) && Escape(u)[0] != QUOTE
  {
  }

  /** The first unit of what is written tells a pair from anything else. */
  lemma HeadStarts(a: Units)
    requires a != []
    ensures var e := EscapeHead(a); e != [] && e[0] != QUOTE && (High(e[0]) <==> HeadLength(a) == 2)
  {
    hide Escape;
    EscapeStarts(a[0]);
  }

  lemma HeadReads(a: Units, x: Units, b: Units, y: Units)
    requires a != [] && b != [] && EscapeHead(a) + x == EscapeHead(b) + y
    ensures HeadLength(a) == HeadLength(b) && a[..HeadLength(a)] == b[..HeadLength(b)] && x == y
  {
    hide Escape;
    HeadStarts(a);
    HeadStarts(b);
    var p, q := EscapeHead(a), EscapeHead(b);
    assert (p + x)[0] == p[0] && (q + y)[0] == q[0];
    if HeadLength(a) == 2 {
      Strip(p, x, q, y);
    } else {
      EscapeReads(a[0], x, b[0], y);
    }
  }

  /** A text in quotes, its end, and what follows. */
  function Quoted(a: Units, x: Units): Units {
    EscapeAll(a) + ([QUOTE] + x)
  }

  lemma QuotedUnfolds(a: Units, x: Units)
    ensures a == [] ==> Quoted(a, x) == [QUOTE] + x
    ensures a != [] ==> Quoted(a, x) == EscapeHead(a) + Quoted(a[HeadLength(a)..], x)
  {
    hide EscapeHead, HeadLength;
  }

  lemma QuotedEnds(a: Units, x: Units)
    ensures Quoted(a, x) != [] && (Quoted(a, x)[0] == QUOTE <==> a == [])
  {
    hide Quoted, EscapeHead;
    QuotedUnfolds(a, x);
    if a != [] { HeadStarts(a); }
  }

  lemma {:induction false} EscapeAllReads(a: Units, x: Units, b: Units, y: Units)
    requires Quoted(a, x) == Quoted(b, y)
    ensures a == b && x == y
    decreases |a|
  {
    hide Quoted, EscapeHead;
    QuotedUnfolds(a, x);
    QuotedUnfolds(b, y);
    QuotedEnds(a, x);
    QuotedEnds(b, y);
    if a == [] {
      Strip([QUOTE], x, [QUOTE], y);
    } else {
      var m, n := HeadLength(a), HeadLength(b);
      HeadReads(a, Quoted(a[m..], x), b, Quoted(b[n..], y));
      EscapeAllReads(a[m..], x, b[n..], y);
      assert a == a[..m] + a[m..] && b == b[..n] + b[n..];
    }
  }

  lemma QuoteUnfolds(a: Units, x: Units)
    ensures Quote(a) + x == [QUOTE] + Quoted(a, x)
  {
    hide EscapeAll;
  }

  lemma QuoteReads(a: Units, x: Units, b: Units, y: Units)
    requires Quote(a) + x == Quote(b) + y
    ensures a == b && x == y
  {
    hide Quote, Quoted;
    QuoteUnfolds(a, x);
    QuoteUnfolds(b, y);
    Strip([QUOTE], Quoted(a, x), [QUOTE], Quoted(b, y));
    EscapeAllReads(a, x, b, y);
  }

  /** What may follow a value. */
  predicate Ends(x: Units) {
    x == [] || x[0] == COMMA || x[0] == CLOSE_BRACKET || x[0] == CLOSE_BRACE
  }

  lemma EndsEmpty()
    ensures Ends([])
  {
  }

  lemma NumberGoesOn(a: Units, x: Units)
    requires NumberUnits(a) && Ends(x)
    ensures a != [] <==> (a + x != [] && NumberUnit((a + x)[0]))
  {
    if a != [] { assert (a + x)[0] == a[0]; } else { assert a + x == x; }
  }

  lemma {:induction false} NumberReads(a: Units, x: Units, b: Units, y: Units)
    requires NumberUnits(a) && NumberUnits(b) && Ends(x) && Ends(y) && a + x == b + y
    ensures a == b && x == y
    decreases |a|
  {
    NumberGoesOn(a, x);
    NumberGoesOn(b, y);
    if a == [] {
      Strip(a, x, b, y);
    } else {
      assert a == [a[0]] + a[1..] && b == [b[0]] + b[1..];
      assert a + x == [a[0]] + (a[1..] + x) && b + y == [b[0]] + (b[1..] + y);
      Strip([a[0]], a[1..] + x, [b[0]], b[1..] + y);
      NumberReads(a[1..], x, b[1..], y);
    }
  }

  /** The first unit tells what kind of value follows. */
  function Kind(v: Json): nat {
    match v
    case JNull => 0
    case JBool(b) => if b then 1 else 2
    case JNumber(_) => 3
    case JString(_) => 4
    case JArray(_) => 5
    case JObject(_) => 6
  }

  function KindOf(u: Unit): nat {
    if u == 'n' as int then 0 else if u == 't' as int then 1 else if u == 'f' as int then 2
    else if u == QUOTE then 4 else if u == OPEN_BRACKET then 5 else if u == OPEN_BRACE then 6
    else if Digit(u) || u == MINUS then 3 else 7
  }

  lemma QuoteStarts(a: Units)
    ensures Quote(a) != [] && Quote(a)[0] == QUOTE
  {
    hide EscapeAll;
  }

  lemma Utf16Starts(s: string)
    requires s != "" && s[0] as int < 0x1_0000
    ensures Utf16(s) != [] && Utf16(s)[0] == s[0] as int
  {
  }

  lemma MarkersStart()
    ensures ARRAY_MARKER != [] && ARRAY_MARKER[0] == COMMA
    ensures OBJECT_MARKER != [] && OBJECT_MARKER[0] == QUOTE
  {
    hide Utf16, Quote;
    Utf16Starts(",\"__idempotency_truncated_array__\"");
    QuoteStarts(Utf16("__idempotency_truncated_object__"));
  }

  lemma FirstUnit(v: Json, depth: nat)
    requires WellFormed(v)
    ensures var t := Stringify(v, depth);
      t != [] && KindOf(t[0]) == if depth <= MAX_DEPTH then Kind(v) else KindOf(QUOTE)
  {
    hide Quote, Utf16, Join, Texts, ObjectText;
    if depth > MAX_DEPTH {
      QuoteStarts(Utf16("__idempotency_depth_exceeded__"));
    } else {
      match v
      case JNull => Utf16Starts("null");
      case JBool(b) => { Utf16Starts("true"); Utf16Starts("false"); }
      case JNumber(_) =>
      case JString(s) => QuoteStarts(ClampString(s));
      case JArray(_) =>
      case JObject(entries) => ObjectStarts(entries, depth);
    }
  }

  lemma ObjectStarts(entries: seq<Entry>, depth: nat)
    requires depth <= MAX_DEPTH
    ensures var t := Clip(ObjectText(entries, depth)); t != [] && t[0] == OPEN_BRACE
  {
    hide Join, Members, SortKeys, Quote, Utf16;
  }

  /** The items of an array that are written, and what stands for the others. */
  function KeptItems(items: seq<Json>): seq<Json> {
    if |items| > MAX_ARRAY_LENGTH then items[..MAX_ARRAY_LENGTH] else items
  }

  function MoreItems(items: seq<Json>): Units {
    if |items| > MAX_ARRAY_LENGTH then ARRAY_MARKER else []
  }

  /** The commas and brackets of an array around its items. */
  lemma ArrayText(items: seq<Json>, depth: nat, x: Units)
    requires depth <= MAX_DEPTH
    ensures Stringify(JArray(items), depth) + x ==
      [OPEN_BRACKET] + (Join(Texts(KeptItems(items), depth + 1), COMMA) + (MoreItems(items) + ([CLOSE_BRACKET] + x)))
  {
    hide Texts, Join, Utf16;
    Regroup(Join(Texts(KeptItems(items), depth + 1), COMMA), MoreItems(items), x);
  }

  lemma Regroup(inner: Units, marker: Units, x: Units)
    ensures ([OPEN_BRACKET] + inner + marker + [CLOSE_BRACKET]) + x ==
      [OPEN_BRACKET] + (inner + (marker + ([CLOSE_BRACKET] + x)))
  {
  }

  /** A text of a payload within the limits tells it from every other payload, even one
      beyond the limits, and tells where it ends. */
  lemma {:induction false} ValueReads(v: Json, x: Units, w: Json, y: Units, depth: nat)
    requires WellFormed(v) && WellFormed(w) && Within(v, depth) && Ends(x) && Ends(y)
    requires Stringify(v, depth) + x == Stringify(w, depth) + y
    ensures Same(v, w) && x == y
    decreases Left(depth), 1
  {
    hide Texts, Members, Join, EscapeAll, SortKeys, ObjectText, Quote;
    FirstUnit(v, depth);
    FirstUnit(w, depth);
    var s, t := Stringify(v, depth), Stringify(w, depth);
    assert (s + x)[0] == s[0] && (t + y)[0] == t[0];
    assert Kind(v) == Kind(w);
    match v
    case JNull => Strip(s, x, t, y);
    case JBool(_) => Strip(s, x, t, y);
    case JNumber(text) => NumberReads(text, x, w.text, y);
    case JString(a) => QuoteReads(ClampString(a), x, ClampString(w.s), y);
    case JArray(items) => ArrayReads(items, x, w.items, y, depth);
    case JObject(entries) => ClippedReads(entries, x, w.entries, y, depth);
  }

  lemma {:induction false} ArrayReads(vs: seq<Json>, x: Units, ws: seq<Json>, y: Units, depth: nat)
    requires WellFormed(JArray(vs)) && WellFormed(JArray(ws)) && Within(JArray(vs), depth)
    requires Stringify(JArray(vs), depth) + x == Stringify(JArray(ws), depth) + y
    ensures Same(JArray(vs), JArray(ws)) && x == y
    decreases Left(depth), 0, 1
  {
    ArrayParts(vs, ws, depth);
    hide *;
    ArrayText(vs, depth, x);
    ArrayText(ws, depth, y);
    NothingBefore([CLOSE_BRACKET] + x);
    var kept, marker := KeptItems(ws), MoreItems(ws);
    Strip([OPEN_BRACKET], Join(Texts(vs, depth + 1), COMMA) + ([CLOSE_BRACKET] + x),
          [OPEN_BRACKET], Join(Texts(kept, depth + 1), COMMA) + (marker + ([CLOSE_BRACKET] + y)));
    ItemsRead(vs, x, kept, marker, y, depth + 1);
    SameArrays(vs, ws);
  }

  lemma NothingBefore(x: Units)
    ensures [] + x == x
  {
  }

  lemma SameArrays(vs: seq<Json>, ws: seq<Json>)
    requires AllSame(vs, ws)
    ensures Same(JArray(vs), JArray(ws))
  {
  }

  lemma ArrayParts(vs: seq<Json>, ws: seq<Json>, depth: nat)
    requires WellFormed(JArray(vs)) && WellFormed(JArray(ws)) && Within(JArray(vs), depth)
    ensures depth <= MAX_DEPTH && AllFormed(vs) && AllWithin(vs, depth + 1)
    ensures KeptItems(vs) == vs && MoreItems(vs) == []
    ensures AllFormed(KeptItems(ws)) && (MoreItems(ws) == [] ==> KeptItems(ws) == ws)
    ensures MoreItems(ws) != [] ==> MoreItems(ws) == ARRAY_MARKER && |KeptItems(ws)| == MAX_ARRAY_LENGTH >= |vs|
  {
    hide Utf16;
    MarkersStart();
  }

  /** Where the text of an object is cut, no object within the limits has that text. */
  lemma {:induction false} ClippedReads(a: seq<Entry>, x: Units, b: seq<Entry>, y: Units, depth: nat)
    requires depth <= MAX_DEPTH && WellFormed(JObject(a)) && WellFormed(JObject(b)) && Within(JObject(a), depth)
    requires Clip(ObjectText(a, depth)) + x == Clip(ObjectText(b, depth)) + y
    ensures Same(JObject(a), JObject(b)) && x == y
    decreases Left(depth), 0, 1
  {
    var s, t := ObjectText(a, depth), ObjectText(b, depth);
    ObjectFits(a, depth);
    hide *;
    ClipMeans(s);
    ClipMeans(t);
    if |t| <= MAX_CHARS {
      ObjectReads(a, x, b, y, depth);
    } else {
      CutBeyond(s, x, t, y);
      ObjectReads(a, t[|s|..], b, [], depth);
    }
  }

  lemma ObjectFits(a: seq<Entry>, depth: nat)
    requires depth <= MAX_DEPTH && Within(JObject(a), depth)
    ensures |ObjectText(a, depth)| <= MAX_CHARS
  {
    hide ObjectText;
  }

  lemma ClipMeans(t: Units)
    ensures Clip(t) == if |t| <= MAX_CHARS then t else t[..MAX_CHARS]
  {
  }

  /** A short text that meets a cut one is a proper beginning of what was cut. */
  lemma CutBeyond(s: Units, x: Units, t: Units, y: Units)
    requires |s| <= MAX_CHARS < |t| && s + x == t[..MAX_CHARS] + y
    ensures s + t[|s|..] == t + [] && t[|s|..] != []
  {
    assert s == (s + x)[..|s|] == (t[..MAX_CHARS] + y)[..|s|] == t[..|s|];
  }

  lemma JoinUnfolds(part: Units, parts: seq<Units>)
    ensures Join([part] + parts, COMMA) == if parts == [] then part else part + ([COMMA] + Join(parts, COMMA))
  {
    assert ([part] + parts)[1..] == parts;
  }

  predicate AllFormed(vs: seq<Json>) {
    forall i :: 0 <= i < |vs| ==> WellFormed(vs[i])
  }

  predicate AllWithin(vs: seq<Json>, depth: nat) {
    forall i :: 0 <= i < |vs| ==> Within(vs[i], depth)
  }

  predicate AllSame(vs: seq<Json>, ws: seq<Json>) {
    |vs| == |ws| && forall i :: 0 <= i < |vs| ==> Same(vs[i], ws[i])
  }

  lemma TailFormed(vs: seq<Json>)
    requires vs != [] && AllFormed(vs)
    ensures WellFormed(vs[0]) && AllFormed(vs[1..])
  {
    hide WellFormed;
  }

  lemma TailWithin(vs: seq<Json>, depth: nat)
    requires vs != [] && AllWithin(vs, depth)
    ensures Within(vs[0], depth) && AllWithin(vs[1..], depth)
  {
    hide Within;
  }

  lemma SameCons(vs: seq<Json>, ws: seq<Json>)
    requires vs != [] && ws != [] && Same(vs[0], ws[0]) && AllSame(vs[1..], ws[1..])
    ensures AllSame(vs, ws)
  {
    hide Same;
    assert forall i :: 0 < i < |vs| ==> vs[i] == vs[1..][i - 1] && ws[i] == ws[1..][i - 1];
  }

  lemma SameNil()
    ensures AllSame([], [])
  {
  }

  lemma {:induction false} ItemsRead(vs: seq<Json>, x: Units, ws: seq<Json>, marker: Units, y: Units, depth: nat)
    requires AllFormed(vs) && AllWithin(vs, depth) && AllFormed(ws)
    requires marker == [] || (marker == ARRAY_MARKER && |vs| <= |ws| && ws != [])
    requires Join(Texts(vs, depth), COMMA) + ([CLOSE_BRACKET] + x) ==
      Join(Texts(ws, depth), COMMA) + (marker + ([CLOSE_BRACKET] + y))
    ensures AllSame(vs, ws) && marker == [] && x == y
    decreases Left(depth), 2, |vs|
  {
    hide *;
    SameNil();
    if vs == [] || ws == [] {
      Closes(marker, y);
      NoItems(vs, depth, [CLOSE_BRACKET] + x);
      NoItems(ws, depth, marker + ([CLOSE_BRACKET] + y));
      Strip([CLOSE_BRACKET], x, [CLOSE_BRACKET], y);
    } else {
      TailFormed(vs);
      TailFormed(ws);
      TailWithin(vs, depth);
      var p := AfterItem(vs, depth, [CLOSE_BRACKET] + x);
      var q := AfterItem(ws, depth, marker + ([CLOSE_BRACKET] + y));
      EndsWithMarker([], x);
      EndsWithMarker(marker, y);
      ValueReads(vs[0], p, ws[0], q, depth);
      var rv := Join(Texts(vs[1..], depth), COMMA) + ([CLOSE_BRACKET] + x);
      var rw := Join(Texts(ws[1..], depth), COMMA) + (marker + ([CLOSE_BRACKET] + y));
      if |vs| == 1 || |ws| == 1 {
        EndTogether(p, |vs| == 1, rv, x, |ws| == 1, rw, marker, y);
        assert vs[1..] == [] && ws[1..] == [];
      } else {
        Strip([COMMA], rv, [COMMA], rw);
        ItemsRead(vs[1..], x, ws[1..], marker, y, depth);
      }
      SameCons(vs, ws);
    }
  }

  lemma EndsWithMarker(marker: Units, y: Units)
    requires marker == [] || marker == ARRAY_MARKER
    ensures Ends(marker + ([CLOSE_BRACKET] + y)) && [] + ([CLOSE_BRACKET] + y) == [CLOSE_BRACKET] + y
  {
    hide Utf16;
    Closes(marker, y);
  }

  /** What follows an item: when it is the same, both lists end or both go on. */
  lemma EndTogether(p: Units, lastV: bool, rv: Units, x: Units, lastW: bool, rw: Units, marker: Units, y: Units)
    requires p == if lastV then [CLOSE_BRACKET] + x else [COMMA] + rv
    requires p == if lastW then marker + ([CLOSE_BRACKET] + y) else [COMMA] + rw
    requires (lastV || lastW) && (marker == [] || (marker == ARRAY_MARKER && (lastW ==> lastV)))
    ensures lastV && lastW && marker == [] && x == y
  {
    hide Utf16;
    Closes(marker, y);
    assert lastV ==> p[0] == CLOSE_BRACKET;
    assert lastW ==> p[0] == if marker == [] then CLOSE_BRACKET else COMMA;
    Strip([CLOSE_BRACKET], p[1..], [CLOSE_BRACKET], p[1..]);
    assert p == [p[0]] + p[1..];
  }

  lemma Closes(marker: Units, y: Units)
    requires marker == [] || marker == ARRAY_MARKER
    ensures var s := marker + ([CLOSE_BRACKET] + y); s[0] == if marker == [] then CLOSE_BRACKET else COMMA
    ensures marker == [] ==> marker + ([CLOSE_BRACKET] + y) == [CLOSE_BRACKET] + y
  {
    hide Utf16;
    MarkersStart();
    assert marker != [] ==> (marker + ([CLOSE_BRACKET] + y))[0] == marker[0];
  }

  /** An empty list goes straight to what follows it, another one does not close. */
  lemma NoItems(vs: seq<Json>, depth: nat, rest: Units)
    requires AllFormed(vs)
    ensures var s := Join(Texts(vs, depth), COMMA) + rest;
      if vs == [] then s == rest else s != [] && s[0] != CLOSE_BRACKET
  {
    hide Stringify, WellFormed;
    if vs == [] {
      assert Join([], COMMA) == [];
    } else {
      FirstUnit(vs[0], depth);
      JoinUnfolds(Stringify(vs[0], depth), Texts(vs[1..], depth));
      var s := Join(Texts(vs, depth), COMMA);
      assert s[0] == Stringify(vs[0], depth)[0];
      assert (s + rest)[0] == s[0];
    }
  }

  /** What follows the first item of a list. */
  lemma AfterItem(vs: seq<Json>, depth: nat, rest: Units) returns (p: Units)
    requires vs != []
    ensures Join(Texts(vs, depth), COMMA) + rest == Stringify(vs[0], depth) + p && (Ends(rest) ==> Ends(p))
    ensures p == if |vs| == 1 then rest else [COMMA] + (Join(Texts(vs[1..], depth), COMMA) + rest)
  {
    hide Stringify, Join;
    var first, others := Stringify(vs[0], depth), Texts(vs[1..], depth);
    assert Texts(vs, depth) == [first] + others && (others == [] <==> |vs| == 1);
    JoinUnfolds(first, others);
    if |vs| == 1 {
      p := rest;
    } else {
      p := [COMMA] + (Join(others, COMMA) + rest);
      assert first + ([COMMA] + Join(others, COMMA)) + rest == first + p;
    }
  }

  lemma {:induction false} ObjectReads(a: seq<Entry>, x: Units, b: seq<Entry>, y: Units, depth: nat)
    requires depth <= MAX_DEPTH && WellFormed(JObject(a)) && WellFormed(JObject(b)) && Within(JObject(a), depth)
    requires ObjectText(a, depth) + x == ObjectText(b, depth) + y
    ensures Same(JObject(a), JObject(b)) && x == y
    decreases Left(depth), 0, 0
  {
    hide Stringify, Join, SortKeys, Lookup, Members, WellFormed, Within, Same, ObjectText;
    ObjectParts(a, depth);
    ObjectParts(b, depth);
    LookupsWithin(a, depth);
    var ks, ls := Kept(a), Kept(b);
    var p, q := Join(Members(ks, a, depth + 1) + More(a), COMMA), Join(Members(ls, b, depth + 1) + More(b), COMMA);
    assert Members(ks, a, depth + 1) + [] == Members(ks, a, depth + 1);
    assert ([OPEN_BRACE] + p + [CLOSE_BRACE]) + x == [OPEN_BRACE] + (p + ([CLOSE_BRACE] + x));
    assert ([OPEN_BRACE] + q + [CLOSE_BRACE]) + y == [OPEN_BRACE] + (q + ([CLOSE_BRACE] + y));
    Strip([OPEN_BRACE], p + ([CLOSE_BRACE] + x), [OPEN_BRACE], q + ([CLOSE_BRACE] + y));
    MembersRead(ks, a, x, ls, b, More(b), y, depth + 1);
    SameFromLookups(a, b);
  }

  /** The keys of an object that are written, and what stands for the others. */
  function Kept(a: seq<Entry>): seq<Units> {
    var keys := SortKeys(KeysOf(a));
    if |keys| > MAX_OBJECT_KEYS then keys[..MAX_OBJECT_KEYS] else keys
  }

  function More(a: seq<Entry>): seq<Units> {
    if |SortKeys(KeysOf(a))| > MAX_OBJECT_KEYS then [OBJECT_MARKER] else []
  }

  lemma {:induction false} InsertLength(k: Units, keys: seq<Units>)
    ensures |InsertKey(k, keys)| == |keys| + 1
    decreases |keys|
  {
    if keys != [] { InsertLength(k, keys[1..]); }
  }

  lemma {:induction false} SortLength(keys: seq<Units>)
    ensures |SortKeys(keys)| == |keys|
    decreases |keys|
  {
    if keys != [] {
      SortLength(keys[1..]);
      InsertLength(keys[0], SortKeys(keys[1..]));
    }
  }

  lemma ObjectParts(a: seq<Entry>, depth: nat)
    requires depth <= MAX_DEPTH && WellFormed(JObject(a))
    ensures ObjectText(a, depth) == [OPEN_BRACE] + Join(Members(Kept(a), a, depth + 1) + More(a), COMMA) + [CLOSE_BRACE]
    ensures DistinctKeys(a) && |Kept(a)| <= MAX_OBJECT_KEYS
    ensures More(a) == [] ==> forall k :: k in Kept(a) <==> k in KeysOf(a)
    ensures More(a) != [] ==> More(a) == [OBJECT_MARKER] && |Kept(a)| == MAX_OBJECT_KEYS
    ensures forall k :: k in Kept(a) ==> WellFormed(Lookup(a, k))
  {
    hide Stringify, Join, SortKeys, Lookup, Members;
    EntriesSorted(a);
    LookupWellFormed(a);
    forall k | k in Kept(a) ensures k in KeysOf(a) { assert k in SortKeys(KeysOf(a)); }
  }

  lemma LookupsWithin(a: seq<Entry>, depth: nat)
    requires depth <= MAX_DEPTH && WellFormed(JObject(a)) && Within(JObject(a), depth)
    ensures More(a) == [] && forall k :: k in KeysOf(a) ==> Within(Lookup(a, k), depth + 1)
  {
    hide Stringify, Join, SortKeys, Lookup, Members;
    SortLength(KeysOf(a));
    forall k | k in KeysOf(a) ensures Within(Lookup(a, k), depth + 1) {
      var i :| 0 <= i < |a| && KeysOf(a)[i] == k;
      LookupFinds(a, i);
    }
  }

  lemma SameFromLookups(a: seq<Entry>, b: seq<Entry>)
    requires DistinctKeys(a) && DistinctKeys(b) && (forall k :: k in KeysOf(a) <==> k in KeysOf(b))
    requires forall k :: k in KeysOf(a) ==> Same(Lookup(a, k), Lookup(b, k))
    ensures Same(JObject(a), JObject(b))
  {
    forall i | 0 <= i < |a| ensures a[i].key in KeysOf(a) { HasKey(a, i); }
    hide Lookup, KeysOf;
    forall i | 0 <= i < |a| ensures Matched(a[i], b) { PairFromLookups(a, b, i); }
    forall j | 0 <= j < |b| ensures b[j].key in KeysOf(a) { HasKey(b, j); }
  }

  lemma HasKey(b: seq<Entry>, j: nat)
    requires j < |b|
    ensures b[j].key in KeysOf(b)
  {
    assert KeysOf(b)[j] == b[j].key;
  }

  lemma PairFromLookups(a: seq<Entry>, b: seq<Entry>, i: nat)
    requires i < |a| && DistinctKeys(a) && DistinctKeys(b) && a[i].key in KeysOf(b)
    requires a[i].key in KeysOf(a) ==> Same(Lookup(a, a[i].key), Lookup(b, a[i].key))
    ensures Matched(a[i], b)
  {
    hide Lookup, Same;
    HasKey(a, i);
    var j :| 0 <= j < |b| && KeysOf(b)[j] == a[i].key;
    LookupFinds(a, i);
    LookupFinds(b, j);
  }

  lemma {:induction false} MembersRead(ks: seq<Units>, a: seq<Entry>, x: Units,
                                      ls: seq<Units>, b: seq<Entry>, more: seq<Units>, y: Units, depth: nat)
    requires forall k :: k in ks ==> WellFormed(Lookup(a, k)) && Within(Lookup(a, k), depth)
    requires forall k :: k in ls ==> WellFormed(Lookup(b, k))
    requires more == [] || (more == [OBJECT_MARKER] && |ks| <= |ls|)
    requires Join(Members(ks, a, depth) + [], COMMA) + ([CLOSE_BRACE] + x) ==
      Join(Members(ls, b, depth) + more, COMMA) + ([CLOSE_BRACE] + y)
    ensures ks == ls && more == [] && x == y && forall k :: k in ks ==> Same(Lookup(a, k), Lookup(b, k))
    decreases Left(depth), 2, |ks|
  {
    hide Stringify, Same, WellFormed, Within, Join, Lookup, Quote, Members;
    if ks == [] || ls == [] {
      NoMembers(ks, a, depth, [], x);
      NoMembers(ls, b, depth, more, y);
      Strip([CLOSE_BRACE], x, [CLOSE_BRACE], y);
    } else {
      var p := AfterMember(ks, a, depth, [], x);
      var q := AfterMember(ls, b, depth, more, y);
      var v, w := Lookup(a, ks[0]), Lookup(b, ls[0]);
      assert ks[0] in ks && ls[0] in ls;
      QuoteReads(ks[0], [COLON] + (Stringify(v, depth) + p), ls[0], [COLON] + (Stringify(w, depth) + q));
      Strip([COLON], Stringify(v, depth) + p, [COLON], Stringify(w, depth) + q);
      ValueReads(v, p, w, q, depth);
      if |ks| == 1 || (|ls| == 1 && more == []) {
        Strip([CLOSE_BRACE], x, [CLOSE_BRACE], y);
      } else {
        Strip([COMMA], Join(Members(ks[1..], a, depth) + [], COMMA) + ([CLOSE_BRACE] + x),
              [COMMA], Join(Members(ls[1..], b, depth) + more, COMMA) + ([CLOSE_BRACE] + y));
        MembersRead(ks[1..], a, x, ls[1..], b, more, y, depth);
      }
      assert ks == [ks[0]] + ks[1..] && ls == [ls[0]] + ls[1..];
    }
  }

  lemma NoMembers(ks: seq<Units>, a: seq<Entry>, depth: nat, more: seq<Units>, x: Units)
    requires more == [] || more == [OBJECT_MARKER]
    ensures var s := Join(Members(ks, a, depth) + more, COMMA) + ([CLOSE_BRACE] + x);
      if ks == [] && more == [] then s == [CLOSE_BRACE] + x else s[0] == QUOTE
  {
    hide Stringify, Quote, Utf16, Join;
    MarkersStart();
    if ks == [] {
      assert Members(ks, a, depth) + more == more;
      if more == [] {
        NothingJoined();
        NothingBefore([CLOSE_BRACE] + x);
      } else {
        assert [OBJECT_MARKER] + [] == more;
        StartsJoined(OBJECT_MARKER, [], [CLOSE_BRACE] + x);
      }
    } else {
      var key, value := Quote(ks[0]), Stringify(Lookup(a, ks[0]), depth);
      var first, others := key + [COLON] + value, Members(ks[1..], a, depth) + more;
      assert Members(ks, a, depth) + more == [first] + others;
      assert key[0] == QUOTE by { QuoteStarts(ks[0]); }
      assert first[0] == key[0];
      StartsJoined(first, others, [CLOSE_BRACE] + x);
    }
  }

  lemma NothingJoined()
    ensures Join<Unit>([], COMMA) == []
  {
  }

  lemma StartsJoined(first: Units, others: seq<Units>, x: Units)
    requires first != []
    ensures var s := Join([first] + others, COMMA) + x; s != [] && s[0] == first[0]
  {
    hide Join;
    JoinUnfolds(first, others);
    assert (Join([first] + others, COMMA) + x)[0] == Join([first] + others, COMMA)[0];
  }

  lemma AfterMember(ks: seq<Units>, a: seq<Entry>, depth: nat, more: seq<Units>, x: Units) returns (p: Units)
    requires ks != []
    ensures Join(Members(ks, a, depth) + more, COMMA) + ([CLOSE_BRACE] + x)
      == Quote(ks[0]) + ([COLON] + (Stringify(Lookup(a, ks[0]), depth) + p)) && Ends(p)
    ensures p == if |ks| == 1 && more == [] then [CLOSE_BRACE] + x
      else [COMMA] + (Join(Members(ks[1..], a, depth) + more, COMMA) + ([CLOSE_BRACE] + x))
  {
    hide Stringify, Join, Quote;
    var k, v, others := Quote(ks[0]), Stringify(Lookup(a, ks[0]), depth), Members(ks[1..], a, depth) + more;
    var first := k + [COLON] + v;
    assert Members(ks, a, depth) + more == [first] + others && (others == [] <==> |ks| == 1 && more == []);
    JoinUnfolds(first, others);
    if others == [] {
      p := [CLOSE_BRACE] + x;
      RegroupMember(k, v, p);
    } else {
      p := [COMMA] + (Join(others, COMMA) + ([CLOSE_BRACE] + x));
      RegroupMember(k, v, [COMMA] + Join(others, COMMA));
      RegroupMember(k, v, p);
      RegroupRest(first, Join(others, COMMA), [CLOSE_BRACE] + x);
    }
  }

  lemma RegroupMember(k: Units, v: Units, p: Units)
    ensures (k + [COLON] + v) + p == k + ([COLON] + (v + p))
  {
  }

  lemma RegroupRest(first: Units, others: Units, x: Units)
    ensures (first + ([COMMA] + others)) + x == first + ([COMMA] + (others + x))
  {
  }

  /** A payload within the limits has the same text as another payload, of whatever size,
      exactly when the two are equal up to the order of their keys. */
  lemma TextIdentifiesPayload(v: Json, w: Json)
    requires WellFormed(v) && WellFormed(w) && Within(v, 0)
    ensures Stringify(v, 0) == Stringify(w, 0) <==> Same(v, w)
  {
    hide *;
    if Same(v, w) {
      KeyOrderIgnored(v, w, 0);
    } else if Stringify(v, 0) == Stringify(w, 0) {
      assert Stringify(v, 0) + [] == Stringify(w, 0) + [];
      assert Ends([]) by { EndsEmpty(); }
      ValueReads(v, [], w, [], 0);
    }
  }

  /** Beyond the limits it does not identify them: strings that agree on their first 1024
      units collide, whatever follows. */
  lemma LongStringsCollide(a: Units, b: Units)
    requires |a| > MAX_STRING_LENGTH && |b| > MAX_STRING_LENGTH
    ensures Stringify(JString(a), 0) == Stringify(JString(b), 0) <==> a[..MAX_STRING_LENGTH] == b[..MAX_STRING_LENGTH]
  {
    var p, q := ClampString(a), ClampString(b);
    if Quote(p) == Quote(q) {
      assert Quote(p) + [] == Quote(q) + [];
      QuoteReads(p, [], q, []);
      assert p[..MAX_STRING_LENGTH] == a[..MAX_STRING_LENGTH] && q[..MAX_STRING_LENGTH] == b[..MAX_STRING_LENGTH];
    }
  }
}
