/** The limits of the canonical text are exactly where it stops to identify payloads. */
module StringifyLimits {
  import opened StableStringify
  import opened StringifyTheorems
  import opened Text

  /** Two different payloads that are written as the same text. */
  predicate Collide(v: Json, w: Json, depth: nat) {
    WellFormed(w) && !Same(v, w) && Stringify(v, depth) == Stringify(w, depth)
  }

  // ----- Too deep, and strings and arrays too long -----

  lemma DeepCollides(v: Json, depth: nat) returns (w: Json)
    requires depth > MAX_DEPTH
    ensures Collide(v, w, depth)
  {
    hide Stringify;
    w := if v.JNull? then JBool(true) else JNull;
    DeepTexts(v, w, depth);
  }

  lemma LongStringCollides(s: Units, depth: nat) returns (w: Json)
    requires |s| > MAX_STRING_LENGTH
    ensures Collide(JString(s), w, depth)
  {
    var t: Units := s + [0];
    assert t[..MAX_STRING_LENGTH] == s[..MAX_STRING_LENGTH];
    assert ClampString(t) == ClampString(s);
    hide Quote, ClampString, Utf16;
    w := JString(t);
  }

  lemma LongArrayCollides(items: seq<Json>, depth: nat) returns (w: Json)
    requires WellFormed(JArray(items)) && |items| > MAX_ARRAY_LENGTH
    ensures Collide(JArray(items), w, depth)
  {
    hide *;
    w := JArray(items + [JNull]);
    OneMoreItem(items);
    SameKeptItems(items, items + [JNull], depth);
    Colliding(JArray(items), w, depth);
  }

  lemma OneMoreItem(items: seq<Json>)
    requires WellFormed(JArray(items)) && |items| > MAX_ARRAY_LENGTH
    ensures var more := items + [JNull];
      && WellFormed(JArray(more)) && !Same(JArray(items), JArray(more))
      && KeptItems(more) == KeptItems(items) && MoreItems(more) == MoreItems(items)
  {
    hide Utf16;
    assert (items + [JNull])[..MAX_ARRAY_LENGTH] == items[..MAX_ARRAY_LENGTH];
  }

  lemma Colliding(v: Json, w: Json, depth: nat)
    requires WellFormed(w) && !Same(v, w) && Stringify(v, depth) == Stringify(w, depth)
    ensures Collide(v, w, depth)
  {
    hide WellFormed, Same, Stringify;
  }

  lemma SameKeptItems(vs: seq<Json>, ws: seq<Json>, depth: nat)
    requires MoreItems(vs) == MoreItems(ws)
    requires depth <= MAX_DEPTH ==> Texts(KeptItems(vs), depth + 1) == Texts(KeptItems(ws), depth + 1)
    ensures Stringify(JArray(vs), depth) == Stringify(JArray(ws), depth)
  {
    hide Texts, Join, Utf16, Quote;
  }

  // ----- Objects with too many keys or too long a text -----

  lemma {:induction false} LessThanExtended(a: Units)
    ensures KeyLess(a, a + [0])
    decreases |a|
  {
    if a != [] {
      LessThanExtended(a[1..]);
      assert (a + [0])[1..] == a[1..] + [0];
    }
  }

  lemma LastIsGreatest(keys: seq<Units>, k: Units)
    requires Sorted(keys) && keys != [] && k == keys[|keys| - 1] + [0]
    ensures Sorted(keys + [k]) && k !in keys
  {
    hide KeyLess;
    var last := keys[|keys| - 1];
    LessThanExtended(last);
    forall i | 0 <= i < |keys| ensures KeyLess(keys[i], k) && keys[i] != k {
      if i < |keys| - 1 { KeyLessTransitive(keys[i], last, k); }
      KeyLessIrreflexive(k);
    }
  }

  lemma LookupAppended(a: seq<Entry>, e: Entry, k: Units)
    requires DistinctKeys(a + [e]) && k in KeysOf(a)
    ensures Lookup(a + [e], k) == Lookup(a, k)
  {
    var i :| 0 <= i < |a| && KeysOf(a)[i] == k;
    assert forall j :: 0 <= j < |a| ==> (a + [e])[j] == a[j];
    LookupFinds(a, i);
    LookupFinds(a + [e], i);
  }

  /** A key after all those of an object. */
  lemma NewKey(a: seq<Entry>) returns (k: Units)
    requires DistinctKeys(a) && a != []
    ensures k !in KeysOf(a) && SortKeys(KeysOf(a) + [k]) == SortKeys(KeysOf(a)) + [k]
  {
    hide SortKeys, KeyLess;
    EntriesSorted(a);
    var keys := SortKeys(KeysOf(a));
    HasKey(a, 0);
    k := keys[|keys| - 1] + [0];
    hide KeysOf;
    LastIsGreatest(keys, k);
    KeysAppend(a, k);
    SortedUnique(SortKeys(KeysOf(a) + [k]), keys + [k]);
  }

  lemma KeysAppend(a: seq<Entry>, k: Units)
    requires DistinctKeys(a) && k !in KeysOf(a)
    ensures var keys := KeysOf(a) + [k];
      Sorted(SortKeys(keys)) && forall x :: x in SortKeys(keys) <==> x in KeysOf(a) || x == k
  {
    hide SortKeys, Sorted;
    assert forall i :: 0 <= i < |a| ==> KeysOf(a)[i] in KeysOf(a);
    SortKeysSorts(KeysOf(a) + [k]);
  }

  lemma {:induction false} MembersAgree(keys: seq<Units>, a: seq<Entry>, b: seq<Entry>, depth: nat)
    requires forall k :: k in keys ==> Stringify(Lookup(a, k), depth) == Stringify(Lookup(b, k), depth)
    ensures Members(keys, a, depth) == Members(keys, b, depth)
    decreases |keys|
  {
    hide Stringify, Lookup, Quote;
    if keys != [] {
      assert keys[0] in keys;
      MembersAgree(keys[1..], a, b, depth);
    }
  }

  lemma {:induction false} MembersAppend(keys: seq<Units>, k: Units, a: seq<Entry>, depth: nat)
    ensures Members(keys + [k], a, depth) == Members(keys, a, depth) + Members([k], a, depth)
    decreases |keys|
  {
    hide Stringify, Lookup, Quote;
    if keys == [] {
      assert keys + [k] == [k];
    } else {
      assert (keys + [k])[1..] == keys[1..] + [k];
      MembersAppend(keys[1..], k, a, depth);
    }
  }

  /** What an object with one more key, after all the others, has beyond the same members. */
  lemma OneMoreMember(a: seq<Entry>, k: Units, depth: nat) returns (b: seq<Entry>)
    requires WellFormed(JObject(a)) && k !in KeysOf(a) && SortKeys(KeysOf(a) + [k]) == SortKeys(KeysOf(a)) + [k]
    ensures b == a + [Entry(k, JNull)] && WellFormed(JObject(b)) && !Same(JObject(a), JObject(b))
    ensures SortKeys(KeysOf(b)) == SortKeys(KeysOf(a)) + [k]
    ensures forall keys :: Among(keys, a) ==> Members(keys, b, depth) == Members(keys, a, depth)
  {
    hide SortKeys, Members, Lookup, Stringify;
    b := a + [Entry(k, JNull)];
    assert KeysOf(b) == KeysOf(a) + [k];
    NotSameWithMore(a, b, k);
    forall keys | Among(keys, a) ensures Members(keys, b, depth) == Members(keys, a, depth) {
      forall x | x in keys ensures Stringify(Lookup(a, x), depth) == Stringify(Lookup(b, x), depth) {
        LookupAppended(a, Entry(k, JNull), x);
      }
      MembersAgree(keys, a, b, depth);
    }
  }

  predicate Among(keys: seq<Units>, a: seq<Entry>) {
    forall x :: x in keys ==> x in KeysOf(a)
  }

  lemma NotSameWithMore(a: seq<Entry>, b: seq<Entry>, k: Units)
    requires WellFormed(JObject(a)) && k !in KeysOf(a) && b == a + [Entry(k, JNull)]
    ensures WellFormed(JObject(b)) && !Same(JObject(a), JObject(b))
  {
    assert forall i :: 0 <= i < |a| ==> KeysOf(a)[i] == a[i].key;
    assert b[|a|].key == k;
  }

  lemma {:induction false} JoinAppend(parts: seq<Units>, part: Units)
    requires parts != []
    ensures Join(parts + [part], COMMA) == Join(parts, COMMA) + ([COMMA] + part)
    decreases |parts|
  {
    assert parts + [part] == [parts[0]] + (parts[1..] + [part]);
    assert parts == [parts[0]] + parts[1..];
    if |parts| > 1 {
      JoinAppend(parts[1..], part);
      hide Join;
      JoinUnfolds(parts[0], parts[1..]);
      JoinUnfolds(parts[0], parts[1..] + [part]);
    }
  }

  /** One more part after the cut does not show. */
  lemma CutsAlike(parts: seq<Units>, part: Units)
    requires parts != [] && |[OPEN_BRACE] + Join(parts, COMMA) + [CLOSE_BRACE]| > MAX_CHARS
    ensures Clip([OPEN_BRACE] + Join(parts, COMMA) + [CLOSE_BRACE])
      == Clip([OPEN_BRACE] + Join(parts + [part], COMMA) + [CLOSE_BRACE])
  {
    JoinAppend(parts, part);
    hide *;
    var joined := Join(parts, COMMA);
    var shared := [OPEN_BRACE] + joined;
    RegroupLast(joined, part);
    CutWithin(shared, [CLOSE_BRACE]);
    CutWithin(shared, [COMMA] + part + [CLOSE_BRACE]);
  }

  lemma RegroupLast(joined: Units, part: Units)
    ensures [OPEN_BRACE] + (joined + ([COMMA] + part)) + [CLOSE_BRACE]
      == ([OPEN_BRACE] + joined) + ([COMMA] + part + [CLOSE_BRACE])
  {
  }

  lemma CutWithin(shared: Units, rest: Units)
    requires |shared| >= MAX_CHARS && rest != []
    ensures Clip(shared + rest) == shared[..MAX_CHARS]
  {
  }

  lemma LongObjectCollides(a: seq<Entry>, depth: nat) returns (w: Json)
    requires WellFormed(JObject(a)) && depth <= MAX_DEPTH
    requires |a| > MAX_OBJECT_KEYS || |ObjectText(a, depth)| > MAX_CHARS
    ensures Collide(JObject(a), w, depth)
  {
    hide *;
    assert a != [] && DistinctKeys(a) by { LongIsNotEmpty(a, depth); }
    var k := NewKey(a);
    var b := OneMoreMember(a, k, depth + 1);
    w := JObject(b);
    ObjectClipped(a, depth);
    ObjectClipped(b, depth);
    NewKeyNotSeen(a, b, k, depth);
    Colliding(JObject(a), w, depth);
  }

  lemma LongIsNotEmpty(a: seq<Entry>, depth: nat)
    requires WellFormed(JObject(a)) && depth <= MAX_DEPTH
    requires |a| > MAX_OBJECT_KEYS || |ObjectText(a, depth)| > MAX_CHARS
    ensures a != [] && DistinctKeys(a)
  {
    hide ObjectText;
    EmptyObjectText(depth);
  }

  lemma EmptyObjectText(depth: nat)
    requires depth <= MAX_DEPTH
    ensures |ObjectText([], depth)| == 2
  {
    hide Stringify, Quote, Utf16;
    assert KeysOf([]) == [];
  }

  lemma NewKeyNotSeen(a: seq<Entry>, b: seq<Entry>, k: Units, depth: nat)
    requires WellFormed(JObject(a)) && WellFormed(JObject(b)) && depth <= MAX_DEPTH && a != [] && |b| == |a| + 1
    requires |a| > MAX_OBJECT_KEYS || |ObjectText(a, depth)| > MAX_CHARS
    requires SortKeys(KeysOf(b)) == SortKeys(KeysOf(a)) + [k]
    requires forall keys :: Among(keys, a) ==> Members(keys, b, depth + 1) == Members(keys, a, depth + 1)
    ensures Clip(ObjectText(a, depth)) == Clip(ObjectText(b, depth))
  {
    hide *;
    var keys := SortKeys(KeysOf(a));
    SortedAmong(a);
    if |a| > MAX_OBJECT_KEYS {
      SameBeyondTheKeys(a, b, keys, k, depth);
    } else {
      OnlyBeyondTheCut(a, b, keys, k, depth);
    }
  }

  lemma SortedAmong(a: seq<Entry>)
    requires WellFormed(JObject(a))
    ensures |SortKeys(KeysOf(a))| == |a| && Among(SortKeys(KeysOf(a)), a) && Among(Kept(a), a)
  {
    hide SortKeys;
    SortLength(KeysOf(a));
    EntriesSorted(a);
  }

  lemma SameBeyondTheKeys(a: seq<Entry>, b: seq<Entry>, keys: seq<Units>, k: Units, depth: nat)
    requires depth <= MAX_DEPTH && keys == SortKeys(KeysOf(a)) && SortKeys(KeysOf(b)) == keys + [k]
    requires |keys| > MAX_OBJECT_KEYS && Members(Kept(a), b, depth + 1) == Members(Kept(a), a, depth + 1)
    ensures ObjectText(a, depth) == ObjectText(b, depth)
  {
    hide SortKeys, KeysOf, Members, Join, Quote, Utf16;
    assert (keys + [k])[..MAX_OBJECT_KEYS] == keys[..MAX_OBJECT_KEYS];
  }

  lemma OnlyBeyondTheCut(a: seq<Entry>, b: seq<Entry>, keys: seq<Units>, k: Units, depth: nat)
    requires depth <= MAX_DEPTH && |ObjectText(a, depth)| > MAX_CHARS && 0 < |keys| <= MAX_OBJECT_KEYS
    requires keys == SortKeys(KeysOf(a)) && SortKeys(KeysOf(b)) == keys + [k]
    requires Members(keys, b, depth + 1) == Members(keys, a, depth + 1)
    ensures Clip(ObjectText(a, depth)) == Clip(ObjectText(b, depth))
  {
    hide SortKeys, KeysOf, Members, Join, Clip, Quote, Utf16;
    var parts := Members(keys, a, depth + 1);
    assert parts + [] == parts;
    assert parts != [] by { SomeMember(keys, a, depth + 1); }
    if |keys| < MAX_OBJECT_KEYS {
      MembersAppend(keys, k, b, depth + 1);
      var last := OneMember(k, b, depth + 1);
      assert (parts + [last]) + [] == parts + [last];
      CutsAlike(parts, last);
    } else {
      assert (keys + [k])[..MAX_OBJECT_KEYS] == keys;
      CutsAlike(parts, OBJECT_MARKER);
    }
  }

  lemma SomeMember(keys: seq<Units>, a: seq<Entry>, depth: nat)
    requires keys != []
    ensures Members(keys, a, depth) != []
  {
    hide Stringify, Quote;
  }

  lemma OneMember(k: Units, a: seq<Entry>, depth: nat) returns (part: Units)
    ensures Members([k], a, depth) == [part]
  {
    hide Stringify, Quote;
    part := Members([k], a, depth)[0];
  }

  // ----- Something beyond the limits inside -----

  lemma {:induction false} TextsUpdate(items: seq<Json>, i: nat, w: Json, depth: nat)
    requires i < |items| && Stringify(items[i], depth) == Stringify(w, depth)
    ensures Texts(items[i := w], depth) == Texts(items, depth)
    decreases |items|
  {
    hide Stringify;
    if i > 0 {
      assert items[i := w][1..] == items[1..][i - 1 := w];
      TextsUpdate(items[1..], i - 1, w, depth);
    } else {
      assert items[i := w][1..] == items[1..];
    }
  }

  lemma ItemCollides(items: seq<Json>, i: nat, w: Json, depth: nat)
    requires WellFormed(JArray(items)) && |items| <= MAX_ARRAY_LENGTH && i < |items| && depth <= MAX_DEPTH
    requires Collide(items[i], w, depth + 1)
    ensures Collide(JArray(items), JArray(items[i := w]), depth)
  {
    hide Stringify, Texts;
    TextsUpdate(items, i, w, depth + 1);
    SameKeptItems(items, items[i := w], depth);
  }

  lemma MemberCollides(a: seq<Entry>, i: nat, w: Json, depth: nat)
    requires WellFormed(JObject(a)) && i < |a| && depth <= MAX_DEPTH
    requires Collide(a[i].value, w, depth + 1)
    ensures Collide(JObject(a), JObject(a[i := Entry(a[i].key, w)]), depth)
  {
    hide Stringify, SortKeys, Members, Lookup;
    var b := a[i := Entry(a[i].key, w)];
    assert KeysOf(b) == KeysOf(a);
    assert WellFormed(JObject(b));
    assert !Same(JObject(a), JObject(b)) by { NotSameMember(a, i, w); }
    forall k | k in KeysOf(a) ensures Stringify(Lookup(a, k), depth + 1) == Stringify(Lookup(b, k), depth + 1) {
      var j :| 0 <= j < |a| && KeysOf(a)[j] == k;
      LookupFinds(a, j);
      LookupFinds(b, j);
    }
    SameMemberTexts(a, b, depth);
    ObjectClipped(a, depth);
    ObjectClipped(b, depth);
  }

  lemma NotSameMember(a: seq<Entry>, i: nat, w: Json)
    requires WellFormed(JObject(a)) && i < |a| && !Same(a[i].value, w)
    ensures !Same(JObject(a), JObject(a[i := Entry(a[i].key, w)]))
  {
    var b := a[i := Entry(a[i].key, w)];
    assert !Matched(a[i], b);
  }

  lemma SameMemberTexts(a: seq<Entry>, b: seq<Entry>, depth: nat)
    requires WellFormed(JObject(a)) && depth <= MAX_DEPTH && KeysOf(a) == KeysOf(b)
    requires forall k :: k in KeysOf(a) ==> Stringify(Lookup(a, k), depth + 1) == Stringify(Lookup(b, k), depth + 1)
    ensures ObjectText(a, depth) == ObjectText(b, depth)
  {
    hide SortKeys, KeysOf, Members, Lookup, Join, Stringify, Quote, Utf16;
    EntriesSorted(a);
    MembersAgree(Kept(a), a, b, depth + 1);
  }

  /** Every payload beyond the limits, wherever in it they are passed, has the same text as a
      different payload. */
  lemma {:induction false} BeyondCollides(v: Json, depth: nat) returns (w: Json)
    requires WellFormed(v) && !Within(v, depth)
    ensures Collide(v, w, depth)
    decreases v
  {
    hide Collide, Stringify, ObjectText;
    if depth > MAX_DEPTH {
      w := DeepCollides(v, depth);
    } else if v.JString? {
      w := LongStringCollides(v.s, depth);
    } else if v.JArray? && |v.items| > MAX_ARRAY_LENGTH {
      w := LongArrayCollides(v.items, depth);
    } else if v.JArray? {
      var i :| 0 <= i < |v.items| && !Within(v.items[i], depth + 1);
      var u := BeyondCollides(v.items[i], depth + 1);
      ItemCollides(v.items, i, u, depth);
      w := JArray(v.items[i := u]);
    } else {
      if |v.entries| > MAX_OBJECT_KEYS || |ObjectText(v.entries, depth)| > MAX_CHARS {
        w := LongObjectCollides(v.entries, depth);
      } else {
        var i :| 0 <= i < |v.entries| && !Within(v.entries[i].value, depth + 1);
        var u := BeyondCollides(v.entries[i].value, depth + 1);
        MemberCollides(v.entries, i, u, depth);
        w := JObject(v.entries[i := Entry(v.entries[i].key, u)]);
      }
    }
  }

  /** The text of a payload identifies it, up to the order of keys, exactly when the payload
      is within the limits. */
  lemma IdentifiedExactlyWithin(v: Json)
    requires WellFormed(v)
    ensures Within(v, 0) <==> !exists w :: Collide(v, w, 0)
  {
    hide *;
    if Within(v, 0) {
      forall w ensures !Collide(v, w, 0) { WithinNoCollision(v, w); }
    } else {
      var w := BeyondCollides(v, 0);
    }
  }

  lemma WithinNoCollision(v: Json, w: Json)
    requires WellFormed(v) && Within(v, 0)
    ensures !Collide(v, w, 0)
  {
    hide Within, WellFormed, Same, Stringify;
    if WellFormed(w) { TextIdentifiesPayload(v, w); }
  }
}
