/** The canonical text of a JSON payload, from which the idempotency request hash is
    computed: independent of key order, and within its limits injective. */
module StableStringify {
  import opened Text

  // ----- Strings -----

  /** JavaScript strings are sequences of UTF-16 code units: these are what `length` counts,
      what `slice` cuts between and what `sort` compares. A surrogate may stand alone. */
  type Unit = n: int | 0 <= n < 0x1_0000
  type Units = seq<Unit>

  predicate High(u: Unit) {
    0xD800 <= u < 0xDC00
  }

  predicate Low(u: Unit) {
    0xDC00 <= u < 0xE000
  }

  /** One character in UTF-16. */
  function Encoded(c: char): Units {
    var n := c as int;
    if n < 0x1_0000 then [n] else [0xD800 + (n - 0x1_0000) / 0x400, 0xDC00 + (n - 0x1_0000) % 0x400]
  }

  function Utf16(s: string): Units {
    if s == "" then [] else Encoded(s[0]) + Utf16(s[1..])
  }

  const QUOTE: Unit := '"' as int
  const BACKSLASH: Unit := '\\' as int
  const COMMA: Unit := ',' as int
  const COLON: Unit := ':' as int
  const OPEN_BRACKET: Unit := '[' as int
  const CLOSE_BRACKET: Unit := ']' as int
  const OPEN_BRACE: Unit := '{' as int
  const CLOSE_BRACE: Unit := '}' as int
  const MINUS: Unit := '-' as int
  const ELLIPSIS: Unit := 0x2026

  function HexDigit(n: nat): Unit
    requires n < 16
  {
    if n < 10 then '0' as int + n else 'a' as int + (n - 10)
  }

  function Hex(u: Unit): Units {
    [HexDigit(u / 0x1000), HexDigit(u / 0x100 % 16), HexDigit(u / 16 % 16), HexDigit(u % 16)]
  }

  /** One unit as JSON.stringify writes it when it is not half of a pair. */
  function Escape(u: Unit): Units {
    if u == QUOTE || u == BACKSLASH then [BACKSLASH, u]
    else if u == 8 then [BACKSLASH, 'b' as int]
    else if u == 9 then [BACKSLASH, 't' as int]
    else if u == 10 then [BACKSLASH, 'n' as int]
    else if u == 12 then [BACKSLASH, 'f' as int]
    else if u == 13 then [BACKSLASH, 'r' as int]
    else if u < 32 || High(u) || Low(u) then [BACKSLASH, 'u' as int] + Hex(u)
    else [u]
  }

  /** How many units the first character takes. */
  function HeadLength(s: Units): nat
    requires s != []
  {
    if |s| >= 2 && High(s[0]) && Low(s[1]) then 2 else 1
  }

  /** The first character as JSON.stringify writes it: a pair stays as it is, a lone
      surrogate is escaped. */
  function EscapeHead(s: Units): Units
    requires s != []
  {
    if HeadLength(s) == 2 then s[..2] else Escape(s[0])
  }

  function EscapeAll(s: Units): Units {
    if s == [] then [] else EscapeHead(s) + EscapeAll(s[HeadLength(s)..])
  }

  function Quote(s: Units): Units {
    [QUOTE] + EscapeAll(s) + [QUOTE]
  }

  // ----- Values -----

  /** A parsed JSON value. A number is its canonical rendering; an object keeps the order
      in which its keys were written. */
  datatype Json =
    | JNull
    | JBool(b: bool)
    | JNumber(text: Units)
    | JString(s: Units)
    | JArray(items: seq<Json>)
    | JObject(entries: seq<Entry>)

  datatype Entry = Entry(key: Units, value: Json)

  const MAX_DEPTH := 5
  const MAX_ARRAY_LENGTH := 100
  const MAX_OBJECT_KEYS := 100
  const MAX_STRING_LENGTH := 1024
  const MAX_CHARS := 32768

  const DEPTH_MARKER := Quote(Utf16("__idempotency_depth_exceeded__"))
  const ARRAY_MARKER := Utf16(",\"__idempotency_truncated_array__\"")
  const OBJECT_MARKER := Quote(Utf16("__idempotency_truncated_object__")) + [COLON] + Utf16("true")

  function ClampString(s: Units): Units {
    if |s| <= MAX_STRING_LENGTH then s else s[..MAX_STRING_LENGTH] + [ELLIPSIS]
  }

  // ----- Keys -----

  predicate KeyLess(a: Units, b: Units) {
    if a == [] then b != []
    else b != [] && (a[0] < b[0] || (a[0] == b[0] && KeyLess(a[1..], b[1..])))
  }

  function InsertKey(k: Units, keys: seq<Units>): seq<Units> {
    if keys == [] then [k]
    else if KeyLess(keys[0], k) then [keys[0]] + InsertKey(k, keys[1..])
    else [k] + keys
  }

  function SortKeys(keys: seq<Units>): seq<Units> {
    if keys == [] then [] else InsertKey(keys[0], SortKeys(keys[1..]))
  }

  function KeysOf(entries: seq<Entry>): seq<Units> {
    seq(|entries|, i requires 0 <= i < |entries| => entries[i].key)
  }

  function Lookup(entries: seq<Entry>, key: Units): Json {
    if entries == [] then JNull
    else if entries[0].key == key then entries[0].value
    else Lookup(entries[1..], key)
  }

  // ----- The text -----

  function Left(depth: nat): nat {
    if depth <= MAX_DEPTH then MAX_DEPTH + 1 - depth else 0
  }

  function Stringify(v: Json, depth: nat): Units
    decreases Left(depth), 1
  {
    if depth > MAX_DEPTH then DEPTH_MARKER
    else
      match v
      case JNull => Utf16("null")
      case JBool(b) => if b then Utf16("true") else Utf16("false")
      case JNumber(text) => text
      case JString(s) => Quote(ClampString(s))
      case JArray(items) =>
        var kept := if |items| > MAX_ARRAY_LENGTH then items[..MAX_ARRAY_LENGTH] else items;
        [OPEN_BRACKET] + Join(Texts(kept, depth + 1), COMMA)
          + (if |items| > MAX_ARRAY_LENGTH then ARRAY_MARKER else []) + [CLOSE_BRACKET]
      case JObject(entries) => Clip(ObjectText(entries, depth))
  }

  function Texts(items: seq<Json>, depth: nat): seq<Units>
    decreases Left(depth), 2, |items|
  {
    if items == [] then [] else [Stringify(items[0], depth)] + Texts(items[1..], depth)
  }

  function Members(keys: seq<Units>, entries: seq<Entry>, depth: nat): seq<Units>
    decreases Left(depth), 2, |keys|
  {
    if keys == [] then []
    else [Quote(keys[0]) + [COLON] + Stringify(Lookup(entries, keys[0]), depth)] + Members(keys[1..], entries, depth)
  }

  function ObjectText(entries: seq<Entry>, depth: nat): Units
    requires depth <= MAX_DEPTH
    decreases Left(depth), 0
  {
    var keys := SortKeys(KeysOf(entries));
    var kept := if |keys| > MAX_OBJECT_KEYS then keys[..MAX_OBJECT_KEYS] else keys;
    var more := if |keys| > MAX_OBJECT_KEYS then [OBJECT_MARKER] else [];
    [OPEN_BRACE] + Join(Members(kept, entries, depth + 1) + more, COMMA) + [CLOSE_BRACE]
  }

  function Clip(out: Units): Units {
    if |out| <= MAX_CHARS then out else out[..MAX_CHARS]
  }

  /** The stringifier as it runs: recursive, one part pushed per item or key. */
  method StableStringifyValue(value: Json, depth: nat) returns (out: Units)
    ensures out == Stringify(value, depth)
    decreases Left(depth), 1
  {
    hide Join, SortKeys, KeysOf, Quote, ClampString, Utf16;
    if depth > MAX_DEPTH { return DEPTH_MARKER; }
    match value
    case JNull => return Utf16("null");
    case JString(s) => return Quote(ClampString(s));
    case JNumber(text) => return text;
    case JBool(b) => return if b then Utf16("true") else Utf16("false");
    case JArray(items) =>
      var truncated := |items| > MAX_ARRAY_LENGTH;
      var slice := if truncated then items[..MAX_ARRAY_LENGTH] else items;
      var inner := StringifyItems(slice, depth + 1);
      var marker := if truncated then ARRAY_MARKER else [];
      return [OPEN_BRACKET] + Join(inner, COMMA) + marker + [CLOSE_BRACKET];
    case JObject(entries) =>
      var keys := SortKeys(KeysOf(entries));
      var truncated := |keys| > MAX_OBJECT_KEYS;
      var limitedKeys := if truncated then keys[..MAX_OBJECT_KEYS] else keys;
      var parts := StringifyMembers(limitedKeys, entries, depth + 1);
      var more := if truncated then [OBJECT_MARKER] else [];
      parts := parts + more;
      out := [OPEN_BRACE] + Join(parts, COMMA) + [CLOSE_BRACE];
      return if |out| <= MAX_CHARS then out else out[..MAX_CHARS];
  }

  method StringifyItems(items: seq<Json>, depth: nat) returns (parts: seq<Units>)
    ensures parts == Texts(items, depth)
    decreases Left(depth), 2
  {
    hide Stringify;
    parts := [];
    for i := 0 to |items|
      invariant parts + Texts(items[i..], depth) == Texts(items, depth)
    {
      var part := StableStringifyValue(items[i], depth);
      assert items[i..][1..] == items[i + 1..];
      assert parts + ([part] + Texts(items[i + 1..], depth)) == (parts + [part]) + Texts(items[i + 1..], depth);
      parts := parts + [part];
    }
  }

  method StringifyMembers(keys: seq<Units>, entries: seq<Entry>, depth: nat) returns (parts: seq<Units>)
    ensures parts == Members(keys, entries, depth)
    decreases Left(depth), 2
  {
    hide Stringify, Quote, Lookup;
    parts := [];
    for i := 0 to |keys|
      invariant parts + Members(keys[i..], entries, depth) == Members(keys, entries, depth)
    {
      var text := StableStringifyValue(Lookup(entries, keys[i]), depth);
      var part := Quote(keys[i]) + [COLON] + text;
      assert keys[i..][1..] == keys[i + 1..];
      assert parts + ([part] + Members(keys[i + 1..], entries, depth)) ==
        (parts + [part]) + Members(keys[i + 1..], entries, depth);
      parts := parts + [part];
    }
  }

  // ----- Equal up to key order -----

  predicate Digit(u: Unit) {
    '0' as int <= u <= '9' as int
  }

  predicate NumberUnit(u: Unit) {
    Digit(u) || u == '+' as int || u == MINUS || u == '.' as int || u == 'e' as int || u == 'E' as int
  }

  predicate NumberUnits(t: Units) {
    forall i :: 0 <= i < |t| ==> NumberUnit(t[i])
  }

  predicate NumberText(t: Units) {
    t != [] && (Digit(t[0]) || t[0] == MINUS) && NumberUnits(t)
  }

  predicate DistinctKeys(entries: seq<Entry>) {
    forall i, j :: 0 <= i < j < |entries| ==> entries[i].key != entries[j].key
  }

  /** What JSON.parse can return. */
  predicate WellFormed(v: Json) {
    match v
    case JNumber(text) => NumberText(text)
    case JArray(items) => forall i :: 0 <= i < |items| ==> WellFormed(items[i])
    case JObject(entries) => DistinctKeys(entries) && forall i :: 0 <= i < |entries| ==> WellFormed(entries[i].value)
    case _ => true
  }

  /** Equal up to the order of the keys, at every level. */
  predicate Same(v: Json, w: Json)
    decreases v
  {
    match v
    case JArray(items) =>
      w.JArray? && |items| == |w.items| && forall i :: 0 <= i < |items| ==> Same(items[i], w.items[i])
    case JObject(entries) =>
      && w.JObject?
      && (forall i :: 0 <= i < |entries| ==> Matched(entries[i], w.entries))
      && (forall j :: 0 <= j < |w.entries| ==> w.entries[j].key in KeysOf(entries))
    case _ => v == w
  }

  predicate Matched(entry: Entry, others: seq<Entry>)
    decreases entry
  {
    exists j :: 0 <= j < |others| && entry.key == others[j].key && Same(entry.value, others[j].value)
  }

  /** Nothing is cut: not too deep, not too long. */
  predicate Within(v: Json, depth: nat)
    decreases v
  {
    depth <= MAX_DEPTH &&
    match v
    case JString(s) => |s| <= MAX_STRING_LENGTH
    case JArray(items) => |items| <= MAX_ARRAY_LENGTH && forall i :: 0 <= i < |items| ==> Within(items[i], depth + 1)
    case JObject(entries) =>
      && |entries| <= MAX_OBJECT_KEYS && |ObjectText(entries, depth)| <= MAX_CHARS
      && forall i :: 0 <= i < |entries| ==> Within(entries[i].value, depth + 1)
    case _ => true
  }
}
