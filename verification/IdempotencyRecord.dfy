/** The records kept under an idempotency key, and how a stored text is read back. */
module IdempotencyRecord {
  import opened Wrappers
  import opened JsonValue
  import opened Text

  type Headers = map<string, string>

  datatype StoredRecord =
    | InProgress(requestHash: string, startedAt: real)
    | Completed(requestHash: string, status: int, hasBody: bool, body: Option<Value>, headers: Headers,
      completedAt: real)

  function Trunc(x: real): int {
    if x >= 0.0 then x.Floor else -((-x).Floor)
  }

  function Get(fields: map<string, Value>, key: string): Option<Value> {
    if key in fields then Some(fields[key]) else None
  }

  function NonEmpty(v: Option<Value>): Option<string> {
    if v.Some? && v.value.Str? then AsNonEmptyString(v.value.s) else None
  }

  function Finite(v: Option<Value>): Option<real> {
    if v.Some? && v.value.Num? then Some(v.value.n) else None
  }

  function Flag(v: Option<Value>): Option<bool> {
    if v.Some? && v.value.Bool? then Some(v.value.b) else None
  }

  function Decimal(n: nat): string {
    (if n < 10 then "" else Decimal(n / 10)) + ["0123456789"[n % 10]]
  }

  /** The name under which assigning a string to a property does nothing. */
  const PROTO := "__proto__"

  /** Object.entries of an array: its items under their indices. */
  function ReadItems(items: seq<Value>): Headers {
    if items == [] then map[]
    else
      var n := |items| - 1;
      var s := NonEmpty(Some(items[n]));
      if s.Some? then ReadItems(items[..n])[Decimal(n) := s.value] else ReadItems(items[..n])
  }

  function ReadHeaders(raw: Option<Value>): Headers {
    if raw.None? then map[]
    else
      match raw.value
      case Obj(fields) =>
        map k | k in fields && k != PROTO && NonEmpty(Some(fields[k])).Some? :: NonEmpty(Some(fields[k])).value
      case Arr(items) => ReadItems(items)
      case _ => map[]
  }

  const V := "v"
  const STATE := "state"
  const REQUEST_HASH := "requestHash"
  const STARTED_AT := "startedAt"
  const STATUS := "status"
  const HAS_BODY := "hasBody"
  const BODY := "body"
  const HEADERS := "headers"
  const COMPLETED_AT := "completedAt"
  const IN_PROGRESS := "in_progress"
  const COMPLETED := "completed"

  /** What a stored text means; nothing when it is not a record of version 1. */
  function ParseRecord(parsed: Option<Value>): Option<StoredRecord> {
    if parsed.None? || !parsed.value.Obj? then None
    else
      var fields := parsed.value.fields;
      var state, hash := NonEmpty(Get(fields, STATE)), NonEmpty(Get(fields, REQUEST_HASH));
      if Get(fields, V) != Some(Num(1.0)) || state.None? || hash.None? then None
      else if state.value == IN_PROGRESS then
        var startedAt := Finite(Get(fields, STARTED_AT));
        if startedAt.None? then None else Some(InProgress(hash.value, startedAt.value))
      else if state.value != COMPLETED then None
      else
        var status, hasBody := Finite(Get(fields, STATUS)), Flag(Get(fields, HAS_BODY));
        var completedAt := Finite(Get(fields, COMPLETED_AT));
        if status.None? || hasBody.None? || completedAt.None? then None
        else
          Some(Completed(hash.value, Trunc(status.value), hasBody.value,
                         if hasBody.value then Get(fields, BODY) else None,
                         ReadHeaders(Get(fields, HEADERS)), completedAt.value))
  }

  // ----- Which stored texts read as which record -----

  /** The field holds a text that is this word between spaces. */
  predicate HasWord(fields: map<string, Value>, key: string, word: string) {
    key in fields && fields[key].Str? && word != "" && Trim(fields[key].s) == word
  }

  /** Whole, and between zero and the number. */
  predicate Truncates(x: real, n: int) {
    if x >= 0.0 then n as real <= x < n as real + 1.0 else n as real - 1.0 < x <= n as real
  }

  predicate HeadersReadAs(fields: map<string, Value>, headers: Headers) {
    if HEADERS in fields && fields[HEADERS].Obj? then
      var stored := fields[HEADERS].fields;
      && (forall k :: k in headers ==> k in stored && k != PROTO && HasWord(stored, k, headers[k]))
      && (forall k :: k in stored && k != PROTO && stored[k].Str? && Trim(stored[k].s) != "" ==> k in headers)
    else if HEADERS in fields && fields[HEADERS].Arr? then headers == ReadItems(fields[HEADERS].items)
    else headers == map[]
  }

  /** A stored text of version 1 reads as a record when every field it needs is there. */
  predicate ReadsAs(raw: Option<Value>, r: StoredRecord) {
    raw.Some? && raw.value.Obj? &&
    var fields := raw.value.fields;
    && V in fields && fields[V] == Num(1.0) && HasWord(fields, REQUEST_HASH, r.requestHash)
    && match r
       case InProgress(_, startedAt) =>
         HasWord(fields, STATE, IN_PROGRESS) && STARTED_AT in fields && fields[STARTED_AT] == Num(startedAt)
       case Completed(_, status, hasBody, body, headers, completedAt) =>
         && HasWord(fields, STATE, COMPLETED)
         && STATUS in fields && fields[STATUS].Num? && Truncates(fields[STATUS].n, status)
         && HAS_BODY in fields && fields[HAS_BODY] == Bool(hasBody)
         && body == (if hasBody && BODY in fields then Some(fields[BODY]) else None)
         && HeadersReadAs(fields, headers)
         && COMPLETED_AT in fields && fields[COMPLETED_AT] == Num(completedAt)
  }

  lemma NonEmptyMeans(fields: map<string, Value>, key: string, word: string)
    ensures NonEmpty(Get(fields, key)) == Some(word) <==> HasWord(fields, key, word)
  {
    hide Trim;
  }

  lemma TruncMeans(x: real, n: int)
    ensures Trunc(x) == n <==> Truncates(x, n)
  {
  }

  lemma HeadersMean(fields: map<string, Value>, headers: Headers)
    ensures ReadHeaders(Get(fields, HEADERS)) == headers <==> HeadersReadAs(fields, headers)
  {
    hide Trim, ReadItems;
    if HEADERS in fields && fields[HEADERS].Obj? {
      var stored := fields[HEADERS].fields;
      assert forall k :: k in stored ==>
        (NonEmpty(Some(stored[k])).Some? <==> stored[k].Str? && Trim(stored[k].s) != "");
      var read := ReadHeaders(Get(fields, HEADERS));
      if HeadersReadAs(fields, headers) {
        assert read.Keys == headers.Keys;
        assert read == headers;
      }
    }
  }

  /** A stored text reads as a record exactly when it has the fields of that record. */
  lemma ParseMeans(raw: Option<Value>, r: StoredRecord)
    ensures ParseRecord(raw) == Some(r) <==> ReadsAs(raw, r)
  {
    if raw.Some? && raw.value.Obj? {
      var fields := raw.value.fields;
      var state, hash := NonEmpty(Get(fields, STATE)), NonEmpty(Get(fields, REQUEST_HASH));
      NonEmptyMeans(fields, REQUEST_HASH, r.requestHash);
      NonEmptyMeans(fields, STATE, IN_PROGRESS);
      NonEmptyMeans(fields, STATE, COMPLETED);
      assert |IN_PROGRESS| != |COMPLETED|;
      if r.Completed? {
        HeadersMean(fields, r.headers);
        if STATUS in fields && fields[STATUS].Num? { TruncMeans(fields[STATUS].n, r.status); }
      }
      hide NonEmpty, HasWord, Trunc, Truncates, HeadersReadAs, ReadHeaders;
    }
  }

  /** The reader as it runs, filling the headers one entry at a time. */
  method ParseStoredRecord(parsed: Option<Value>) returns (record: Option<StoredRecord>)
    ensures record == ParseRecord(parsed)
    ensures forall r :: record == Some(r) <==> ReadsAs(parsed, r)
  {
    forall r ensures ParseRecord(parsed) == Some(r) <==> ReadsAs(parsed, r) { ParseMeans(parsed, r); }
    hide NonEmpty, Finite, Flag, Trunc, ReadsAs;
    if parsed.None? || !parsed.value.Obj? { return None; }
    var fields := parsed.value.fields;
    if Get(fields, V) != Some(Num(1.0)) { return None; }
    var state, requestHash := NonEmpty(Get(fields, STATE)), NonEmpty(Get(fields, REQUEST_HASH));
    if state.None? || requestHash.None? { return None; }
    if state.value == IN_PROGRESS {
      var startedAt := Finite(Get(fields, STARTED_AT));
      if startedAt.None? { return None; }
      return Some(InProgress(requestHash.value, startedAt.value));
    }
    if state.value != COMPLETED { return None; }
    var status, hasBody := Finite(Get(fields, STATUS)), Flag(Get(fields, HAS_BODY));
    var completedAt := Finite(Get(fields, COMPLETED_AT));
    if status.None? || hasBody.None? || completedAt.None? { return None; }
    var headers := FilterHeaders(Get(fields, HEADERS));
    var body := if hasBody.value then Get(fields, BODY) else None;
    record := Some(Completed(requestHash.value, Trunc(status.value), hasBody.value, body, headers, completedAt.value));
  }

  method FilterHeaders(raw: Option<Value>) returns (headers: Headers)
    ensures headers == ReadHeaders(raw)
  {
    hide NonEmpty;
    headers := map[];
    if raw.None? { return; }
    if raw.value.Arr? {
      var items := raw.value.items;
      for i := 0 to |items|
        invariant headers == ReadItems(items[..i])
      {
        assert items[..i + 1][..i] == items[..i];
        var s := NonEmpty(Some(items[i]));
        if s.Some? { headers := headers[Decimal(i) := s.value]; }
      }
      assert items[..|items|] == items;
      return;
    }
    if !raw.value.Obj? { return; }
    var entries := raw.value.fields;
    var todo := entries.Keys;
    while todo != {}
      invariant todo <= entries.Keys
      invariant headers == map k | k in ReadHeaders(raw) && k !in todo :: ReadHeaders(raw)[k]
      decreases todo
    {
      var k :| k in todo;
      var s := NonEmpty(Some(entries[k]));
      if s.Some? && k != PROTO { headers := headers[k := s.value]; }
      todo := todo - {k};
    }
  }

  function CreateInProgressRecord(requestHash: string, startedAt: real): StoredRecord {
    InProgress(requestHash, startedAt)
  }

  function CreateCompletedRecord(requestHash: string, status: real, body: Option<Value>, headers: Headers,
      completedAt: real): StoredRecord {
    var hasBody := body.Some? && status != 204.0;
    Completed(requestHash, Trunc(status), hasBody, if hasBody then body else None, headers, completedAt)
  }

  /** JSON.stringify, up to the text: an undefined field is not written. */
  function Serialize(r: StoredRecord): Value {
    match r
    case InProgress(hash, startedAt) =>
      Obj(map[V := Num(1.0), STATE := Str(IN_PROGRESS), REQUEST_HASH := Str(hash), STARTED_AT := Num(startedAt)])
    case Completed(hash, status, hasBody, body, headers, completedAt) =>
      var base := map[V := Num(1.0), STATE := Str(COMPLETED), REQUEST_HASH := Str(hash), STATUS := Num(status as real),
                      HAS_BODY := Bool(hasBody), COMPLETED_AT := Num(completedAt)];
      var withBody := if body.Some? then base[BODY := body.value] else base;
      Obj(if headers == map[] then withBody else withBody[HEADERS := HeaderObject(headers)])
  }

  function HeaderObject(headers: Headers): Value {
    Obj(map k | k in headers :: Str(headers[k]))
  }

  predicate Readable(headers: Headers) {
    PROTO !in headers && forall k :: k in headers ==> Word(headers[k])
  }

  /** A record with nothing to lose in storage: no blank or untrimmed text, no header named
      __proto__, no unused body. */
  predicate Canonical(r: StoredRecord) {
    Word(r.requestHash) && (r.Completed? ==> Readable(r.headers) && (!r.hasBody ==> r.body.None?))
  }

  lemma KeysDiffer()
    ensures var keys := [V, STATE, REQUEST_HASH, STARTED_AT, STATUS, HAS_BODY, BODY, HEADERS, COMPLETED_AT];
      forall i, j :: 0 <= i < j < |keys| ==> keys[i] != keys[j]
    ensures IN_PROGRESS != COMPLETED && Word(IN_PROGRESS) && Word(COMPLETED)
  {
    assert |V| == 1 && |STATE| == 5 && |REQUEST_HASH| == 11 && |STARTED_AT| == 9 && |STATUS| == 6;
    assert |HAS_BODY| == 7 && |BODY| == 4 && |HEADERS| == 7 && |COMPLETED_AT| == 11;
    assert HAS_BODY[1] == 'a' && HEADERS[1] == 'e' && REQUEST_HASH[0] == 'r' && COMPLETED_AT[0] == 'c';
    assert |IN_PROGRESS| == 11 && |COMPLETED| == 9;
  }

  lemma HeadersRead(headers: Headers)
    ensures ReadHeaders(Some(HeaderObject(headers))) == headers <==> Readable(headers)
  {
    hide AsNonEmptyString, Word;
    forall k | k in headers
      ensures AsNonEmptyString(headers[k]) == Some(headers[k]) <==> Word(headers[k])
    {
      Accepted(headers[k]);
    }
    var read := ReadHeaders(Some(HeaderObject(headers)));
    if read == headers {
      forall k | k in headers ensures Word(headers[k]) { assert k in read && read[k] == headers[k]; }
    }
    if Readable(headers) {
      assert read.Keys == headers.Keys;
      assert read == headers;
    }
  }

  /** A stored record reads back as itself exactly when it is canonical. */
  lemma RecordRoundTrip(r: StoredRecord)
    ensures ParseRecord(Some(Serialize(r))) == Some(r) <==> Canonical(r)
  {
    hide *;
    if r.InProgress? { InProgressRoundTrip(r); } else { CompletedRoundTrip(r); }
  }

  lemma InProgressRoundTrip(r: StoredRecord)
    requires r.InProgress?
    ensures ParseRecord(Some(Serialize(r))) == Some(r) <==> Canonical(r)
  {
    hide AsNonEmptyString, Word, ReadHeaders, HeaderObject, Trunc;
    KeysDiffer();
    Accepted(r.requestHash);
    Accepted(IN_PROGRESS);
  }

  /** What is stored under each key of a completed record. */
  lemma CompletedFields(r: StoredRecord)
    requires r.Completed?
    ensures Serialize(r).Obj?
    ensures var fields := Serialize(r).fields;
      && Get(fields, V) == Some(Num(1.0)) && Get(fields, STATE) == Some(Str(COMPLETED))
      && Get(fields, REQUEST_HASH) == Some(Str(r.requestHash)) && Get(fields, STATUS) == Some(Num(r.status as real))
      && Get(fields, HAS_BODY) == Some(Bool(r.hasBody)) && Get(fields, COMPLETED_AT) == Some(Num(r.completedAt))
      && Get(fields, BODY) == r.body
      && Get(fields, HEADERS) == if r.headers == map[] then None else Some(HeaderObject(r.headers))
  {
    hide Word, HeaderObject;
    KeysDiffer();
  }

  lemma CompletedRoundTrip(r: StoredRecord)
    requires r.Completed?
    ensures ParseRecord(Some(Serialize(r))) == Some(r) <==> Canonical(r)
  {
    hide AsNonEmptyString, Word, ReadHeaders, HeaderObject, Serialize;
    KeysDiffer();
    CompletedFields(r);
    Accepted(r.requestHash);
    Accepted(COMPLETED);
    HeadersRead(r.headers);
    NoHeaders();
    assert Trunc(r.status as real) == r.status;
  }

  lemma NoHeaders()
    ensures ReadHeaders(None) == map[]
  {
  }

  /** Whatever is read is canonical, so reading and storing again changes nothing. */
  lemma ReadIsCanonical(raw: Option<Value>)
    requires ParseRecord(raw).Some?
    ensures var r := ParseRecord(raw).value; Canonical(r) && ParseRecord(Some(Serialize(r))) == Some(r)
  {
    var r := ParseRecord(raw).value;
    assert Canonical(r) by { hide Serialize; ReadWords(raw); }
    hide *;
    RecordRoundTrip(r);
  }

  lemma DecimalEnds(n: nat)
    ensures Decimal(n) != PROTO
  {
    var d := Decimal(n);
    assert d[|d| - 1] == "0123456789"[n % 10];
    assert PROTO[|PROTO| - 1] == '_';
  }

  lemma {:induction false} ItemsAreWords(items: seq<Value>)
    ensures Readable(ReadItems(items))
    decreases |items|
  {
    hide AsNonEmptyString, Word, Decimal;
    if items != [] {
      DecimalEnds(|items| - 1);
      ItemsAreWords(items[..|items| - 1]);
      if items[|items| - 1].Str? { Accepted(items[|items| - 1].s); }
    }
  }

  lemma ReadWords(raw: Option<Value>)
    requires ParseRecord(raw).Some?
    ensures Canonical(ParseRecord(raw).value)
  {
    hide AsNonEmptyString, Word, Trunc, Decimal;
    var stored := Get(raw.value.fields, HEADERS);
    if stored.Some? && stored.value.Arr? { ItemsAreWords(stored.value.items); }
    forall s: string ensures AsNonEmptyString(s).Some? ==> Word(AsNonEmptyString(s).value) { Accepted(s); }
  }
}
