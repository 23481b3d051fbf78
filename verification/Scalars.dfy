/** Scalar values of list queries: what each field type accepts, and in which form. */
module Scalars {
  import opened Wrappers
  import T = Text
  import J = JsonValue
  import opened CursorAfter

  datatype FieldType = StringType | UuidType | DatetimeType | NumberType | BooleanType

  /** The parts of the runtime that are not modelled: the date-time pattern, Date followed
      by toISOString (nothing for an invalid date), and Number (nothing unless finite). */
  datatype Env = Env(isoShape: string -> bool, dateOf: string -> Option<string>, numberOf: string -> Option<real>)

  predicate Hex(c: char) {
    '0' <= c <= '9' || 'a' <= c <= 'f' || 'A' <= c <= 'F'
  }

  predicate UuidShape(s: string) {
    && |s| == 36
    && (forall i :: 0 <= i < 36 ==> if i in {8, 13, 18, 23} then s[i] == '-' else Hex(s[i]))
    && '1' <= s[14] <= '5'
    && s[19] in "89abAB"
  }

  function ParseBoolean(v: J.Value): Option<bool> {
    match v
    case Bool(b) => Some(b)
    case Str(s) =>
      var normalized := T.Lower(T.Trim(s));
      if normalized == "true" || normalized == "1" then Some(true)
      else if normalized == "false" || normalized == "0" then Some(false)
      else None
    case _ => None
  }

  function ParseNumber(env: Env, v: J.Value): Option<real> {
    match v
    case Num(n) => Some(n)
    case Str(s) => if T.Trim(s) == "" then None else env.numberOf(T.Trim(s))
    case _ => None
  }

  function ParseDateIso(env: Env, v: J.Value): Option<string> {
    if !v.Str? then None
    else
      var normalized := T.Trim(v.s);
      if normalized == "" || !env.isoShape(normalized) then None else env.dateOf(normalized)
  }

  function ParseUuid(v: J.Value): Option<string> {
    if v.Str? && UuidShape(T.Trim(v.s)) then Some(T.Trim(v.s)) else None
  }

  function ParseString(v: J.Value): Option<string> {
    if v.Str? then T.AsNonEmptyString(v.s) else None
  }

  function TextOf(s: Option<string>): Option<Scalar> {
    if s.Some? then Some(Text(s.value)) else None
  }

  function ParseScalar(env: Env, t: FieldType, v: J.Value): Option<Scalar> {
    match t
    case StringType => TextOf(ParseString(v))
    case UuidType => TextOf(ParseUuid(v))
    case DatetimeType => TextOf(ParseDateIso(env, v))
    case NumberType => if ParseNumber(env, v).Some? then Some(Number(ParseNumber(env, v).value)) else None
    case BooleanType => if ParseBoolean(v).Some? then Some(Flag(ParseBoolean(v).value)) else None
  }

  /** A raw value stands for this scalar. Texts are trimmed, and none is blank. */
  predicate Denotes(env: Env, t: FieldType, v: J.Value, s: Scalar) {
    var word := if v.Str? then T.Trim(v.s) else "";
    match t
    case StringType => word != "" && s == Text(word)
    case UuidType => UuidShape(word) && s == Text(word)
    case DatetimeType =>
      word != "" && env.isoShape(word) && env.dateOf(word).Some? && s == Text(env.dateOf(word).value)
    case NumberType =>
      || (v.Num? && s == Number(v.n))
      || (word != "" && env.numberOf(word).Some? && s == Number(env.numberOf(word).value))
    case BooleanType =>
      || (v.Bool? && s == Flag(v.b))
      || (T.Lower(word) in {"true", "1"} && s == Flag(true))
      || (T.Lower(word) in {"false", "0"} && s == Flag(false))
  }

  lemma ParseScalarMeans(env: Env, t: FieldType, v: J.Value, s: Scalar)
    ensures ParseScalar(env, t, v) == Some(s) <==> Denotes(env, t, v, s)
  {
    hide T.Trim, UuidShape;
    assert !UuidShape("") by { NoUuid(); }
    assert T.Lower("") == "";
    assert "true" != "false" && "true" != "0" && "1" != "false" && "1" != "0";
  }

  lemma NoUuid()
    ensures !UuidShape("")
  {
  }

  /** A scalar as JSON.stringify writes it into a cursor. */
  function ToJson(s: Scalar): J.Value {
    match s
    case Text(t) => J.Str(t)
    case Number(n) => J.Num(n)
    case Flag(b) => J.Bool(b)
  }

  /** The scalars of a type that are written and read back unchanged. */
  predicate Canonical(env: Env, t: FieldType, s: Scalar) {
    match t
    case StringType => s.Text? && T.Word(s.s)
    case UuidType => s.Text? && UuidShape(s.s)
    case DatetimeType => s.Text? && T.Word(s.s) && env.isoShape(s.s) && env.dateOf(s.s) == Some(s.s)
    case NumberType => s.Number?
    case BooleanType => s.Flag?
  }

  lemma UuidTrimmed(s: string)
    requires UuidShape(s)
    ensures T.Word(s)
  {
    hide T.Trim;
    assert s[0] != '-' && Hex(s[0]) && Hex(s[35]);
  }

  lemma UuidReads(s: string)
    ensures ParseUuid(J.Str(s)) == Some(s) <==> UuidShape(s)
  {
    hide T.Trim, UuidShape;
    T.TrimFixes(s);
    if UuidShape(s) { UuidTrimmed(s); }
  }

  lemma DateReads(env: Env, s: string)
    requires T.Word(s)
    ensures ParseDateIso(env, J.Str(s)) == if env.isoShape(s) then env.dateOf(s) else None
  {
    hide T.Trim, T.Space;
    T.TrimFixes(s);
  }

  /** Canonical scalars round-trip through a cursor. */
  lemma CanonicalReads(env: Env, t: FieldType, s: Scalar)
    requires Canonical(env, t, s)
    ensures ParseScalar(env, t, ToJson(s)) == Some(s)
  {
    hide T.Trim, T.Word, T.AsNonEmptyString, UuidShape, ParseUuid, ParseDateIso;
    match t
    case StringType => T.Accepted(s.s);
    case UuidType => UuidReads(s.s);
    case DatetimeType => DateReads(env, s.s);
    case NumberType =>
    case BooleanType =>
  }
}
