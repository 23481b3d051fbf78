/** Trimming, joining and splitting strings, as String.prototype does it. */
module Text {
  import opened Wrappers

  predicate Space(c: char) {
    var n := c as int;
    9 <= n <= 13 || n == 0x20 || n == 0xA0 || n == 0x1680 || 0x2000 <= n <= 0x200A
    || n == 0x2028 || n == 0x2029 || n == 0x202F || n == 0x205F || n == 0x3000 || n == 0xFEFF
  }

  function TrimStart(s: string): string {
    if s != "" && Space(s[0]) then TrimStart(s[1..]) else s
  }

  function TrimEnd(s: string): string {
    if s != "" && Space(s[|s| - 1]) then TrimEnd(s[..|s| - 1]) else s
  }

  function Trim(s: string): string {
    TrimEnd(TrimStart(s))
  }

  /** Nothing to trim. */
  predicate Trimmed(s: string) {
    s == "" || (!Space(s[0]) && !Space(s[|s| - 1]))
  }

  predicate Word(s: string) {
    s != "" && Trimmed(s)
  }

  function AsNonEmptyString(s: string): Option<string> {
    var trimmed := Trim(s);
    if trimmed != "" then Some(trimmed) else None
  }

  lemma {:induction false} StartTrimmed(s: string)
    ensures var t := TrimStart(s); |t| <= |s| && (t == "" || !Space(t[0])) && (|t| == |s| ==> t == s)
    decreases |s|
  {
    if s != "" && Space(s[0]) { StartTrimmed(s[1..]); }
  }

  lemma {:induction false} EndTrimmed(s: string)
    ensures var t := TrimEnd(s); t <= s && (t == "" || !Space(t[|t| - 1])) && (|t| == |s| ==> t == s)
    decreases |s|
  {
    if s != "" && Space(s[|s| - 1]) { EndTrimmed(s[..|s| - 1]); }
  }

  /** What comes out has nothing to trim, and what has nothing to trim comes out as it is. */
  lemma TrimFixes(s: string)
    ensures Trimmed(Trim(s))
    ensures Trimmed(s) <==> Trim(s) == s
  {
    hide TrimStart, TrimEnd, Space;
    var t := TrimStart(s);
    StartTrimmed(s);
    EndTrimmed(t);
    assert Trim(s) != "" ==> Trim(s)[0] == t[0];
    if Trimmed(s) { TrimSkips(s); }
  }

  lemma TrimSkips(s: string)
    requires Trimmed(s)
    ensures Trim(s) == s
  {
    hide Space;
  }

  lemma Accepted(s: string)
    ensures AsNonEmptyString(s) == Some(s) <==> Word(s)
    ensures AsNonEmptyString(s).Some? ==> Word(AsNonEmptyString(s).value)
  {
    hide Trim, Space;
    TrimFixes(s);
  }

  // ----- Comma-separated lists -----

  function Join<T>(parts: seq<seq<T>>, separator: T): seq<T> {
    if parts == [] then []
    else if |parts| == 1 then parts[0]
    else parts[0] + [separator] + Join(parts[1..], separator)
  }

  function Split(s: string): (parts: seq<string>)
    ensures parts != []
  {
    if s == "" then [""]
    else
      var rest := Split(s[1..]);
      if s[0] == ',' then [""] + rest else [[s[0]] + rest[0]] + rest[1..]
  }

  predicate NoComma(s: string) {
    ',' !in s
  }

  lemma {:induction false} SplitPart(part: string, rest: string)
    requires NoComma(part)
    ensures Split(part) == [part]
    ensures Split(part + "," + rest) == [part] + Split(rest)
    decreases |part|
  {
    if part == "" {
      assert ("," + rest)[1..] == rest;
      assert part + "," + rest == "," + rest;
    } else {
      SplitPart(part[1..], rest);
      assert part == [part[0]] + part[1..];
      assert (part + "," + rest)[1..] == part[1..] + "," + rest;
    }
  }

  /** Splitting undoes joining, when no part holds a comma. */
  lemma {:induction false} SplitUndoesJoin(parts: seq<string>)
    requires parts != [] && forall i :: 0 <= i < |parts| ==> NoComma(parts[i])
    ensures Split(Join(parts, ',')) == parts
    decreases |parts|
  {
    hide Split, NoComma;
    SplitPart(parts[0], "");
    if |parts| == 1 {
      assert parts == [parts[0]];
    } else {
      SplitUndoesJoin(parts[1..]);
      SplitPart(parts[0], Join(parts[1..], ','));
      assert parts == [parts[0]] + parts[1..];
    }
  }

  /** The parts, trimmed, without the blank ones. */
  function NonBlank(parts: seq<string>): seq<string> {
    if parts == [] then []
    else (if Trim(parts[0]) != "" then [Trim(parts[0])] else []) + NonBlank(parts[1..])
  }

  lemma {:induction false} NonBlankKeeps(parts: seq<string>)
    requires forall i :: 0 <= i < |parts| ==> parts[i] != "" && Trim(parts[i]) == parts[i]
    ensures NonBlank(parts) == parts
    decreases |parts|
  {
    hide Trim;
    if parts != [] {
      NonBlankKeeps(parts[1..]);
      assert parts == [parts[0]] + parts[1..];
    }
  }

  /** The ASCII part of toLowerCase. */
  function Lower(s: string): string {
    seq(|s|, i requires 0 <= i < |s| => if 'A' <= s[i] <= 'Z' then ((s[i] as int) + 32) as char else s[i])
  }
}
