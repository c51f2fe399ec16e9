/**
 The gate in front of every model call (dataruns/ai/privacy_gate.py): project, scrub, re-scan, and pass
 the scrubbed context only if the scan finds nothing.
*/
module PrivacyGate {
  import opened Prelude
  import opened Text

  const MAX_MISMATCH_ROWS := 12
  const MAX_STRING_CHARS := 800
  const MAX_LIST_ITEMS := 50
  const MAX_DEPTH := 8
  const POLICY_VERSION := "privacy_gate.v1"

  const FORBIDDEN_VALUE_KEYS: set<string> := {
    "value", "raw", "sample", "email", "phone", "name", "address", "externalid", "contactid", "smclient",
    "authorization", "password", "token", "apikey", "api_key"
  }

  /** A Python value: Scalar is an int, float or bool; Other is any other object, with its str(). */
  datatype J =
    | Null
    | Scalar(truthy: bool, text: string)
    | Str(s: string)
    | List(items: seq<J>)
    | Dict(entries: seq<Entry>)
    | Other(truthy: bool, text: string)

  /** One key and its value; a dict keeps its insertion order. */
  datatype Entry = Entry(key: string, value: J)

  /** The regular expressions and repr(), taken as they are. */
  datatype Patterns = Patterns(
    scrub: string -> string, stillHasPii: string -> bool, looksSecret: string -> bool, repr: J -> string)

  // ---------- small helpers ----------

  function NormalKey(key: string): (r: string)
    ensures |r| == |key|
    ensures forall i :: 0 <= i < |key| ==> r[i] == if key[i] == '-' then '_' else LowerChar(key[i])
  {
    if key == "" then "" else [if key[0] == '-' then '_' else LowerChar(key[0])] + NormalKey(key[1..])
  }

  function CapStr(value: string, limit: nat): (r: string)
    requires limit >= 3
    ensures |r| <= limit
    ensures |Strip(value)| <= limit ==> r == Strip(value)
    ensures |Strip(value)| > limit ==> |r| == limit && r[..limit - 3] <= Strip(value) && r[limit - 3..] == "..."
  {
    var text := Strip(value);
    if |text| <= limit then text else text[..limit - 3] + "..."
  }

  predicate Truthy(j: J) {
    match j
    case Null => false
    case Scalar(truthy, _) => truthy
    case Str(s) => s != ""
    case List(items) => items != []
    case Dict(entries) => entries != []
    case Other(truthy, _) => truthy
  }

  function Or(a: J, b: J): J {
    if Truthy(a) then a else b
  }

  function HasKey(entries: seq<Entry>, key: string): bool {
    exists i :: 0 <= i < |entries| && entries[i].key == key
  }

  /** dict.get: Null when the key is missing. */
  function Get(entries: seq<Entry>, key: string): J {
    if entries == [] then Null
    else if entries[0].key == key then entries[0].value
    else Get(entries[1..], key)
  }

  lemma {:induction false} GetReadsFirst(entries: seq<Entry>, key: string, i: nat)
    requires i < |entries| && entries[i].key == key && forall j :: 0 <= j < i ==> entries[j].key != key
    ensures HasKey(entries, key) && Get(entries, key) == entries[i].value
  {
    if i == 0 {
    } else {
      assert forall j :: 0 <= j < i - 1 ==> entries[1..][j] == entries[j + 1];
      GetReadsFirst(entries[1..], key, i - 1);
    }
  }

  lemma {:induction false} GetOfMissingKey(entries: seq<Entry>, key: string)
    requires forall j :: 0 <= j < |entries| ==> entries[j].key != key
    ensures Get(entries, key) == Null && !HasKey(entries, key)
  {
    if entries == [] {
    } else {
      GetOfMissingKey(entries[1..], key);
    }
  }

  /** d[key] = value for a key that is present. */
  function Set(entries: seq<Entry>, key: string, value: J): (r: seq<Entry>)
    ensures |r| == |entries|
    ensures forall i :: 0 <= i < |entries| ==>
      r[i] == if entries[i].key == key then Entry(key, value) else entries[i]
  {
    if entries == [] then []
    else [if entries[0].key == key then Entry(key, value) else entries[0]] + Set(entries[1..], key, value)
  }

  function StrOf(p: Patterns, j: J): string {
    match j
    case Str(s) => s
    case Null => ""
    case Scalar(_, text) => text
    case Other(_, text) => text
    case _ => p.repr(j)
  }

  // ---------- projecting mismatch rows ----------

  function Field(p: Patterns, row: seq<Entry>, a: string, b: string, c: string, limit: nat): string
    requires limit >= 3
  {
    CapStr(p.scrub(StrOf(p, Or(Or(Or(Get(row, a), Get(row, b)), Get(row, c)), Str("")))), limit)
  }

  function OrText(s: string, default: string): string {
    if s != "" then s else default
  }

  /** Only path, kind and side survive of a row; a row with neither path nor kind is dropped. */
  function SanitizeMismatchRow(p: Patterns, row: J): (r: Option<J>)
    ensures r.Some? ==>
      && r.value.Dict? && |r.value.entries| == 3
      && r.value.entries[0].key == "path" && r.value.entries[1].key == "kind" && r.value.entries[2].key == "side"
      && (forall i :: 0 <= i < 3 ==>
            r.value.entries[i].value.Str? && |r.value.entries[i].value.s| <= if i == 0 then 200 else 64)
  {
    if !row.Dict? then None
    else
      var path := Field(p, row.entries, "path", "field", "key", 200);
      var kind := Field(p, row.entries, "kind", "type", "mismatch_kind", 64);
      var side := Field(p, row.entries, "side", "system", "source", 64);
      if path == "" && kind == "" then None
      else Some(Dict([Entry("path", Str(OrText(path, "unknown"))), Entry("kind", Str(OrText(kind, "unknown"))),
                      Entry("side", Str(side))]))
  }

  /** The value that is not empty, zero or missing, of the first of three keys that has one. */
  ghost predicate FirstTruthy(row: seq<Entry>, a: string, b: string, c: string, v: J) {
    || (Truthy(Get(row, a)) && v == Get(row, a))
    || (!Truthy(Get(row, a)) && Truthy(Get(row, b)) && v == Get(row, b))
    || (!Truthy(Get(row, a)) && !Truthy(Get(row, b)) && Truthy(Get(row, c)) && v == Get(row, c))
    || (!Truthy(Get(row, a)) && !Truthy(Get(row, b)) && !Truthy(Get(row, c)) && v == Str(""))
  }

  /** A field of a projected row: the text of that value, scrubbed and capped. */
  ghost predicate FieldText(p: Patterns, v: J, limit: nat, text: string)
    requires limit >= 3
  {
    match v
    case Str(s) => text == CapStr(p.scrub(s), limit)
    case Scalar(_, t) => text == CapStr(p.scrub(t), limit)
    case Other(_, t) => text == CapStr(p.scrub(t), limit)
    case Null => text == CapStr(p.scrub(""), limit)
    case _ => text == CapStr(p.scrub(p.repr(v)), limit)
  }

  /**
   What becomes of a row: path, kind and side each come from the first of their three keys that has a value;
   the row is dropped exactly when path and kind come out empty; an empty path or kind is called unknown.
  */
  lemma SanitizedRowSays(p: Patterns, row: seq<Entry>, path: J, kind: J, side: J, a: string, b: string, c: string)
    requires FirstTruthy(row, "path", "field", "key", path) && FieldText(p, path, 200, a)
    requires FirstTruthy(row, "kind", "type", "mismatch_kind", kind) && FieldText(p, kind, 64, b)
    requires FirstTruthy(row, "side", "system", "source", side) && FieldText(p, side, 64, c)
    ensures SanitizeMismatchRow(p, Dict(row)) ==
      if a == "" && b == "" then None
      else Some(MismatchRow(if a == "" then "unknown" else a, if b == "" then "unknown" else b, c))
  {
    FieldSays(p, row, "path", "field", "key", 200, path, a);
    FieldSays(p, row, "kind", "type", "mismatch_kind", 64, kind, b);
    FieldSays(p, row, "side", "system", "source", 64, side, c);
  }

  lemma FieldSays(p: Patterns, row: seq<Entry>, a: string, b: string, c: string, limit: nat, v: J, text: string)
    requires limit >= 3 && FirstTruthy(row, a, b, c, v) && FieldText(p, v, limit, text)
    ensures Field(p, row, a, b, c, limit) == text
  {
  }

  /** A projected row: a path of at most 200 characters, a kind and a side of at most 64. */
  function MismatchRow(path: string, kind: string, side: string): J {
    Dict([Entry("path", Str(path)), Entry("kind", Str(kind)), Entry("side", Str(side))])
  }

  predicate Presentable(p: Patterns, s: string, limit: nat) {
    p.scrub(s) == s && Trimmed(s) && |s| <= limit
  }

  /** A projected row whose texts scrubbing leaves alone comes back as it is. */
  lemma PresentableRowIsFixed(p: Patterns, path: string, kind: string, side: string)
    requires path != "" && kind != ""
    requires Presentable(p, path, 200) && Presentable(p, kind, 64) && Presentable(p, side, 64) && p.scrub("") == ""
    ensures SanitizeMismatchRow(p, MismatchRow(path, kind, side)) == Some(MismatchRow(path, kind, side))
  {
    var row := MismatchRow(path, kind, side).entries;
    GetOfThree(row, "path");
    GetOfThree(row, "kind");
    GetOfThree(row, "side");
    GetOfThree(row, "system");
    GetOfThree(row, "source");
  }

  lemma GetOfThree(es: seq<Entry>, key: string)
    requires |es| == 3
    ensures Get(es, key) ==
      if es[0].key == key then es[0].value
      else if es[1].key == key then es[1].value
      else if es[2].key == key then es[2].value
      else Null
  {
    var tail := es[1..];
    var end := tail[1..];
    assert end == [es[2]] && end[1..] == [];
    assert Get(end, key) == if es[2].key == key then es[2].value else Null;
    assert Get(tail, key) == if es[1].key == key then es[1].value else Get(end, key);
  }

  const ROW_KEYS: set<string> :=
    {"path", "field", "key", "kind", "type", "mismatch_kind", "side", "system", "source"}

  /** Nothing but the nine known keys has any influence on a projected row. */
  lemma ProjectedRowIgnoresOtherKeys(p: Patterns, a: seq<Entry>, b: seq<Entry>)
    requires forall k :: k in ROW_KEYS ==> Get(a, k) == Get(b, k)
    ensures SanitizeMismatchRow(p, Dict(a)) == SanitizeMismatchRow(p, Dict(b))
  {
    assert "path" in ROW_KEYS && "field" in ROW_KEYS && "key" in ROW_KEYS;
    assert "kind" in ROW_KEYS && "type" in ROW_KEYS && "mismatch_kind" in ROW_KEYS;
    assert "side" in ROW_KEYS && "system" in ROW_KEYS && "source" in ROW_KEYS;
  }

  function RowCleaner(p: Patterns): J -> Option<J> {
    (row: J) => SanitizeMismatchRow(p, row)
  }

  function CleanRows(clean: J -> Option<J>, rows: seq<J>): (r: seq<J>)
    ensures |r| <= |rows|
  {
    if rows == [] then []
    else
      var last := clean(Last(rows));
      CleanRows(clean, Front(rows)) + if last.Some? then [last.value] else []
  }

  /** The surviving rows are those of the first part followed by those of the second: nothing moves. */
  lemma {:induction false} CleanRowsAppend(clean: J -> Option<J>, a: seq<J>, b: seq<J>)
    ensures CleanRows(clean, a + b) == CleanRows(clean, a) + CleanRows(clean, b)
  {
    if b == [] {
      assert a + b == a;
    } else {
      var f, last := Front(b), clean(Last(b));
      assert Front(a + b) == a + f && Last(a + b) == Last(b);
      CleanRowsAppend(clean, a, f);
      Associate(CleanRows(clean, a), CleanRows(clean, f), if last.Some? then [last.value] else []);
    }
  }

  lemma CleanRowsOfOne(clean: J -> Option<J>, row: J)
    ensures clean(row).None? ==> CleanRows(clean, [row]) == []
    ensures clean(row).Some? ==> CleanRows(clean, [row]) == [clean(row).value]
  {
    assert Front([row]) == [];
  }

  function SanitizedList(p: Patterns, rows: J): seq<J> {
    if rows.List? then AtMost(CleanRows(RowCleaner(p), rows.items), MAX_MISMATCH_ROWS) else []
  }

  method SanitizeMismatchList(p: Patterns, rows: J) returns (out: seq<J>)
    ensures out == SanitizedList(p, rows)
  {
    if !rows.List? {
      return [];
    }
    out := CollectRows(RowCleaner(p), rows.items);
  }

  /** The loop over the rows, left as soon as enough have been collected. */
  method CollectRows(clean: J -> Option<J>, rows: seq<J>) returns (out: seq<J>)
    ensures out == AtMost(CleanRows(clean, rows), MAX_MISMATCH_ROWS)
  {
    out := [];
    var i := 0;
    while i < |rows|
      invariant 0 <= i <= |rows|
      invariant out == CleanRows(clean, rows[..i]) && |out| < MAX_MISMATCH_ROWS
    {
      assert Front(rows[..i + 1]) == rows[..i];
      var cleaned := clean(rows[i]);
      i := i + 1;
      if cleaned == None {
        continue;
      }
      out := out + [cleaned.value];
      if |out| >= MAX_MISMATCH_ROWS {
        CleanRowsPrefix(clean, rows, i);
        assert out == CleanRows(clean, rows)[..MAX_MISMATCH_ROWS];
        return;
      }
    }
    assert rows[..|rows|] == rows;
  }

  lemma {:induction false} CleanRowsPrefix(clean: J -> Option<J>, rows: seq<J>, i: nat)
    requires i <= |rows|
    ensures CleanRows(clean, rows[..i]) <= CleanRows(clean, rows)
  {
    if i == |rows| {
      assert rows[..i] == rows;
    } else {
      assert Front(rows)[..i] == rows[..i];
      CleanRowsPrefix(clean, Front(rows), i);
    }
  }

  // ---------- scrubbing ----------

  function Walk(p: Patterns, j: J, depth: nat): J
    decreases j
  {
    if depth > MAX_DEPTH then Null
    else
      match j
      case Str(s) => Str(CapStr(p.scrub(s), MAX_STRING_CHARS))
      case Null => j
      case Scalar(_, _) => j
      case List(items) => List(WalkItems(p, if |items| > MAX_LIST_ITEMS then items[..MAX_LIST_ITEMS] else items, depth + 1))
      case Dict(entries) => Dict(WalkEntries(p, entries, depth + 1))
      case Other(_, text) => Str(CapStr(p.scrub(text), MAX_STRING_CHARS))
  }

  function WalkItems(p: Patterns, items: seq<J>, depth: nat): (r: seq<J>)
    ensures |r| == |items|
    ensures forall i :: 0 <= i < |items| ==> r[i] == Walk(p, items[i], depth)
    decreases items
  {
    if items == [] then [] else WalkItems(p, items[..|items| - 1], depth) + [Walk(p, items[|items| - 1], depth)]
  }

  function WalkEntries(p: Patterns, entries: seq<Entry>, depth: nat): seq<Entry>
    decreases entries
  {
    if entries == [] then []
    else
      var e := entries[|entries| - 1];
      WalkEntries(p, entries[..|entries| - 1], depth)
      + if NormalKey(e.key) in FORBIDDEN_VALUE_KEYS then [] else [Entry(e.key, Walk(p, e.value, depth))]
  }

  method WalkScrubStrings(p: Patterns, j: J, depth: nat) returns (r: J)
    ensures r == Walk(p, j, depth)
    decreases j
  {
    if depth > MAX_DEPTH {
      return Null;
    }
    match j {
      case Str(s) =>
        r := Str(CapStr(p.scrub(s), MAX_STRING_CHARS));
      case Null =>
        r := j;
      case Scalar(_, _) =>
        r := j;
      case List(items) =>
        var out := ScrubItems(p, if |items| > MAX_LIST_ITEMS then items[..MAX_LIST_ITEMS] else items, depth + 1);
        r := List(out);
      case Dict(entries) =>
        var out := ScrubEntries(p, entries, depth + 1);
        r := Dict(out);
      case Other(_, text) =>
        r := Str(CapStr(p.scrub(text), MAX_STRING_CHARS));
    }
  }

  method ScrubItems(p: Patterns, items: seq<J>, depth: nat) returns (out: seq<J>)
    ensures out == WalkItems(p, items, depth)
    decreases items
  {
    out := [];
    for i := 0 to |items|
      invariant out == WalkItems(p, items[..i], depth)
    {
      assert items[..i + 1][..i] == items[..i];
      var item := WalkScrubStrings(p, items[i], depth);
      out := out + [item];
    }
    assert items[..|items|] == items;
  }

  method ScrubEntries(p: Patterns, entries: seq<Entry>, depth: nat) returns (out: seq<Entry>)
    ensures out == WalkEntries(p, entries, depth)
    decreases entries
  {
    out := [];
    for i := 0 to |entries|
      invariant out == WalkEntries(p, entries[..i], depth)
    {
      assert entries[..i + 1][..i] == entries[..i];
      if NormalKey(entries[i].key) in FORBIDDEN_VALUE_KEYS {
        continue;
      }
      var value := WalkScrubStrings(p, entries[i].value, depth);
      out := out + [Entry(entries[i].key, value)];
    }
    assert entries[..|entries|] == entries;
  }

  // ---------- scanning ----------

  datatype Reason = Pass | PiiRemaining | SecretRemaining | EmptyContext | InvalidContext

  function Scan(p: Patterns, j: J, depth: nat): Option<Reason>
    decreases j
  {
    if depth > MAX_DEPTH then None
    else
      match j
      case Str(s) =>
        if !p.stillHasPii(s) then None else if p.looksSecret(s) then Some(SecretRemaining) else Some(PiiRemaining)
      case List(items) => ScanItems(p, items, depth + 1)
      case Dict(entries) => ScanEntries(p, entries, depth + 1)
      case _ => None
  }

  function ScanItems(p: Patterns, items: seq<J>, depth: nat): Option<Reason>
    decreases items
  {
    if items == [] then None
    else
      var hit := Scan(p, items[0], depth);
      if hit.Some? then hit else ScanItems(p, items[1..], depth)
  }

  function ScanEntries(p: Patterns, entries: seq<Entry>, depth: nat): Option<Reason>
    decreases entries
  {
    if entries == [] then None
    else if NormalKey(entries[0].key) in {"value", "raw", "sample"} then Some(PiiRemaining)
    else
      var hit := Scan(p, entries[0].value, depth);
      if hit.Some? then hit else ScanEntries(p, entries[1..], depth)
  }

  // ---------- the gate ----------

  datatype GateResult = GateResult(ok: bool, reason: Reason, policyVersion: string, context: Option<J>)

  function PolicyVersion(p: Patterns, raw: J): string {
    if !raw.Dict? then POLICY_VERSION
    else OrText(Strip(StrOf(p, Or(Get(raw.entries, "policy_version"), Str("")))), POLICY_VERSION)
  }

  function ProjectKey(p: Patterns, entries: seq<Entry>, key: string): seq<Entry> {
    if HasKey(entries, key) then Set(entries, key, List(SanitizedList(p, Get(entries, key)))) else entries
  }

  /** The working copy: mismatch-like lists are projected before anything else happens. */
  function Projected(p: Patterns, entries: seq<Entry>): seq<Entry> {
    var working := ProjectKey(p, ProjectKey(p, entries, "mismatches"), "evidence");
    var summary := Get(working, "finding_summary");
    if HasKey(working, "finding_summary") && summary.Dict?
    then Set(working, "finding_summary", Dict(ProjectKey(p, summary.entries, "mismatches")))
    else working
  }

  method EnsureSafeContext(p: Patterns, raw: J) returns (r: GateResult)
    ensures r.policyVersion == PolicyVersion(p, raw)
    ensures raw.Null? || (raw.Dict? && raw.entries == []) ==> !r.ok && r.reason == EmptyContext
    ensures !raw.Null? && !raw.Dict? ==> !r.ok && r.reason == InvalidContext
    ensures r.ok <==>
      raw.Dict? && raw.entries != [] && NoLeak(p, Walk(p, Dict(Projected(p, raw.entries)), 0))
    ensures r.ok <==> r.reason == Pass
    ensures r.ok ==> r.context == Some(Walk(p, Dict(Projected(p, raw.entries)), 0)) && Safe(p, r.context.value)
    ensures r.ok <==>
      raw.Dict? && raw.entries != [] && Scrubbable(p, Dict(Projected(p, raw.entries)), 0)
    ensures !r.ok ==> r.context == None
    ensures raw.Dict? && raw.entries != [] && !r.ok ==>
      Some(r.reason) == Scan(p, Walk(p, Dict(Projected(p, raw.entries)), 0), 0)
  {
    var policyVersion := PolicyVersion(p, raw);
    if raw.Null? {
      return GateResult(false, EmptyContext, policyVersion, None);
    }
    if !raw.Dict? {
      return GateResult(false, InvalidContext, policyVersion, None);
    }
    if raw.entries == [] {
      return GateResult(false, EmptyContext, policyVersion, None);
    }
    var working := raw.entries;
    if HasKey(working, "mismatches") {
      var rows := SanitizeMismatchList(p, Get(working, "mismatches"));
      working := Set(working, "mismatches", List(rows));
    }
    if HasKey(working, "evidence") {
      var rows := SanitizeMismatchList(p, Get(working, "evidence"));
      working := Set(working, "evidence", List(rows));
    }
    if HasKey(working, "finding_summary") && Get(working, "finding_summary").Dict? {
      var summary := Get(working, "finding_summary").entries;
      if HasKey(summary, "mismatches") {
        var rows := SanitizeMismatchList(p, Get(summary, "mismatches"));
        summary := Set(summary, "mismatches", List(rows));
      }
      working := Set(working, "finding_summary", Dict(summary));
    }
    assert working == Projected(p, raw.entries);
    var cleaned := WalkScrubStrings(p, Dict(working), 0);
    WalkIsShaped(p, Dict(working), 0);
    NoLeakIffScrubbable(p, Dict(working), 0);
    ScanIsCompleteOnScrubbed(p, cleaned, 0);
    var leak := Scan(p, cleaned, 0);
    if leak.Some? {
      ScanReasons(p, cleaned, 0);
      return GateResult(false, leak.value, policyVersion, None);
    }
    SafeIffShapedAndNoLeak(p, cleaned, 0);
    r := GateResult(true, Pass, policyVersion, Some(cleaned));
  }

  /** The policy version a context asks for, if it names one. */
  lemma PolicyVersionIsRead(p: Patterns, entries: seq<Entry>, i: nat)
    requires i < |entries| && entries[i].key == "policy_version" && entries[i].value.Str?
    requires forall j :: 0 <= j < i ==> entries[j].key != "policy_version"
    ensures var text := Strip(entries[i].value.s);
      PolicyVersion(p, Dict(entries)) == if text != "" then text else POLICY_VERSION
  {
    GetReadsFirst(entries, "policy_version", i);
  }

  lemma PolicyVersionDefault(p: Patterns, entries: seq<Entry>)
    requires forall j :: 0 <= j < |entries| ==> entries[j].key != "policy_version"
    ensures PolicyVersion(p, Dict(entries)) == POLICY_VERSION
  {
    GetOfMissingKey(entries, "policy_version");
  }

  // ---------- what the gate guarantees ----------

  predicate Leaks(p: Patterns, text: string) {
    p.stillHasPii(CapStr(p.scrub(text), MAX_STRING_CHARS))
  }

  /**
   Told of the value before scrubbing: within the depth limit, the first fifty items and the keys that are
   not forbidden, no text still leaks once it is scrubbed and capped.
  */
  ghost predicate Scrubbable(p: Patterns, j: J, depth: nat)
    decreases j
  {
    depth <= MAX_DEPTH ==>
      match j
      case Str(s) => !Leaks(p, s)
      case Other(_, text) => !Leaks(p, text)
      case List(items) => forall i :: 0 <= i < |items| && i < MAX_LIST_ITEMS ==> Scrubbable(p, items[i], depth + 1)
      case Dict(entries) =>
        forall i :: 0 <= i < |entries| && NormalKey(entries[i].key) !in FORBIDDEN_VALUE_KEYS ==>
          Scrubbable(p, entries[i].value, depth + 1)
      case _ => true
  }

  /** The gate's verdict depends on nothing but the texts that survive: a leak is one that scrubbing leaves in. */
  lemma {:induction false} NoLeakIffScrubbable(p: Patterns, j: J, depth: nat)
    ensures NoLeak(p, Walk(p, j, depth)) <==> Scrubbable(p, j, depth)
    decreases j, 1
  {
    if depth <= MAX_DEPTH {
      match j
      case List(items) => ListLeaksIff(p, items, depth);
      case Dict(entries) => DictLeaksIff(p, entries, depth);
      case _ =>
    }
  }

  lemma {:induction false} ListLeaksIff(p: Patterns, items: seq<J>, depth: nat)
    requires depth <= MAX_DEPTH
    ensures NoLeak(p, Walk(p, List(items), depth)) <==> Scrubbable(p, List(items), depth)
    decreases List(items), 0
  {
    var kept := if |items| > MAX_LIST_ITEMS then items[..MAX_LIST_ITEMS] else items;
    WalkList(p, items, depth);
    forall i | 0 <= i < |kept| ensures NoLeak(p, WalkItems(p, kept, depth + 1)[i]) <==> Scrubbable(p, items[i], depth + 1) {
      assert kept[i] == items[i];
      NoLeakIffScrubbable(p, items[i], depth + 1);
    }
  }

  lemma {:induction false} DictLeaksIff(p: Patterns, entries: seq<Entry>, depth: nat)
    requires depth <= MAX_DEPTH
    ensures NoLeak(p, Walk(p, Dict(entries), depth)) <==> Scrubbable(p, Dict(entries), depth)
    decreases Dict(entries), 0
  {
    EntriesLeakIff(p, entries, depth + 1);
    WalkDict(p, entries, depth);
    assert EntriesNoLeak(p, WalkEntries(p, entries, depth + 1)) <==> NoLeak(p, Dict(WalkEntries(p, entries, depth + 1)));
  }

  lemma WalkDict(p: Patterns, entries: seq<Entry>, depth: nat)
    requires depth <= MAX_DEPTH
    ensures Walk(p, Dict(entries), depth) == Dict(WalkEntries(p, entries, depth + 1))
  {
  }

  ghost predicate EntriesNoLeak(p: Patterns, entries: seq<Entry>) {
    forall i :: 0 <= i < |entries| ==> NoLeak(p, entries[i].value)
  }

  ghost predicate EntriesScrubbable(p: Patterns, entries: seq<Entry>, depth: nat) {
    forall i :: 0 <= i < |entries| && NormalKey(entries[i].key) !in FORBIDDEN_VALUE_KEYS ==>
      Scrubbable(p, entries[i].value, depth)
  }

  lemma {:induction false} EntriesLeakIff(p: Patterns, entries: seq<Entry>, depth: nat)
    ensures EntriesNoLeak(p, WalkEntries(p, entries, depth)) <==> EntriesScrubbable(p, entries, depth)
    decreases entries
  {
    if entries == [] {
    } else {
      var f, e := entries[..|entries| - 1], entries[|entries| - 1];
      EntriesLeakIff(p, f, depth);
      NoLeakIffScrubbable(p, e.value, depth);
      EntriesNoLeakSnoc(p, WalkEntries(p, f, depth), Entry(e.key, Walk(p, e.value, depth)));
      EntriesScrubbableSnoc(p, f, e, depth);
      WalkEntriesSnoc(p, f, e, depth);
      assert entries == f + [e];
    }
  }

  lemma WalkEntriesSnoc(p: Patterns, f: seq<Entry>, e: Entry, depth: nat)
    ensures NormalKey(e.key) in FORBIDDEN_VALUE_KEYS ==> WalkEntries(p, f + [e], depth) == WalkEntries(p, f, depth)
    ensures NormalKey(e.key) !in FORBIDDEN_VALUE_KEYS ==>
      WalkEntries(p, f + [e], depth) == WalkEntries(p, f, depth) + [Entry(e.key, Walk(p, e.value, depth))]
  {
    var all := f + [e];
    assert all[..|all| - 1] == f && all[|all| - 1] == e;
  }

  lemma EntriesNoLeakSnoc(p: Patterns, f: seq<Entry>, e: Entry)
    ensures EntriesNoLeak(p, f + [e]) <==> EntriesNoLeak(p, f) && NoLeak(p, e.value)
  {
    var all := f + [e];
    assert all[|f|] == e && forall i :: 0 <= i < |f| ==> all[i] == f[i];
  }

  lemma EntriesScrubbableSnoc(p: Patterns, f: seq<Entry>, e: Entry, depth: nat)
    ensures EntriesScrubbable(p, f + [e], depth) <==>
      EntriesScrubbable(p, f, depth) && (NormalKey(e.key) !in FORBIDDEN_VALUE_KEYS ==> Scrubbable(p, e.value, depth))
  {
    var all := f + [e];
    assert all[|f|] == e && forall i :: 0 <= i < |f| ==> all[i] == f[i];
  }

  /** If scrubbing always removes what the scan looks for, everything can be passed on. */
  lemma {:induction false} GoodPatternsPassEverything(p: Patterns, j: J, depth: nat)
    requires forall s :: !Leaks(p, s)
    ensures Scrubbable(p, j, depth)
    decreases j
  {
    match j
    case List(items) =>
      forall i | 0 <= i < |items| ensures Scrubbable(p, items[i], depth + 1) {
        GoodPatternsPassEverything(p, items[i], depth + 1);
      }
    case Dict(entries) =>
      forall i | 0 <= i < |entries| ensures Scrubbable(p, entries[i].value, depth + 1) {
        GoodPatternsPassEverything(p, entries[i].value, depth + 1);
      }
    case _ =>
  }

  /** No string value at any depth satisfies the leak predicate. */
  ghost predicate NoLeak(p: Patterns, j: J)
    decreases j
  {
    match j
    case Str(s) => !p.stillHasPii(s)
    case List(items) => forall i :: 0 <= i < |items| ==> NoLeak(p, items[i])
    case Dict(entries) => forall i :: 0 <= i < |entries| ==> NoLeak(p, entries[i].value)
    case _ => true
  }

  /** Without bound on depth: no leaking string, no forbidden key, no long string, no long list, no odd object. */
  ghost predicate Safe(p: Patterns, j: J)
    decreases j
  {
    match j
    case Str(s) => |s| <= MAX_STRING_CHARS && !p.stillHasPii(s)
    case List(items) => |items| <= MAX_LIST_ITEMS && forall i :: 0 <= i < |items| ==> Safe(p, items[i])
    case Dict(entries) =>
      forall i :: 0 <= i < |entries| ==>
        NormalKey(entries[i].key) !in FORBIDDEN_VALUE_KEYS && Safe(p, entries[i].value)
    case Other(_, _) => false
    case _ => true
  }

  /** What scrubbing alone gives a value sitting at this depth; below the limit there is nothing left. */
  ghost predicate Shaped(j: J, depth: nat)
    decreases j
  {
    if depth > MAX_DEPTH then j.Null?
    else
      match j
      case Str(s) => |s| <= MAX_STRING_CHARS
      case List(items) => |items| <= MAX_LIST_ITEMS && forall i :: 0 <= i < |items| ==> Shaped(items[i], depth + 1)
      case Dict(entries) =>
        forall i :: 0 <= i < |entries| ==>
          NormalKey(entries[i].key) !in FORBIDDEN_VALUE_KEYS && Shaped(entries[i].value, depth + 1)
      case Other(_, _) => false
      case _ => true
  }

  lemma ShapedList(items: seq<J>, depth: nat)
    requires depth <= MAX_DEPTH && |items| <= MAX_LIST_ITEMS
    requires forall i :: 0 <= i < |items| ==> Shaped(items[i], depth + 1)
    ensures Shaped(List(items), depth)
  {
  }

  lemma LeafIsShaped(p: Patterns, j: J, depth: nat)
    requires depth > MAX_DEPTH || (!j.List? && !j.Dict?)
    ensures Shaped(Walk(p, j, depth), depth)
  {
  }

  lemma {:induction false} WalkIsShaped(p: Patterns, j: J, depth: nat)
    ensures Shaped(Walk(p, j, depth), depth)
    decreases j, 1
  {
    if depth > MAX_DEPTH || (!j.List? && !j.Dict?) {
      LeafIsShaped(p, j, depth);
    } else if j.List? {
      ListIsShaped(p, j.items, depth);
    } else {
      EntriesAreShaped(p, j.entries, depth + 1);
    }
  }

  lemma {:induction false} ListIsShaped(p: Patterns, items: seq<J>, depth: nat)
    requires depth <= MAX_DEPTH
    ensures Shaped(Walk(p, List(items), depth), depth)
    decreases List(items), 0
  {
    var kept := if |items| > MAX_LIST_ITEMS then items[..MAX_LIST_ITEMS] else items;
    var walked := WalkItems(p, kept, depth + 1);
    WalkList(p, items, depth);
    ItemsAreShaped(p, kept, depth + 1);
    ShapedList(walked, depth);
  }

  lemma WalkList(p: Patterns, items: seq<J>, depth: nat)
    requires depth <= MAX_DEPTH
    ensures var kept := if |items| > MAX_LIST_ITEMS then items[..MAX_LIST_ITEMS] else items;
      Walk(p, List(items), depth) == List(WalkItems(p, kept, depth + 1))
  {
  }

  lemma {:induction false} ItemsAreShaped(p: Patterns, items: seq<J>, depth: nat)
    ensures forall i :: 0 <= i < |items| ==> Shaped(WalkItems(p, items, depth)[i], depth)
    decreases items
  {
    if items == [] {
    } else {
      ItemsAreShaped(p, items[..|items| - 1], depth);
      WalkIsShaped(p, items[|items| - 1], depth);
    }
  }

  lemma {:induction false} EntriesAreShaped(p: Patterns, entries: seq<Entry>, depth: nat)
    ensures forall i :: 0 <= i < |WalkEntries(p, entries, depth)| ==>
      var e := WalkEntries(p, entries, depth)[i]; NormalKey(e.key) !in FORBIDDEN_VALUE_KEYS && Shaped(e.value, depth)
    decreases entries
  {
    if entries == [] {
    } else {
      EntriesAreShaped(p, entries[..|entries| - 1], depth);
      WalkIsShaped(p, entries[|entries| - 1].value, depth);
    }
  }

  /** On scrubbed values the bounded scan misses nothing, because both recursions stop at one depth. */
  lemma {:induction false} ScanIsCompleteOnScrubbed(p: Patterns, j: J, depth: nat)
    requires Shaped(j, depth)
    ensures Scan(p, j, depth) == None <==> NoLeak(p, j)
    decreases j
  {
    if depth <= MAX_DEPTH {
      match j
      case List(items) => ScanItemsComplete(p, items, depth + 1);
      case Dict(entries) => ScanEntriesComplete(p, entries, depth + 1);
      case _ =>
    }
  }

  lemma {:induction false} ScanItemsComplete(p: Patterns, items: seq<J>, depth: nat)
    requires forall i :: 0 <= i < |items| ==> Shaped(items[i], depth)
    ensures ScanItems(p, items, depth) == None <==> forall i :: 0 <= i < |items| ==> NoLeak(p, items[i])
    decreases items
  {
    if items == [] {
    } else {
      ScanIsCompleteOnScrubbed(p, items[0], depth);
      ScanItemsComplete(p, items[1..], depth);
      assert forall i :: 0 <= i < |items| ==> i == 0 || items[i] == items[1..][i - 1];
    }
  }

  lemma {:induction false} ScanEntriesComplete(p: Patterns, entries: seq<Entry>, depth: nat)
    requires forall i :: 0 <= i < |entries| ==>
      NormalKey(entries[i].key) !in FORBIDDEN_VALUE_KEYS && Shaped(entries[i].value, depth)
    ensures ScanEntries(p, entries, depth) == None <==> forall i :: 0 <= i < |entries| ==> NoLeak(p, entries[i].value)
    decreases entries
  {
    if entries == [] {
    } else {
      ScanIsCompleteOnScrubbed(p, entries[0].value, depth);
      ScanEntriesComplete(p, entries[1..], depth);
      assert forall i :: 0 <= i < |entries| ==> i == 0 || entries[i] == entries[1..][i - 1];
    }
  }

  lemma {:induction false} SafeIffShapedAndNoLeak(p: Patterns, j: J, depth: nat)
    requires Shaped(j, depth)
    ensures Safe(p, j) <==> NoLeak(p, j)
    decreases j
  {
    match j
    case List(items) =>
      forall i | 0 <= i < |items| ensures Safe(p, items[i]) <==> NoLeak(p, items[i]) {
        SafeIffShapedAndNoLeak(p, items[i], depth + 1);
      }
    case Dict(entries) =>
      forall i | 0 <= i < |entries| ensures Safe(p, entries[i].value) <==> NoLeak(p, entries[i].value) {
        SafeIffShapedAndNoLeak(p, entries[i].value, depth + 1);
      }
    case _ =>
  }

  lemma {:induction false} ScanReasons(p: Patterns, j: J, depth: nat)
    ensures Scan(p, j, depth).Some? ==> Scan(p, j, depth).value in {PiiRemaining, SecretRemaining}
    decreases j
  {
    if depth <= MAX_DEPTH {
      match j
      case List(items) => ItemReasons(p, items, depth + 1);
      case Dict(entries) => EntryReasons(p, entries, depth + 1);
      case _ =>
    }
  }

  lemma {:induction false} ItemReasons(p: Patterns, items: seq<J>, depth: nat)
    ensures ScanItems(p, items, depth).Some? ==> ScanItems(p, items, depth).value in {PiiRemaining, SecretRemaining}
    decreases items
  {
    if items == [] {
    } else {
      ScanReasons(p, items[0], depth);
      ItemReasons(p, items[1..], depth);
    }
  }

  lemma {:induction false} EntryReasons(p: Patterns, entries: seq<Entry>, depth: nat)
    ensures ScanEntries(p, entries, depth).Some? ==> ScanEntries(p, entries, depth).value in {PiiRemaining, SecretRemaining}
    decreases entries
  {
    if entries == [] {
    } else {
      ScanReasons(p, entries[0].value, depth);
      EntryReasons(p, entries[1..], depth);
    }
  }

  /** What the scan looks for, on any value: down to the depth limit no leaking string and no key for raw values. */
  ghost predicate Clear(p: Patterns, j: J, depth: nat)
    decreases j
  {
    depth <= MAX_DEPTH ==>
      match j
      case Str(s) => !p.stillHasPii(s)
      case List(items) => forall i :: 0 <= i < |items| ==> Clear(p, items[i], depth + 1)
      case Dict(entries) =>
        forall i :: 0 <= i < |entries| ==>
          NormalKey(entries[i].key) !in {"value", "raw", "sample"} && Clear(p, entries[i].value, depth + 1)
      case _ => true
  }

  lemma {:induction false} ScanFindsNothingIffClear(p: Patterns, j: J, depth: nat)
    ensures Scan(p, j, depth) == None <==> Clear(p, j, depth)
    decreases j
  {
    if depth <= MAX_DEPTH {
      match j
      case List(items) => ItemsClearIff(p, items, depth + 1);
      case Dict(entries) => EntriesClearIff(p, entries, depth + 1);
      case _ =>
    }
  }

  lemma {:induction false} ItemsClearIff(p: Patterns, items: seq<J>, depth: nat)
    ensures ScanItems(p, items, depth) == None <==> forall i :: 0 <= i < |items| ==> Clear(p, items[i], depth)
    decreases items
  {
    if items == [] {
    } else {
      ScanFindsNothingIffClear(p, items[0], depth);
      ItemsClearIff(p, items[1..], depth);
      assert forall i :: 0 <= i < |items| ==> i == 0 || items[i] == items[1..][i - 1];
    }
  }

  lemma {:induction false} EntriesClearIff(p: Patterns, entries: seq<Entry>, depth: nat)
    ensures ScanEntries(p, entries, depth) == None <==>
      forall i :: 0 <= i < |entries| ==>
        NormalKey(entries[i].key) !in {"value", "raw", "sample"} && Clear(p, entries[i].value, depth)
    decreases entries
  {
    if entries == [] {
    } else {
      ScanFindsNothingIffClear(p, entries[0].value, depth);
      EntriesClearIff(p, entries[1..], depth);
      assert forall i :: 0 <= i < |entries| ==> i == 0 || entries[i] == entries[1..][i - 1];
    }
  }

  // ---------- the scan alone is not enough ----------

  function Nest(j: J, n: nat): J {
    if n == 0 then j else List([Nest(j, n - 1)])
  }

  /** Inside nested one-element lists the scan sees a leak exactly down to the depth limit. */
  lemma {:induction false} ScanAloneStopsAtTheLimit(p: Patterns, s: string, n: nat, depth: nat)
    requires p.stillHasPii(s)
    ensures Scan(p, Nest(Str(s), n), depth) == None <==> depth + n > MAX_DEPTH
  {
    if n > 0 && depth <= MAX_DEPTH {
      ScanAloneStopsAtTheLimit(p, s, n - 1, depth + 1);
      var inner := Nest(Str(s), n - 1);
      assert ScanItems(p, [inner][1..], depth + 1) == None;
      assert ScanItems(p, [inner], depth + 1) == Scan(p, inner, depth + 1);
    }
  }

  // ---------- what scrubbing keeps ----------

  datatype Hop = Key(key: string) | Index(i: nat)

  function Step(j: J, hop: Hop): Option<J> {
    match hop
    case Key(k) => if j.Dict? && HasKey(j.entries, k) then Some(Get(j.entries, k)) else None
    case Index(i) => if j.List? && i < |j.items| then Some(j.items[i]) else None
  }

  /** The value reached from j along a path of dict keys and list positions. */
  function At(j: J, path: seq<Hop>): Option<J>
    decreases path
  {
    if path == [] then Some(j)
    else
      var next := Step(j, path[0]);
      if next.None? then None else At(next.value, path[1..])
  }

  /** A path that crosses no forbidden key and no list position past the cap. */
  predicate Allowed(path: seq<Hop>) {
    path == [] || (AllowedHop(path[0]) && Allowed(path[1..]))
  }

  predicate AllowedHop(hop: Hop) {
    match hop
    case Key(k) => NormalKey(k) !in FORBIDDEN_VALUE_KEYS
    case Index(i) => i < MAX_LIST_ITEMS
  }

  lemma {:induction false} WalkEntriesLookup(p: Patterns, entries: seq<Entry>, depth: nat, key: string)
    ensures NormalKey(key) !in FORBIDDEN_VALUE_KEYS ==>
      && HasKey(WalkEntries(p, entries, depth), key) == HasKey(entries, key)
      && (HasKey(entries, key) ==> Get(WalkEntries(p, entries, depth), key) == Walk(p, Get(entries, key), depth))
    ensures NormalKey(key) in FORBIDDEN_VALUE_KEYS ==> !HasKey(WalkEntries(p, entries, depth), key)
  {
    if entries == [] {
    } else {
      var f, e := entries[..|entries| - 1], entries[|entries| - 1];
      WalkEntriesLookup(p, f, depth, key);
      assert entries == f + [e];
      assert WalkEntries(p, f, depth) + [] == WalkEntries(p, f, depth);
      HasKeySnoc(f, e, key);
      GetSnoc(f, e, key);
      HasKeySnoc(WalkEntries(p, f, depth), Entry(e.key, Walk(p, e.value, depth)), key);
      GetSnoc(WalkEntries(p, f, depth), Entry(e.key, Walk(p, e.value, depth)), key);
    }
  }

  lemma HasKeySnoc(f: seq<Entry>, e: Entry, key: string)
    ensures HasKey(f + [e], key) <==> HasKey(f, key) || e.key == key
  {
    assert (f + [e])[|f|] == e && forall i :: 0 <= i < |f| ==> (f + [e])[i] == f[i];
  }

  lemma {:induction false} GetSnoc(f: seq<Entry>, e: Entry, key: string)
    ensures HasKey(f, key) ==> Get(f + [e], key) == Get(f, key)
    ensures !HasKey(f, key) ==> Get(f + [e], key) == if e.key == key then e.value else Null
  {
    if f == [] {
      assert (f + [e])[1..] == [];
    } else {
      assert (f + [e])[1..] == f[1..] + [e];
      assert HasKey(f, key) <==> f[0].key == key || HasKey(f[1..], key) by {
        assert f == [f[0]] + f[1..];
        if HasKey(f, key) && f[0].key != key {
          var i :| 0 <= i < |f| && f[i].key == key;
          assert f[1..][i - 1].key == key;
        }
      }
      GetSnoc(f[1..], e, key);
    }
  }

  /** One hop into a scrubbed value is the scrubbed value one hop in, if the hop is allowed. */
  lemma WalkThroughHop(p: Patterns, j: J, depth: nat, hop: Hop)
    requires depth <= MAX_DEPTH
    ensures Step(Walk(p, j, depth), hop) ==
      if !AllowedHop(hop) || Step(j, hop).None? then None else Some(Walk(p, Step(j, hop).value, depth + 1))
  {
    match hop
    case Key(k) =>
      if j.Dict? {
        WalkEntriesLookup(p, j.entries, depth + 1, k);
      }
    case Index(i) =>
  }

  predicate ActsAt(w: (J, nat) -> J, x: J, d: nat, hop: Hop) {
    Step(w(x, d), hop) ==
      if !AllowedHop(hop) || Step(x, hop).None? then None else Some(w(Step(x, hop).value, d + 1))
  }

  /** What holds of every single hop holds along whole paths. */
  lemma {:induction false} HopsMakePaths(w: (J, nat) -> J, j: J, depth: nat, path: seq<Hop>)
    requires forall x, d: nat, hop :: d <= MAX_DEPTH ==> ActsAt(w, x, d, hop)
    requires depth + |path| <= MAX_DEPTH + 1
    ensures At(w(j, depth), path) ==
      if !Allowed(path) || At(j, path).None? then None else Some(w(At(j, path).value, depth + |path|))
    decreases path
  {
    if path == [] {
    } else {
      assert ActsAt(w, j, depth, path[0]);
      var next := Step(j, path[0]);
      if AllowedHop(path[0]) && next.Some? {
        HopsMakePaths(w, next.value, depth + 1, path[1..]);
      }
    }
  }

  function Walker(p: Patterns): (J, nat) -> J {
    (x: J, d: nat) => Walk(p, x, d)
  }

  /**
   Along an allowed path scrubbing acts on each value by itself: numbers, flags and nulls come through
   unchanged, strings come through scrubbed and capped, and what lies past the depth limit becomes null.
   Nothing is reachable along any other path.
  */
  lemma WalkActsAlongPaths(p: Patterns, j: J, path: seq<Hop>)
    requires |path| <= MAX_DEPTH + 1
    ensures At(Walk(p, j, 0), path) ==
      if !Allowed(path) || At(j, path).None? then None else Some(Walk(p, At(j, path).value, |path|))
  {
    forall x, d: nat, hop | d <= MAX_DEPTH ensures ActsAt(Walker(p), x, d, hop) {
      WalkThroughHop(p, x, d, hop);
    }
    HopsMakePaths(Walker(p), j, 0, path);
  }

  function PublicKeys(entries: seq<Entry>): seq<string> {
    if entries == [] then []
    else
      var key := Last(entries).key;
      PublicKeys(Front(entries)) + if NormalKey(key) in FORBIDDEN_VALUE_KEYS then [] else [key]
  }

  function KeysOf(entries: seq<Entry>): seq<string> {
    if entries == [] then [] else KeysOf(Front(entries)) + [Last(entries).key]
  }

  /** What a value may turn into, told without the walk. */
  ghost predicate Arrives(p: Patterns, v: J, r: J) {
    match v
    case Str(s) => r == Str(CapStr(p.scrub(s), MAX_STRING_CHARS))
    case Other(_, text) => r == Str(CapStr(p.scrub(text), MAX_STRING_CHARS))
    case Null => r == Null
    case Scalar(_, _) => r == v
    case List(items) => r.List? && |r.items| == if |items| > MAX_LIST_ITEMS then MAX_LIST_ITEMS else |items|
    case Dict(entries) => r.Dict? && KeysOf(r.entries) == PublicKeys(entries)
  }

  lemma {:induction false} WalkedKeys(p: Patterns, entries: seq<Entry>, depth: nat)
    ensures KeysOf(WalkEntries(p, entries, depth)) == PublicKeys(entries)
    decreases entries
  {
    if entries == [] {
    } else {
      var f, e := Front(entries), Last(entries);
      WalkedKeys(p, f, depth);
      assert Front(WalkEntries(p, f, depth) + [Entry(e.key, Walk(p, e.value, depth))]) == WalkEntries(p, f, depth);
      assert WalkEntries(p, f, depth) + [] == WalkEntries(p, f, depth);
    }
  }

  lemma WalkArrives(p: Patterns, v: J, depth: nat)
    requires depth <= MAX_DEPTH
    ensures Arrives(p, v, Walk(p, v, depth))
  {
    match v
    case List(items) => WalkList(p, items, depth);
    case Dict(entries) => WalkedKeys(p, entries, depth + 1);
    case _ =>
  }

  /**
   The law of the leaves. Along an allowed path within the depth limit strings arrive scrubbed and capped, other
   objects as their scrubbed and capped text, nulls, numbers and flags unchanged, lists as lists cut to
   fifty, dicts with their permitted keys in order; one level further down there are nulls only.
  */
  lemma ScrubbedValueAt(p: Patterns, j: J, path: seq<Hop>)
    requires |path| <= MAX_DEPTH + 1
    ensures var r := At(Walk(p, j, 0), path);
      if Allowed(path) && At(j, path).Some?
      then r.Some? && (if |path| <= MAX_DEPTH then Arrives(p, At(j, path).value, r.value) else r.value == Null)
      else r == None
  {
    WalkActsAlongPaths(p, j, path);
    if Allowed(path) && At(j, path).Some? && |path| <= MAX_DEPTH {
      WalkArrives(p, At(j, path).value, |path|);
    }
  }

  /** Some leaking string of the one kind, secret or merely personal, at whatever depth. */
  ghost predicate HasLeak(p: Patterns, j: J, secret: bool)
    decreases j
  {
    match j
    case Str(s) => p.stillHasPii(s) && p.looksSecret(s) == secret
    case List(items) => exists i :: 0 <= i < |items| && HasLeak(p, items[i], secret)
    case Dict(entries) => exists i :: 0 <= i < |entries| && HasLeak(p, entries[i].value, secret)
    case _ => false
  }

  /** The reason given names a kind of leak that is there. */
  lemma {:induction false} ReasonIsPresent(p: Patterns, j: J, depth: nat)
    requires Shaped(j, depth)
    ensures Scan(p, j, depth) == Some(SecretRemaining) ==> HasLeak(p, j, true)
    ensures Scan(p, j, depth) == Some(PiiRemaining) ==> HasLeak(p, j, false)
    decreases j
  {
    if depth <= MAX_DEPTH {
      match j
      case List(items) =>
        var i := ItemReason(p, items, depth + 1);
        if i < |items| {
          ReasonIsPresent(p, items[i], depth + 1);
        }
      case Dict(entries) =>
        var i := EntryReason(p, entries, depth + 1);
        if i < |entries| {
          ReasonIsPresent(p, entries[i].value, depth + 1);
        }
      case _ =>
    }
  }

  lemma {:induction false} ItemReason(p: Patterns, items: seq<J>, depth: nat) returns (i: nat)
    ensures i <= |items| && ScanItems(p, items, depth) == if i < |items| then Scan(p, items[i], depth) else None
    decreases items
  {
    if items == [] {
      i := 0;
    } else if Scan(p, items[0], depth).Some? {
      i := 0;
    } else {
      var k := ItemReason(p, items[1..], depth);
      i := k + 1;
    }
  }

  lemma {:induction false} EntryReason(p: Patterns, entries: seq<Entry>, depth: nat) returns (i: nat)
    requires forall k :: 0 <= k < |entries| ==> NormalKey(entries[k].key) !in FORBIDDEN_VALUE_KEYS
    ensures i <= |entries|
    ensures ScanEntries(p, entries, depth) == if i < |entries| then Scan(p, entries[i].value, depth) else None
    decreases entries
  {
    if entries == [] {
      i := 0;
    } else if Scan(p, entries[0].value, depth).Some? {
      i := 0;
    } else {
      var k := EntryReason(p, entries[1..], depth);
      i := k + 1;
    }
  }

  // ---------- what projection removes ----------

  lemma {:induction false} GetAfterSet(entries: seq<Entry>, key: string, value: J, k: string)
    ensures HasKey(Set(entries, key, value), k) <==> HasKey(entries, k)
    ensures Get(Set(entries, key, value), k) == if k == key && HasKey(entries, key) then value else Get(entries, k)
  {
    if entries == [] {
    } else {
      var rest := entries[1..];
      GetAfterSet(rest, key, value, k);
      HasKeyCons(entries[0], rest, k);
      HasKeyCons(entries[0], rest, key);
      assert entries == [entries[0]] + rest;
      var first := if entries[0].key == key then Entry(key, value) else entries[0];
      assert Set(entries, key, value) == [first] + Set(rest, key, value);
      assert ([first] + Set(rest, key, value))[1..] == Set(rest, key, value);
      HasKeyCons(first, Set(rest, key, value), k);
    }
  }

  lemma HasKeyCons(e: Entry, rest: seq<Entry>, key: string)
    ensures HasKey([e] + rest, key) <==> e.key == key || HasKey(rest, key)
  {
    assert ([e] + rest)[0] == e && forall i :: 0 <= i < |rest| ==> ([e] + rest)[i + 1] == rest[i];
    if HasKey([e] + rest, key) && e.key != key {
      var i :| 0 <= i < |rest| + 1 && ([e] + rest)[i].key == key;
      assert rest[i - 1].key == key;
    }
  }

  lemma ProjectKeyGet(p: Patterns, entries: seq<Entry>, key: string, k: string)
    ensures HasKey(ProjectKey(p, entries, key), k) <==> HasKey(entries, k)
    ensures Get(ProjectKey(p, entries, key), k) ==
      if k == key && HasKey(entries, key) then List(SanitizedList(p, Get(entries, key))) else Get(entries, k)
  {
    GetAfterSet(entries, key, List(SanitizedList(p, Get(entries, key))), k);
  }

  /** The two row lists are replaced by sanitised rows; every other top-level key but finding_summary is kept. */
  lemma ProjectionReplacesRowLists(p: Patterns, entries: seq<Entry>, key: string)
    requires key != "finding_summary"
    ensures HasKey(Projected(p, entries), key) <==> HasKey(entries, key)
    ensures HasKey(entries, key) ==>
      Get(Projected(p, entries), key) ==
        if key == "mismatches" || key == "evidence" then List(SanitizedList(p, Get(entries, key))) else Get(entries, key)
  {
    var first := ProjectKey(p, entries, "mismatches");
    var second := ProjectKey(p, first, "evidence");
    ProjectKeyGet(p, entries, "mismatches", key);
    ProjectKeyGet(p, entries, "mismatches", "evidence");
    ProjectKeyGet(p, first, "evidence", key);
    var summary := Get(second, "finding_summary");
    if HasKey(second, "finding_summary") && summary.Dict? {
      GetAfterSet(second, "finding_summary", Dict(ProjectKey(p, summary.entries, "mismatches")), key);
    }
  }

  /** Inside a finding_summary dict only the mismatches are replaced. */
  lemma ProjectionReplacesSummaryRows(p: Patterns, entries: seq<Entry>, key: string)
    requires HasKey(entries, "finding_summary") && Get(entries, "finding_summary").Dict?
    ensures var was := Get(entries, "finding_summary").entries;
      var now := Get(Projected(p, entries), "finding_summary");
      && now.Dict?
      && (HasKey(now.entries, key) <==> HasKey(was, key))
      && (HasKey(was, key) ==>
          Get(now.entries, key) == if key == "mismatches" then List(SanitizedList(p, Get(was, key))) else Get(was, key))
  {
    var first := ProjectKey(p, entries, "mismatches");
    var second := ProjectKey(p, first, "evidence");
    ProjectKeyGet(p, entries, "mismatches", "finding_summary");
    ProjectKeyGet(p, first, "evidence", "finding_summary");
    var summary := Get(second, "finding_summary");
    GetAfterSet(second, "finding_summary", Dict(ProjectKey(p, summary.entries, "mismatches")), "finding_summary");
    ProjectKeyGet(p, summary.entries, "mismatches", key);
  }

  ghost predicate RowOnly(j: J) {
    && j.Dict? && |j.entries| == 3
    && j.entries[0].key == "path" && j.entries[1].key == "kind" && j.entries[2].key == "side"
  }

  lemma {:induction false} CleanRowsAreRows(p: Patterns, rows: seq<J>)
    ensures forall i :: 0 <= i < |CleanRows(RowCleaner(p), rows)| ==> RowOnly(CleanRows(RowCleaner(p), rows)[i])
  {
    if rows == [] {
    } else {
      CleanRowsAreRows(p, Front(rows));
    }
  }

  /** Whatever a caller puts under mismatches or evidence, at most twelve path/kind/side rows are left of it. */
  lemma SanitizedListHoldsRowsOnly(p: Patterns, rows: J)
    ensures |SanitizedList(p, rows)| <= MAX_MISMATCH_ROWS
    ensures forall i :: 0 <= i < |SanitizedList(p, rows)| ==> RowOnly(SanitizedList(p, rows)[i])
  {
    if rows.List? {
      CleanRowsAreRows(p, rows.items);
    }
  }
}
