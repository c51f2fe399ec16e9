/**
 The hash chain of the company audit log (dataruns/audit.py): what an entry's hash covers, the
 verifier loop, and what a chain that verifies tells about the history behind it.

 SHA-256, the JSON printer and the timestamp printer are parameters. Nothing is assumed of them
 here; each result names what it needs of them on the chains it speaks about.
*/
module AuditChain {
  import opened Prelude
  import opened AuditMetadata

  function Zeros(n: nat): (r: string)
    ensures |r| == n && forall c :: c in r ==> c == '0'
  {
    if n == 0 then "" else Zeros(n - 1) + ['0']
  }

  const GENESIS_HASH: string := Zeros(64)

  datatype Digests = Digests(sha256: string -> string, json: Metadata -> string, iso: int -> string)

  datatype Tone = Info | Risk | Loss | Revenue

  datatype Entry = Entry(
    id: nat, company: string, action: string, tone: Tone, summary: string, performedBy: string,
    actor: Option<nat>, metadata: Metadata, prevHash: string, entryHash: string, read: bool,
    createdAt: int)

  // ---------- what is hashed ----------

  function Join(parts: seq<string>): string {
    if parts == [] then ""
    else if |parts| == 1 then parts[0]
    else parts[0] + ['|'] + Join(parts[1..])
  }

  function Texts(e: Entry): seq<string> {
    [e.action, e.summary, e.performedBy]
  }

  function Payload(d: Digests, e: Entry): string {
    Join([e.prevHash, e.company] + Texts(e) + [d.iso(e.createdAt), d.json(e.metadata)])
  }

  function ComputeEntryHash(d: Digests, e: Entry): string {
    d.sha256(Payload(d, e))
  }

  /** Equal in everything the hash is meant to protect. */
  ghost predicate SameRecord(a: Entry, b: Entry) {
    a.company == b.company && Texts(a) == Texts(b) && a.createdAt == b.createdAt && a.metadata == b.metadata
  }

  ghost predicate SameHistory(a: seq<Entry>, b: seq<Entry>) {
    |a| == |b| && forall i :: 0 <= i < |a| ==> SameRecord(a[i], b[i])
  }

  // ---------- the verifier ----------

  datatype ChainError =
    | BrokenChain(id: nat, expected: string, got: string)
    | HashMismatch(id: nat, expected: string, got: string)

  /** The hash an entry at the end of es would have to point back to. */
  function FinalHash(es: seq<Entry>): string {
    if es == [] then GENESIS_HASH else Last(es).entryHash
  }

  function EntryErrors(d: Digests, expectedPrev: string, e: Entry): seq<ChainError> {
    (if e.prevHash != expectedPrev then [BrokenChain(e.id, expectedPrev, e.prevHash)] else [])
    + (if ComputeEntryHash(d, e) != e.entryHash
       then [HashMismatch(e.id, ComputeEntryHash(d, e), e.entryHash)] else [])
  }

  function Errors(d: Digests, es: seq<Entry>): seq<ChainError> {
    if es == [] then [] else Errors(d, Front(es)) + EntryErrors(d, FinalHash(Front(es)), Last(es))
  }

  /** The loop of verify_audit_chain_for_company over the entries in creation order. */
  method VerifyEntries(d: Digests, entries: seq<Entry>) returns (errors: seq<ChainError>)
    ensures errors == Errors(d, entries)
    ensures errors == [] <==> Intact(d, entries)
  {
    errors := [];
    var expectedPrev := GENESIS_HASH;
    for i := 0 to |entries|
      invariant expectedPrev == FinalHash(entries[..i])
      invariant errors == Errors(d, entries[..i])
    {
      var entry := entries[i];
      assert Front(entries[..i + 1]) == entries[..i];
      if entry.prevHash != expectedPrev {
        errors := errors + [BrokenChain(entry.id, expectedPrev, entry.prevHash)];
      }
      var recomputed := ComputeEntryHash(d, entry);
      if recomputed != entry.entryHash {
        errors := errors + [HashMismatch(entry.id, recomputed, entry.entryHash)];
      }
      expectedPrev := entry.entryHash;
    }
    assert entries[..|entries|] == entries;
    NoErrorsIffIntact(d, entries);
  }

  /** Every entry points to its predecessor and carries the hash of its own contents. */
  ghost predicate Intact(d: Digests, es: seq<Entry>) {
    forall i :: 0 <= i < |es| ==> Link(d, es, i)
  }

  ghost predicate Link(d: Digests, es: seq<Entry>, i: nat)
    requires i < |es|
  {
    && es[i].prevHash == (if i == 0 then GENESIS_HASH else es[i - 1].entryHash)
    && es[i].entryHash == ComputeEntryHash(d, es[i])
  }

  lemma {:induction false} NoErrorsIffIntact(d: Digests, es: seq<Entry>)
    ensures Errors(d, es) == [] <==> Intact(d, es)
  {
    if es == [] {
    } else {
      NoErrorsIffIntact(d, Front(es));
      IntactFront(d, es);
    }
  }

  /** The report for the entry at position i: a broken chain, a hash mismatch, or both in this order. */
  ghost predicate Reports(d: Digests, es: seq<Entry>, i: nat, report: seq<ChainError>)
    requires i < |es|
  {
    var expected := if i == 0 then GENESIS_HASH else es[i - 1].entryHash;
    var broken, mismatched := es[i].prevHash != expected, es[i].entryHash != ComputeEntryHash(d, es[i]);
    && |report| == (if broken then 1 else 0) + (if mismatched then 1 else 0)
    && (broken ==> report[0] == BrokenChain(es[i].id, expected, es[i].prevHash))
    && (mismatched ==> Last(report) == HashMismatch(es[i].id, ComputeEntryHash(d, es[i]), es[i].entryHash))
  }

  /** The errors are the reports for the entries, one after the other; one per entry, empty for a sound one. */
  lemma {:induction false} ErrorsAreReports(d: Digests, es: seq<Entry>) returns (reports: seq<seq<ChainError>>)
    ensures Errors(d, es) == Concat(reports) && |reports| == |es|
    ensures forall i :: 0 <= i < |es| ==> Reports(d, es, i, reports[i])
  {
    if es == [] {
      reports := [];
    } else {
      var f, report := Front(es), EntryErrors(d, FinalHash(Front(es)), Last(es));
      var before := ErrorsAreReports(d, f);
      reports := before + [report];
      ConcatSnoc(before, report);
      LastIsReported(d, es);
      forall i | 0 <= i < |es| ensures Reports(d, es, i, reports[i]) {
        if i < |f| {
          ReportStays(d, es, i, before[i]);
        }
      }
    }
  }

  lemma LastIsReported(d: Digests, es: seq<Entry>)
    requires es != []
    ensures Reports(d, es, |es| - 1, EntryErrors(d, FinalHash(Front(es)), Last(es)))
  {
  }

  lemma ReportStays(d: Digests, es: seq<Entry>, i: nat, report: seq<ChainError>)
    requires i + 1 < |es| && Reports(d, Front(es), i, report)
    ensures Reports(d, es, i, report)
  {
    assert Front(es)[i] == es[i];
    assert i > 0 ==> Front(es)[i - 1] == es[i - 1];
  }

  lemma IntactFront(d: Digests, es: seq<Entry>)
    requires es != []
    ensures Intact(d, es) <==>
      && Intact(d, Front(es))
      && Last(es).prevHash == FinalHash(Front(es))
      && Last(es).entryHash == ComputeEntryHash(d, Last(es))
  {
    var f := Front(es);
    if Intact(d, es) {
      assert Link(d, es, |es| - 1);
      forall i | 0 <= i < |f| ensures Link(d, f, i) {
        assert Link(d, es, i);
      }
    }
    if Intact(d, f) && Last(es).prevHash == FinalHash(f) && Last(es).entryHash == ComputeEntryHash(d, Last(es)) {
      forall i | 0 <= i < |es| ensures Link(d, es, i) {
        if i < |f| {
          assert Link(d, f, i);
        }
      }
    }
  }

  // ---------- splitting a joined payload ----------

  ghost predicate BarFree(s: string) {
    '|' !in s
  }

  lemma SplitAtBar(x: string, u: string, y: string, v: string)
    requires BarFree(x) && BarFree(y)
    requires x + ['|'] + u == y + ['|'] + v
    ensures x == y && u == v
  {
    var s, t := x + ['|'] + u, y + ['|'] + v;
    assert s[|x|] == '|' && t[|y|] == '|';
    assert forall k :: 0 <= k < |x| ==> s[k] == x[k] && x[k] in x;
    assert forall k :: 0 <= k < |y| ==> t[k] == y[k] && y[k] in y;
    assert |x| == |y|;
    assert x == s[..|x|] && y == t[..|y|];
    assert u == s[|x| + 1..] && v == t[|y| + 1..];
  }

  /** Joining is injective when no part but the last contains the separator. */
  lemma {:induction false} JoinInjective(a: seq<string>, b: seq<string>)
    requires |a| == |b| > 0
    requires forall i :: 0 <= i < |a| - 1 ==> BarFree(a[i]) && BarFree(b[i])
    requires Join(a) == Join(b)
    ensures a == b
  {
    if |a| > 1 {
      SplitAtBar(a[0], Join(a[1..]), b[0], Join(b[1..]));
      JoinInjective(a[1..], b[1..]);
      assert a == [a[0]] + a[1..] && b == [b[0]] + b[1..];
    }
  }

  // ---------- the last hash determines the history ----------

  /** Different times print differently, and neither timestamps nor hashes contain the separator. */
  ghost predicate FaithfulStamps(d: Digests) {
    && (forall t, t' :: d.iso(t) == d.iso(t') ==> t == t')
    && (forall t :: BarFree(d.iso(t)))
    && (forall s :: BarFree(d.sha256(s)))
  }

  ghost predicate NoClash(d: Digests, x: Entry, y: Entry) {
    ComputeEntryHash(d, x) == ComputeEntryHash(d, y) ==> Payload(d, x) == Payload(d, y)
  }

  /** No two different payloads, one from a and one from b, share a hash. */
  ghost predicate NoCollision(d: Digests, a: seq<Entry>, b: seq<Entry>) {
    forall x, y {:trigger NoClash(d, x, y)} :: x in a && y in b ==> NoClash(d, x, y)
  }

  ghost predicate PrintTells(d: Digests, x: Entry, y: Entry) {
    d.json(x.metadata) == d.json(y.metadata) ==> x.metadata == y.metadata
  }

  /** No two different metadata, one from a and one from b, print alike. */
  ghost predicate PrintsTell(d: Digests, a: seq<Entry>, b: seq<Entry>) {
    forall x, y {:trigger PrintTells(d, x, y)} :: x in a && y in b ==> PrintTells(d, x, y)
  }

  ghost predicate NeverGenesis(es: seq<Entry>) {
    forall e :: e in es ==> e.entryHash != GENESIS_HASH
  }

  ghost predicate Unambiguous(e: Entry) {
    forall t :: t in Texts(e) ==> BarFree(t)
  }

  /** If x and y were hashed from one payload, they are one record with one predecessor. */
  ghost predicate PayloadTells(d: Digests, x: Entry, y: Entry) {
    BarFree(x.prevHash) && BarFree(y.prevHash) && Payload(d, x) == Payload(d, y) ==>
      SameRecord(x, y) && x.prevHash == y.prevHash
  }

  ghost predicate PayloadsTell(d: Digests, a: seq<Entry>, b: seq<Entry>) {
    forall x, y {:trigger PayloadTells(d, x, y)} :: x in a && y in b ==> PayloadTells(d, x, y)
  }

  lemma PayloadDeterminesRecord(d: Digests, x: Entry, y: Entry)
    requires FaithfulStamps(d) && PrintTells(d, x, y)
    requires BarFree(x.company) && BarFree(y.company) && Unambiguous(x) && Unambiguous(y)
    ensures PayloadTells(d, x, y)
  {
    if BarFree(x.prevHash) && BarFree(y.prevHash) && Payload(d, x) == Payload(d, y) {
      var a := [x.prevHash, x.company] + Texts(x) + [d.iso(x.createdAt), d.json(x.metadata)];
      var b := [y.prevHash, y.company] + Texts(y) + [d.iso(y.createdAt), d.json(y.metadata)];
      assert x.action in Texts(x) && x.summary in Texts(x) && x.performedBy in Texts(x);
      assert y.action in Texts(y) && y.summary in Texts(y) && y.performedBy in Texts(y);
      JoinInjective(a, b);
      assert a[0] == b[0] && a[1] == b[1] && a[2] == b[2] && a[3] == b[3] && a[4] == b[4] && a[5] == b[5] && a[6] == b[6];
    }
  }

  lemma LinkedHashIsBarFree(d: Digests, es: seq<Entry>, n: nat)
    requires FaithfulStamps(d) && Intact(d, es) && n < |es|
    ensures BarFree(es[n].prevHash)
  {
    assert Link(d, es, n) && (n > 0 ==> Link(d, es, n - 1));
  }

  ghost predicate Plain(es: seq<Entry>) {
    forall e :: e in es ==> BarFree(e.company) && Unambiguous(e)
  }

  /** The hash the chain ends in after its first n entries. */
  function HashAfter(es: seq<Entry>, n: nat): string
    requires n <= |es|
  {
    if n == 0 then GENESIS_HASH else es[n - 1].entryHash
  }

  /** Equal hashes, at whatever positions, come from equal records with equal predecessors. */
  lemma SameHashSameRecord(d: Digests, a: seq<Entry>, b: seq<Entry>, i: nat, j: nat)
    requires FaithfulStamps(d) && Intact(d, a) && Intact(d, b)
    requires PayloadsTell(d, a, b) && NoCollision(d, a, b)
    requires i < |a| && j < |b| && a[i].entryHash == b[j].entryHash
    ensures SameRecord(a[i], b[j]) && HashAfter(a, i) == HashAfter(b, j)
  {
    assert Link(d, a, i) && Link(d, b, j);
    assert a[i] in a && b[j] in b && NoClash(d, a[i], b[j]) && PayloadTells(d, a[i], b[j]);
    LinkedHashIsBarFree(d, a, i);
    LinkedHashIsBarFree(d, b, j);
  }

  lemma {:induction false} SameHashSamePast(d: Digests, a: seq<Entry>, b: seq<Entry>, i: nat, j: nat)
    requires FaithfulStamps(d) && Intact(d, a) && Intact(d, b)
    requires PayloadsTell(d, a, b) && NoCollision(d, a, b) && NeverGenesis(a) && NeverGenesis(b)
    requires i <= |a| && j <= |b| && HashAfter(a, i) == HashAfter(b, j)
    ensures i == j && forall k :: 0 <= k < i ==> SameRecord(a[k], b[k])
  {
    assert (i > 0 ==> a[i - 1] in a) && (j > 0 ==> b[j - 1] in b);
    if i > 0 && j > 0 {
      SameHashSameRecord(d, a, b, i - 1, j - 1);
      SameHashSamePast(d, a, b, i - 1, j - 1);
    }
  }

  /** Two chains that verify and end in the same hash tell the same history, entry by entry. */
  lemma LastHashDeterminesHistory(d: Digests, a: seq<Entry>, b: seq<Entry>)
    requires FaithfulStamps(d)
    requires Errors(d, a) == [] && Errors(d, b) == []
    requires Plain(a) && Plain(b) && PrintsTell(d, a, b)
    requires NoCollision(d, a, b) && NeverGenesis(a) && NeverGenesis(b)
    requires FinalHash(a) == FinalHash(b)
    ensures SameHistory(a, b)
  {
    NoErrorsIffIntact(d, a);
    NoErrorsIffIntact(d, b);
    forall x, y | x in a && y in b ensures PayloadTells(d, x, y) {
      assert PrintTells(d, x, y);
      PayloadDeterminesRecord(d, x, y);
    }
    SameHashSamePast(d, a, b, |a|, |b|);
  }

  // ---------- exactly when the texts are protected ----------

  function Bars(s: string): nat {
    if s == "" then 0 else (if s[0] == '|' then 1 else 0) + Bars(s[1..])
  }

  lemma {:induction false} BarsAdd(a: string, b: string)
    ensures Bars(a + b) == Bars(a) + Bars(b)
  {
    if a == "" {
      assert a + b == b;
    } else {
      assert (a + b)[1..] == a[1..] + b;
      BarsAdd(a[1..], b);
    }
  }

  lemma {:induction false} BarFreeIffNoBars(s: string)
    ensures BarFree(s) <==> Bars(s) == 0
  {
    if s == "" {
    } else {
      BarFreeIffNoBars(s[1..]);
      assert s == [s[0]] + s[1..];
    }
  }

  function TextLine(e: Entry): string {
    e.action + ['|'] + e.summary + ['|'] + e.performedBy
  }

  lemma TextLineBars(e: Entry)
    ensures Bars(TextLine(e)) == 2 + Bars(e.action) + Bars(e.summary) + Bars(e.performedBy)
  {
    assert Bars(['|']) == 1;
    BarsAdd(e.action, ['|']);
    BarsAdd(e.action + ['|'], e.summary);
    BarsAdd(e.action + ['|'] + e.summary, ['|']);
    BarsAdd(e.action + ['|'] + e.summary + ['|'], e.performedBy);
  }

  lemma UnambiguousIffNoBars(e: Entry)
    ensures Unambiguous(e) <==> Bars(e.action) == Bars(e.summary) == Bars(e.performedBy) == 0
  {
    BarFreeIffNoBars(e.action);
    BarFreeIffNoBars(e.summary);
    BarFreeIffNoBars(e.performedBy);
    var t := Texts(e);
    assert t[0] == e.action && t[1] == e.summary && t[2] == e.performedBy;
  }

  function Tail(d: Digests, e: Entry): string {
    ['|'] + Join([d.iso(e.createdAt), d.json(e.metadata)])
  }

  lemma JoinCons(x: string, rest: seq<string>)
    requires rest != []
    ensures Join([x] + rest) == x + ['|'] + Join(rest)
  {
    assert ([x] + rest)[1..] == rest;
  }

  lemma Regroup(u: string, x: string, y: string)
    ensures u + (x + ['|'] + y) == u + x + ['|'] + y
  {
  }

  lemma PayloadShape(d: Digests, e: Entry)
    ensures Payload(d, e) == e.prevHash + ['|'] + (e.company + ['|'] + (TextLine(e) + Tail(d, e)))
  {
    var end := [d.iso(e.createdAt), d.json(e.metadata)];
    var p3 := [e.performedBy] + end;
    var p2 := [e.summary] + p3;
    var p1 := [e.action] + p2;
    JoinCons(e.performedBy, end);
    JoinCons(e.summary, p3);
    JoinCons(e.action, p2);
    JoinCons(e.company, p1);
    JoinCons(e.prevHash, [e.company] + p1);
    assert [e.prevHash, e.company] + Texts(e) + end == [e.prevHash] + ([e.company] + p1);
    Regroup(e.action + ['|'], e.summary, Join(p3));
    Regroup(e.action + ['|'] + e.summary + ['|'], e.performedBy, Join(end));
    assert TextLine(e) + Tail(d, e) == TextLine(e) + ['|'] + Join(end);
  }

  ghost function FirstBar(s: string): (k: nat)
    requires !BarFree(s)
    ensures k < |s| && s[k] == '|' && s == s[..k] + ['|'] + s[k + 1..]
  {
    var k :| 0 <= k < |s| && s[k] == '|';
    k
  }

  /** The same line of text, cut at another bar. */
  ghost function Resplit(e: Entry): (r: Entry)
    requires !Unambiguous(e)
    ensures TextLine(r) == TextLine(e) && Texts(r) != Texts(e)
    ensures r == e.(action := r.action, summary := r.summary, performedBy := r.performedBy)
  {
    var a, s, p := e.action, e.summary, e.performedBy;
    if !BarFree(a) then
      var k := FirstBar(a);
      var r := e.(action := a[..k], summary := a[k + 1..] + ['|'] + s);
      Regroup(a[..k] + ['|'], a[k + 1..], s);
      assert Texts(r)[0] != Texts(e)[0];
      r
    else if !BarFree(s) then
      var k := FirstBar(s);
      var r := e.(summary := s[..k], performedBy := s[k + 1..] + ['|'] + p);
      Regroup(a + ['|'], s[..k], s[k + 1..]);
      Regroup(a + ['|'] + s[..k] + ['|'], s[k + 1..], p);
      assert Texts(r)[1] != Texts(e)[1];
      r
    else
      var k := FirstBar(p);
      var r := e.(summary := s + ['|'] + p[..k], performedBy := p[k + 1..]);
      Regroup(a + ['|'] + s + ['|'], p[..k], p[k + 1..]);
      Regroup(a + ['|'], s, p[..k]);
      assert Texts(r)[1] != Texts(e)[1];
      r
  }

  lemma OneTextLine(x: Entry, y: Entry)
    requires Unambiguous(x) && TextLine(x) == TextLine(y)
    ensures Texts(x) == Texts(y)
  {
    TextLineBars(x);
    TextLineBars(y);
    UnambiguousIffNoBars(x);
    UnambiguousIffNoBars(y);
    assert x.action == Texts(x)[0] && x.summary == Texts(x)[1] && y.action == Texts(y)[0] && y.summary == Texts(y)[1];
    Regroup(x.action + ['|'], x.summary, x.performedBy);
    Regroup(y.action + ['|'], y.summary, y.performedBy);
    SplitAtBar(x.action, x.summary + ['|'] + x.performedBy, y.action, y.summary + ['|'] + y.performedBy);
    SplitAtBar(x.summary, x.performedBy, y.summary, y.performedBy);
  }

  /** What follows a bar of p is never q. */
  ghost predicate Unnested(p: string, q: string) {
    forall k :: 0 <= k < |p| && p[k] == '|' ==> p[k + 1..] != q
  }

  /** Splitting off a last part that may contain bars itself. */
  lemma SplitAtLastPart(u: string, p: string, v: string, q: string)
    requires Unnested(p, q) && Unnested(q, p)
    requires u + ['|'] + p == v + ['|'] + q
    ensures u == v && p == q
  {
    if |p| > |q| {
      LongerLastPartNests(u, p, v, q);
    } else if |q| > |p| {
      LongerLastPartNests(v, q, u, p);
    } else {
      assert u == (u + ['|'] + p)[..|u|] && v == (v + ['|'] + q)[..|v|];
      assert p == (u + ['|'] + p)[|u| + 1..] && q == (v + ['|'] + q)[|v| + 1..];
    }
  }

  lemma LongerLastPartNests(u: string, p: string, v: string, q: string)
    requires u + ['|'] + p == v + ['|'] + q && |p| > |q|
    ensures !Unnested(p, q)
  {
    var s, t, k := u + ['|'] + p, v + ['|'] + q, |p| - |q| - 1;
    assert p == s[|u| + 1..] && q == t[|v| + 1..];
    assert p[k] == s[|u| + 1 + k] == t[|v|] == '|';
    assert p[k + 1..] == s[|u| + 1 + k + 1..];
  }

  ghost predicate PrintApart(d: Digests, x: Entry, y: Entry) {
    && PrintTells(d, x, y)
    && Unnested(d.json(x.metadata), d.json(y.metadata)) && Unnested(d.json(y.metadata), d.json(x.metadata))
  }

  /** Printed metadata of a and b differ if the metadata do, and never end in a bar and one another. */
  ghost predicate PrintsApart(d: Digests, a: seq<Entry>, b: seq<Entry>) {
    forall x, y {:trigger PrintApart(d, x, y)} :: x in a && y in b ==> PrintApart(d, x, y)
  }

  /** An entry without bars in its texts shares its payload with no other record, whatever that one's texts. */
  lemma OneReading(d: Digests, x: Entry, y: Entry)
    requires FaithfulStamps(d) && PrintApart(d, x, y)
    requires BarFree(x.company) && BarFree(y.company) && Unambiguous(x)
    ensures PayloadTells(d, x, y)
  {
    if BarFree(x.prevHash) && BarFree(y.prevHash) && Payload(d, x) == Payload(d, y) {
      PayloadShape(d, x);
      PayloadShape(d, y);
      var lx, ly := TextLine(x), TextLine(y);
      var ix, iy, jx, jy := d.iso(x.createdAt), d.iso(y.createdAt), d.json(x.metadata), d.json(y.metadata);
      SplitAtBar(x.prevHash, x.company + ['|'] + (lx + Tail(d, x)), y.prevHash, y.company + ['|'] + (ly + Tail(d, y)));
      SplitAtBar(x.company, lx + Tail(d, x), y.company, ly + Tail(d, y));
      TailShape(d, x, lx);
      TailShape(d, y, ly);
      SplitAtLastPart(lx + ['|'] + ix, jx, ly + ['|'] + iy, jy);
      SplitAtLastPart(lx, ix, ly, iy);
      OneTextLine(x, y);
    }
  }

  lemma TailShape(d: Digests, e: Entry, line: string)
    ensures line + Tail(d, e) == line + ['|'] + d.iso(e.createdAt) + ['|'] + d.json(e.metadata)
  {
    JoinCons(d.iso(e.createdAt), [d.json(e.metadata)]);
    assert [d.iso(e.createdAt)] + [d.json(e.metadata)] == [d.iso(e.createdAt), d.json(e.metadata)];
  }

  /**
   Any chain that verifies and ends in the same hash as es, of whatever length and contents. That the hash
   and the printer tell the two apart where they differ is all that is asked of it besides.
  */
  ghost predicate Rival(d: Digests, es: seq<Entry>, other: seq<Entry>) {
    && Errors(d, other) == [] && FinalHash(other) == FinalHash(es)
    && NeverGenesis(other) && NoCollision(d, es, other) && PrintsApart(d, es, other)
    && forall e :: e in other ==> BarFree(e.company)
  }

  /** The texts of one of two chains being without bars is enough for the last hash to tell them apart. */
  lemma UnambiguousChainHasOneReading(d: Digests, es: seq<Entry>, other: seq<Entry>)
    requires FaithfulStamps(d) && Errors(d, es) == [] && NeverGenesis(es)
    requires Plain(es) && Rival(d, es, other)
    ensures SameHistory(es, other)
  {
    NoErrorsIffIntact(d, es);
    NoErrorsIffIntact(d, other);
    forall x, y | x in es && y in other ensures PayloadTells(d, x, y) {
      assert PrintApart(d, x, y);
      OneReading(d, x, y);
    }
    SameHashSamePast(d, es, other, |es|, |other|);
  }

  lemma SubstituteKeepsLinks(d: Digests, es: seq<Entry>, i: nat, r: Entry)
    requires Intact(d, es) && i < |es| && Payload(d, r) == Payload(d, es[i])
    requires r.prevHash == es[i].prevHash && r.entryHash == es[i].entryHash
    ensures Intact(d, es[i := r]) && FinalHash(es[i := r]) == FinalHash(es)
  {
    var other := es[i := r];
    forall j | 0 <= j < |other| ensures Link(d, other, j) {
      assert Link(d, es, j);
    }
  }

  /** A bar in one entry's texts lets the same hashes vouch for a different history. */
  lemma AmbiguousChainHasAnotherReading(d: Digests, es: seq<Entry>, i: nat) returns (other: seq<Entry>)
    requires Errors(d, es) == [] && NeverGenesis(es) && NoCollision(d, es, es) && PrintsApart(d, es, es)
    requires forall e :: e in es ==> BarFree(e.company)
    requires i < |es| && !Unambiguous(es[i])
    ensures Rival(d, es, other) && !SameHistory(es, other)
  {
    var r := Resplit(es[i]);
    PayloadShape(d, r);
    PayloadShape(d, es[i]);
    NoErrorsIffIntact(d, es);
    SubstituteKeepsLinks(d, es, i, r);
    other := es[i := r];
    NoErrorsIffIntact(d, other);
    assert !SameRecord(es[i], other[i]);
    forall y | y in other
      ensures y.entryHash != GENESIS_HASH && BarFree(y.company)
      ensures forall x :: x in es ==> NoClash(d, x, y) && PrintApart(d, x, y)
    {
      var k :| 0 <= k < |other| && other[k] == y;
      assert es[k] in es;
      forall x | x in es ensures NoClash(d, x, y) && PrintApart(d, x, y) {
        assert NoClash(d, x, es[k]) && PrintApart(d, x, es[k]);
      }
    }
  }

  /**
   The exact condition under which the final hash protects a verified chain: no action, summary or
   performer contains the separator. Then no other history verifies and ends in that hash; otherwise one does.
  */
  lemma ChainProtectedIffUnambiguous(d: Digests, es: seq<Entry>)
    requires FaithfulStamps(d)
    requires Errors(d, es) == [] && NeverGenesis(es) && NoCollision(d, es, es) && PrintsApart(d, es, es)
    requires forall e :: e in es ==> BarFree(e.company)
    ensures (forall other :: Rival(d, es, other) ==> SameHistory(es, other))
       <==> (forall e :: e in es ==> Unambiguous(e))
  {
    if e :| e in es && !Unambiguous(e) {
      var i :| 0 <= i < |es| && es[i] == e;
      var other := AmbiguousChainHasAnotherReading(d, es, i);
    } else {
      forall other | Rival(d, es, other) ensures SameHistory(es, other) {
        UnambiguousChainHasOneReading(d, es, other);
      }
    }
  }

  // ---------- the hypotheses above can be met ----------

  // A toy hash, printer and clock: enough for a chain of two entries.

  function ToyHash(s: string): (r: string)
    ensures |r| == |s| + 1 && BarFree(r) && r != GENESIS_HASH
  {
    var r := ['1'] + Zeros(|s|);
    assert '1' in r;
    r
  }

  function ToyPrint(m: Metadata): string {
    if m == map[] then "{}" else "{1}"
  }

  function ToyTime(t: int): (r: string)
    ensures BarFree(r)
  {
    if t >= 0 then ['a'] + Zeros(t) else ['b'] + Zeros(-t)
  }

  lemma ToyTimesDiffer(t: int, t': int)
    requires ToyTime(t) == ToyTime(t')
    ensures t == t'
  {
    assert ToyTime(t)[0] == ToyTime(t')[0] && |ToyTime(t)| == |ToyTime(t')|;
  }

  function Toy(): Digests {
    Digests(ToyHash, ToyPrint, ToyTime)
  }

  lemma ToyIsFaithful()
    ensures FaithfulStamps(Toy())
  {
    forall t, t' | Toy().iso(t) == Toy().iso(t') ensures t == t' {
      ToyTimesDiffer(t, t');
    }
  }

  /** An entry with this previous hash, summary and metadata, carrying its own hash. */
  lemma ToyEntry(prev: string, summary: string, m: Metadata) returns (e: Entry)
    ensures e.prevHash == prev && e.summary == summary && e.metadata == m
    ensures e.entryHash == ComputeEntryHash(Toy(), e) && |e.entryHash| > |prev| && e.entryHash != GENESIS_HASH
    ensures BarFree(e.company) && (Unambiguous(e) <==> BarFree(summary))
  {
    e := Entry(0, "c", "a", Info, summary, "p", None, m, prev, "", false, 0);
    e := e.(entryHash := ComputeEntryHash(Toy(), e));
    assert Payload(Toy(), e) == Payload(Toy(), e.(entryHash := ""));
    PayloadShape(Toy(), e);
    assert Texts(e) == ["a", summary, "p"] && summary in Texts(e);
  }

  /** The hypotheses contradict neither each other nor a chain with different metadata, with bars or without. */
  lemma HypothesesCanBeMet(summary: string, m: Metadata) returns (es: seq<Entry>)
    requires m != map[]
    ensures FaithfulStamps(Toy()) && Errors(Toy(), es) == [] && NeverGenesis(es)
    ensures NoCollision(Toy(), es, es) && PrintsTell(Toy(), es, es) && PrintsApart(Toy(), es, es)
    ensures |es| == 2 && es[0].metadata == map[] && es[1].metadata == m
    ensures forall e :: e in es ==> BarFree(e.company)
    ensures (forall e :: e in es ==> Unambiguous(e)) <==> BarFree(summary)
  {
    ToyIsFaithful();
    var x := ToyEntry(GENESIS_HASH, summary, map[]);
    var y := ToyEntry(x.entryHash, summary, m);
    es := [x, y];
    ChainOfTwo(Toy(), x, y);
    ToyApart(x, y);
    ToyApart(y, x);
    ToyApart(x, x);
    ToyApart(y, y);
    PairsOfTwo(Toy(), x, y);
    BothOfTwo(x, y);
  }

  lemma BothOfTwo(x: Entry, y: Entry)
    requires BarFree(x.company) && BarFree(y.company) && (Unambiguous(x) <==> Unambiguous(y))
    requires x.entryHash != GENESIS_HASH && y.entryHash != GENESIS_HASH
    ensures NeverGenesis([x, y]) && forall e :: e in [x, y] ==> BarFree(e.company)
    ensures (forall e :: e in [x, y] ==> Unambiguous(e)) <==> Unambiguous(x)
  {
    assert x in [x, y];
  }

  lemma ChainOfTwo(d: Digests, x: Entry, y: Entry)
    requires x.prevHash == GENESIS_HASH && x.entryHash == ComputeEntryHash(d, x)
    requires y.prevHash == x.entryHash && y.entryHash == ComputeEntryHash(d, y)
    ensures Errors(d, [x, y]) == []
  {
    assert Link(d, [x, y], 0) && Link(d, [x, y], 1);
    NoErrorsIffIntact(d, [x, y]);
  }

  lemma PairsOfTwo(d: Digests, x: Entry, y: Entry)
    requires NoClash(d, x, x) && NoClash(d, x, y) && NoClash(d, y, x) && NoClash(d, y, y)
    requires PrintApart(d, x, x) && PrintApart(d, x, y) && PrintApart(d, y, x) && PrintApart(d, y, y)
    ensures var es := [x, y]; NoCollision(d, es, es) && PrintsTell(d, es, es) && PrintsApart(d, es, es)
  {
  }

  lemma ToyApart(x: Entry, y: Entry)
    requires x.entryHash == ComputeEntryHash(Toy(), x) && y.entryHash == ComputeEntryHash(Toy(), y)
    requires x == y || (x.entryHash != y.entryHash && (x.metadata == map[] <==> y.metadata != map[]))
    ensures NoClash(Toy(), x, y) && PrintTells(Toy(), x, y) && PrintApart(Toy(), x, y)
  {
  }

  // ---------- removing, repeating and reordering entries ----------

  ghost predicate DistinctHashes(es: seq<Entry>) {
    forall i, j :: 0 <= i < j < |es| ==> es[i].entryHash != es[j].entryHash
  }

  function Pick(es: seq<Entry>, indices: seq<nat>): (r: seq<Entry>)
    requires forall k :: 0 <= k < |indices| ==> indices[k] < |es|
    ensures |r| == |indices|
    ensures forall k :: 0 <= k < |indices| ==> r[k] == es[indices[k]]
  {
    seq(|indices|, k requires 0 <= k < |indices| => es[indices[k]])
  }

  /**
   Of all the ways to drop, repeat and reorder entries of a verified chain, the verifier accepts
   exactly the prefixes.
  */
  lemma SelectionVerifiesIffPrefix(d: Digests, es: seq<Entry>, indices: seq<nat>)
    requires Errors(d, es) == [] && DistinctHashes(es) && NeverGenesis(es)
    requires forall k :: 0 <= k < |indices| ==> indices[k] < |es|
    ensures Errors(d, Pick(es, indices)) == [] <==> forall k :: 0 <= k < |indices| ==> indices[k] == k
  {
    NoErrorsIffIntact(d, es);
    NoErrorsIffIntact(d, Pick(es, indices));
    if j :| 0 <= j < |indices| && indices[j] != j {
      FirstMisplacedBreaks(d, es, indices, 0, j);
    } else if indices != [] {
      assert indices[|indices| - 1] == |indices| - 1;
      PrefixIsIntact(d, es, |indices|);
      assert Pick(es, indices) == es[..|indices|];
    }
  }

  lemma PrefixIsIntact(d: Digests, es: seq<Entry>, n: nat)
    requires Intact(d, es) && n <= |es|
    ensures Intact(d, es[..n])
  {
    forall k | 0 <= k < n ensures Link(d, es[..n], k) {
      assert Link(d, es, k);
    }
  }

  lemma {:induction false} FirstMisplacedBreaks(d: Digests, es: seq<Entry>, indices: seq<nat>, k: nat, j: nat)
    requires Intact(d, es) && DistinctHashes(es) && NeverGenesis(es)
    requires forall i :: 0 <= i < |indices| ==> indices[i] < |es|
    requires k <= j < |indices| && indices[j] != j
    requires k > 0 ==> indices[k - 1] == k - 1
    ensures !Intact(d, Pick(es, indices))
    decreases j - k
  {
    if indices[k] == k {
      FirstMisplacedBreaks(d, es, indices, k + 1, j);
    } else {
      var picked, n := Pick(es, indices), indices[k];
      assert Link(d, es, n);
      if n > 0 {
        assert es[n - 1] in es;
      }
      if k > 0 {
        assert picked[k - 1] == es[k - 1] && es[k - 1] in es;
      }
      assert !Link(d, picked, k);
    }
  }
}
