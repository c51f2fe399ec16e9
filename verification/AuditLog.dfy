/**
 The audit log table shared by all companies (dataruns/audit.py): appending, marking read, and
 the order in which a company's entries are read back.
*/
module AuditLog {
  import opened Prelude
  import opened AuditMetadata
  import opened AuditChain

  /** What a caller passes to append_audit_event. */
  datatype Event = Event(
    company: string, action: string, tone: Tone, summary: string, performedBy: string,
    actor: Option<nat>, metadata: Option<Metadata>)

  // ---------- reading in creation order ----------

  /** The order of order_by("created_at", "id"). */
  predicate Before(x: Entry, y: Entry) {
    x.createdAt < y.createdAt || (x.createdAt == y.createdAt && x.id < y.id)
  }

  function InsertByTime(es: seq<Entry>, e: Entry): seq<Entry> {
    if es == [] || Before(Last(es), e) then es + [e] else InsertByTime(Front(es), e) + [Last(es)]
  }

  /** One company's entries, ordered by creation time and then id. */
  function Timeline(rows: seq<Entry>, company: string): seq<Entry> {
    if rows == [] then []
    else if Last(rows).company == company then InsertByTime(Timeline(Front(rows), company), Last(rows))
    else Timeline(Front(rows), company)
  }

  ghost predicate Chronological(es: seq<Entry>) {
    forall i, j :: 0 <= i < j < |es| ==> Before(es[i], es[j])
  }

  /** Primary keys are unique. */
  ghost predicate DistinctIds(rows: seq<Entry>) {
    forall i, j :: 0 <= i < j < |rows| ==> rows[i].id != rows[j].id
  }

  lemma {:induction false} InsertByTimeKeeps(es: seq<Entry>, e: Entry)
    ensures multiset(InsertByTime(es, e)) == multiset(es) + multiset{e}
  {
    if es == [] {
    } else {
      assert es == Front(es) + [Last(es)];
      if !Before(Last(es), e) {
        InsertByTimeKeeps(Front(es), e);
      }
    }
  }

  lemma InsertByTimeMembers(es: seq<Entry>, e: Entry)
    ensures forall x :: x in InsertByTime(es, e) <==> x in es || x == e
  {
    InsertByTimeKeeps(es, e);
    forall x ensures x in InsertByTime(es, e) <==> x in es || x == e {
      assert x in multiset(InsertByTime(es, e)) <==> x in multiset(es) + multiset{e};
    }
  }

  lemma {:induction false} InsertByTimeChronological(es: seq<Entry>, e: Entry)
    requires Chronological(es) && forall x :: x in es ==> x.id != e.id
    ensures Chronological(InsertByTime(es, e))
  {
    if es == [] {
    } else if Before(Last(es), e) {
      forall i | 0 <= i < |es| ensures Before(es[i], e) {
        assert i == |es| - 1 || Before(es[i], Last(es));
      }
    } else {
      var f := Front(es);
      InsertByTimeChronological(f, e);
      InsertByTimeMembers(f, e);
      assert Last(es) in es;
      forall x | x in InsertByTime(f, e) ensures Before(x, Last(es)) {
        if x != e {
          var i :| 0 <= i < |f| && es[i] == x;
        }
      }
    }
  }

  function Of(company: string): Entry -> bool {
    (e: Entry) => e.company == company
  }

  /** Reading back returns the company's rows, all of them, each once, oldest first. */
  lemma {:induction false} TimelineSortsTheCompanysRows(rows: seq<Entry>, company: string)
    ensures multiset(Timeline(rows, company)) == multiset(Filter(rows, Of(company)))
    ensures DistinctIds(rows) ==> Chronological(Timeline(rows, company))
  {
    if rows == [] {
    } else {
      var f, e := Front(rows), Last(rows);
      TimelineSortsTheCompanysRows(f, company);
      var t := Timeline(f, company);
      if e.company == company {
        InsertByTimeKeeps(t, e);
        if DistinctIds(rows) {
          forall x | x in t ensures x.id != e.id {
            assert x in multiset(t);
            assert x in f;
            var i :| 0 <= i < |f| && f[i] == x;
            assert rows[i].id != rows[|rows| - 1].id;
          }
          InsertByTimeChronological(t, e);
        }
      }
    }
  }

  lemma TimelineMembers(rows: seq<Entry>, company: string, e: Entry)
    ensures e in Timeline(rows, company) <==> e in rows && e.company == company
  {
    TimelineSortsTheCompanysRows(rows, company);
    var ours := Filter(rows, Of(company));
    assert e in Timeline(rows, company) <==> e in multiset(Timeline(rows, company));
    assert e in ours <==> e in multiset(ours);
  }

  // ---------- the table and its writers ----------

  /** The row append_audit_event builds; t is the clock reading, id the fresh primary key. */
  function NewEntry(d: Digests, rows: seq<Entry>, ev: Event, id: nat, t: int): Entry {
    var e := Entry(
      id, ev.company, ev.action, ev.tone, ev.summary, ev.performedBy, ev.actor,
      if ev.metadata.Some? then Sanitize(ev.metadata.value) else map[],
      FinalHash(Timeline(rows, ev.company)), "", false, t);
    e.(entryHash := ComputeEntryHash(d, e))
  }

  /** The row says what the event said, with its public metadata and no other; it is unread. */
  ghost predicate Tells(e: Entry, ev: Event, id: nat, t: int) {
    && e.id == id && e.createdAt == t && !e.read
    && e.company == ev.company && e.action == ev.action && e.tone == ev.tone && e.summary == ev.summary
    && e.performedBy == ev.performedBy && e.actor == ev.actor
    && Clean(e.metadata)
    && forall path ::
         LeafAt(e.metadata, path) == if ev.metadata.Some? && NoSecret(path) then LeafAt(ev.metadata.value, path) else None
  }

  lemma NewEntryTells(d: Digests, rows: seq<Entry>, ev: Event, id: nat, t: int)
    ensures Tells(NewEntry(d, rows, ev, id, t), ev, id, t)
  {
    var e := NewEntry(d, rows, ev, id, t);
    if ev.metadata.Some? {
      SanitizeIsClean(ev.metadata.value);
      forall path ensures LeafAt(e.metadata, path) == if NoSecret(path) then LeafAt(ev.metadata.value, path) else None {
        SanitizeKeepsExactlyPublicLeaves(ev.metadata.value, path);
      }
    }
  }

  /** The constraints on (company, entry_hash) and on the primary key. */
  predicate Insertable(rows: seq<Entry>, e: Entry) {
    forall r :: r in rows ==> r.id != e.id && !(r.company == e.company && r.entryHash == e.entryHash)
  }

  function MarkRead(rows: seq<Entry>, which: Entry -> bool): (r: seq<Entry>)
    ensures |r| == |rows|
    ensures forall i :: 0 <= i < |rows| ==> r[i] == if which(rows[i]) then rows[i].(read := true) else rows[i]
  {
    if rows == [] then []
    else MarkRead(Front(rows), which) + [if which(Last(rows)) then Last(rows).(read := true) else Last(rows)]
  }

  function Unread(company: string): Entry -> bool {
    (e: Entry) => e.company == company && !e.read
  }

  function Named(company: string, id: nat): Entry -> bool {
    (e: Entry) => e.company == company && e.id == id
  }

  datatype Step =
    | Append(event: Event, id: nat, now: int)
    | MarkAll(company: string)
    | MarkOne(company: string, id: nat)

  function Apply(d: Digests, rows: seq<Entry>, step: Step): seq<Entry> {
    match step
    case Append(ev, id, t) =>
      var e := NewEntry(d, rows, ev, id, t);
      if Insertable(rows, e) then rows + [e] else rows
    case MarkAll(company) => MarkRead(rows, Unread(company))
    case MarkOne(company, id) => MarkRead(rows, Named(company, id))
  }

  function Run(d: Digests, steps: seq<Step>): seq<Entry> {
    if steps == [] then [] else Apply(d, Run(d, Front(steps)), Last(steps))
  }

  class AuditStore {
    var rows: seq<Entry>

    constructor ()
      ensures rows == []
    {
      rows := [];
    }

    method AppendAuditEvent(d: Digests, ev: Event, id: nat, now: int) returns (created: Option<Entry>)
      modifies this
      ensures rows == Apply(d, old(rows), Append(ev, id, now))
      ensures created.Some? ==> rows == old(rows) + [created.value] && Tells(created.value, ev, id, now)
      ensures created.None? ==> rows == old(rows)
      ensures Constrained(old(rows)) ==> Constrained(rows)
      ensures Constrained(old(rows)) ==>
        (created.Some? <==> Constrained(old(rows) + [NewEntry(d, old(rows), ev, id, now)]))
    {
      NewEntryTells(d, rows, ev, id, now);
      if Constrained(rows) {
        InsertableIffConstraintsStay(rows, NewEntry(d, rows, ev, id, now));
      }
      var safe := SanitizeAuditMetadata(ev.metadata);
      var mine := Timeline(rows, ev.company);
      var prev := if mine != [] then mine[|mine| - 1].entryHash else GENESIS_HASH;
      var e := Entry(id, ev.company, ev.action, ev.tone, ev.summary, ev.performedBy, ev.actor, safe, prev, "", false, now);
      e := e.(entryHash := ComputeEntryHash(d, e));
      if !Insertable(rows, e) {
        return None;
      }
      rows := rows + [e];
      created := Some(e);
    }

    method MarkAllAuditEventsRead(company: string) returns (updated: nat)
      modifies this
      ensures updated == |set i | 0 <= i < |old(rows)| && old(rows)[i].company == company && !old(rows)[i].read|
      ensures rows == MarkRead(old(rows), Unread(company)) && |rows| == |old(rows)|
      ensures forall i :: 0 <= i < |rows| ==>
        rows[i] == if old(rows)[i].company == company then old(rows)[i].(read := true) else old(rows)[i]
    {
      FilterCounts(rows, Unread(company));
      assert Positions(rows, Unread(company)) ==
        set i | 0 <= i < |rows| && rows[i].company == company && !rows[i].read;
      updated := |Filter(rows, Unread(company))|;
      rows := MarkRead(rows, Unread(company));
    }

    /** found is false when the company has no such event. */
    method MarkAuditEventRead(company: string, id: nat) returns (found: bool)
      modifies this
      ensures rows == MarkRead(old(rows), Named(company, id)) && |rows| == |old(rows)|
      ensures forall i :: 0 <= i < |rows| ==>
        var e := old(rows)[i]; rows[i] == if e.company == company && e.id == id then e.(read := true) else e
      ensures found <==> exists e :: e in old(rows) && e.company == company && e.id == id
    {
      found := exists e :: e in rows && e.company == company && e.id == id;
      if found {
        rows := MarkRead(rows, Named(company, id));
      } else {
        MarkNothing(rows, Named(company, id));
      }
    }

    method VerifyAuditChainForCompany(d: Digests, company: string) returns (errors: seq<ChainError>)
      ensures errors == Errors(d, Timeline(rows, company))
    {
      errors := VerifyEntries(d, Timeline(rows, company));
    }
  }

  lemma MarkNothing(rows: seq<Entry>, which: Entry -> bool)
    requires forall e :: e in rows ==> !which(e)
    ensures MarkRead(rows, which) == rows
  {
  }

  // ---------- marking read leaves every chain as it was ----------

  ghost predicate SameButRead(a: seq<Entry>, b: seq<Entry>) {
    |a| == |b| && forall i :: 0 <= i < |a| ==> a[i] == b[i].(read := a[i].read)
  }

  lemma {:induction false} InsertSameButRead(a: seq<Entry>, b: seq<Entry>, x: Entry, y: Entry)
    requires SameButRead(a, b) && x == y.(read := x.read)
    ensures SameButRead(InsertByTime(a, x), InsertByTime(b, y))
  {
    if a == [] {
    } else {
      assert Last(a) == Last(b).(read := Last(a).read);
      if !Before(Last(a), x) {
        InsertSameButRead(Front(a), Front(b), x, y);
      }
    }
  }

  lemma {:induction false} TimelineSameButRead(a: seq<Entry>, b: seq<Entry>, company: string)
    requires SameButRead(a, b)
    ensures SameButRead(Timeline(a, company), Timeline(b, company))
  {
    if a == [] {
    } else {
      assert Last(a) == Last(b).(read := Last(a).read);
      TimelineSameButRead(Front(a), Front(b), company);
      if Last(a).company == company {
        InsertSameButRead(Timeline(Front(a), company), Timeline(Front(b), company), Last(a), Last(b));
      }
    }
  }

  lemma ReadFlagIsNotChained(d: Digests, a: seq<Entry>, b: seq<Entry>)
    requires SameButRead(a, b) && Intact(d, b)
    ensures Intact(d, a)
  {
    forall i | 0 <= i < |a| ensures Link(d, a, i) {
      assert Link(d, b, i);
      assert Payload(d, a[i]) == Payload(d, b[i]);
    }
  }

  // ---------- appending ----------

  /** The company's latest entry in reading order, if any, sorts before one made at time t with this id. */
  predicate ClockAdvances(rows: seq<Entry>, company: string, id: nat, t: int) {
    var mine := Timeline(rows, company);
    mine == [] || Last(mine).createdAt < t || (Last(mine).createdAt == t && Last(mine).id < id)
  }

  lemma TimelineAfterAppend(rows: seq<Entry>, e: Entry, company: string)
    ensures Timeline(rows + [e], company) ==
      if e.company == company then InsertByTime(Timeline(rows, company), e) else Timeline(rows, company)
  {
    assert Front(rows + [e]) == rows;
  }

  lemma NewEntryHash(d: Digests, rows: seq<Entry>, ev: Event, id: nat, t: int)
    ensures var e := NewEntry(d, rows, ev, id, t); e.entryHash == ComputeEntryHash(d, e)
  {
    var e := NewEntry(d, rows, ev, id, t);
    assert Payload(d, e) == Payload(d, e.(entryHash := ""));
  }

  /** Where InsertByTime puts an entry that does not sort last. */
  lemma {:induction false} InsertedInside(es: seq<Entry>, e: Entry) returns (k: nat)
    requires es != [] && !Before(Last(es), e)
    ensures k < |es| && InsertByTime(es, e) == es[..k] + [e] + es[k..]
  {
    var f := Front(es);
    if f == [] || Before(Last(f), e) {
      k := |f|;
      assert es == es[..k] + es[k..];
      assert es[k..] == [Last(es)];
      assert InsertByTime(f, e) == f + [e];
    } else {
      k := InsertedInside(f, e);
      assert es[k..] == f[k..] + [Last(es)];
      assert es[..k] == f[..k];
      assert InsertByTime(es, e) == (es[..k] + [e] + f[k..]) + [Last(es)];
    }
  }

  lemma AppendedLast(d: Digests, mine: seq<Entry>, e: Entry)
    requires Intact(d, mine) && (mine == [] || Before(Last(mine), e))
    requires e.prevHash == FinalHash(mine) && e.entryHash == ComputeEntryHash(d, e)
    ensures Intact(d, InsertByTime(mine, e))
  {
    var grown := mine + [e];
    assert Front(grown) == mine && Last(grown) == e;
    IntactFront(d, grown);
  }

  lemma InsertedEarlier(d: Digests, mine: seq<Entry>, e: Entry)
    requires mine != [] && !Before(Last(mine), e) && e.prevHash == FinalHash(mine)
    requires DistinctHashes(mine) && NeverGenesis(mine)
    ensures !Intact(d, InsertByTime(mine, e))
  {
    var k := InsertedInside(mine, e);
    var after := InsertByTime(mine, e);
    assert after[k] == e && Last(mine) in mine;
    if k > 0 {
      assert after[k - 1] == mine[k - 1];
    }
    assert !Link(d, after, k);
  }

  lemma AdvancesIffLast(rows: seq<Entry>, company: string, id: nat, t: int, e: Entry)
    requires e.createdAt == t && e.id == id
    ensures var mine := Timeline(rows, company);
      ClockAdvances(rows, company, id, t) <==> mine == [] || Before(Last(mine), e)
  {
  }

  /**
   The exact condition under which an append keeps a company's chain verifiable: the new entry must
   sort after the latest one. A clock that stands still or runs backwards breaks the chain.
  */
  lemma AppendVerifiesIffClockAdvances(d: Digests, rows: seq<Entry>, ev: Event, id: nat, t: int)
    requires Errors(d, Timeline(rows, ev.company)) == []
    requires DistinctHashes(Timeline(rows, ev.company)) && NeverGenesis(Timeline(rows, ev.company))
    requires Insertable(rows, NewEntry(d, rows, ev, id, t))
    ensures Errors(d, Timeline(Apply(d, rows, Append(ev, id, t)), ev.company)) == []
       <==> ClockAdvances(rows, ev.company, id, t)
  {
    var e, mine := NewEntry(d, rows, ev, id, t), Timeline(rows, ev.company);
    TimelineAfterAppend(rows, e, ev.company);
    NoErrorsIffIntact(d, mine);
    NoErrorsIffIntact(d, InsertByTime(mine, e));
    NewEntryHash(d, rows, ev, id, t);
    AdvancesIffLast(rows, ev.company, id, t, e);
    if ClockAdvances(rows, ev.company, id, t) {
      AppendedLast(d, mine, e);
    } else {
      InsertedEarlier(d, mine, e);
    }
  }

  // ---------- every run ----------

  ghost predicate AllVerify(d: Digests, rows: seq<Entry>) {
    forall c :: Errors(d, Timeline(rows, c)) == []
  }

  /** The step appends a row, and the row sorts after everything its company had logged before. */
  predicate InOrder(d: Digests, rows: seq<Entry>, step: Step) {
    step.Append? && Insertable(rows, NewEntry(d, rows, step.event, step.id, step.now)) ==>
      ClockAdvances(rows, step.event.company, step.id, step.now)
  }

  /** Every append in the run that was not refused happened after everything its company had logged before. */
  ghost predicate ClockAlwaysAdvances(d: Digests, steps: seq<Step>) {
    steps != [] ==> ClockAlwaysAdvances(d, Front(steps)) && InOrder(d, Run(d, Front(steps)), Last(steps))
  }

  lemma AppendKeepsVerifying(d: Digests, rows: seq<Entry>, ev: Event, id: nat, t: int, c: string)
    requires Errors(d, Timeline(rows, c)) == [] && InOrder(d, rows, Append(ev, id, t))
    ensures Errors(d, Timeline(Apply(d, rows, Append(ev, id, t)), c)) == []
  {
    var e, mine := NewEntry(d, rows, ev, id, t), Timeline(rows, c);
    TimelineAfterAppend(rows, e, c);
    if ev.company == c && Insertable(rows, e) {
      NoErrorsIffIntact(d, mine);
      NoErrorsIffIntact(d, InsertByTime(mine, e));
      NewEntryHash(d, rows, ev, id, t);
      AdvancesIffLast(rows, c, id, t, e);
      AppendedLast(d, mine, e);
    }
  }

  lemma MarkKeepsVerifying(d: Digests, rows: seq<Entry>, which: Entry -> bool, c: string)
    requires Errors(d, Timeline(rows, c)) == []
    ensures Errors(d, Timeline(MarkRead(rows, which), c)) == []
  {
    var before, after := Timeline(rows, c), Timeline(MarkRead(rows, which), c);
    NoErrorsIffIntact(d, before);
    NoErrorsIffIntact(d, after);
    TimelineSameButRead(MarkRead(rows, which), rows, c);
    ReadFlagIsNotChained(d, after, before);
  }

  lemma ApplyKeepsAllVerifying(d: Digests, rows: seq<Entry>, step: Step)
    requires AllVerify(d, rows) && InOrder(d, rows, step)
    ensures AllVerify(d, Apply(d, rows, step))
  {
    forall c ensures Errors(d, Timeline(Apply(d, rows, step), c)) == [] {
      match step
      case Append(ev, id, t) => AppendKeepsVerifying(d, rows, ev, id, t, c);
      case MarkAll(company) => MarkKeepsVerifying(d, rows, Unread(company), c);
      case MarkOne(company, id) => MarkKeepsVerifying(d, rows, Named(company, id), c);
    }
  }

  /** After any interleaving of appends and read marks, every company's chain verifies. */
  lemma {:induction false} EveryRunVerifies(d: Digests, steps: seq<Step>)
    requires ClockAlwaysAdvances(d, steps)
    ensures AllVerify(d, Run(d, steps))
  {
    if steps == [] {
    } else {
      EveryRunVerifies(d, Front(steps));
      ApplyKeepsAllVerifying(d, Run(d, Front(steps)), Last(steps));
    }
  }

  ghost predicate Constrained(rows: seq<Entry>) {
    && DistinctIds(rows)
    && forall i, j :: 0 <= i < j < |rows| ==> rows[i].company != rows[j].company || rows[i].entryHash != rows[j].entryHash
  }

  lemma {:induction false} InsertKeepsDistinct(es: seq<Entry>, e: Entry)
    requires DistinctHashes(es) && forall x :: x in es ==> x.entryHash != e.entryHash
    ensures DistinctHashes(InsertByTime(es, e))
  {
    if es == [] || Before(Last(es), e) {
      assert forall i :: 0 <= i < |es| ==> es[i] in es;
    } else {
      var f := Front(es);
      InsertKeepsDistinct(f, e);
      InsertByTimeMembers(f, e);
      assert Last(es) in es;
      forall x | x in InsertByTime(f, e) ensures x.entryHash != Last(es).entryHash {
        if x != e {
          var i :| 0 <= i < |f| && es[i] == x;
        }
      }
    }
  }

  lemma {:induction false} ConstraintsReachTimelines(rows: seq<Entry>, company: string)
    requires Constrained(rows)
    ensures DistinctHashes(Timeline(rows, company))
  {
    if rows == [] {
    } else {
      var f, e := Front(rows), Last(rows);
      ConstraintsReachTimelines(f, company);
      if e.company == company {
        forall x | x in Timeline(f, company) ensures x.entryHash != e.entryHash {
          TimelineMembers(f, company, x);
          var i :| 0 <= i < |f| && rows[i] == x;
        }
        InsertKeepsDistinct(Timeline(f, company), e);
      }
    }
  }

  /** An insert is refused exactly when it would violate a constraint. */
  lemma InsertableIffConstraintsStay(rows: seq<Entry>, e: Entry)
    requires Constrained(rows)
    ensures Insertable(rows, e) <==> Constrained(rows + [e])
  {
    var grown := rows + [e];
    assert forall i :: 0 <= i < |rows| ==> grown[i] == rows[i] && rows[i] in rows;
    if Constrained(grown) {
      forall r | r in rows ensures r.id != e.id && !(r.company == e.company && r.entryHash == e.entryHash) {
        var i :| 0 <= i < |rows| && rows[i] == r;
        assert grown[i] == r && grown[|rows|] == e;
      }
    }
  }

  lemma ApplyKeepsConstraints(d: Digests, rows: seq<Entry>, step: Step)
    requires Constrained(rows)
    ensures Constrained(Apply(d, rows, step))
  {
    if step.Append? {
      assert forall i :: 0 <= i < |rows| ==> rows[i] in rows;
    }
  }

  /** In every reachable log ids are unique and no company has two entries with one hash. */
  lemma {:induction false} EveryRunKeepsHashesDistinct(d: Digests, steps: seq<Step>, company: string)
    ensures Constrained(Run(d, steps)) && DistinctHashes(Timeline(Run(d, steps), company))
  {
    if steps != [] {
      EveryRunKeepsHashesDistinct(d, Front(steps), company);
      var rows := Run(d, Front(steps));
      ApplyKeepsConstraints(d, rows, Last(steps));
    }
    ConstraintsReachTimelines(Run(d, steps), company);
  }

  ghost predicate AllClean(rows: seq<Entry>) {
    forall i :: 0 <= i < |rows| ==> Clean(rows[i].metadata)
  }

  /** No run ever stores a secret key, or an empty dict below the top of a metadata. */
  lemma {:induction false} EveryRunStoresCleanMetadata(d: Digests, steps: seq<Step>)
    ensures AllClean(Run(d, steps))
  {
    if steps == [] {
    } else {
      var rows, step := Run(d, Front(steps)), Last(steps);
      EveryRunStoresCleanMetadata(d, Front(steps));
      if step.Append? {
        NewEntryTells(d, rows, step.event, step.id, step.now);
      }
    }
  }

  /** b keeps a's rows in place; it may add rows behind them and set read flags. */
  ghost predicate Extends(b: seq<Entry>, a: seq<Entry>) {
    |a| <= |b| && forall i :: 0 <= i < |a| ==> b[i] == a[i] || b[i] == a[i].(read := true)
  }

  /** No run ever drops, reorders or rewrites a row; a read flag once set stays set. */
  lemma {:induction false} RunsOnlyExtend(d: Digests, steps: seq<Step>, n: nat)
    requires n <= |steps|
    ensures Extends(Run(d, steps), Run(d, steps[..n]))
  {
    if n == |steps| {
      assert steps[..n] == steps;
    } else {
      assert Front(steps)[..n] == steps[..n];
      RunsOnlyExtend(d, Front(steps), n);
      assert Extends(Run(d, steps), Run(d, Front(steps)));
    }
  }

  // ---------- a run verifies exactly when its clock never failed to advance ----------

  /** Row x points back to row y of its company, but sorts before it. */
  predicate PointsForward(rows: seq<Entry>, i: nat, j: nat)
    requires i < |rows| && j < |rows|
  {
    rows[i].company == rows[j].company && rows[i].prevHash == rows[j].entryHash && Before(rows[i], rows[j])
  }

  lemma EarlierStandsFirst(es: seq<Entry>, i: nat, j: nat)
    requires Chronological(es) && i < |es| && j < |es| && Before(es[i], es[j])
    ensures i < j
  {
  }

  lemma ChronologicalPosition(es: seq<Entry>, x: Entry, y: Entry) returns (i: nat, j: nat)
    requires Chronological(es) && x in es && y in es && Before(x, y)
    ensures i < j < |es| && es[i] == x && es[j] == y
  {
    i :| 0 <= i < |es| && es[i] == x;
    j :| 0 <= j < |es| && es[j] == y;
    EarlierStandsFirst(es, i, j);
  }

  lemma NoLinkForward(d: Digests, es: seq<Entry>, i: nat, j: nat)
    requires i < j < |es| && DistinctHashes(es)
    requires es[i].prevHash == es[j].entryHash != GENESIS_HASH
    ensures !Link(d, es, i)
  {
  }

  /** No later append can mend a chain with a row that points forward. */
  lemma PointingForwardBreaks(d: Digests, rows: seq<Entry>, i: nat, j: nat)
    requires Constrained(rows) && NeverGenesis(rows)
    requires i < |rows| && j < |rows| && PointsForward(rows, i, j)
    ensures Errors(d, Timeline(rows, rows[i].company)) != []
  {
    var c, x, y := rows[i].company, rows[i], rows[j];
    var mine := Timeline(rows, c);
    TimelineSortsTheCompanysRows(rows, c);
    TimelineMembers(rows, c, x);
    TimelineMembers(rows, c, y);
    ConstraintsReachTimelines(rows, c);
    var k, l := ChronologicalPosition(mine, x, y);
    assert y in rows;
    NoLinkForward(d, mine, k, l);
    NoErrorsIffIntact(d, mine);
  }

  /** An append that is out of order leaves a row that points forward. */
  lemma OutOfOrderPointsForward(d: Digests, rows: seq<Entry>, step: Step) returns (i: nat, j: nat)
    requires Constrained(rows) && !InOrder(d, rows, step)
    ensures i < |Apply(d, rows, step)| && j < |Apply(d, rows, step)| && PointsForward(Apply(d, rows, step), i, j)
  {
    var c, e := step.event.company, NewEntry(d, rows, step.event, step.id, step.now);
    var last := Last(Timeline(rows, c));
    TimelineMembers(rows, c, last);
    i := |rows|;
    j :| 0 <= j < |rows| && rows[j] == last;
    assert rows[j] in rows;
  }

  lemma PointingForwardStays(d: Digests, rows: seq<Entry>, step: Step, i: nat, j: nat)
    requires i < |rows| && j < |rows| && PointsForward(rows, i, j)
    ensures i < |Apply(d, rows, step)| && j < |Apply(d, rows, step)| && PointsForward(Apply(d, rows, step), i, j)
  {
  }

  lemma {:induction false} LateAppendLeavesItsMark(d: Digests, steps: seq<Step>) returns (i: nat, j: nat)
    requires !ClockAlwaysAdvances(d, steps)
    ensures i < |Run(d, steps)| && j < |Run(d, steps)| && PointsForward(Run(d, steps), i, j)
  {
    var f := Front(steps);
    if ClockAlwaysAdvances(d, f) {
      EveryRunKeepsHashesDistinct(d, f, "");
      i, j := OutOfOrderPointsForward(d, Run(d, f), Last(steps));
    } else {
      i, j := LateAppendLeavesItsMark(d, f);
      PointingForwardStays(d, Run(d, f), Last(steps), i, j);
    }
  }

  /**
   The exact condition for whole runs: all chains verify at the end if and only if no accepted append ever
   failed to sort after its company's latest entry. One late append breaks its chain for good.
  */
  lemma RunVerifiesIffClockAlwaysAdvances(d: Digests, steps: seq<Step>)
    requires NeverGenesis(Run(d, steps))
    ensures AllVerify(d, Run(d, steps)) <==> ClockAlwaysAdvances(d, steps)
  {
    if ClockAlwaysAdvances(d, steps) {
      EveryRunVerifies(d, steps);
    } else {
      var i, j := LateAppendLeavesItsMark(d, steps);
      EveryRunKeepsHashesDistinct(d, steps, "");
      PointingForwardBreaks(d, Run(d, steps), i, j);
    }
  }
}
