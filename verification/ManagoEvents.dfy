/** Splitting contacts' external events into transactions and other events (tenants/manago_fetch.py). */
module ManagoEvents {
  import opened Prelude
  import opened Text

  const TRANSACTION_EVENT_TYPES: set<string> := {"PURCHASE", "TRANSACTION"}

  /** date is None when the field is missing or not a number; fields stands for everything else. */
  datatype ExtEvent = NotADict | ExtEvent(date: Option<real>, kind: string, fields: nat)

  datatype Contact = Contact(id: Option<string>, email: string, events: seq<ExtEvent>)

  /** The source's {**event, "contactId": ..., "contactEmail": ...}. */
  datatype Tagged = Tagged(event: ExtEvent, contactId: Option<string>, contactEmail: string)

  predicate InWindow(e: ExtEvent, startMs: int, endMs: int) {
    e.ExtEvent? && e.date.Some? && startMs as real <= e.date.value <= endMs as real
  }

  predicate IsTransaction(e: ExtEvent) {
    e.ExtEvent? && Upper(e.kind) in TRANSACTION_EVENT_TYPES
  }

  function Tag(c: Contact, events: seq<ExtEvent>): (r: seq<Tagged>)
    ensures |r| == |events|
    ensures forall i :: 0 <= i < |events| ==> r[i] == Tagged(events[i], c.id, c.email)
  {
    if events == [] then [] else Tag(c, Front(events)) + [Tagged(Last(events), c.id, c.email)]
  }

  /** Every event of every contact, in order, carrying its own contact's id and email. */
  function Stream(contacts: seq<Contact>): seq<Tagged> {
    if contacts == [] then [] else Stream(Front(contacts)) + Tag(Last(contacts), Last(contacts).events)
  }

  function Wanted(startMs: int, endMs: int, transactions: bool): Tagged -> bool {
    (t: Tagged) => IsWanted(t.event, startMs, endMs, transactions)
  }

  function Windowed(startMs: int, endMs: int): Tagged -> bool {
    (t: Tagged) => InWindow(t.event, startMs, endMs)
  }

  function Extract(contacts: seq<Contact>, startMs: int, endMs: int, transactions: bool): seq<Tagged> {
    Filter(Stream(contacts), Wanted(startMs, endMs, transactions))
  }

  method ExtractExternalEvents(contacts: seq<Contact>, startMs: int, endMs: int, transactions: bool)
    returns (collected: seq<Tagged>)
    ensures collected == Extract(contacts, startMs, endMs, transactions)
  {
    collected := [];
    for i := 0 to |contacts|
      invariant collected == Extract(contacts[..i], startMs, endMs, transactions)
    {
      assert Front(contacts[..i + 1]) == contacts[..i];
      collected := CollectEvents(contacts[i], startMs, endMs, transactions, collected, Stream(contacts[..i]));
    }
    assert contacts[..|contacts|] == contacts;
  }

  predicate IsWanted(e: ExtEvent, startMs: int, endMs: int, transactions: bool) {
    InWindow(e, startMs, endMs) && IsTransaction(e) == transactions
  }

  /** The guards of the inner loop, in the order of the source. */
  method Select(event: ExtEvent, startMs: int, endMs: int, transactions: bool) returns (wanted: bool)
    ensures wanted <==> IsWanted(event, startMs, endMs, transactions)
  {
    if event.NotADict? || event.date.None? {
      return false;
    }
    if event.date.value < startMs as real || event.date.value > endMs as real {
      return false;
    }
    var isTransaction := Upper(event.kind) in TRANSACTION_EVENT_TYPES;
    if transactions && !isTransaction {
      return false;
    }
    if !transactions && isTransaction {
      return false;
    }
    wanted := true;
  }

  /** The inner loop: the events of one contact. */
  method CollectEvents(
      contact: Contact, startMs: int, endMs: int, transactions: bool, already: seq<Tagged>, ghost before: seq<Tagged>)
    returns (collected: seq<Tagged>)
    requires already == Filter(before, Wanted(startMs, endMs, transactions))
    ensures collected == Filter(before + Tag(contact, contact.events), Wanted(startMs, endMs, transactions))
  {
    ghost var p := Wanted(startMs, endMs, transactions);
    collected := already;
    assert before + Tag(contact, contact.events[..0]) == before;
    for j := 0 to |contact.events|
      invariant collected == Filter(before + Tag(contact, contact.events[..j]), p)
    {
      var event := contact.events[j];
      TagSnoc(contact, j, before, p);
      var wanted := Select(event, startMs, endMs, transactions);
      if !wanted {
        continue;
      }
      collected := collected + [Tagged(event, contact.id, contact.email)];
    }
    assert contact.events[..|contact.events|] == contact.events;
  }

  lemma TagSnoc(c: Contact, j: nat, before: seq<Tagged>, p: Tagged -> bool)
    requires j < |c.events|
    ensures var t := Tagged(c.events[j], c.id, c.email);
      var sofar := before + Tag(c, c.events[..j]);
      Filter(before + Tag(c, c.events[..j + 1]), p) == Filter(sofar, p) + if p(t) then [t] else []
  {
    var t := Tagged(c.events[j], c.id, c.email);
    var sofar := before + Tag(c, c.events[..j]);
    assert Front(c.events[..j + 1]) == c.events[..j];
    assert before + Tag(c, c.events[..j + 1]) == sofar + [t];
    assert Front(sofar + [t]) == sofar;
  }

  /** Which of the two results each event went to, true for transactions. */
  function Merge(transactions: seq<Tagged>, others: seq<Tagged>, choice: seq<bool>): Option<seq<Tagged>> {
    if choice == [] then (if transactions == [] && others == [] then Some([]) else None)
    else if Last(choice) then
      if transactions == [] then None
      else
        var m := Merge(Front(transactions), others, Front(choice));
        if m.None? then None else Some(m.value + [Last(transactions)])
    else if others == [] then None
    else
      var m := Merge(transactions, Front(others), Front(choice));
      if m.None? then None else Some(m.value + [Last(others)])
  }

  function Kinds(ts: seq<Tagged>): (r: seq<bool>)
    ensures |r| == |ts| && forall i :: 0 <= i < |ts| ==> r[i] == IsTransaction(ts[i].event)
  {
    if ts == [] then [] else Kinds(Front(ts)) + [IsTransaction(Last(ts).event)]
  }

  lemma MergeSnoc(x: seq<Tagged>, y: seq<Tagged>, all: seq<Tagged>, t: Tagged)
    requires Merge(x, y, Kinds(all)) == Some(all)
    ensures IsTransaction(t.event) ==> Merge(x + [t], y, Kinds(all + [t])) == Some(all + [t])
    ensures !IsTransaction(t.event) ==> Merge(x, y + [t], Kinds(all + [t])) == Some(all + [t])
  {
    assert Front(all + [t]) == all && Front(x + [t]) == x && Front(y + [t]) == y;
    var choice := Kinds(all + [t]);
    assert choice == Kinds(all) + [IsTransaction(t.event)];
    assert Front(choice) == Kinds(all);
  }

  lemma {:induction false} FilterSplits(ts: seq<Tagged>, a: int, b: int)
    ensures var all := Filter(ts, Windowed(a, b));
      Merge(Filter(ts, Wanted(a, b, true)), Filter(ts, Wanted(a, b, false)), Kinds(all)) == Some(all)
  {
    if ts == [] {
    } else {
      var f, t := Front(ts), Last(ts);
      FilterSplits(f, a, b);
      var all, x, y := Filter(f, Windowed(a, b)), Filter(f, Wanted(a, b, true)), Filter(f, Wanted(a, b, false));
      if InWindow(t.event, a, b) {
        MergeSnoc(x, y, all, t);
      }
      FilterStep(ts, Windowed(a, b));
      FilterStep(ts, Wanted(a, b, true));
      FilterStep(ts, Wanted(a, b, false));
    }
  }

  lemma FilterStep(ts: seq<Tagged>, p: Tagged -> bool)
    requires ts != []
    ensures p(Last(ts)) ==> Filter(ts, p) == Filter(Front(ts), p) + [Last(ts)]
    ensures !p(Last(ts)) ==> Filter(ts, p) == Filter(Front(ts), p)
  {
  }

  lemma {:induction false} MergeCounts(x: seq<Tagged>, y: seq<Tagged>, choice: seq<bool>)
    requires Merge(x, y, choice).Some?
    ensures |x| + |y| == |Merge(x, y, choice).value| == |choice|
  {
    if choice == [] {
    } else {
      if Last(choice) {
        MergeCounts(Front(x), y, Front(choice));
      } else {
        MergeCounts(x, Front(y), Front(choice));
      }
    }
  }

  /**
   The two extractions split the well-formed events in the window: merging them back, taking from the one
   or the other by event kind, gives every such event once and in the original order.
  */
  lemma ExtractionsSplitTheWindow(contacts: seq<Contact>, startMs: int, endMs: int)
    ensures var all := Filter(Stream(contacts), Windowed(startMs, endMs));
      var x := Extract(contacts, startMs, endMs, true);
      var y := Extract(contacts, startMs, endMs, false);
      && Merge(x, y, Kinds(all)) == Some(all)
      && |x| + |y| == |all|
      && (forall t :: t in x ==> IsTransaction(t.event))
      && (forall t :: t in y ==> !IsTransaction(t.event))
  {
    FilterSplits(Stream(contacts), startMs, endMs);
    var all := Filter(Stream(contacts), Windowed(startMs, endMs));
    MergeCounts(Extract(contacts, startMs, endMs, true), Extract(contacts, startMs, endMs, false), Kinds(all));
  }

  lemma {:induction false} StreamAppend(a: seq<Contact>, b: seq<Contact>)
    ensures Stream(a + b) == Stream(a) + Stream(b)
  {
    if b == [] {
      assert a + b == a;
    } else {
      var f, c := Front(b), Last(b);
      assert Front(a + b) == a + f && Last(a + b) == c;
      StreamAppend(a, f);
      Associate(Stream(a), Stream(f), Tag(c, c.events));
    }
  }

  /** The events of one contact stand in their own order, each once, and those of several one contact after another. */
  lemma EventsKeepTheirOrder(a: seq<Contact>, c: Contact, b: seq<Contact>)
    ensures Stream(a + [c] + b) == Stream(a) + Tag(c, c.events) + Stream(b)
  {
    StreamAppend(a + [c], b);
    StreamAppend(a, [c]);
    StreamOfOne(c);
  }

  lemma StreamOfOne(c: Contact)
    ensures Stream([c]) == Tag(c, c.events)
  {
    assert Front([c]) == [];
    assert [] + Tag(c, c.events) == Tag(c, c.events);
  }

  /** Extracting from two lists of contacts is extracting from the one and then from the other. */
  lemma ExtractAppend(a: seq<Contact>, b: seq<Contact>, startMs: int, endMs: int, transactions: bool)
    ensures Extract(a + b, startMs, endMs, transactions) ==
      Extract(a, startMs, endMs, transactions) + Extract(b, startMs, endMs, transactions)
  {
    StreamAppend(a, b);
    FilterAppend(Stream(a), Stream(b), Wanted(startMs, endMs, transactions));
  }

  /** Exactly which events are extracted: dated within the closed window, and purchases or not as asked. */
  lemma ExtractedIff(contacts: seq<Contact>, startMs: int, endMs: int, transactions: bool, t: Tagged)
    ensures t in Extract(contacts, startMs, endMs, transactions) <==>
      && (exists c :: c in contacts && Owns(c, t))
      && t.event.ExtEvent? && t.event.date.Some?
      && startMs as real <= t.event.date.value && t.event.date.value <= endMs as real
      && ((Upper(t.event.kind) == "PURCHASE" || Upper(t.event.kind) == "TRANSACTION") <==> transactions)
  {
    StreamCarriesOwnContact(contacts, t);
  }

  predicate Owns(c: Contact, t: Tagged) {
    t.event in c.events && t.contactId == c.id && t.contactEmail == c.email
  }

  /** Every event handed out carries the id and email of a contact that has it, and every event is handed out. */
  lemma {:induction false} StreamCarriesOwnContact(contacts: seq<Contact>, t: Tagged)
    ensures t in Stream(contacts) <==> exists c :: c in contacts && Owns(c, t)
  {
    if contacts == [] {
    } else {
      var f, c := Front(contacts), Last(contacts);
      StreamCarriesOwnContact(f, t);
      assert c in contacts && forall x :: x in contacts <==> x in f || x == c;
      if Owns(c, t) {
        var j :| 0 <= j < |c.events| && c.events[j] == t.event;
        assert Tag(c, c.events)[j] == t;
      }
    }
  }
}
