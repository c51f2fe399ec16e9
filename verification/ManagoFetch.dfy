/**
 Windowed contact fetch from Manago (tenants/manago_fetch.py): the window is cut into chunks, each
 chunk is paged, ids are collected once each, and contacts are fetched by id in batches.

 Datetimes are UTC microseconds. The remote service is a parameter: what it answers for each request.
*/
module ManagoFetch {
  import opened Prelude

  const LIST_BY_ID_BATCH_SIZE := 50
  const MAX_SPAN := 30 * 24 * 3600 * 1_000_000

  // ---------- cutting the window ----------

  datatype Chunk = Chunk(start: int, end: int)

  function Chunks(start: int, end: int): seq<Chunk>
    decreases end - start
  {
    if end <= start then []
    else
      var stop := if start + MAX_SPAN < end then start + MAX_SPAN else end;
      [Chunk(start, stop)] + Chunks(stop, end)
  }

  /** A tiling of [start, end]: shared endpoints, no gap; 30 days each, only the last piece may be shorter. */
  ghost predicate Tiles(chunks: seq<Chunk>, start: int, end: int) {
    && chunks != [] && chunks[0].start == start && Last(chunks).end == end
    && (forall i :: 0 <= i < |chunks| ==> chunks[i].start < chunks[i].end <= chunks[i].start + MAX_SPAN)
    && (forall i :: 0 <= i < |chunks| - 1 ==> chunks[i].end == chunks[i].start + MAX_SPAN)
    && (forall i :: 0 < i < |chunks| ==> chunks[i].start == chunks[i - 1].end)
  }

  lemma {:induction false} ChunksTile(start: int, end: int)
    requires start < end
    ensures Tiles(Chunks(start, end), start, end)
    decreases end - start
  {
    var stop := if start + MAX_SPAN < end then start + MAX_SPAN else end;
    var rest := Chunks(stop, end);
    assert Chunks(start, end) == [Chunk(start, stop)] + rest;
    if stop < end {
      ChunksTile(stop, end);
    }
  }

  function WindowChunks(start: int, end: int): seq<Chunk> {
    if end <= start then [Chunk(start, end)] else Chunks(start, end)
  }

  method ChunkTimeRange(windowStart: int, windowEnd: int) returns (chunks: seq<Chunk>)
    ensures chunks == WindowChunks(windowStart, windowEnd)
    ensures windowStart < windowEnd ==> Tiles(chunks, windowStart, windowEnd)
  {
    if windowEnd <= windowStart {
      return [Chunk(windowStart, windowEnd)];
    }
    chunks := [];
    var cursor := windowStart;
    while cursor < windowEnd
      invariant windowStart <= cursor <= windowEnd
      invariant chunks + Chunks(cursor, windowEnd) == Chunks(windowStart, windowEnd)
    {
      var chunkEnd := if cursor + MAX_SPAN < windowEnd then cursor + MAX_SPAN else windowEnd;
      assert chunks + ([Chunk(cursor, chunkEnd)] + Chunks(chunkEnd, windowEnd))
          == (chunks + [Chunk(cursor, chunkEnd)]) + Chunks(chunkEnd, windowEnd);
      chunks := chunks + [Chunk(cursor, chunkEnd)];
      cursor := chunkEnd;
    }
    assert chunks + [] == chunks;
    ChunksTile(windowStart, windowEnd);
  }

  /** int(): the fraction is cut off. */
  function Truncate(x: real): int {
    if x >= 0.0 then x.Floor else -((-x).Floor)
  }

  /**
   int(timestamp() * 1000): the seconds are a rounded quotient and the product is rounded again; round is the
   rounding of the machine's floating-point numbers.
  */
  function EpochMs(round: real -> real, us: int): int {
    Truncate(round(round(us as real / 1000000.0) * 1000.0))
  }

  /** All that the fetch needs: of two numbers the larger is not rounded below the smaller. */
  ghost predicate Monotone(round: real -> real) {
    forall x, y :: x <= y ==> round(x) <= round(y)
  }

  lemma TruncateMonotone(x: real, y: real)
    requires x <= y
    ensures Truncate(x) <= Truncate(y)
  {
  }

  lemma EpochMsMonotone(round: real -> real, a: int, b: int)
    requires Monotone(round) && a <= b
    ensures EpochMs(round, a) <= EpochMs(round, b)
  {
    var x, y := a as real / 1000000.0, b as real / 1000000.0;
    assert x <= y;
    assert round(x) <= round(y);
    assert round(round(x) * 1000.0) <= round(round(y) * 1000.0);
    TruncateMonotone(round(round(x) * 1000.0), round(round(y) * 1000.0));
  }

  /** Half a unit in the last of 53 binary places, relative to the number (IEEE 754 binary64). */
  const HALF_ULP: real := 1.0 / 9007199254740992.0

  predicate WellRounded(round: real -> real, x: real) {
    -HALF_ULP * (if x >= 0.0 then x else -x) <= round(x) - x <= HALF_ULP * (if x >= 0.0 then x else -x)
  }

  /** In all years a datetime has, the milliseconds are the microseconds cut toward zero, give or take the rounding. */
  lemma EpochMsIsClose(round: real -> real, us: int)
    requires -253402300800000000 < us < 253402300800000000
    requires WellRounded(round, us as real / 1000000.0) && WellRounded(round, round(us as real / 1000000.0) * 1000.0)
    ensures us >= 0 ==> 1000 * EpochMs(round, us) - 100 <= us < 1000 * EpochMs(round, us) + 1100
    ensures us <= 0 ==> 1000 * EpochMs(round, us) - 1100 < us <= 1000 * EpochMs(round, us) + 100
  {
    var x := us as real / 1000000.0;
    var y := round(x) * 1000.0;
    assert -253402300800.0 <= x <= 253402300800.0;
    assert -0.00003 <= round(x) - x <= 0.00003;
    assert -0.04 <= round(y) - y <= 0.04;
  }

  /** Without rounding they are exactly that, before 1970 too. */
  lemma EpochMsWithoutRounding(round: real -> real, us: int)
    requires forall x :: round(x) == x
    ensures us >= 0 ==> 1000 * EpochMs(round, us) <= us < 1000 * EpochMs(round, us) + 1000
    ensures us <= 0 ==> 1000 * EpochMs(round, us) - 1000 < us <= 1000 * EpochMs(round, us)
  {
  }

  // ---------- what the service answers ----------

  /** A JSON value as Python sees it: whether it is truthy, and str() of it. None is Absent. */
  datatype Value = Absent | Value(truthy: bool, text: string)

  datatype Item = NotADict | Dict(id: Value, contactId: Value)

  /** Failed: the request raised, or was answered with anything but a success. */
  datatype Body = Failed | Missing | NotAList | Items(items: seq<Item>)

  datatype FetchError = RequestFailed | NoModifiedContacts | ModifiedContactsNotAList | NoContacts | ContactsNotAList

  /**
   pages(from, to) holds the answers for page 1, 2, ... of that query; hasMore is set on all but the last.
   That the service stops setting hasMore at some page is what makes the paging loop end. round is how the
   machine that asks rounds when it computes the milliseconds of a query.
  */
  datatype Service = Service(pages: (int, int) -> seq<Body>, round: real -> real)

  ghost predicate Responsive(s: Service) {
    forall a, b :: s.pages(a, b) != []
  }

  /** item.get("id") or item.get("contactId"), as a string. */
  function ItemId(item: Item): Option<string> {
    if item.NotADict? then None
    else
      var v := if item.id.Value? && item.id.truthy then item.id else item.contactId;
      if v.Absent? then None else Some(v.text)
  }

  /** The id an item gives: id if it has a value, else contactId, whatever that is worth. */
  lemma ItemIdPrefersId(id: Value, contactId: Value)
    ensures ItemId(NotADict) == None
    ensures id.Value? && id.truthy ==> ItemId(Dict(id, contactId)) == Some(id.text)
    ensures id.Absent? || !id.truthy ==>
      ItemId(Dict(id, contactId)) == if contactId.Value? then Some(contactId.text) else None
  {
  }

  function IdsOf(items: seq<Item>): seq<string> {
    if items == [] then []
    else
      var id := ItemId(Last(items));
      IdsOf(Front(items)) + if id.Some? then [id.value] else []
  }

  function BodyIds(bodies: seq<Body>): seq<string> {
    if bodies == [] then []
    else BodyIds(Front(bodies)) + if Last(bodies).Items? then IdsOf(Last(bodies).items) else []
  }

  /** First occurrences, in order. */
  function Dedup(ids: seq<string>): (r: seq<string>)
    ensures forall x :: x in r <==> x in ids
  {
    if ids == [] then []
    else
      var r := Dedup(Front(ids));
      if Last(ids) in r then r else r + [Last(ids)]
  }

  /** Where x first stands in ids. */
  ghost predicate FirstAt(ids: seq<string>, x: string, i: nat) {
    i < |ids| && ids[i] == x && forall j :: 0 <= j < i ==> ids[j] != x
  }

  /** Ids keep the order of their first occurrences. */
  lemma {:induction false} DedupKeepsFirstOccurrences(ids: seq<string>, a: nat, b: nat, i: nat, j: nat)
    requires a < b < |Dedup(ids)| && FirstAt(ids, Dedup(ids)[a], i) && FirstAt(ids, Dedup(ids)[b], j)
    ensures i < j
  {
    var f, r := Front(ids), Dedup(Front(ids));
    if b < |r| {
      assert r[a] in r && r[b] in r && r[a] in f && r[b] in f;
      FirstInFront(ids, r[a], i);
      FirstInFront(ids, r[b], j);
      DedupKeepsFirstOccurrences(f, a, b, i, j);
    } else {
      assert r[a] in r && r[a] in f;
      FirstInFront(ids, r[a], i);
      assert Last(ids) !in f;
      assert forall m :: 0 <= m < |f| ==> f[m] in f && f[m] == ids[m];
    }
  }

  lemma FirstInFront(ids: seq<string>, x: string, i: nat)
    requires ids != [] && x in Front(ids) && FirstAt(ids, x, i)
    ensures FirstAt(Front(ids), x, i)
  {
    var k :| 0 <= k < |ids| - 1 && Front(ids)[k] == x;
    assert ids[k] == x;
  }

  lemma {:induction false} DedupHasNoDup(ids: seq<string>)
    ensures NoDup(Dedup(ids))
  {
    if ids == [] {
    } else {
      DedupHasNoDup(Front(ids));
    }
  }

  /** The answers for one chunk. */
  function Asked(s: Service, chunk: Chunk): seq<Body> {
    s.pages(EpochMs(s.round, chunk.start), EpochMs(s.round, chunk.end))
  }

  /** All answers, chunk after chunk and page after page. */
  function Bodies(s: Service, chunks: seq<Chunk>): seq<Body> {
    if chunks == [] then []
    else Bodies(s, Front(chunks)) + Asked(s, Last(chunks))
  }

  function BodyError(b: Body): FetchError
    requires !b.Items?
  {
    match b
    case Failed => RequestFailed
    case Missing => NoModifiedContacts
    case NotAList => ModifiedContactsNotAList
  }

  /** The ids in all bodies, or the error of the first malformed one. */
  function Listing(bodies: seq<Body>): Result<seq<string>, FetchError> {
    if bodies == [] then Ok([])
    else
      var before := Listing(Front(bodies));
      if before.Err? then before
      else if !Last(bodies).Items? then Err(BodyError(Last(bodies)))
      else Ok(Dedup(BodyIds(bodies)))
  }

  lemma BodyIdsSnoc(bodies: seq<Body>, b: Body)
    requires b.Items?
    ensures BodyIds(bodies + [b]) == BodyIds(bodies) + IdsOf(b.items)
  {
    assert Front(bodies + [b]) == bodies;
  }

  lemma ListingSnoc(bodies: seq<Body>, b: Body)
    requires Listing(bodies).Ok?
    ensures Listing(bodies + [b]) ==
      if b.Items? then Ok(Dedup(BodyIds(bodies) + IdsOf(b.items))) else Err(BodyError(b))
  {
    assert Front(bodies + [b]) == bodies;
  }

  lemma {:induction false} ListingErrorStays(bodies: seq<Body>, more: seq<Body>)
    requires Listing(bodies).Err?
    ensures Listing(bodies + more) == Listing(bodies)
  {
    if more == [] {
      assert bodies + more == bodies;
    } else {
      assert Front(bodies + more) == bodies + Front(more);
      ListingErrorStays(bodies, Front(more));
    }
  }

  /** The first answer that is no list of items decides, each kind by its own error. */
  lemma ListingFailsAtFirstBad(bodies: seq<Body>, n: nat)
    requires n < |bodies| && !bodies[n].Items? && forall k :: 0 <= k < n ==> bodies[k].Items?
    ensures bodies[n].Failed? ==> Listing(bodies) == Err(RequestFailed)
    ensures bodies[n].Missing? ==> Listing(bodies) == Err(NoModifiedContacts)
    ensures bodies[n].NotAList? ==> Listing(bodies) == Err(ModifiedContactsNotAList)
  {
    ListingOfWellFormed(bodies[..n]);
    ListingSnoc(bodies[..n], bodies[n]);
    assert bodies[..n] + [bodies[n]] == bodies[..n + 1];
    var head, rest := bodies[..n + 1], bodies[n + 1..];
    ListingErrorStays(head, rest);
    assert bodies == head + rest;
  }

  lemma DedupSnoc(ids: seq<string>, x: string)
    ensures Dedup(ids + [x]) == if x in Dedup(ids) then Dedup(ids) else Dedup(ids) + [x]
  {
    assert Front(ids + [x]) == ids;
  }

  lemma {:induction false} BodiesAppend(s: Service, a: seq<Chunk>, b: seq<Chunk>)
    ensures Bodies(s, a + b) == Bodies(s, a) + Bodies(s, b)
  {
    if b == [] {
      assert a + b == a;
    } else {
      var f := Front(b);
      assert Front(a + b) == a + f && Last(a + b) == Last(b);
      BodiesAppend(s, a, f);
      Associate(Bodies(s, a), Bodies(s, f), Asked(s, Last(b)));
    }
  }

  lemma IdsOfSnoc(items: seq<Item>, i: nat, before: seq<string>)
    requires i < |items|
    ensures var sofar := before + IdsOf(items[..i]);
      before + IdsOf(items[..i + 1]) == match ItemId(items[i]) case None => sofar case Some(id) => sofar + [id]
  {
    assert Front(items[..i + 1]) == items[..i];
  }

  /** The inner loop: the items of one answer. */
  method CollectItems(items: seq<Item>, ids: seq<string>, ghost before: seq<string>) returns (r: seq<string>)
    requires ids == Dedup(before)
    ensures r == Dedup(before + IdsOf(items))
  {
    r := ids;
    var seen: set<string> := set x | x in ids;
    assert before + IdsOf(items[..0]) == before;
    for i := 0 to |items|
      invariant r == Dedup(before + IdsOf(items[..i]))
      invariant forall x :: x in seen <==> x in r
    {
      IdsOfSnoc(items, i, before);
      var id := ItemId(items[i]);
      if id == None {
        continue;
      }
      DedupSnoc(before + IdsOf(items[..i]), id.value);
      if id.value !in seen {
        seen := seen + {id.value};
        r := r + [id.value];
      }
    }
    assert items[..|items|] == items;
  }

  /** One more answer: either the items join the ids, or the listing fails here for good. */
  lemma OneMoreAnswer(before: seq<Body>, answers: seq<Body>, page: nat)
    requires 1 <= page <= |answers| && Listing(before + answers[..page - 1]).Ok?
    ensures answers[page - 1].Items? ==>
      && Listing(before + answers[..page]).Ok?
      && BodyIds(before + answers[..page]) == BodyIds(before + answers[..page - 1]) + IdsOf(answers[page - 1].items)
    ensures !answers[page - 1].Items? ==> Listing(before + answers) == Err(BodyError(answers[page - 1]))
  {
    var sofar, data := before + answers[..page - 1], answers[page - 1];
    Consume(before, answers, page - 1);
    ListingSnoc(sofar, data);
    if data.Items? {
      BodyIdsSnoc(sofar, data);
    } else {
      ListingErrorStays(before + answers[..page], answers[page..]);
    }
  }

  /** The paging loop for one chunk; before holds the answers for the chunks already done. */
  method PageThrough(s: Service, chunk: Chunk, ids: seq<string>, ghost before: seq<Body>)
    returns (r: Result<seq<string>, FetchError>)
    requires Responsive(s) && Listing(before) == Ok(ids)
    ensures r == Listing(before + Asked(s, chunk))
  {
    var answers := s.pages(EpochMs(s.round, chunk.start), EpochMs(s.round, chunk.end));
    var contactIds := ids;
    var page := 1;
    OkListingIsDedup(before);
    assert before + answers[..0] == before;
    while true
      invariant 1 <= page <= |answers|
      invariant contactIds == Dedup(BodyIds(before + answers[..page - 1]))
      invariant Listing(before + answers[..page - 1]).Ok?
      decreases |answers| - page
    {
      var data := answers[page - 1];
      var hasMore := page < |answers|;
      OneMoreAnswer(before, answers, page);
      if data.Failed? || data.Missing? || data.NotAList? {
        return Err(BodyError(data));
      }
      contactIds := CollectItems(data.items, contactIds, BodyIds(before + answers[..page - 1]));
      if !hasMore {
        break;
      }
      page := page + 1;
    }
    assert answers[..page] == answers;
    OkListingIsDedup(before + answers);
    r := Ok(contactIds);
  }

  lemma OkListingIsDedup(bodies: seq<Body>)
    requires Listing(bodies).Ok?
    ensures Listing(bodies) == Ok(Dedup(BodyIds(bodies)))
  {
  }

  lemma OneMoreChunk(s: Service, chunks: seq<Chunk>, i: nat)
    requires i < |chunks|
    ensures Bodies(s, chunks[..i + 1]) ==
      Bodies(s, chunks[..i]) + Asked(s, chunks[i])
    ensures Listing(Bodies(s, chunks[..i + 1])).Err? ==>
      Listing(Bodies(s, chunks)) == Listing(Bodies(s, chunks[..i + 1]))
  {
    assert Front(chunks[..i + 1]) == chunks[..i];
    assert chunks == chunks[..i + 1] + chunks[i + 1..];
    ChunkErrorStays(s, chunks[..i + 1], chunks[i + 1..]);
  }

  lemma ChunkErrorStays(s: Service, done: seq<Chunk>, rest: seq<Chunk>)
    ensures Listing(Bodies(s, done)).Err? ==> Listing(Bodies(s, done + rest)) == Listing(Bodies(s, done))
  {
    var sofar, more := Bodies(s, done), Bodies(s, rest);
    BodiesAppend(s, done, rest);
    if Listing(sofar).Err? {
      ListingErrorStays(sofar, more);
    }
  }

  method ListModifiedContactIds(s: Service, modifiedFrom: int, modifiedTo: int)
    returns (r: Result<seq<string>, FetchError>)
    requires Responsive(s)
    ensures r == Listing(Bodies(s, WindowChunks(modifiedFrom, modifiedTo)))
  {
    var contactIds: seq<string> := [];
    var chunks := ChunkTimeRange(modifiedFrom, modifiedTo);
    for i := 0 to |chunks|
      invariant Listing(Bodies(s, chunks[..i])) == Ok(contactIds)
    {
      OneMoreChunk(s, chunks, i);
      ghost var sofar := chunks[..i + 1];
      var step := PageThrough(s, chunks[i], contactIds, Bodies(s, chunks[..i]));
      assert step == Listing(Bodies(s, sofar));
      if step.Err? {
        return step;
      }
      contactIds := step.value;
    }
    assert chunks[..|chunks|] == chunks;
    r := Ok(contactIds);
  }

  // ---------- the chunked fetch is the one-shot query ----------

  /** A stored contact with the millisecond of its last modification. */
  datatype Stored = Stored(id: string, modifiedMs: int)

  ghost predicate InRange(stored: set<Stored>, a: int, b: int, id: string) {
    exists c :: c in stored && c.id == id && a <= c.modifiedMs <= b
  }

  /** The item is a dict whose id, or failing that whose contactId, reads id. */
  predicate Names(item: Item, id: string) {
    && item.Dict?
    && if item.id.Value? && item.id.truthy then item.id.text == id
       else item.contactId.Value? && item.contactId.text == id
  }

  ghost predicate NamedOn(body: Body, id: string) {
    body.Items? && exists m :: 0 <= m < |body.items| && Names(body.items[m], id)
  }

  /** Some item of some answer names the id. */
  ghost predicate Named(bodies: seq<Body>, id: string) {
    exists k :: 0 <= k < |bodies| && NamedOn(bodies[k], id)
  }

  lemma {:induction false} IdsOfAreNamed(items: seq<Item>, id: string)
    ensures id in IdsOf(items) <==> exists m :: 0 <= m < |items| && Names(items[m], id)
  {
    if items == [] {
    } else {
      var f := Front(items);
      IdsOfAreNamed(f, id);
      assert forall m :: 0 <= m < |f| ==> f[m] == items[m];
      assert Names(Last(items), id) <==> Names(items[|items| - 1], id);
    }
  }

  lemma {:induction false} BodyIdsAreNamed(bodies: seq<Body>, id: string)
    ensures id in BodyIds(bodies) <==> Named(bodies, id)
  {
    if bodies == [] {
    } else {
      var f, last := Front(bodies), Last(bodies);
      BodyIdsAreNamed(f, id);
      NamedSnoc(f, last, id);
      assert bodies == f + [last];
      if last.Items? {
        IdsOfAreNamed(last.items, id);
      }
    }
  }

  lemma NamedSnoc(f: seq<Body>, last: Body, id: string)
    ensures Named(f + [last], id) <==> Named(f, id) || NamedOn(last, id)
  {
    var all := f + [last];
    assert all[|f|] == last && forall k :: 0 <= k < |f| ==> all[k] == f[k];
  }

  /**
   The service answers every query with well-formed pages that together name the contacts in range, and the
   milliseconds asked for are rounded monotonically.
  */
  ghost predicate Serves(s: Service, stored: set<Stored>) {
    && Responsive(s) && Monotone(s.round)
    && (forall a, b, k :: 0 <= k < |s.pages(a, b)| ==> s.pages(a, b)[k].Items?)
    && (forall a, b, id :: Named(s.pages(a, b), id) <==> InRange(stored, a, b, id))
  }

  lemma {:induction false} ListingOfWellFormed(bodies: seq<Body>)
    requires forall k :: 0 <= k < |bodies| ==> bodies[k].Items?
    ensures Listing(bodies) == Ok(Dedup(BodyIds(bodies)))
  {
    if bodies == [] {
    } else {
      ListingOfWellFormed(Front(bodies));
    }
  }

  lemma {:induction false} BodyIdsAppend(a: seq<Body>, b: seq<Body>)
    ensures BodyIds(a + b) == BodyIds(a) + BodyIds(b)
  {
    if b == [] {
      assert a + b == a;
    } else {
      var f, last := Front(b), Last(b);
      var ids := if last.Items? then IdsOf(last.items) else [];
      assert Front(a + b) == a + f && Last(a + b) == last;
      BodyIdsAppend(a, f);
      Associate(BodyIds(a), BodyIds(f), ids);
    }
  }

  /** A conversion to milliseconds under which later is not less. */
  ghost predicate Rising(ms: int -> int) {
    forall a, b :: a <= b ==> ms(a) <= ms(b)
  }

  predicate Covers(ms: int -> int, c: Chunk, at: int) {
    ms(c.start) <= at <= ms(c.end)
  }

  /** Milliseconds covered by consecutive chunks are the milliseconds of the whole window. */
  lemma {:induction false} ChunksCover(ms: int -> int, start: int, end: int, at: int)
    requires Rising(ms) && start < end
    ensures ms(start) <= at <= ms(end) <==> exists c :: c in Chunks(start, end) && Covers(ms, c, at)
    decreases end - start
  {
    var stop := if start + MAX_SPAN < end then start + MAX_SPAN else end;
    var first, rest, all := Chunk(start, stop), Chunks(stop, end), Chunks(start, end);
    assert all == [first] + rest;
    assert ms(start) <= ms(stop) <= ms(end);
    assert first in all && forall c :: c in all <==> c == first || c in rest;
    if stop < end {
      ChunksCover(ms, stop, end, at);
    }
    assert ms(start) <= at <= ms(stop) <==> Covers(ms, first, at);
  }

  ghost predicate NamedIn(ms: int -> int, stored: set<Stored>, c: Chunk, id: string) {
    InRange(stored, ms(c.start), ms(c.end), id)
  }

  lemma {:induction false} BodiesWellFormed(s: Service, stored: set<Stored>, chunks: seq<Chunk>)
    requires Serves(s, stored)
    ensures forall k :: 0 <= k < |Bodies(s, chunks)| ==> Bodies(s, chunks)[k].Items?
  {
    if chunks == [] {
    } else {
      BodiesWellFormed(s, stored, Front(chunks));
    }
  }

  ghost predicate NamedBySome(ms: int -> int, stored: set<Stored>, chunks: seq<Chunk>, id: string) {
    chunks != [] && (NamedBySome(ms, stored, Front(chunks), id) || NamedIn(ms, stored, Last(chunks), id))
  }

  lemma {:induction false} NamedBySomeChunk(ms: int -> int, stored: set<Stored>, chunks: seq<Chunk>, id: string)
    ensures NamedBySome(ms, stored, chunks, id) <==> exists c :: c in chunks && NamedIn(ms, stored, c, id)
  {
    if chunks == [] {
    } else {
      var f, last := Front(chunks), Last(chunks);
      NamedBySomeChunk(ms, stored, f, id);
      assert last in chunks && forall c :: c in chunks <==> c in f || c == last;
    }
  }

  /** The conversion used when asking this service. */
  function Millis(s: Service): int -> int {
    (us: int) => EpochMs(s.round, us)
  }

  lemma MillisRise(s: Service)
    requires Monotone(s.round)
    ensures Rising(Millis(s))
  {
    forall a, b | a <= b ensures Millis(s)(a) <= Millis(s)(b) {
      EpochMsMonotone(s.round, a, b);
    }
  }

  lemma {:induction false} BodiesNameChunkContacts(s: Service, stored: set<Stored>, chunks: seq<Chunk>, id: string)
    requires Serves(s, stored)
    ensures id in BodyIds(Bodies(s, chunks)) <==> NamedBySome(Millis(s), stored, chunks, id)
  {
    if chunks == [] {
    } else {
      var f, c := Front(chunks), Last(chunks);
      BodiesNameChunkContacts(s, stored, f, id);
      AnswersNameTheRange(s, stored, EpochMs(s.round, c.start), EpochMs(s.round, c.end), Bodies(s, f), id);
    }
  }

  lemma AnswersNameTheRange(s: Service, stored: set<Stored>, a: int, b: int, before: seq<Body>, id: string)
    requires Serves(s, stored)
    ensures id in BodyIds(before + s.pages(a, b)) <==> id in BodyIds(before) || InRange(stored, a, b, id)
  {
    BodyIdsAppend(before, s.pages(a, b));
    BodyIdsAreNamed(s.pages(a, b), id);
  }

  lemma WindowNamesWhatChunksName(ms: int -> int, stored: set<Stored>, start: int, end: int, id: string)
    requires Rising(ms)
    ensures InRange(stored, ms(start), ms(end), id) <==> NamedBySome(ms, stored, WindowChunks(start, end), id)
  {
    var chunks := WindowChunks(start, end);
    NamedBySomeChunk(ms, stored, chunks, id);
    if end <= start {
      var only := Chunk(start, end);
      assert chunks == [only] && only in chunks;
      assert NamedIn(ms, stored, only, id) <==> InRange(stored, ms(start), ms(end), id);
    } else if InRange(stored, ms(start), ms(end), id) {
      var x :| x in stored && x.id == id && ms(start) <= x.modifiedMs <= ms(end);
      ChunksCover(ms, start, end, x.modifiedMs);
      var c :| c in chunks && Covers(ms, c, x.modifiedMs);
      assert NamedIn(ms, stored, c, id);
    } else if c :| c in chunks && NamedIn(ms, stored, c, id) {
      var x :| x in stored && x.id == id && ms(c.start) <= x.modifiedMs <= ms(c.end);
      assert Covers(ms, c, x.modifiedMs);
      ChunksCover(ms, start, end, x.modifiedMs);
    }
  }

  /**
   Chunking, paging and deduplicating returns, once each, exactly the ids of the contacts modified in the
   closed window: what a single query over the whole window would name.
  */
  lemma ChunkedFetchIsOneQuery(s: Service, stored: set<Stored>, start: int, end: int)
    requires Serves(s, stored)
    ensures var r := Listing(Bodies(s, WindowChunks(start, end)));
      && r.Ok? && NoDup(r.value)
      && (forall id :: id in r.value <==> InRange(stored, EpochMs(s.round, start), EpochMs(s.round, end), id))
      && (forall id :: id in r.value <==> Named(s.pages(EpochMs(s.round, start), EpochMs(s.round, end)), id))
  {
    var chunks := WindowChunks(start, end);
    MillisRise(s);
    BodiesWellFormed(s, stored, chunks);
    ListingOfWellFormed(Bodies(s, chunks));
    var ids := BodyIds(Bodies(s, chunks));
    DedupHasNoDup(ids);
    forall id ensures id in ids <==> InRange(stored, EpochMs(s.round, start), EpochMs(s.round, end), id) {
      BodiesNameChunkContacts(s, stored, chunks, id);
      WindowNamesWhatChunksName(Millis(s), stored, start, end, id);
    }
  }

  // ---------- fetching by id ----------

  /** An answer to contact/listById; entries that are no dicts are None. */
  datatype Contacts<T> = NoAnswer | NoField | NotArray | Found(rows: seq<Option<T>>)

  function Present<T>(rows: seq<Option<T>>): seq<T> {
    if rows == [] then []
    else Present(Front(rows)) + if Last(rows).Some? then [Last(rows).value] else []
  }

  /** Present drops what is no dict and nothing else, and keeps the order. */
  lemma {:induction false} PresentAppend<T>(a: seq<Option<T>>, b: seq<Option<T>>)
    ensures Present(a + b) == Present(a) + Present(b)
  {
    if b == [] {
      assert a + b == a;
    } else {
      var f, last := Front(b), Last(b);
      assert Front(a + b) == a + f && Last(a + b) == last;
      PresentAppend(a, f);
      Associate(Present(a), Present(f), if last.Some? then [last.value] else []);
    }
  }

  lemma PresentOfOne<T>(x: T)
    ensures Present([Some(x)]) == [x] && Present<T>([None]) == []
  {
    assert Front([Some(x)]) == [] && Front<Option<T>>([None]) == [];
  }

  function Batches(ids: seq<string>): seq<seq<string>> {
    if |ids| == 0 then []
    else if |ids| <= LIST_BY_ID_BATCH_SIZE then [ids]
    else [ids[..LIST_BY_ID_BATCH_SIZE]] + Batches(ids[LIST_BY_ID_BATCH_SIZE..])
  }

  /** The answers to the batches one after the other, up to the first malformed one. */
  function Answers<T>(listById: seq<string> -> Contacts<T>, batches: seq<seq<string>>): Result<seq<T>, FetchError> {
    if batches == [] then Ok([])
    else
      match listById(batches[0])
      case NoAnswer => Err(RequestFailed)
      case NoField => Err(NoContacts)
      case NotArray => Err(ContactsNotAList)
      case Found(rows) =>
        var rest := Answers(listById, batches[1..]);
        if rest.Err? then rest else Ok(Present(rows) + rest.value)
  }

  method FetchContactsById<T>(listById: seq<string> -> Contacts<T>, contactIds: seq<string>)
    returns (r: Result<seq<T>, FetchError>)
    ensures r == Answers(listById, Batches(contactIds))
  {
    var contacts: seq<T> := [];
    var offset := 0;
    ghost var whole := Answers(listById, Batches(contactIds));
    AnswersAfterNothing(listById, contactIds);
    while offset < |contactIds|
      invariant 0 <= offset
      invariant whole == After(contacts, Answers(listById, Rest(contactIds, offset)))
      decreases |contactIds| - offset
    {
      var stop := if offset + LIST_BY_ID_BATCH_SIZE < |contactIds| then offset + LIST_BY_ID_BATCH_SIZE else |contactIds|;
      var batch := contactIds[offset..stop];
      NextBatch(contactIds, offset);
      AnswersCons(listById, batch, Rest(contactIds, offset + LIST_BY_ID_BATCH_SIZE), contacts);
      match listById(batch) {
        case NoAnswer =>
          return Err(RequestFailed);
        case NoField =>
          return Err(NoContacts);
        case NotArray =>
          return Err(ContactsNotAList);
        case Found(rows) =>
          contacts := contacts + Present(rows);
      }
      offset := offset + LIST_BY_ID_BATCH_SIZE;
    }
    assert contacts + [] == contacts;
    r := Ok(contacts);
  }

  ghost function After<T>(done: seq<T>, rest: Result<seq<T>, FetchError>): Result<seq<T>, FetchError> {
    if rest.Err? then rest else Ok(done + rest.value)
  }

  ghost function Rest(ids: seq<string>, offset: nat): seq<seq<string>> {
    if offset < |ids| then Batches(ids[offset..]) else []
  }

  lemma AnswersAfterNothing<T>(listById: seq<string> -> Contacts<T>, ids: seq<string>)
    ensures Answers(listById, Batches(ids)) == After([], Answers(listById, Rest(ids, 0)))
  {
    assert ids[0..] == ids;
    var whole := Answers(listById, Batches(ids));
    if whole.Ok? {
      assert [] + whole.value == whole.value;
    }
  }

  lemma AnswersCons<T>(listById: seq<string> -> Contacts<T>, batch: seq<string>, rest: seq<seq<string>>, done: seq<T>)
    ensures After(done, Answers(listById, [batch] + rest)) ==
      match listById(batch)
      case NoAnswer => Err(RequestFailed)
      case NoField => Err(NoContacts)
      case NotArray => Err(ContactsNotAList)
      case Found(rows) => After(done + Present(rows), Answers(listById, rest))
  {
    assert ([batch] + rest)[1..] == rest;
    var others := Answers(listById, rest);
    if listById(batch).Found? && others.Ok? {
      var here := Present(listById(batch).rows);
      assert done + (here + others.value) == (done + here) + others.value;
    }
  }

  lemma NextBatch(ids: seq<string>, offset: nat)
    requires offset < |ids|
    ensures var stop := if offset + LIST_BY_ID_BATCH_SIZE < |ids| then offset + LIST_BY_ID_BATCH_SIZE else |ids|;
      Rest(ids, offset) == [ids[offset..stop]] + Rest(ids, offset + LIST_BY_ID_BATCH_SIZE)
  {
    var tail := ids[offset..];
    if |tail| > LIST_BY_ID_BATCH_SIZE {
      assert tail[LIST_BY_ID_BATCH_SIZE..] == ids[offset + LIST_BY_ID_BATCH_SIZE..];
      assert tail[..LIST_BY_ID_BATCH_SIZE] == ids[offset..offset + LIST_BY_ID_BATCH_SIZE];
    } else {
      assert tail == ids[offset..|ids|];
      assert Batches(tail) == [tail];
      assert [tail] + [] == [tail];
    }
  }

  /** Each id is requested once, in order, in batches that are full except perhaps the last. */
  lemma {:induction false} BatchesPartition(ids: seq<string>)
    ensures Concat(Batches(ids)) == ids
    ensures forall k :: 0 <= k < |Batches(ids)| ==> 1 <= |Batches(ids)[k]| <= LIST_BY_ID_BATCH_SIZE
    ensures forall k :: 0 <= k < |Batches(ids)| - 1 ==> |Batches(ids)[k]| == LIST_BY_ID_BATCH_SIZE
  {
    if |ids| > LIST_BY_ID_BATCH_SIZE {
      var head, tail := ids[..LIST_BY_ID_BATCH_SIZE], ids[LIST_BY_ID_BATCH_SIZE..];
      BatchesPartition(tail);
      ConcatCons(head, Batches(tail));
      assert ids == head + tail;
    } else if ids != [] {
      ConcatCons(ids, []);
      assert [ids] + [] == [ids];
    }
  }

  function Records<T>(record: string -> T, ids: seq<string>): (r: seq<T>)
    ensures |r| == |ids| && forall i :: 0 <= i < |ids| ==> r[i] == record(ids[i])
  {
    if ids == [] then [] else Records(record, Front(ids)) + [record(Last(ids))]
  }

  /** The rows are dicts, the record of each id asked for. */
  ghost predicate RowsFor<T(!new)>(rows: seq<Option<T>>, record: string -> T, ids: seq<string>) {
    |rows| == |ids| && forall i :: 0 <= i < |ids| ==> rows[i] == Some(record(ids[i]))
  }

  /** The directory answers every batch with the record of each id asked for. */
  ghost predicate Answering<T(!new)>(listById: seq<string> -> Contacts<T>, record: string -> T) {
    forall ids :: listById(ids).Found? && RowsFor(listById(ids).rows, record, ids)
  }

  lemma {:induction false} AllPresent<T(!new)>(rows: seq<Option<T>>, record: string -> T, ids: seq<string>)
    requires RowsFor(rows, record, ids)
    ensures Present(rows) == Records(record, ids)
  {
    if rows == [] {
    } else {
      AllPresent(Front(rows), record, Front(ids));
    }
  }

  /** The first answer that is no list of contacts decides, each kind by its own error. */
  lemma {:induction false} LookupFailsAtFirstBad<T>(
      listById: seq<string> -> Contacts<T>, batches: seq<seq<string>>, n: nat)
    requires n < |batches| && !listById(batches[n]).Found?
    requires forall k :: 0 <= k < n ==> listById(batches[k]).Found?
    ensures listById(batches[n]).NoAnswer? ==> Answers(listById, batches) == Err(RequestFailed)
    ensures listById(batches[n]).NoField? ==> Answers(listById, batches) == Err(NoContacts)
    ensures listById(batches[n]).NotArray? ==> Answers(listById, batches) == Err(ContactsNotAList)
  {
    if n > 0 {
      assert listById(batches[0]).Found?;
      LookupFailsAtFirstBad(listById, batches[1..], n - 1);
    }
  }

  /** The rows of all answers, one answer after the other. */
  function AllRows<T>(listById: seq<string> -> Contacts<T>, batches: seq<seq<string>>): seq<Option<T>>
    requires forall k :: 0 <= k < |batches| ==> listById(batches[k]).Found?
  {
    if batches == [] then [] else AllRows(listById, Front(batches)) + listById(Last(batches)).rows
  }

  lemma {:induction false} AllRowsCons<T>(listById: seq<string> -> Contacts<T>, batches: seq<seq<string>>)
    requires batches != [] && forall k :: 0 <= k < |batches| ==> listById(batches[k]).Found?
    ensures AllRows(listById, batches) == listById(batches[0]).rows + AllRows(listById, batches[1..])
  {
    if |batches| == 1 {
    } else {
      AllRowsCons(listById, Front(batches));
      assert Front(batches)[1..] == Front(batches[1..]);
      Associate(
        listById(batches[0]).rows, AllRows(listById, Front(batches[1..])), listById(Last(batches)).rows);
    }
  }

  /** If all answers are lists, the dicts among their rows come one after the other, in order. */
  lemma {:induction false} LookupJoinsAnswers<T>(listById: seq<string> -> Contacts<T>, batches: seq<seq<string>>)
    requires forall k :: 0 <= k < |batches| ==> listById(batches[k]).Found?
    ensures Answers(listById, batches) == Ok(Present(AllRows(listById, batches)))
  {
    if batches == [] {
    } else {
      LookupJoinsAnswers(listById, batches[1..]);
      AllRowsCons(listById, batches);
      PresentAppend(listById(batches[0]).rows, AllRows(listById, batches[1..]));
      assert listById(batches[0]).Found?;
    }
  }

  lemma RecordsAppend<T>(record: string -> T, a: seq<string>, b: seq<string>)
    ensures Records(record, a + b) == Records(record, a) + Records(record, b)
  {
  }

  lemma {:induction false} BatchedLookupIsOneLookup<T(!new)>(
      listById: seq<string> -> Contacts<T>, record: string -> T, batches: seq<seq<string>>)
    requires Answering(listById, record)
    ensures Answers(listById, batches) == Ok(Records(record, Concat(batches)))
  {
    if batches == [] {
    } else {
      var first, rest := batches[0], batches[1..];
      BatchedLookupIsOneLookup(listById, record, rest);
      assert listById(first).Found? && RowsFor(listById(first).rows, record, first);
      AllPresent(listById(first).rows, record, first);
      assert batches == [first] + rest;
      ConcatCons(first, rest);
      RecordsAppend(record, first, Concat(rest));
    }
  }

  /** fetch_contacts: list the ids, then look them up. */
  method FetchContacts<T>(s: Service, listById: seq<string> -> Contacts<T>, modifiedFrom: int, modifiedTo: int)
    returns (r: Result<seq<T>, FetchError>)
    requires Responsive(s)
    ensures var ids := Listing(Bodies(s, WindowChunks(modifiedFrom, modifiedTo)));
      r == if ids.Err? then Err(ids.error) else Answers(listById, Batches(ids.value))
  {
    var ids := ListModifiedContactIds(s, modifiedFrom, modifiedTo);
    if ids.Err? {
      return Err(ids.error);
    }
    r := FetchContactsById(listById, ids.value);
  }

  /** End to end: one record for each contact modified in the window, and no other. */
  lemma FetchReturnsEachModifiedContactOnce<T(!new)>(
      s: Service, stored: set<Stored>, listById: seq<string> -> Contacts<T>, record: string -> T, start: int, end: int)
    requires Serves(s, stored) && Answering(listById, record)
    ensures var ids := Listing(Bodies(s, WindowChunks(start, end)));
      && ids.Ok? && NoDup(ids.value)
      && (forall id :: id in ids.value <==> InRange(stored, EpochMs(s.round, start), EpochMs(s.round, end), id))
      && Answers(listById, Batches(ids.value)) == Ok(Records(record, ids.value))
  {
    ChunkedFetchIsOneQuery(s, stored, start, end);
    var ids := Listing(Bodies(s, WindowChunks(start, end))).value;
    BatchesPartition(ids);
    BatchedLookupIsOneLookup(listById, record, Batches(ids));
  }
}
