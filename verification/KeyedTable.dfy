/** A table with a unique key and the ORM's update_or_create on it. */
module KeyedTable {
  import opened Prelude

  /** created is set when the row is made and left alone by updates. */
  datatype Row<K, V> = Row(key: K, val: V, created: int)

  function Upsert<K(==), V>(t: seq<Row<K, V>>, w: Row<K, V>): seq<Row<K, V>> {
    if t == [] then [w]
    else if t[0].key == w.key then [t[0].(val := w.val)] + t[1..]
    else [t[0]] + Upsert(t[1..], w)
  }

  /** The writes of a batch, in order. */
  function UpsertAll<K(==), V>(t: seq<Row<K, V>>, ws: seq<Row<K, V>>): seq<Row<K, V>> {
    if ws == [] then t else Upsert(UpsertAll(t, Front(ws)), Last(ws))
  }

  function Find<K(==), V>(t: seq<Row<K, V>>, k: K): Option<Row<K, V>> {
    if t == [] then None else if t[0].key == k then Some(t[0]) else Find(t[1..], k)
  }

  function LastWrite<K(==), V>(ws: seq<Row<K, V>>, k: K): Option<Row<K, V>> {
    if ws == [] then None else if Last(ws).key == k then Some(Last(ws)) else LastWrite(Front(ws), k)
  }

  function FirstWrite<K(==), V>(ws: seq<Row<K, V>>, k: K): Option<Row<K, V>> {
    if ws == [] then None
    else
      var earlier := FirstWrite(Front(ws), k);
      if earlier.Some? then earlier else if Last(ws).key == k then Some(Last(ws)) else None
  }

  function Keys<K, V>(t: seq<Row<K, V>>): (r: seq<K>)
    ensures |r| == |t| && forall i :: 0 <= i < |t| ==> r[i] == t[i].key
  {
    if t == [] then [] else [t[0].key] + Keys(t[1..])
  }

  ghost predicate UniqueKeys<K, V>(t: seq<Row<K, V>>) {
    forall i, j :: 0 <= i < j < |t| ==> t[i].key != t[j].key
  }

  lemma UpsertAllSnoc<K, V>(t: seq<Row<K, V>>, ws: seq<Row<K, V>>, w: Row<K, V>)
    ensures UpsertAll(t, ws + [w]) == Upsert(UpsertAll(t, ws), w)
  {
    assert Front(ws + [w]) == ws;
  }

  lemma {:induction false} FindAfterUpsert<K, V>(t: seq<Row<K, V>>, w: Row<K, V>, k: K)
    ensures Find(Upsert(t, w), k) ==
      if k != w.key then Find(t, k)
      else if Find(t, k).None? then Some(w)
      else Some(Find(t, k).value.(val := w.val))
  {
    if t != [] && t[0].key != w.key {
      FindAfterUpsert(t[1..], w, k);
      assert ([t[0]] + Upsert(t[1..], w))[1..] == Upsert(t[1..], w);
    } else if t != [] {
      assert ([t[0].(val := w.val)] + t[1..])[1..] == t[1..];
    }
  }

  lemma {:induction false} KeysAfterUpsert<K, V>(t: seq<Row<K, V>>, w: Row<K, V>)
    ensures Keys(Upsert(t, w)) == if Find(t, w.key).Some? then Keys(t) else Keys(t) + [w.key]
  {
    if t != [] && t[0].key != w.key {
      KeysAfterUpsert(t[1..], w);
      assert Keys(t) == [t[0].key] + Keys(t[1..]);
    }
  }

  lemma {:induction false} FindIffKey<K, V>(t: seq<Row<K, V>>, k: K)
    ensures Find(t, k).Some? <==> k in Keys(t)
    ensures Find(t, k).Some? ==> Find(t, k).value.key == k && Find(t, k).value in t
  {
    if t == [] {
    } else {
      FindIffKey(t[1..], k);
      assert Keys(t) == [t[0].key] + Keys(t[1..]);
    }
  }

  /** Keys stay unique whatever is written. */
  lemma {:induction false} UpsertAllKeepsKeysUnique<K, V>(t: seq<Row<K, V>>, ws: seq<Row<K, V>>)
    requires UniqueKeys(t)
    ensures UniqueKeys(UpsertAll(t, ws))
  {
    if ws == [] {
    } else {
      UpsertAllKeepsKeysUnique(t, Front(ws));
      var before, w := UpsertAll(t, Front(ws)), Last(ws);
      KeysAfterUpsert(before, w);
      FindIffKey(before, w.key);
      UniqueByKeys(before);
      var after := Upsert(before, w);
      assert NoDup(Keys(after));
      UniqueByKeys(after);
    }
  }

  lemma UniqueByKeys<K, V>(t: seq<Row<K, V>>)
    ensures UniqueKeys(t) <==> NoDup(Keys(t))
  {
  }

  /**
   Last write wins: after a batch each written key holds the value of its last write, a row that was there
   keeps its creation time, a new row has that of its first write, and every other key is as before.
  */
  lemma {:induction false} LastWriteWins<K, V>(t: seq<Row<K, V>>, ws: seq<Row<K, V>>, k: K)
    ensures LastWrite(ws, k).None? ==> Find(UpsertAll(t, ws), k) == Find(t, k)
    ensures LastWrite(ws, k).Some? ==>
      && Find(UpsertAll(t, ws), k).Some?
      && Find(UpsertAll(t, ws), k).value.val == LastWrite(ws, k).value.val
      && FirstWrite(ws, k).Some?
      && Find(UpsertAll(t, ws), k).value.created ==
         if Find(t, k).Some? then Find(t, k).value.created else FirstWrite(ws, k).value.created
    ensures LastWrite(ws, k).None? ==> FirstWrite(ws, k).None?
  {
    if ws == [] {
    } else {
      LastWriteWins(t, Front(ws), k);
      FindAfterUpsert(UpsertAll(t, Front(ws)), Last(ws), k);
      FindIffKey(t, k);
    }
  }

  lemma {:induction false} FindAt<K, V>(t: seq<Row<K, V>>, i: nat)
    requires UniqueKeys(t) && i < |t|
    ensures Find(t, t[i].key) == Some(t[i])
  {
    if i == 0 {
    } else {
      assert t[0].key != t[i].key;
      FindAt(t[1..], i - 1);
    }
  }

  /** Two unique-keyed tables with the same key column and the same lookups are equal. */
  lemma LookupsDetermineTable<K, V>(a: seq<Row<K, V>>, b: seq<Row<K, V>>)
    requires UniqueKeys(a) && Keys(a) == Keys(b)
    requires forall k :: k in Keys(a) ==> Find(a, k) == Find(b, k)
    ensures a == b
  {
    UniqueByKeys(a);
    UniqueByKeys(b);
    forall i | 0 <= i < |a| ensures a[i] == b[i] {
      assert Keys(a)[i] == a[i].key && Keys(b)[i] == b[i].key && Keys(a)[i] in Keys(a);
      FindAt(a, i);
      FindAt(b, i);
    }
  }

  /** The same keys and values, in the same order; the clock may have moved. */
  ghost predicate SameWrites<K, V>(ws: seq<Row<K, V>>, ws': seq<Row<K, V>>) {
    |ws| == |ws'| && forall i :: 0 <= i < |ws| ==> ws[i].key == ws'[i].key && ws[i].val == ws'[i].val
  }

  lemma {:induction false} SameLastWrites<K, V>(ws: seq<Row<K, V>>, ws': seq<Row<K, V>>, k: K)
    requires SameWrites(ws, ws')
    ensures LastWrite(ws, k).Some? <==> LastWrite(ws', k).Some?
    ensures LastWrite(ws, k).Some? ==> LastWrite(ws, k).value.val == LastWrite(ws', k).value.val
  {
    if ws == [] {
    } else {
      SameLastWrites(Front(ws), Front(ws'), k);
    }
  }

  lemma {:induction false} LastWriteExists<K, V>(ws: seq<Row<K, V>>, k: K)
    ensures LastWrite(ws, k).Some? <==> k in Keys(ws)
  {
    if ws == [] {
    } else {
      LastWriteExists(Front(ws), k);
      assert ws == Front(ws) + [Last(ws)];
      assert Keys(ws) == Keys(Front(ws)) + [Last(ws).key];
    }
  }

  lemma {:induction false} LastWriteAppend<K, V>(a: seq<Row<K, V>>, b: seq<Row<K, V>>, k: K)
    ensures LastWrite(a + b, k) == if LastWrite(b, k).Some? then LastWrite(b, k) else LastWrite(a, k)
  {
    if b == [] {
      assert a + b == a;
    } else {
      assert Front(a + b) == a + Front(b) && Last(a + b) == Last(b);
      LastWriteAppend(a, Front(b), k);
    }
  }

  lemma LastWriteSnoc<K, V>(ws: seq<Row<K, V>>, w: Row<K, V>, k: K)
    ensures LastWrite(ws + [w], k) == if w.key == k then Some(w) else LastWrite(ws, k)
  {
    assert Front(ws + [w]) == ws;
  }

  lemma {:induction false} FirstWriteIsOne<K, V>(ws: seq<Row<K, V>>, k: K)
    ensures FirstWrite(ws, k).Some? ==> FirstWrite(ws, k).value in ws && FirstWrite(ws, k).value.key == k
  {
    if ws == [] {
    } else {
      FirstWriteIsOne(Front(ws), k);
      assert ws == Front(ws) + [Last(ws)];
    }
  }

  lemma {:induction false} LastWriteIsOne<K, V>(ws: seq<Row<K, V>>, k: K)
    ensures LastWrite(ws, k).Some? ==> LastWrite(ws, k).value in ws && LastWrite(ws, k).value.key == k
  {
    if ws == [] {
    } else {
      LastWriteIsOne(Front(ws), k);
      assert ws == Front(ws) + [Last(ws)];
    }
  }

  /** Writing to keys that are all there leaves the key column alone. */
  lemma {:induction false} RewritesKeepKeyColumn<K, V>(t: seq<Row<K, V>>, ws: seq<Row<K, V>>)
    requires forall i :: 0 <= i < |ws| ==> ws[i].key in Keys(t)
    ensures Keys(UpsertAll(t, ws)) == Keys(t)
  {
    if ws == [] {
    } else {
      var f := Front(ws);
      RewritesKeepKeyColumn(t, f);
      assert ws[|ws| - 1].key in Keys(t);
      FindIffKey(UpsertAll(t, f), Last(ws).key);
      KeysAfterUpsert(UpsertAll(t, f), Last(ws));
    }
  }

  /** Running the same batch again changes nothing, not even creation times. */
  lemma UpsertAllIdempotent<K, V>(t: seq<Row<K, V>>, ws: seq<Row<K, V>>, again: seq<Row<K, V>>)
    requires UniqueKeys(t) && SameWrites(ws, again)
    ensures UpsertAll(UpsertAll(t, ws), again) == UpsertAll(t, ws)
  {
    var once := UpsertAll(t, ws);
    var twice := UpsertAll(once, again);
    UpsertAllKeepsKeysUnique(t, ws);
    forall i | 0 <= i < |again| ensures again[i].key in Keys(once) {
      var k := again[i].key;
      assert ws[i].key == k && Keys(ws)[i] == k;
      LastWriteExists(ws, k);
      LastWriteWins(t, ws, k);
      FindIffKey(once, k);
    }
    RewritesKeepKeyColumn(once, again);
    forall k | k in Keys(once) ensures Find(once, k) == Find(twice, k) {
      SameLastWrites(ws, again, k);
      LastWriteWins(t, ws, k);
      LastWriteWins(once, again, k);
      FindIffKey(once, k);
      FindIffKey(twice, k);
    }
    LookupsDetermineTable(once, twice);
  }
}
