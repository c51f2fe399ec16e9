/**
 Persisting a Shopify fetch (tenants/fetch_persist.py): contacts and orders are upserted, then the
 metrics of every contact the batch touched are recomputed from the order table.

 API records are given as read out of the JSON: ids after str(), texts after str(x or ""), the price after
 the decimal parse and the date after the datetime parse (None when missing or unreadable).
*/
module ShopifyPersist {
  import opened Prelude
  import opened KeyedTable
  import opened Text

  datatype Key = Key(company: nat, source: string, externalId: string)

  datatype Contact = Contact(email: string, phone: string)

  datatype OrderStatus = PAID | REFUNDED | FAILED

  datatype Order = Order(contact: Key, amount: real, currency: string, status: OrderStatus)

  datatype Metric = Metric(
    totalOrders: nat, totalRevenue: real, lastOrderAt: Option<int>, avgOrderValue: real, ltv: real, stage: string)

  datatype MetricKey = MetricKey(run: nat, contact: Key)

  datatype ApiCustomer = ApiCustomer(id: Option<string>, email: string, phone: string)

  datatype ApiOrder = ApiOrder(
    id: Option<string>, customer: ApiCustomer, email: string, totalPrice: Option<real>, currency: string,
    financialStatus: string, createdAt: Option<int>)

  // ---------- one record ----------

  function MapShopifyOrderStatus(financialStatus: string): (r: OrderStatus)
    ensures r == REFUNDED <==> Lower(financialStatus) in {"refunded", "partially_refunded"}
    ensures r == PAID <==> Lower(financialStatus) in {"paid", "partially_paid", "authorized", "pending"}
  {
    var status := Lower(financialStatus);
    if status == "paid" || status == "partially_paid" then PAID
    else if status == "refunded" || status == "partially_refunded" then REFUNDED
    else if status == "voided" || status == "failed" then FAILED
    else if status == "authorized" || status == "pending" then PAID
    else FAILED
  }

  function CustomerWrite(company: nat, c: ApiCustomer, now: int): Option<Row<Key, Contact>> {
    if c.id.None? then None
    else Some(Row(Key(company, "shopify", c.id.value), Contact(c.email, c.phone), now))
  }

  /** The contact an order names: by customer id, else by e-mail address, else none. */
  function OrderContactWrite(company: nat, o: ApiOrder, now: int): Option<Row<Key, Contact>> {
    var email := Strip(if o.customer.email != "" then o.customer.email else o.email);
    var contact := Contact(email, Strip(o.customer.phone));
    if o.customer.id.Some? then Some(Row(Key(company, "shopify", o.customer.id.value), contact, now))
    else if email == "" then None
    else Some(Row(Key(company, "shopify", "email:" + Lower(email)), contact, now))
  }

  /** The order row, for an order with a contact and an id. */
  function OrderWrite(company: nat, o: ApiOrder, now: int): Option<Row<Key, Order>> {
    var contact := OrderContactWrite(company, o, now);
    if contact.None? || o.id.None? then None
    else Some(Row(
      Key(company, "shopify", o.id.value),
      Order(contact.value.key, if o.totalPrice.Some? then o.totalPrice.value else 0.0, o.currency,
            MapShopifyOrderStatus(o.financialStatus)),
      if o.createdAt.Some? then o.createdAt.value else now))
  }

  // ---------- the batch ----------

  function AsList<T>(x: Option<T>): seq<T> {
    if x.Some? then [x.value] else []
  }

  function CustomerWrites(company: nat, cs: seq<ApiCustomer>, now: int): seq<Row<Key, Contact>> {
    if cs == [] then [] else CustomerWrites(company, Front(cs), now) + AsList(CustomerWrite(company, Last(cs), now))
  }

  function OrderContactWrites(company: nat, os: seq<ApiOrder>, now: int): seq<Row<Key, Contact>> {
    if os == [] then [] else OrderContactWrites(company, Front(os), now) + AsList(OrderContactWrite(company, Last(os), now))
  }

  function OrderWrites(company: nat, os: seq<ApiOrder>, now: int): seq<Row<Key, Order>> {
    if os == [] then [] else OrderWrites(company, Front(os), now) + AsList(OrderWrite(company, Last(os), now))
  }

  function ContactWrites(company: nat, cs: seq<ApiCustomer>, os: seq<ApiOrder>, now: int): seq<Row<Key, Contact>> {
    CustomerWrites(company, cs, now) + OrderContactWrites(company, os, now)
  }

  /** The contacts written, each once, in the order of their first write. */
  function Touched(ws: seq<Row<Key, Contact>>): (r: seq<Key>)
    ensures NoDup(r)
    ensures forall k :: k in r <==> exists i :: 0 <= i < |ws| && ws[i].key == k
  {
    if ws == [] then []
    else
      var r := Touched(Front(ws));
      assert ws == Front(ws) + [Last(ws)];
      assert ws[|ws| - 1].key == Last(ws).key;
      if Last(ws).key in r then r else r + [Last(ws).key]
  }

  // ---------- metrics ----------

  predicate Held(company: nat, contact: Key, o: Row<Key, Order>) {
    o.key.company == company && o.val.contact == contact
  }

  function OrdersOf(t: seq<Row<Key, Order>>, company: nat, contact: Key): seq<Row<Key, Order>> {
    if t == [] then []
    else OrdersOf(Front(t), company, contact) + if Held(company, contact, Last(t)) then [Last(t)] else []
  }

  function PaidSum(t: seq<Row<Key, Order>>): real {
    if t == [] then 0.0 else PaidSum(Front(t)) + if Last(t).val.status == PAID then Last(t).val.amount else 0.0
  }

  function Latest(t: seq<Row<Key, Order>>): (r: Option<int>)
    ensures r.None? <==> t == []
    ensures r.Some? ==> exists i :: 0 <= i < |t| && t[i].created == r.value
    ensures r.Some? ==> forall i :: 0 <= i < |t| ==> t[i].created <= r.value
  {
    if t == [] then None
    else
      var before := Latest(Front(t));
      assert t[|t| - 1] == Last(t);
      if before.Some? && before.value >= Last(t).created then before else Some(Last(t).created)
  }

  /** What a contact's metric must say, given the orders the contact holds. */
  ghost predicate Agrees(m: Metric, held: seq<Row<Key, Order>>) {
    && m.totalOrders == |held|
    && m.totalRevenue == PaidSum(held) && m.ltv == m.totalRevenue
    && m.lastOrderAt == Latest(held)
    && m.avgOrderValue * (|held| as real) == m.totalRevenue
    && (held == [] ==> m.avgOrderValue == 0.0)
    && m.stage == if held == [] then "" else if |held| == 1 then "new" else "repeat"
  }

  lemma MeanTimesCount(total: real, n: nat)
    requires n > 0
    ensures (total / (n as real)) * (n as real) == total
  {
  }

  function MetricOf(held: seq<Row<Key, Order>>): (m: Metric)
    ensures Agrees(m, held)
  {
    var n, revenue := |held|, PaidSum(held);
    var mean := if n > 0 then (MeanTimesCount(revenue, n); revenue / (n as real)) else 0.0;
    Metric(
      n, revenue, Latest(held), mean, revenue,
      if n == 0 then "" else if n == 1 then "new" else "repeat")
  }

  function MetricRow(run: nat, company: nat, t: seq<Row<Key, Order>>, contact: Key, now: int): Row<MetricKey, Metric> {
    Row(MetricKey(run, contact), MetricOf(OrdersOf(t, company, contact)), now)
  }

  function MetricWrites(run: nat, company: nat, t: seq<Row<Key, Order>>, contacts: seq<Key>, now: int)
    : (r: seq<Row<MetricKey, Metric>>)
    ensures |r| == |contacts|
    ensures forall i :: 0 <= i < |contacts| ==> r[i] == MetricRow(run, company, t, contacts[i], now)
  {
    if contacts == [] then []
    else MetricWrites(run, company, t, Front(contacts), now) + [MetricRow(run, company, t, Last(contacts), now)]
  }

  // ---------- the operation ----------

  datatype Counts = Counts(contacts: nat, orders: nat, metrics: nat)

  class Database {
    var contacts: seq<Row<Key, Contact>>
    var orders: seq<Row<Key, Order>>
    var metrics: seq<Row<MetricKey, Metric>>
    var completedRuns: set<nat>

    constructor (
      contacts: seq<Row<Key, Contact>>, orders: seq<Row<Key, Order>>, metrics: seq<Row<MetricKey, Metric>>)
      ensures this.contacts == contacts && this.orders == orders && this.metrics == metrics && completedRuns == {}
    {
      this.contacts, this.orders, this.metrics, completedRuns := contacts, orders, metrics, {};
    }

    method UpsertCustomer(company: nat, c: ApiCustomer, now: int) returns (contact: Option<Key>)
      modifies this`contacts
      ensures contacts == UpsertAll(old(contacts), AsList(CustomerWrite(company, c, now)))
      ensures contact == match CustomerWrite(company, c, now) case None => None case Some(w) => Some(w.key)
    {
      if c.id == None {
        return None;
      }
      var key := Key(company, "shopify", c.id.value);
      OneWrite(contacts, Row(key, Contact(c.email, c.phone), now));
      contacts := Upsert(contacts, Row(key, Contact(c.email, c.phone), now));
      contact := Some(key);
    }

    method UpsertOrderContact(company: nat, o: ApiOrder, now: int) returns (contact: Option<Key>)
      modifies this`contacts
      ensures contacts == UpsertAll(old(contacts), AsList(OrderContactWrite(company, o, now)))
      ensures contact == match OrderContactWrite(company, o, now) case None => None case Some(w) => Some(w.key)
    {
      var email := Strip(if o.customer.email != "" then o.customer.email else o.email);
      var phone := Strip(o.customer.phone);
      var key;
      if o.customer.id.Some? {
        key := Key(company, "shopify", o.customer.id.value);
      } else if email == "" {
        return None;
      } else {
        key := Key(company, "shopify", "email:" + Lower(email));
      }
      OneWrite(contacts, Row(key, Contact(email, phone), now));
      contacts := Upsert(contacts, Row(key, Contact(email, phone), now));
      contact := Some(key);
    }

    /** One pass of the order loop: the contact, then the order itself. */
    method UpsertOrder(company: nat, o: ApiOrder, now: int) returns (contact: Option<Key>, stored: bool)
      modifies this`contacts, this`orders
      ensures contacts == UpsertAll(old(contacts), AsList(OrderContactWrite(company, o, now)))
      ensures contact == match OrderContactWrite(company, o, now) case None => None case Some(w) => Some(w.key)
      ensures orders == UpsertAll(old(orders), AsList(OrderWrite(company, o, now)))
      ensures stored <==> OrderWrite(company, o, now).Some?
    {
      contact := UpsertOrderContact(company, o, now);
      stored := false;
      if contact == None || o.id == None {
        return;
      }
      var amount := if o.totalPrice.Some? then o.totalPrice.value else 0.0;
      var row := Row(
        Key(company, "shopify", o.id.value),
        Order(contact.value, amount, o.currency, MapShopifyOrderStatus(o.financialStatus)),
        if o.createdAt.Some? then o.createdAt.value else now);
      OneWrite(orders, row);
      orders := Upsert(orders, row);
      stored := true;
    }

    method UpsertCustomers(company: nat, cs: seq<ApiCustomer>, now: int) returns (touched: seq<Key>)
      modifies this`contacts
      ensures contacts == UpsertAll(old(contacts), CustomerWrites(company, cs, now))
      ensures touched == Touched(CustomerWrites(company, cs, now))
    {
      touched := [];
      for i := 0 to |cs|
        invariant contacts == UpsertAll(old(contacts), CustomerWrites(company, cs[..i], now))
        invariant touched == Touched(CustomerWrites(company, cs[..i], now))
      {
        assert Front(cs[..i + 1]) == cs[..i];
        ghost var done, w := CustomerWrites(company, cs[..i], now), CustomerWrite(company, cs[i], now);
        MoreWrites(old(contacts), done, w);
        MoreTouched(done, w);
        var contact := UpsertCustomer(company, cs[i], now);
        if contact.Some? {
          touched := Touch(touched, contact.value);
        }
      }
      assert cs[..|cs|] == cs;
    }

    method UpsertOrders(
        company: nat, os: seq<ApiOrder>, now: int, already: seq<Key>, ghost done: seq<Row<Key, Contact>>,
        ghost before: seq<Row<Key, Contact>>)
      returns (touched: seq<Key>, upserted: nat)
      requires already == Touched(done) && contacts == UpsertAll(before, done)
      modifies this`contacts, this`orders
      ensures contacts == UpsertAll(before, done + OrderContactWrites(company, os, now))
      ensures touched == Touched(done + OrderContactWrites(company, os, now))
      ensures orders == UpsertAll(old(orders), OrderWrites(company, os, now))
      ensures upserted == |OrderWrites(company, os, now)|
    {
      touched, upserted := already, 0;
      assert done + OrderContactWrites(company, os[..0], now) == done;
      for i := 0 to |os|
        invariant contacts == UpsertAll(before, done + OrderContactWrites(company, os[..i], now))
        invariant touched == Touched(done + OrderContactWrites(company, os[..i], now))
        invariant orders == UpsertAll(old(orders), OrderWrites(company, os[..i], now))
        invariant upserted == |OrderWrites(company, os[..i], now)|
      {
        OneMoreOrder(before, done, old(orders), company, os, i, now);
        var contact, stored := UpsertOrder(company, os[i], now);
        if contact == None {
          continue;
        }
        touched := Touch(touched, contact.value);
        if !stored {
          continue;
        }
        upserted := upserted + 1;
      }
      assert os[..|os|] == os;
    }

    method WriteMetrics(run: nat, company: nat, touched: seq<Key>, now: int) returns (written: nat)
      modifies this`metrics
      ensures metrics == UpsertAll(old(metrics), MetricWrites(run, company, orders, touched, now))
      ensures written == |touched|
    {
      written := 0;
      for i := 0 to |touched|
        invariant metrics == UpsertAll(old(metrics), MetricWrites(run, company, orders, touched[..i], now))
        invariant written == i
      {
        assert Front(touched[..i + 1]) == touched[..i];
        var row := Row(MetricKey(run, touched[i]), MetricOf(OrdersOf(orders, company, touched[i])), now);
        UpsertAllSnoc(old(metrics), MetricWrites(run, company, orders, touched[..i], now), row);
        metrics := Upsert(metrics, row);
        written := written + 1;
      }
      assert touched[..|touched|] == touched;
    }

    method PersistShopifyFetch(run: nat, company: nat, cs: seq<ApiCustomer>, os: seq<ApiOrder>, now: int)
      returns (counts: Counts)
      modifies this
      ensures contacts == UpsertAll(old(contacts), ContactWrites(company, cs, os, now))
      ensures orders == UpsertAll(old(orders), OrderWrites(company, os, now))
      ensures var touched := Touched(ContactWrites(company, cs, os, now));
        && metrics == UpsertAll(old(metrics), BatchMetrics(run, company, orders, ContactWrites(company, cs, os, now), now))
        && counts == Counts(|touched|, |OrderWrites(company, os, now)|, |touched|)
      ensures completedRuns == old(completedRuns) + {run}
      ensures UniqueKeys(old(metrics)) ==> UniqueKeys(metrics) && forall k :: k in Touched(ContactWrites(company, cs, os, now)) ==>
        MetricAgrees(metrics, run, k, OrdersOf(orders, company, k))
    {
      var touched := UpsertCustomers(company, cs, now);
      var upserted;
      touched, upserted := UpsertOrders(company, os, now, touched, CustomerWrites(company, cs, now), old(contacts));
      var written := WriteMetrics(run, company, touched, now);
      completedRuns := completedRuns + {run};
      AllMetricsAgree(old(metrics), orders, run, company, touched, now);
      counts := Counts(|touched|, upserted, written);
    }
  }

  /** touched[key] = contact: a key already there keeps its place. */
  function Touch(touched: seq<Key>, key: Key): seq<Key> {
    if key in touched then touched else touched + [key]
  }

  lemma OneWrite<K, V>(t: seq<Row<K, V>>, w: Row<K, V>)
    ensures UpsertAll(t, [w]) == Upsert(t, w)
  {
    assert Front([w]) == [];
  }

  lemma MoreWrites<K, V>(t: seq<Row<K, V>>, done: seq<Row<K, V>>, next: Option<Row<K, V>>)
    ensures UpsertAll(t, done + AsList(next)) == UpsertAll(UpsertAll(t, done), AsList(next))
  {
    if next.Some? {
      UpsertAllSnoc(t, done, next.value);
      OneWrite(UpsertAll(t, done), next.value);
    } else {
      assert done + AsList(next) == done;
    }
  }

  lemma MoreTouched(done: seq<Row<Key, Contact>>, next: Option<Row<Key, Contact>>)
    ensures Touched(done + AsList(next)) == if next.Some? then Touch(Touched(done), next.value.key) else Touched(done)
  {
    if next.Some? {
      assert Front(done + [next.value]) == done;
    } else {
      assert done + AsList(next) == done;
    }
  }

  /** What the order loop's i-th pass adds to the batch. */
  lemma OneMoreOrder(
      contacts: seq<Row<Key, Contact>>, done: seq<Row<Key, Contact>>, orders: seq<Row<Key, Order>>,
      company: nat, os: seq<ApiOrder>, i: nat, now: int)
    requires i < |os|
    ensures var ws, ws' := done + OrderContactWrites(company, os[..i], now), done + OrderContactWrites(company, os[..i + 1], now);
      var w := OrderContactWrite(company, os[i], now);
      && UpsertAll(contacts, ws') == UpsertAll(UpsertAll(contacts, ws), AsList(w))
      && Touched(ws') == if w.Some? then Touch(Touched(ws), w.value.key) else Touched(ws)
    ensures var xs, xs' := OrderWrites(company, os[..i], now), OrderWrites(company, os[..i + 1], now);
      var x := OrderWrite(company, os[i], now);
      && UpsertAll(orders, xs') == UpsertAll(UpsertAll(orders, xs), AsList(x))
      && |xs'| == |xs| + if x.Some? then 1 else 0
  {
    assert Front(os[..i + 1]) == os[..i];
    var here, w := OrderContactWrites(company, os[..i], now), OrderContactWrite(company, os[i], now);
    assert done + (here + AsList(w)) == (done + here) + AsList(w);
    MoreWrites(contacts, done + here, w);
    MoreTouched(done + here, w);
    MoreWrites(orders, OrderWrites(company, os[..i], now), OrderWrite(company, os[i], now));
  }

  // ---------- persisting twice ----------

  /** One more write on both sides, of one key and value, or on neither. */
  lemma SameWritesGrow<K, V>(a: seq<Row<K, V>>, b: seq<Row<K, V>>, x: Option<Row<K, V>>, y: Option<Row<K, V>>)
    requires SameWrites(a, b) && (x.Some? <==> y.Some?)
    requires x.Some? ==> x.value.key == y.value.key && x.value.val == y.value.val
    ensures SameWrites(a + AsList(x), b + AsList(y))
  {
  }

  lemma {:induction false} CustomerWritesIgnoreClock(company: nat, cs: seq<ApiCustomer>, t: int, t': int)
    ensures SameWrites(CustomerWrites(company, cs, t), CustomerWrites(company, cs, t'))
  {
    if cs == [] {
    } else {
      var f, c := Front(cs), Last(cs);
      CustomerWritesIgnoreClock(company, f, t, t');
      SameWritesGrow(
        CustomerWrites(company, f, t), CustomerWrites(company, f, t'), CustomerWrite(company, c, t), CustomerWrite(company, c, t'));
    }
  }

  lemma {:induction false} OrderContactWritesIgnoreClock(company: nat, os: seq<ApiOrder>, t: int, t': int)
    ensures SameWrites(OrderContactWrites(company, os, t), OrderContactWrites(company, os, t'))
  {
    if os == [] {
    } else {
      var f, o := Front(os), Last(os);
      OrderContactWritesIgnoreClock(company, f, t, t');
      SameWritesGrow(
        OrderContactWrites(company, f, t), OrderContactWrites(company, f, t'),
        OrderContactWrite(company, o, t), OrderContactWrite(company, o, t'));
    }
  }

  lemma {:induction false} OrderWritesIgnoreClock(company: nat, os: seq<ApiOrder>, t: int, t': int)
    ensures SameWrites(OrderWrites(company, os, t), OrderWrites(company, os, t'))
  {
    if os == [] {
    } else {
      var f, o := Front(os), Last(os);
      OrderWritesIgnoreClock(company, f, t, t');
      SameWritesGrow(
        OrderWrites(company, f, t), OrderWrites(company, f, t'), OrderWrite(company, o, t), OrderWrite(company, o, t'));
    }
  }

  lemma ContactWritesIgnoreClock(company: nat, cs: seq<ApiCustomer>, os: seq<ApiOrder>, t: int, t': int)
    ensures SameWrites(ContactWrites(company, cs, os, t), ContactWrites(company, cs, os, t'))
  {
    CustomerWritesIgnoreClock(company, cs, t, t');
    OrderContactWritesIgnoreClock(company, os, t, t');
  }

  lemma WrittenTwice<K, V>(t: seq<Row<K, V>>, ws: seq<Row<K, V>>, again: seq<Row<K, V>>)
    requires UniqueKeys(t) && SameWrites(ws, again)
    ensures UpsertAll(UpsertAll(t, ws), again) == UpsertAll(t, ws) && UniqueKeys(UpsertAll(t, ws))
  {
    UpsertAllIdempotent(t, ws, again);
    UpsertAllKeepsKeysUnique(t, ws);
  }

  /** A second persist of the same batch, at any later time, leaves the contact and order tables as they are. */
  lemma PersistTwiceIsPersistOnce(
      contacts: seq<Row<Key, Contact>>, orders: seq<Row<Key, Order>>, company: nat, cs: seq<ApiCustomer>,
      os: seq<ApiOrder>, t: int, t': int)
    requires UniqueKeys(contacts) && UniqueKeys(orders)
    ensures var once := UpsertAll(contacts, ContactWrites(company, cs, os, t));
      UpsertAll(once, ContactWrites(company, cs, os, t')) == once && UniqueKeys(once)
    ensures var once := UpsertAll(orders, OrderWrites(company, os, t));
      UpsertAll(once, OrderWrites(company, os, t')) == once && UniqueKeys(once)
  {
    ContactWritesIgnoreClock(company, cs, os, t, t');
    OrderWritesIgnoreClock(company, os, t, t');
    WrittenTwice(contacts, ContactWrites(company, cs, os, t), ContactWrites(company, cs, os, t'));
    WrittenTwice(orders, OrderWrites(company, os, t), OrderWrites(company, os, t'));
  }

  lemma {:induction false} TouchedIgnoresClock(ws: seq<Row<Key, Contact>>, ws': seq<Row<Key, Contact>>)
    requires SameWrites(ws, ws')
    ensures Touched(ws) == Touched(ws')
  {
    if ws == [] {
    } else {
      TouchedIgnoresClock(Front(ws), Front(ws'));
    }
  }

  lemma {:induction false} MetricWritesIgnoreClock(
      run: nat, company: nat, t: seq<Row<Key, Order>>, contacts: seq<Key>, now: int, now': int)
    ensures SameWrites(MetricWrites(run, company, t, contacts, now), MetricWrites(run, company, t, contacts, now'))
  {
    if contacts == [] {
    } else {
      MetricWritesIgnoreClock(run, company, t, Front(contacts), now, now');
    }
  }

  /** The metrics a persist writes for its run, given the order table it leaves. */
  function BatchMetrics(run: nat, company: nat, orders: seq<Row<Key, Order>>, ws: seq<Row<Key, Contact>>, now: int)
    : seq<Row<MetricKey, Metric>>
  {
    MetricWrites(run, company, orders, Touched(ws), now)
  }

  /** Persisting the batch again for the same run leaves the run's metrics as they are too. */
  lemma MetricsTwiceAreMetricsOnce(
      metrics: seq<Row<MetricKey, Metric>>, orders: seq<Row<Key, Order>>, run: nat, company: nat,
      cs: seq<ApiCustomer>, os: seq<ApiOrder>, t: int, t': int)
    requires UniqueKeys(orders) && UniqueKeys(metrics)
    ensures var final := UpsertAll(orders, OrderWrites(company, os, t));
      var final' := UpsertAll(final, OrderWrites(company, os, t'));
      var once := UpsertAll(metrics, BatchMetrics(run, company, final, ContactWrites(company, cs, os, t), t));
      UpsertAll(once, BatchMetrics(run, company, final', ContactWrites(company, cs, os, t'), t')) == once
        && UniqueKeys(once)
  {
    var final := UpsertAll(orders, OrderWrites(company, os, t));
    var ws, ws' := ContactWrites(company, cs, os, t), ContactWrites(company, cs, os, t');
    PersistTwiceIsPersistOnce([], orders, company, cs, os, t, t');
    ContactWritesIgnoreClock(company, cs, os, t, t');
    TouchedIgnoresClock(ws, ws');
    MetricWritesIgnoreClock(run, company, final, Touched(ws), t, t');
    UpsertAllIdempotent(
      metrics, BatchMetrics(run, company, final, ws, t), BatchMetrics(run, company, final, ws', t'));
    UpsertAllKeepsKeysUnique(metrics, BatchMetrics(run, company, final, ws, t));
  }

  // ---------- each order ends with its last usable occurrence ----------

  /** The last order in the batch with this id that names a contact. */
  function LastUsable(os: seq<ApiOrder>, id: string): Option<ApiOrder> {
    if os == [] then None
    else
      var o := Last(os);
      if o.id == Some(id) && (o.customer.id.Some? || OrderEmail(o) != "") then Some(o) else LastUsable(Front(os), id)
  }

  function CreationTime(o: ApiOrder, now: int): int {
    match o.createdAt
    case Some(t) => t
    case None => now
  }

  /** The first order in the batch with this id that names a contact. */
  function FirstUsable(os: seq<ApiOrder>, id: string): Option<ApiOrder> {
    if os == [] then None
    else
      var earlier, o := FirstUsable(Front(os), id), Last(os);
      if earlier.Some? then earlier
      else if o.id == Some(id) && (o.customer.id.Some? || OrderEmail(o) != "") then Some(o) else None
  }

  lemma {:induction false} FirstOrderWrite(company: nat, os: seq<ApiOrder>, id: string, now: int)
    ensures FirstWrite(OrderWrites(company, os, now), Key(company, "shopify", id)) ==
      if FirstUsable(os, id).None? then None else OrderWrite(company, FirstUsable(os, id).value, now)
    ensures FirstUsable(os, id).Some? ==> OrderWrite(company, FirstUsable(os, id).value, now).Some?
  {
    if os == [] {
    } else {
      var before, w := OrderWrites(company, Front(os), now), OrderWrite(company, Last(os), now);
      FirstOrderWrite(company, Front(os), id, now);
      if w.Some? {
        assert Front(before + [w.value]) == before;
      } else {
        assert before + [] == before;
      }
    }
  }

  lemma {:induction false} LastOrderWrite(company: nat, os: seq<ApiOrder>, id: string, now: int)
    ensures LastWrite(OrderWrites(company, os, now), Key(company, "shopify", id)) ==
      if LastUsable(os, id).None? then None else OrderWrite(company, LastUsable(os, id).value, now)
    ensures LastUsable(os, id).Some? ==> OrderWrite(company, LastUsable(os, id).value, now).Some?
  {
    if os == [] {
    } else {
      var before, w := OrderWrites(company, Front(os), now), OrderWrite(company, Last(os), now);
      LastOrderWrite(company, Front(os), id, now);
      if w.Some? {
        assert Front(before + [w.value]) == before;
      } else {
        assert before + [] == before;
      }
    }
  }

  /** The address an order falls back to when it names no customer id. */
  function OrderEmail(o: ApiOrder): string {
    Strip(if o.customer.email != "" then o.customer.email else o.email)
  }

  /**
   After a persist every Shopify order of the batch holds the contact, amount, currency and status of its last
   usable occurrence. An order that was stored before keeps its creation time; a new one has that of its first
   usable occurrence, or the clock's if that one gives none. All other orders are untouched.
  */
  lemma OrderHoldsLastUsable(orders: seq<Row<Key, Order>>, company: nat, os: seq<ApiOrder>, id: string, now: int)
    ensures var k, after := Key(company, "shopify", id), UpsertAll(orders, OrderWrites(company, os, now));
      match LastUsable(os, id)
      case None => Find(after, k) == Find(orders, k)
      case Some(o) =>
        && Find(after, k).Some?
        && var stored := Find(after, k).value;
        && stored.val.contact == Key(company, "shopify",
             if o.customer.id.Some? then o.customer.id.value else "email:" + Lower(OrderEmail(o)))
        && stored.val.amount == (if o.totalPrice.Some? then o.totalPrice.value else 0.0)
        && stored.val.currency == o.currency && stored.val.status == MapShopifyOrderStatus(o.financialStatus)
        && (Find(orders, k).Some? ==> stored.created == Find(orders, k).value.created)
        && (Find(orders, k).None? ==> FirstUsable(os, id).Some? && stored.created == CreationTime(FirstUsable(os, id).value, now))
  {
    LastOrderWrite(company, os, id, now);
    FirstOrderWrite(company, os, id, now);
    LastWriteWins(orders, OrderWrites(company, os, now), Key(company, "shopify", id));
  }

  ghost predicate Ours<V(!new)>(company: nat, ws: seq<Row<Key, V>>) {
    forall w :: w in ws ==> w.key.company == company && w.key.source == "shopify"
  }

  lemma {:induction false} OrderWritesAreOurs(company: nat, os: seq<ApiOrder>, now: int)
    ensures Ours(company, OrderWrites(company, os, now))
  {
    if os == [] {
    } else {
      OrderWritesAreOurs(company, Front(os), now);
    }
  }

  lemma {:induction false} OrderContactWritesAreOurs(company: nat, os: seq<ApiOrder>, now: int)
    ensures Ours(company, OrderContactWrites(company, os, now))
    ensures forall w :: w in OrderContactWrites(company, os, now) ==> w.created == now
  {
    if os == [] {
    } else {
      OrderContactWritesAreOurs(company, Front(os), now);
    }
  }

  lemma {:induction false} CustomerWritesAreOurs(company: nat, cs: seq<ApiCustomer>, now: int)
    ensures Ours(company, CustomerWrites(company, cs, now))
    ensures forall w :: w in CustomerWrites(company, cs, now) ==> w.created == now
  {
    if cs == [] {
    } else {
      CustomerWritesAreOurs(company, Front(cs), now);
    }
  }

  lemma ForeignRowStays<V(!new)>(t: seq<Row<Key, V>>, company: nat, ws: seq<Row<Key, V>>, k: Key)
    requires Ours(company, ws) && (k.company != company || k.source != "shopify")
    ensures Find(UpsertAll(t, ws), k) == Find(t, k)
  {
    LastWriteIsOne(ws, k);
    LastWriteWins(t, ws, k);
  }

  /** Rows of other companies or from other platforms are none of a Shopify persist's business. */
  lemma ForeignRowsStay(
      contacts: seq<Row<Key, Contact>>, orders: seq<Row<Key, Order>>, company: nat, cs: seq<ApiCustomer>,
      os: seq<ApiOrder>, now: int, k: Key)
    requires k.company != company || k.source != "shopify"
    ensures Find(UpsertAll(contacts, ContactWrites(company, cs, os, now)), k) == Find(contacts, k)
    ensures Find(UpsertAll(orders, OrderWrites(company, os, now)), k) == Find(orders, k)
  {
    CustomerWritesAreOurs(company, cs, now);
    OrderContactWritesAreOurs(company, os, now);
    OrderWritesAreOurs(company, os, now);
    ForeignRowStays(contacts, company, ContactWrites(company, cs, os, now), k);
    ForeignRowStays(orders, company, OrderWrites(company, os, now), k);
  }

  /** The order has an id, and someone it belongs to. */
  predicate UsableOrder(o: ApiOrder) {
    o.id.Some? && (o.customer.id.Some? || OrderEmail(o) != "")
  }

  lemma UsableOrdersAreWritten(company: nat, o: ApiOrder, now: int)
    ensures |AsList(OrderWrite(company, o, now))| == if UsableOrder(o) then 1 else 0
  {
  }

  /** The count of orders is that of the batch's usable occurrences. */
  lemma {:induction false} UsableOrdersAreCounted(company: nat, os: seq<ApiOrder>, now: int)
    ensures |OrderWrites(company, os, now)| == |Filter(os, UsableOrder)| == |Positions(os, UsableOrder)|
  {
    FilterCounts(os, UsableOrder);
    if os == [] {
    } else {
      UsableOrdersAreCounted(company, Front(os), now);
      UsableOrdersAreWritten(company, Last(os), now);
    }
  }

  // ---------- each contact holds the last record that names it ----------

  /** The order names the contact of this id: by customer id or, without one, by address. */
  predicate NamesContact(o: ApiOrder, id: string) {
    if o.customer.id.Some? then o.customer.id.value == id
    else OrderEmail(o) != "" && id == "email:" + Lower(OrderEmail(o))
  }

  function LastNaming(os: seq<ApiOrder>, id: string): Option<ApiOrder> {
    if os == [] then None else if NamesContact(Last(os), id) then Some(Last(os)) else LastNaming(Front(os), id)
  }

  function LastCustomer(cs: seq<ApiCustomer>, id: string): Option<ApiCustomer> {
    if cs == [] then None else if Last(cs).id == Some(id) then Some(Last(cs)) else LastCustomer(Front(cs), id)
  }

  lemma {:induction false} LastContactWriteOfOrders(company: nat, os: seq<ApiOrder>, id: string, now: int)
    ensures var w := LastWrite(OrderContactWrites(company, os, now), Key(company, "shopify", id));
      match LastNaming(os, id)
      case None => w == None
      case Some(o) => w.Some? && w.value.val == Contact(OrderEmail(o), Strip(o.customer.phone))
  {
    if os == [] {
    } else {
      var before, w := OrderContactWrites(company, Front(os), now), OrderContactWrite(company, Last(os), now);
      LastContactWriteOfOrders(company, Front(os), id, now);
      WritesToNamedContact(company, Last(os), id, now);
      if w.Some? {
        LastWriteSnoc(before, w.value, Key(company, "shopify", id));
      } else {
        assert before + [] == before;
      }
    }
  }

  lemma WritesToNamedContact(company: nat, o: ApiOrder, id: string, now: int)
    ensures var w := OrderContactWrite(company, o, now);
      && (NamesContact(o, id) <==> w.Some? && w.value.key == Key(company, "shopify", id))
      && (w.Some? ==> w.value.val == Contact(OrderEmail(o), Strip(o.customer.phone)))
  {
  }

  lemma {:induction false} LastContactWriteOfCustomers(company: nat, cs: seq<ApiCustomer>, id: string, now: int)
    ensures var w := LastWrite(CustomerWrites(company, cs, now), Key(company, "shopify", id));
      match LastCustomer(cs, id)
      case None => w == None
      case Some(c) => w.Some? && w.value.val == Contact(c.email, c.phone)
  {
    if cs == [] {
    } else {
      var before, w := CustomerWrites(company, Front(cs), now), CustomerWrite(company, Last(cs), now);
      LastContactWriteOfCustomers(company, Front(cs), id, now);
      if w.Some? {
        assert Front(before + [w.value]) == before;
      } else {
        assert before + [] == before;
      }
    }
  }

  /**
   After a persist every Shopify contact the batch names holds what the last record naming it says, orders
   counting as later than customers: a customer's e-mail and phone as given, an order's stripped, with the
   order's own address as fallback. A contact stored before keeps its creation time, a new one has the
   clock's; a contact nobody names is untouched.
  */
  lemma ContactHoldsLastRecord(
      contacts: seq<Row<Key, Contact>>, company: nat, cs: seq<ApiCustomer>, os: seq<ApiOrder>, id: string, now: int)
    ensures var k, after := Key(company, "shopify", id), UpsertAll(contacts, ContactWrites(company, cs, os, now));
      if LastNaming(os, id).None? && LastCustomer(cs, id).None? then Find(after, k) == Find(contacts, k)
      else
        && Find(after, k).Some?
        && var stored := Find(after, k).value;
        && stored.val == (
             if LastNaming(os, id).Some?
             then Contact(OrderEmail(LastNaming(os, id).value), Strip(LastNaming(os, id).value.customer.phone))
             else Contact(LastCustomer(cs, id).value.email, LastCustomer(cs, id).value.phone))
        && stored.created == if Find(contacts, k).Some? then Find(contacts, k).value.created else now
  {
    var k := Key(company, "shopify", id);
    var first, second := CustomerWrites(company, cs, now), OrderContactWrites(company, os, now);
    LastContactWriteOfCustomers(company, cs, id, now);
    LastContactWriteOfOrders(company, os, id, now);
    LastWriteAppend(first, second, k);
    LastWriteWins(contacts, first + second, k);
    FirstWriteIsOne(first + second, k);
    CustomerWritesAreOurs(company, cs, now);
    OrderContactWritesAreOurs(company, os, now);
  }

  // ---------- the metrics agree with the final order table ----------

  /** OrdersOf is exactly what the queryset selects: the company's orders of that contact. */
  lemma {:induction false} OrdersOfSelects(t: seq<Row<Key, Order>>, company: nat, contact: Key, o: Row<Key, Order>)
    ensures multiset(OrdersOf(t, company, contact))[o] == if Held(company, contact, o) then multiset(t)[o] else 0
  {
    if t == [] {
    } else {
      OrdersOfSelects(Front(t), company, contact, o);
      assert t == Front(t) + [Last(t)];
    }
  }

  lemma {:induction false} MetricWritesHitOnce(
      run: nat, company: nat, t: seq<Row<Key, Order>>, contacts: seq<Key>, now: int, k: MetricKey)
    ensures LastWrite(MetricWrites(run, company, t, contacts, now), k) ==
      if k.run == run && k.contact in contacts
      then Some(Row(k, MetricOf(OrdersOf(t, company, k.contact)), now)) else None
  {
    if contacts == [] {
    } else {
      MetricWritesHitOnce(run, company, t, Front(contacts), now, k);
      MetricOfOneMore(MetricWrites(run, company, t, Front(contacts), now), run, company, t, Last(contacts), now, k);
      InFrontOrLast(contacts, k.contact);
    }
  }

  lemma MetricOfOneMore(
      ws: seq<Row<MetricKey, Metric>>, run: nat, company: nat, t: seq<Row<Key, Order>>, contact: Key, now: int,
      k: MetricKey)
    ensures LastWrite(ws + [MetricRow(run, company, t, contact, now)], k) ==
      if k == MetricKey(run, contact)
      then Some(Row(k, MetricOf(OrdersOf(t, company, k.contact)), now)) else LastWrite(ws, k)
  {
    LastWriteSnoc(ws, MetricRow(run, company, t, contact, now), k);
  }

  lemma InFrontOrLast<T>(s: seq<T>, x: T)
    requires s != []
    ensures x in s <==> x in Front(s) || x == Last(s)
  {
    assert s == Front(s) + [Last(s)];
  }

  /** At commit the run has a metric for each touched contact, and it agrees with the final order table. */
  lemma MetricsAgreeWithOrders(
      metrics: seq<Row<MetricKey, Metric>>, orders: seq<Row<Key, Order>>, run: nat, company: nat,
      touched: seq<Key>, now: int, contact: Key)
    requires UniqueKeys(metrics)
    ensures var after := UpsertAll(metrics, MetricWrites(run, company, orders, touched, now));
      var k := MetricKey(run, contact);
      && UniqueKeys(after)
      && (contact in touched ==>
          Find(after, k).Some? && Agrees(Find(after, k).value.val, OrdersOf(orders, company, contact)))
      && (contact !in touched ==> Find(after, k) == Find(metrics, k))
  {
    var ws := MetricWrites(run, company, orders, touched, now);
    UpsertAllKeepsKeysUnique(metrics, ws);
    MetricWritesHitOnce(run, company, orders, touched, now, MetricKey(run, contact));
    LastWriteWins(metrics, ws, MetricKey(run, contact));
  }

  /** The run's metric of the contact is there and agrees with these orders. */
  ghost predicate MetricAgrees(metrics: seq<Row<MetricKey, Metric>>, run: nat, contact: Key, held: seq<Row<Key, Order>>) {
    var found := Find(metrics, MetricKey(run, contact));
    found.Some? && Agrees(found.value.val, held)
  }

  lemma AllMetricsAgree(
      metrics: seq<Row<MetricKey, Metric>>, orders: seq<Row<Key, Order>>, run: nat, company: nat,
      touched: seq<Key>, now: int)
    ensures var after := UpsertAll(metrics, MetricWrites(run, company, orders, touched, now));
      UniqueKeys(metrics) ==> UniqueKeys(after) && forall k :: k in touched ==>
        MetricAgrees(after, run, k, OrdersOf(orders, company, k))
  {
    if UniqueKeys(metrics) {
      UpsertAllKeepsKeysUnique(metrics, MetricWrites(run, company, orders, touched, now));
      forall k | k in touched
        ensures MetricAgrees(
          UpsertAll(metrics, MetricWrites(run, company, orders, touched, now)), run, k, OrdersOf(orders, company, k))
      {
        MetricsAgreeWithOrders(metrics, orders, run, company, touched, now, k);
      }
    }
  }

  /** Paid total of the company's orders whose contact is one of the given ones. */
  function PaidHeldBy(t: seq<Row<Key, Order>>, company: nat, contacts: seq<Key>): real {
    if t == [] then 0.0
    else
      var o := Last(t);
      PaidHeldBy(Front(t), company, contacts)
      + if o.key.company == company && o.val.contact in contacts && o.val.status == PAID then o.val.amount else 0.0
  }

  function RevenueSum(metrics: seq<Row<MetricKey, Metric>>): real {
    if metrics == [] then 0.0 else RevenueSum(Front(metrics)) + Last(metrics).val.totalRevenue
  }

  lemma {:induction false} PaidHeldByOneMore(t: seq<Row<Key, Order>>, company: nat, contacts: seq<Key>, k: Key)
    requires k !in contacts
    ensures PaidHeldBy(t, company, contacts + [k]) == PaidHeldBy(t, company, contacts) + PaidSum(OrdersOf(t, company, k))
  {
    if t == [] {
    } else {
      PaidHeldByOneMore(Front(t), company, contacts, k);
      var before, o := OrdersOf(Front(t), company, k), Last(t);
      if Held(company, k, o) {
        assert Front(before + [o]) == before;
      } else {
        assert before + [] == before;
      }
    }
  }

  lemma {:induction false} NobodyHoldsNothing(t: seq<Row<Key, Order>>, company: nat)
    ensures PaidHeldBy(t, company, []) == 0.0
  {
    if t == [] {
    } else {
      NobodyHoldsNothing(Front(t), company);
    }
  }

  lemma OneMoreMetric(run: nat, company: nat, orders: seq<Row<Key, Order>>, f: seq<Key>, k: Key, now: int)
    ensures RevenueSum(MetricWrites(run, company, orders, f + [k], now)) ==
      RevenueSum(MetricWrites(run, company, orders, f, now)) + PaidSum(OrdersOf(orders, company, k))
  {
    assert Front(f + [k]) == f;
    var ws := MetricWrites(run, company, orders, f, now);
    var m := Row(MetricKey(run, k), MetricOf(OrdersOf(orders, company, k)), now);
    assert MetricWrites(run, company, orders, f + [k], now) == ws + [m];
    assert Front(ws + [m]) == ws;
  }

  lemma RevenueStep(run: nat, company: nat, orders: seq<Row<Key, Order>>, f: seq<Key>, k: Key, now: int)
    requires k !in f && RevenueSum(MetricWrites(run, company, orders, f, now)) == PaidHeldBy(orders, company, f)
    ensures RevenueSum(MetricWrites(run, company, orders, f + [k], now)) == PaidHeldBy(orders, company, f + [k])
  {
    PaidHeldByOneMore(orders, company, f, k);
    OneMoreMetric(run, company, orders, f, k, now);
  }

  /** The revenues written add up to the paid total of all orders held by touched contacts: none lost, none twice. */
  lemma {:induction false} RevenueIsConserved(
      run: nat, company: nat, orders: seq<Row<Key, Order>>, touched: seq<Key>, now: int)
    requires NoDup(touched)
    ensures RevenueSum(MetricWrites(run, company, orders, touched, now)) == PaidHeldBy(orders, company, touched)
  {
    if touched == [] {
      NobodyHoldsNothing(orders, company);
    } else {
      RevenueIsConserved(run, company, orders, Front(touched), now);
      RevenueStep(run, company, orders, Front(touched), Last(touched), now);
      assert touched == Front(touched) + [Last(touched)];
    }
  }
}
