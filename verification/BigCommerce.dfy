/** Order webhooks of the BigCommerce connector. */
module BigCommerce {
  import opened Common
  import opened Timestamps
  import opened ExternalRefs

  // ----- What arrives ------------------------------------------------------------------

  /** A product of an order. One that cannot be converted raises while its line is built. */
  datatype Item = Item(sku: Option<string>, title: string, quantity: int, unitAmount: int) | Malformed

  /**
   The order resource as the platform returns it. Empty texts stand for missing ones, which
   the connector treats alike; there is no total when it cannot be converted.
   */
  datatype Snapshot = Snapshot(
    number: string, email: string, status: string, payment: Option<string>, fulfillment: Option<string>,
    modified: Stamp, total: Option<int>, currency: string, products: seq<Item>)

  /**
   A verified delivery: its topic and id, the order it names, what the follow-up fetch
   returns (nothing when it raises), and whether the workflow can be signalled.
   */
  datatype Delivery = Delivery(
    topic: string, webhookId: string, external: string, channel: Option<string>, raw: string,
    fetched: Option<Snapshot>, signalled: bool)

  predicate ValidDelivery(d: Delivery) {
    d.fetched.Some? ==> ValidStamp(d.fetched.value.modified)
  }

  type Webhook = d: Delivery | ValidDelivery(d) witness Delivery("", "", "", None, "", None, false)

  // ----- What is stored ----------------------------------------------------------------

  datatype Order = Order(
    channel: string, customer: Option<nat>, number: string, status: string, payment: Option<string>,
    fulfillment: Option<string>, total: int, currency: string, refs: seq<Ref>, raw: string, updated: Option<Instant>)

  datatype Line = Line(order: nat, sku: Option<string>, title: string, quantity: int, unitAmount: int, raw: string)

  datatype Result = Result(order: nat, status: string)

  datatype Shop = Shop(
    orders: map<nat, Order>, nextId: nat, mapping: map<string, nat>, customers: map<string, nat>,
    lines: seq<Line>, done: map<(string, string), Result>)

  datatype Response = Raised | Accepted(result: Result, replay: bool)

  const NAME := "bigcommerce"

  // ----- One delivery, as a function ---------------------------------------------------

  function OrElse(s: string, t: string): string {
    if s == "" then t else s
  }

  function WithCustomer(s: Shop, email: string): (Shop, Option<nat>) {
    if email == "" then (s, None)
    else if email in s.customers then (s, Some(s.customers[email]))
    else (s.(customers := s.customers[email := s.nextId], nextId := s.nextId + 1), Some(s.nextId))
  }

  function NewOrder(d: Webhook, x: Snapshot, total: int, customer: Option<nat>): Order {
    Order(GetOr(d.channel, NAME), customer, OrElse(x.number, d.external), OrElse(x.status, "PENDING"), x.payment, x.fulfillment,
          total, OrElse(x.currency, "INR"), [], "", None)
  }

  function UpdatedBy(m: Stamp, before: Option<Instant>): Option<Instant> {
    match m
    case Utc(moment, _, _) => Some(moment)
    case _ => before
  }

  function Refresh(o: Order, d: Webhook, x: Snapshot): Order {
    o.(status := OrElse(x.status, o.status), payment := x.payment,
       refs := Others(o.refs, NAME) + [Ref(NAME, "order", d.external, o.channel)], raw := d.raw,
       updated := UpdatedBy(x.modified, o.updated))
  }

  /** How many products can be converted before one raises. */
  function GoodItems(products: seq<Item>): (n: nat)
    ensures n <= |products|
    ensures forall i :: 0 <= i < n ==> products[i].Item?
    ensures n < |products| ==> products[n].Malformed?
  {
    if products == [] || products[0].Malformed? then 0 else 1 + GoodItems(products[1..])
  }

  function LineOf(item: Item, order: nat, raw: string): Line
    requires item.Item?
  {
    Line(order, item.sku, OrElse(item.title, "Untitled"), item.quantity, item.unitAmount, raw)
  }

  /** The lines stored for products, up to one that raises. */
  function LinesOf(products: seq<Item>, order: nat, raw: string): (r: seq<Line>)
    ensures |r| == GoodItems(products)
    ensures forall i :: 0 <= i < |r| ==> r[i] == LineOf(products[i], order, raw)
  {
    if products == [] || products[0].Malformed? then []
    else [LineOf(products[0], order, raw)] + LinesOf(products[1..], order, raw)
  }

  predicate Whole(x: Snapshot) {
    GoodItems(x.products) == |x.products|
  }

  function Write(s: Shop, id: nat, o: Order, d: Webhook, x: Snapshot): (Shop, Option<Result>) {
    var o2 := Refresh(o, d, x);
    var s2 := s.(orders := s.orders[id := o2], mapping := s.mapping[d.external := id],
                 lines := s.lines + LinesOf(x.products, id, d.raw));
    (s2, if Whole(x) then Some(Result(id, o2.status)) else None)
  }

  /** `_upsert_order`; no result when it raises, and what was written stays written. */
  function Upsert(s: Shop, d: Webhook): (Shop, Option<Result>) {
    match d.fetched
    case None => (s, None)
    case Some(x) =>
      var (s1, customer) := WithCustomer(s, x.email);
      if d.external in s1.mapping then
        var id := s1.mapping[d.external];
        if id !in s1.orders then (s1, None)
        else if Stale(x.modified, s1.orders[id].updated) then (s1, Some(Result(id, s1.orders[id].status)))
        else Write(s1, id, s1.orders[id], d, x)
      else if x.total.None? then (s1, None)
      else Write(s1.(nextId := s1.nextId + 1), s1.nextId, NewOrder(d, x, x.total.value, customer), d, x)
  }

  function Key(d: Delivery): (string, string) {
    (d.topic, d.webhookId)
  }

  /** `ingest_webhook`: a raising operation gives its claim back, a finished one is remembered. */
  function Ingest(s: Shop, d: Webhook): (Shop, Response) {
    if Key(d) in s.done then (s, Accepted(s.done[Key(d)], true))
    else
      var (s2, r) := Upsert(s, d);
      match r
      case None => (s2, Raised)
      case Some(result) =>
        if d.signalled then (s2.(done := s2.done[Key(d) := result]), Accepted(result, false)) else (s2, Raised)
  }

  function Run(s: Shop, ds: seq<Webhook>): Shop {
    if ds == [] then s else Ingest(Run(s, ds[..|ds| - 1]), ds[|ds| - 1]).0
  }

  /** A divergence found by `reconcile`. */
  datatype Divergence = Divergence(order: nat, canonical: string, external: string)

  /** `reconcile` against a fetched status; an empty one stands for a missing one. */
  function Diverges(s: Shop, external: string, status: string): Option<Divergence> {
    if external !in s.mapping || s.mapping[external] !in s.orders then None
    else
      var id := s.mapping[external];
      var canonical, now := s.orders[id].status, OrElse(status, "UNKNOWN");
      if canonical == now then None else Some(Divergence(id, canonical, now))
  }

  // ----- The connector -----------------------------------------------------------------

  class BigCommerceConnector {
    var orders: map<nat, Order>
    var nextId: nat
    var mapping: map<string, nat>
    var customers: map<string, nat>
    var lines: seq<Line>
    var done: map<(string, string), Result>
    var notes: seq<Divergence>

    ghost function Contents(): Shop
      reads this
    {
      Shop(orders, nextId, mapping, customers, lines, done)
    }

    constructor ()
      ensures Contents() == EMPTY && notes == []
    {
      orders, nextId, mapping, customers, lines, done := map[], 0, map[], map[], [], map[];
      notes := [];
    }

    method NewId() returns (id: nat)
      modifies this`nextId
      ensures id == old(nextId) && nextId == old(nextId) + 1
    {
      id := nextId;
      nextId := nextId + 1;
    }

    /** The lines of an order, one after the other; the loop ends where a product raises. */
    method PutLines(products: seq<Item>, order: nat, raw: string) returns (finished: bool)
      modifies this`lines
      ensures lines == old(lines) + LinesOf(products, order, raw)
      ensures finished <==> GoodItems(products) == |products|
    {
      hide LinesOf, GoodItems;
      ghost var all := LinesOf(products, order, raw);
      for i := 0 to |products|
        invariant i <= GoodItems(products) && lines == old(lines) + all[..i]
      {
        if products[i].Malformed? {
          return false;
        }
        lines := lines + [LineOf(products[i], order, raw)];
        assert all[..i + 1] == all[..i] + [all[i]];
      }
      finished := true;
    }

    /** Bring an order up to date and store it with its mapping and lines. */
    method WriteOrder(id: nat, o: Order, d: Webhook, x: Snapshot) returns (r: Option<Result>)
      modifies this`orders, this`mapping, this`lines
      ensures (Contents(), r) == Write(old(Contents()), id, o, d, x)
    {
      var o2 := o.(status := OrElse(x.status, o.status), payment := x.payment);
      o2 := o2.(refs := Others(o2.refs, NAME) + [Ref(NAME, "order", d.external, o2.channel)], raw := d.raw);
      if x.modified.Utc? {
        o2 := o2.(updated := Some(x.modified.moment));
      }
      orders := orders[id := o2];
      mapping := mapping[d.external := id];
      var finished := PutLines(x.products, id, d.raw);
      if finished {
        r := Some(Result(id, o2.status));
      } else {
        r := None;
      }
    }

    method UpsertOrder(d: Webhook) returns (r: Option<Result>)
      modifies this
      ensures (Contents(), r) == Upsert(old(Contents()), d)
    {
      hide Write, Stale, NewOrder;
      if d.fetched.None? {
        return None;
      }
      var x := d.fetched.value;
      var customer: Option<nat> := None;
      if x.email != "" {
        if x.email in customers {
          customer := Some(customers[x.email]);
        } else {
          var c := NewId();
          customers := customers[x.email := c];
          customer := Some(c);
        }
      }
      ghost var s1 := Contents();
      assert (s1, customer) == WithCustomer(old(Contents()), x.email);
      if d.external in mapping {
        var id := mapping[d.external];
        if id !in orders {
          return None;
        }
        if Stale(x.modified, orders[id].updated) {
          return Some(Result(id, orders[id].status));
        }
        r := WriteOrder(id, orders[id], d, x);
      } else {
        if x.total.None? {
          return None;
        }
        var id := NewId();
        r := WriteOrder(id, NewOrder(d, x, x.total.value, customer), d, x);
      }
    }

    method IngestWebhook(d: Webhook) returns (r: Response)
      modifies this
      ensures (Contents(), r) == Ingest(old(Contents()), d)
    {
      hide Upsert;
      if Key(d) in done {
        return Accepted(done[Key(d)], true);
      }
      var result := UpsertOrder(d);
      ghost var after := Contents();
      assert (after, result) == Upsert(old(Contents()), d);
      assert after.done == old(done) by { UpsertKeepsDone(old(Contents()), d); }
      if result.None? || !d.signalled {
        return Raised;
      }
      done := done[Key(d) := result.value];
      r := Accepted(result.value, false);
    }

    /** `reconcile`: a divergence is noted and returned, nothing else is written. */
    method ReconcileOrder(external: string, status: string) returns (found: Option<Divergence>)
      modifies this`notes
      ensures found == Diverges(Contents(), external, status)
      ensures notes == old(notes) + (if found.Some? then [found.value] else [])
    {
      if external !in mapping || mapping[external] !in orders {
        return None;
      }
      var id := mapping[external];
      var now := OrElse(status, "UNKNOWN");
      if orders[id].status != now {
        notes := notes + [Divergence(id, orders[id].status, now)];
        return Some(Divergence(id, orders[id].status, now));
      }
      found := None;
    }
  }

  lemma UpsertKeepsDone(s: Shop, d: Webhook)
    ensures Upsert(s, d).0.done == s.done
  {
    hide Stale, Refresh, LinesOf, NewOrder;
  }

  const EMPTY := Shop(map[], 0, map[], map[], [], map[])

  // ----- Identity ----------------------------------------------------------------------

  /** Every mapped order exists, no two external ids share one, and ids are never reused. */
  predicate Valid(s: Shop) {
    (forall e <- s.mapping :: s.mapping[e] in s.orders)
    && (forall e, f :: e in s.mapping && f in s.mapping && s.mapping[e] == s.mapping[f] ==> e == f)
    && (forall id <- s.orders :: id < s.nextId)
    && (forall i :: 0 <= i < |s.lines| ==> s.lines[i].order in s.orders)
  }

  /** What one delivery never does: forget a result, move a mapping, drop an order or a line. */
  predicate Keeps(s: Shop, t: Shop) {
    (forall e <- s.mapping :: e in t.mapping && t.mapping[e] == s.mapping[e])
    && (forall k <- s.done :: k in t.done && t.done[k] == s.done[k])
    && s.orders.Keys <= t.orders.Keys && s.lines <= t.lines
  }

  lemma CustomerKeeps(s: Shop, email: string)
    requires Valid(s)
    ensures var t := WithCustomer(s, email).0;
            Valid(t) && Keeps(s, t) && t.mapping == s.mapping && t.orders == s.orders && t.lines == s.lines && t.done == s.done
  {
  }

  lemma WriteKeeps(s: Shop, id: nat, o: Order, d: Webhook, x: Snapshot)
    requires Valid(s) && id < s.nextId
    requires if d.external in s.mapping then id == s.mapping[d.external] else id !in s.orders
    ensures var t := Write(s, id, o, d, x).0;
            Valid(t) && Keeps(s, t) && d.external in t.mapping && t.mapping[d.external] == id
  {
    hide Refresh, GoodItems, LinesOf;
    var t := Write(s, id, o, d, x).0;
    assert forall i :: |s.lines| <= i < |t.lines| ==> t.lines[i].order == id by {
      var more := LinesOf(x.products, id, d.raw);
      assert t.lines == s.lines + more;
    }
    assert s.lines <= t.lines;
  }

  lemma UpsertKeeps(s: Shop, d: Webhook)
    requires Valid(s)
    ensures var (t, r) := Upsert(s, d);
            Valid(t) && Keeps(s, t) && (r.Some? ==> d.external in t.mapping && t.mapping[d.external] == r.value.order)
  {
    hide Stale, NewOrder, Valid, Keeps, WithCustomer, Write;
    if d.fetched.Some? {
      var x := d.fetched.value;
      CustomerKeeps(s, x.email);
      var (s1, customer) := WithCustomer(s, x.email);
      if d.external in s1.mapping {
        var id := s1.mapping[d.external];
        MappedExists(s1, d.external);
        if !Stale(x.modified, s1.orders[id].updated) {
          WriteKeeps(s1, id, s1.orders[id], d, x);
          KeepsTwice(s, s1, Write(s1, id, s1.orders[id], d, x).0);
          WriteResult(s1, id, s1.orders[id], d, x);
        }
      } else if x.total.Some? {
        var s2 := s1.(nextId := s1.nextId + 1);
        FreshId(s1);
        WriteKeeps(s2, s1.nextId, NewOrder(d, x, x.total.value, customer), d, x);
        KeepsTwice(s, s2, Write(s2, s1.nextId, NewOrder(d, x, x.total.value, customer), d, x).0);
        WriteResult(s2, s1.nextId, NewOrder(d, x, x.total.value, customer), d, x);
      }
    } else {
      KeepsSelf(s);
    }
  }

  lemma KeepsSelf(s: Shop)
    ensures Keeps(s, s)
  {
  }

  lemma WriteResult(s: Shop, id: nat, o: Order, d: Webhook, x: Snapshot)
    ensures Write(s, id, o, d, x).1.Some? ==> Write(s, id, o, d, x).1.value.order == id
  {
  }

  lemma MappedExists(s: Shop, external: string)
    requires Valid(s) && external in s.mapping
    ensures s.mapping[external] in s.orders && s.mapping[external] < s.nextId
  {
  }

  lemma FreshId(s: Shop)
    requires Valid(s)
    ensures Valid(s.(nextId := s.nextId + 1)) && s.nextId !in s.orders
    ensures forall r: Shop :: Keeps(r, s) ==> Keeps(r, s.(nextId := s.nextId + 1))
  {
  }

  lemma KeepsTwice(r: Shop, s: Shop, t: Shop)
    requires Keeps(r, s) && Keeps(s, t)
    ensures Keeps(r, t)
  {
  }

  lemma IngestKeeps(s: Shop, d: Webhook)
    requires Valid(s)
    ensures var (t, r) := Ingest(s, d);
            Valid(t) && Keeps(s, t)
            && (r.Accepted? && !r.replay ==> d.external in t.mapping && t.mapping[d.external] == r.result.order)
  {
    hide Upsert;
    UpsertKeeps(s, d);
    UpsertKeepsDone(s, d);
  }

  lemma {:induction false} RunKeeps(s: Shop, ds: seq<Webhook>)
    requires Valid(s)
    ensures Valid(Run(s, ds)) && Keeps(s, Run(s, ds))
  {
    hide Ingest;
    if ds != [] {
      RunKeeps(s, ds[..|ds| - 1]);
      IngestKeeps(Run(s, ds[..|ds| - 1]), ds[|ds| - 1]);
    }
  }

  /**
   Once a delivery was accepted, delivering it again at any later time changes nothing at
   all and returns the first result, flagged as a replay.
   */
  lemma RedeliveryIsInert(s: Shop, d: Webhook, ds: seq<Webhook>, again: Webhook)
    requires Valid(s) && Ingest(s, d).1.Accepted? && Key(again) == Key(d)
    ensures var t := Run(Ingest(s, d).0, ds);
            Ingest(t, again) == (t, Accepted(Ingest(s, d).1.result, true))
  {
    hide Upsert;
    IngestKeeps(s, d);
    RunKeeps(Ingest(s, d).0, ds);
  }

  /** Once mapped, by whatever delivery, an external id keeps its canonical order for ever, and no other id gets it. */
  lemma MappingIsForever(s: Shop, external: string, ds: seq<Webhook>)
    requires Valid(s) && external in s.mapping
    ensures var t := Run(s, ds);
            external in t.mapping && t.mapping[external] == s.mapping[external] && t.mapping[external] in t.orders
            && forall e <- t.mapping :: t.mapping[e] == s.mapping[external] ==> e == external
  {
    hide Run;
    RunKeeps(s, ds);
  }
}
