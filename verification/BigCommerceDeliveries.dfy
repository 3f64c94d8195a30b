/** What one delivery of an order webhook stores and answers, field by field. */
module BigCommerceDeliveries {
  import opened Common
  import opened Timestamps
  import opened ExternalRefs
  import opened BigCommerce
  import opened BigCommerceGuarantees

  /** The shop as `_upsert_order` finds it once the customer is looked up. */
  lemma Upserted(s: Shop, d: Webhook)
    requires Valid(s) && Key(d) !in s.done && d.fetched.Some?
    ensures var x := d.fetched.value;
            var (s1, customer) := WithCustomer(s, x.email);
            && Valid(s1) && s1.mapping == s.mapping && s1.orders == s.orders && s1.lines == s.lines && s1.done == s.done
            && OrderOf(s, d.external).Some? == (d.external in s.mapping)
            && (Takes(s, d) ==>
                 Upsert(s, d) == (match OrderOf(s, d.external)
                                  case Some(o) => Write(s1, s.mapping[d.external], o, d, x)
                                  case None => Write(s1.(nextId := s1.nextId + 1), s1.nextId, NewOrder(d, x, x.total.value, customer), d, x)))
            && (!Takes(s, d) ==>
                 Upsert(s, d) == (s1, match OrderOf(s, d.external)
                                      case Some(o) => Some(Result(s.mapping[d.external], o.status))
                                      case None => None))
  {
    hide Write, NewOrder, Stale, WithCustomer, Valid;
    CustomerKeeps(s, d.fetched.value.email);
    if d.external in s.mapping {
      MappedExists(s, d.external);
    }
  }

  /** A delivery that is taken writes one order, under its mapping or a new id. */
  lemma Written(s: Shop, d: Webhook) returns (s0: Shop, id: nat, o: Order)
    requires Valid(s) && Takes(s, d)
    ensures var x := d.fetched.value;
            var (s1, customer) := WithCustomer(s, x.email);
            && Valid(s0) && id < s0.nextId && s0.mapping == s.mapping && s0.orders == s.orders && s0.lines == s.lines && s0.done == s.done
            && s0.customers == s1.customers
            && (if d.external in s.mapping then id == s.mapping[d.external] && s0 == s1 && OrderOf(s, d.external) == Some(o)
                else OrderOf(s, d.external) == None && id == s1.nextId && s0 == s1.(nextId := id + 1)
                     && o == NewOrder(d, x, x.total.value, customer) && id !in s.orders)
            && Upsert(s, d) == Write(s0, id, o, d, x)
  {
    hide Write, NewOrder, Stale, WithCustomer, Upsert, Takes, Valid;
    TakesOnce(s, d);
    var x := d.fetched.value;
    Upserted(s, d);
    var (s1, customer) := WithCustomer(s, x.email);
    if d.external in s.mapping {
      s0, id, o := s1, s.mapping[d.external], OrderOf(s, d.external).value;
      MappedExists(s1, d.external);
    } else {
      s0, id := s1.(nextId := s1.nextId + 1), s1.nextId;
      TakesTotal(s, d);
      o := NewOrder(d, x, x.total.value, customer);
      FreshId(s1);
    }
  }

  lemma TakesOnce(s: Shop, d: Webhook)
    requires Takes(s, d)
    ensures Key(d) !in s.done && d.fetched.Some?
  {
  }

  lemma TakesTotal(s: Shop, d: Webhook)
    requires Takes(s, d) && d.external !in s.mapping
    ensures d.fetched.value.total.Some?
  {
  }

  // ----- Lines -------------------------------------------------------------------------

  /**
   The lines of a delivery that is taken come behind those of its order, one for each product
   up to the first that cannot be converted, with the product's own SKU, title, quantity and
   unit amount, the order's id and the delivery's payload.
   */
  lemma NewLinesSay(s: Shop, d: Webhook)
    requires Valid(s) && Takes(s, d)
    ensures var t, products := Ingest(s, d).0, d.fetched.value.products;
            var before, after := OrderLines(s, d.external), OrderLines(t, d.external);
            && before <= after && |t.lines| - |s.lines| == |after| - |before| <= |products|
            && (|after| - |before| < |products| ==> products[|after| - |before|].Malformed?)
            && forall k :: |before| <= k < |after| ==>
                 var line, item := after[k], products[k - |before|];
                 && item.Item? && d.external in t.mapping && line.order == t.mapping[d.external]
                 && line.sku == item.sku && line.title == (if item.title == "" then "Untitled" else item.title)
                 && line.quantity == item.quantity && line.unitAmount == item.unitAmount
                 && line.raw == d.raw
  {
    var products, before, after := d.fetched.value.products, OrderLines(s, d.external), OrderLines(Ingest(s, d).0, d.external);
    var s0, id, o := Written(s, d);
    LinesWritten(s0, id, o, d);
    hide Takes, Ingest, GoodItems, OrderLines, Write, Refresh, LinesOf;
    IngestEffect(s, d, d.external);
    IngestLines(s, d);
    TakesOnce(s, d);
    var more := LinesOf(products, IdOf(Ingest(s, d).0, d.external), d.raw);
    assert after == before + more;
    IngestKeepsOrder(s, d);
  }

  lemma IngestLines(s: Shop, d: Webhook)
    ensures Ingest(s, d).0.lines == if Key(d) in s.done then s.lines else Upsert(s, d).0.lines
  {
    hide Upsert;
  }

  lemma IngestKeepsOrder(s: Shop, d: Webhook)
    requires Valid(s) && OrderOf(Ingest(s, d).0, d.external).Some?
    ensures d.external in Ingest(s, d).0.mapping
  {
  }

  lemma LinesWritten(s: Shop, id: nat, o: Order, d: Webhook)
    requires d.fetched.Some?
    ensures Write(s, id, o, d, d.fetched.value).0.lines == s.lines + LinesOf(d.fetched.value.products, id, d.raw)
  {
    hide Refresh, LinesOf;
  }

  // ----- The order ---------------------------------------------------------------------

  /**
   The order a taken delivery leaves. A new one takes channel, customer, number, total and
   currency from the delivery, with the defaults of the connector; an order that was there
   keeps them. Status, payment, reference, payload and modification time are brought up to date,
   the fulfilment status only when the order is new.
   */
  lemma TakenOrder(s: Shop, d: Webhook)
    requires Valid(s) && Takes(s, d)
    ensures var t, x := Ingest(s, d).0, d.fetched.value;
            OrderOf(t, d.external).Some? &&
            var after := OrderOf(t, d.external).value;
            match OrderOf(s, d.external)
            case None =>
              && after.channel == (if d.channel.Some? then d.channel.value else "bigcommerce")
              && after.customer == (if x.email == "" then None else if x.email in t.customers then Some(t.customers[x.email]) else None)
              && after.number == (if x.number == "" then d.external else x.number)
              && after.total == x.total.value && after.currency == (if x.currency == "" then "INR" else x.currency)
              && after.fulfillment == x.fulfillment && after.payment == x.payment
              && after.status == (if x.status == "" then "PENDING" else x.status)
              && after.updated == (if x.modified.Utc? then Some(x.modified.moment) else None)
              && after.refs == [Ref("bigcommerce", "order", d.external, after.channel)] && after.raw == d.raw
            case Some(o) =>
              && after.channel == o.channel && after.customer == o.customer && after.number == o.number
              && after.total == o.total && after.currency == o.currency && after.fulfillment == o.fulfillment
              && after.payment == x.payment
              && after.status == (if x.status == "" then o.status else x.status)
              && after.updated == (if x.modified.Utc? then Some(x.modified.moment) else o.updated)
              && after.refs == Others(o.refs, "bigcommerce") + [Ref("bigcommerce", "order", d.external, o.channel)]
              && after.raw == d.raw
  {
    var x := d.fetched.value;
    var s0, id, o := Written(s, d);
    OrderWritten(s0, id, o, d);
    assert Others([], "bigcommerce") + [Ref("bigcommerce", "order", d.external, o.channel)]
        == [Ref("bigcommerce", "order", d.external, o.channel)];
    hide Takes, Write, Others;
    IngestOrder(s, d, d.external);
    IngestRest(s, d);
  }

  lemma OrderWritten(s: Shop, id: nat, o: Order, d: Webhook)
    requires Valid(s) && id < s.nextId && d.fetched.Some?
    requires if d.external in s.mapping then id == s.mapping[d.external] else id !in s.orders
    ensures var t := Write(s, id, o, d, d.fetched.value).0;
            OrderOf(t, d.external) == Some(Refresh(o, d, d.fetched.value)) && t.customers == s.customers
            && t.mapping == s.mapping[d.external := id]
  {
    hide Refresh, LinesOf;
  }

  lemma IngestOrder(s: Shop, d: Webhook, external: string)
    ensures OrderOf(Ingest(s, d).0, external) == if Key(d) in s.done then OrderOf(s, external) else OrderOf(Upsert(s, d).0, external)
  {
    hide Upsert;
  }

  lemma IngestRest(s: Shop, d: Webhook)
    ensures Ingest(s, d).0.customers == (if Key(d) in s.done then s.customers else Upsert(s, d).0.customers)
    ensures Ingest(s, d).0.mapping == (if Key(d) in s.done then s.mapping else Upsert(s, d).0.mapping)
  {
    hide Upsert;
  }

  // ----- Customers and mappings --------------------------------------------------------

  /**
   A customer is created for an email not seen before as soon as the order is fetched, even if
   the delivery is stale or raises afterwards. A mapping is made only by a delivery that is taken.
   */
  lemma CustomersAndMappings(s: Shop, d: Webhook)
    requires Valid(s)
    ensures var t := Ingest(s, d).0;
            && t.customers == (if (d.topic, d.webhookId) in s.done || d.fetched.None? || d.fetched.value.email in s.customers
                                  || d.fetched.value.email == "" then s.customers
                               else s.customers[d.fetched.value.email := s.nextId])
            && t.mapping.Keys == s.mapping.Keys + (if Takes(s, d) then {d.external} else {})
            && (Takes(s, d) && d.external !in s.mapping ==> t.mapping[d.external] >= s.nextId)
            && forall external <- s.mapping :: t.mapping[external] == s.mapping[external]
  {
    IngestRest(s, d);
    if Key(d) !in s.done && d.fetched.Some? {
      Upserted(s, d);
      if Takes(s, d) {
        var s0, id, o := Written(s, d);
        OrderWritten(s0, id, o, d);
        hide Takes, Write, Upsert, Ingest;
      }
    }
  }

  // ----- The answer --------------------------------------------------------------------

  /**
   What a delivery is answered. A known one gets its first result; any other is accepted exactly
   when the workflow can be signalled and its operation ends: it was stale, or it was taken and
   all its products could be converted. The answer names the order the external id is mapped
   to and the status the order has now, and exactly the accepted ones are remembered.
   */
  lemma DeliveryIsAnswered(s: Shop, d: Webhook)
    requires Valid(s)
    ensures var (t, r) := Ingest(s, d);
            var key := (d.topic, d.webhookId);
            if key in s.done then t == s && r == Accepted(s.done[key], true)
            else
              && (r.Accepted? <==>
                   d.signalled && d.fetched.Some?
                   && (if Takes(s, d) then forall k :: 0 <= k < |d.fetched.value.products| ==> d.fetched.value.products[k].Item?
                       else d.external in s.mapping))
              && (r.Raised? ==> t.done == s.done)
              && (r.Accepted? ==>
                   && !r.replay && t.done == s.done[key := r.result]
                   && d.external in t.mapping && r.result.order == t.mapping[d.external]
                   && OrderOf(t, d.external).Some? && r.result.status == OrderOf(t, d.external).value.status)
  {
    UpsertKeepsDone(s, d);
    if Key(d) !in s.done && d.fetched.Some? {
      Upserted(s, d);
      IngestOrder(s, d, d.external);
      IngestRest(s, d);
      if Takes(s, d) {
        var s0, id, o := Written(s, d);
        OrderWritten(s0, id, o, d);
        WriteAnswers(s0, id, o, d);
      }
      hide Takes, Write, Upsert, WithCustomer;
    }
  }

  lemma WriteAnswers(s: Shop, id: nat, o: Order, d: Webhook)
    requires d.fetched.Some?
    ensures var r := Write(s, id, o, d, d.fetched.value).1;
            && (r.Some? <==> forall k :: 0 <= k < |d.fetched.value.products| ==> d.fetched.value.products[k].Item?)
            && (r.Some? ==> r.value == Result(id, Refresh(o, d, d.fetched.value).status))
  {
    hide LinesOf, Refresh;
  }

  /** The divergence check against any status the platform may show, for any order. */
  lemma CheckIsExact(s: Shop, external: string, status: string)
    ensures Diverges(s, external, status) ==
            match OrderOf(s, external)
            case None => None
            case Some(o) =>
              var now := if status == "" then "UNKNOWN" else status;
              if o.status == now then None else Some(Divergence(s.mapping[external], o.status, now))
  {
  }
}
