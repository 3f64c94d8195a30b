/** Order sync and reconciliation of the Amazon connector. */
module Amazon {
  import opened Common
  import opened ExternalRefs

  const NAME := "amazon"

  // ----- Status mapping ----------------------------------------------------------------

  /** Canonical order status and fulfilment status. */
  datatype Status = Status(order: string, fulfillment: Option<string>)

  /** `ORDER_STATUS_MAP` */
  const STATUS_MAP: map<string, Status> := map[
    "PendingAvailability" := Status("PENDING", Some("pending")),
    "Pending" := Status("PENDING", Some("pending")),
    "Unshipped" := Status("PAID", Some("pending")),
    "PartiallyShipped" := Status("PAID", Some("partially_fulfilled")),
    "Shipped" := Status("PAID", Some("fulfilled")),
    "InvoiceUnconfirmed" := Status("PAID", Some("pending")),
    "Canceled" := Status("CANCELLED", Some("cancelled")),
    "Unfulfillable" := Status("PAID", Some("failed"))]

  /** An unknown status is preserved as it is, a missing one is UNKNOWN. */
  function Canonical(status: string): Status {
    if status in STATUS_MAP then STATUS_MAP[status] else Status(if status == "" then "UNKNOWN" else status, None)
  }

  predicate Unmapped(status: string) {
    status != "" && status !in STATUS_MAP
  }

  // ----- Entities ----------------------------------------------------------------------

  /** An order as a page lists it; no total when the amount cannot be converted. */
  datatype Raw = Raw(id: string, status: string, channel: Option<string>, total: Option<int>, currency: Option<string>)

  datatype Order = Order(
    channel: string, number: string, status: string, fulfillment: Option<string>, total: int, currency: string, refs: seq<Ref>)

  datatype Note =
    | UnmappedStatus(external: string, status: string)
    | Divergence(order: nat, canonical: string, external: string)

  datatype Store = Store(orders: map<nat, Order>, nextId: nat, mapping: map<string, nat>, notes: seq<Note>)

  // ----- Sync, as functions ------------------------------------------------------------

  function WithNote(s: Store, raw: Raw): Store {
    if Unmapped(raw.status) then s.(notes := s.notes + [UnmappedStatus(raw.id, raw.status)]) else s
  }

  function NewOrder(raw: Raw, total: int): Order {
    var c := Canonical(raw.status);
    Order(GetOr(raw.channel, NAME), raw.id, c.order, c.fulfillment, total, GetOr(raw.currency, "INR"), [])
  }

  function Refresh(o: Order, raw: Raw): Order {
    var c := Canonical(raw.status);
    o.(status := c.order, fulfillment := c.fulfillment,
       refs := Others(o.refs, NAME) + [Ref(NAME, "order", raw.id, o.channel)])
  }

  /** `_upsert_order`; no id when it raises, after the note of an unmapped status. */
  function Upsert(s: Store, raw: Raw): (Store, Option<nat>) {
    var s1 := WithNote(s, raw);
    if raw.total.None? then (s1, None)
    else if raw.id in s1.mapping then
      var id := s1.mapping[raw.id];
      if id !in s1.orders then (s1, None)
      else (s1.(orders := s1.orders[id := Refresh(s1.orders[id], raw)]), Some(id))
    else
      var id := s1.nextId;
      (s1.(orders := s1.orders[id := Refresh(NewOrder(raw, raw.total.value), raw)], nextId := id + 1,
           mapping := s1.mapping[raw.id := id]), Some(id))
  }

  /** `sync_orders` over the items of a page: it ends where an item raises. */
  function Sync(s: Store, page: seq<Raw>): (Store, Option<seq<nat>>) {
    if page == [] then (s, Some([]))
    else
      var (s1, ids) := Sync(s, page[..|page| - 1]);
      match ids
      case None => (s1, None)
      case Some(done) =>
        var (s2, id) := Upsert(s1, page[|page| - 1]);
        (s2, if id.Some? then Some(done + [id.value]) else None)
  }

  /** `reconcile` against the status the platform reports: the store and whether a divergence was found. */
  function Reconcile(s: Store, external: string, status: string): (Store, Option<Note>) {
    if external !in s.mapping || s.mapping[external] !in s.orders then (s, None)
    else
      var id := s.mapping[external];
      if s.orders[id].status == Canonical(status).order then (s, None)
      else
        var note := Divergence(id, s.orders[id].status, Canonical(status).order);
        (s.(notes := s.notes + [note]), Some(note))
  }

  // ----- The connector -----------------------------------------------------------------

  class AmazonConnector {
    var orders: map<nat, Order>
    var nextId: nat
    var mapping: map<string, nat>
    var notes: seq<Note>

    ghost function Contents(): Store
      reads this
    {
      Store(orders, nextId, mapping, notes)
    }

    constructor ()
      ensures Contents() == EMPTY
    {
      orders, nextId, mapping, notes := map[], 0, map[], [];
    }

    method UpsertOrder(raw: Raw) returns (r: Option<nat>)
      modifies this
      ensures (Contents(), r) == Upsert(old(Contents()), raw)
    {
      var canonical := Canonical(raw.status);
      if Unmapped(raw.status) {
        notes := notes + [UnmappedStatus(raw.id, raw.status)];
      }
      if raw.total.None? {
        return None;
      }
      var id;
      var order;
      if raw.id in mapping {
        id := mapping[raw.id];
        if id !in orders {
          return None;
        }
        order := orders[id];
        assert mapping[raw.id := id] == mapping;
      } else {
        id := nextId;
        nextId := nextId + 1;
        order := Order(GetOr(raw.channel, NAME), raw.id, canonical.order, canonical.fulfillment, raw.total.value,
                       GetOr(raw.currency, "INR"), []);
      }
      order := order.(status := canonical.order);
      order := order.(fulfillment := canonical.fulfillment);
      order := order.(refs := Others(order.refs, NAME) + [Ref(NAME, "order", raw.id, order.channel)]);
      orders := orders[id := order];
      mapping := mapping[raw.id := id];
      r := Some(id);
    }

    method SyncOrders(page: seq<Raw>) returns (r: Option<seq<nat>>)
      modifies this
      ensures (Contents(), r) == Sync(old(Contents()), page)
    {
      hide Upsert;
      var ids: seq<nat> := [];
      for i := 0 to |page|
        invariant (Contents(), Some(ids)) == Sync(old(Contents()), page[..i])
      {
        assert page[..i + 1][..i] == page[..i];
        var id := UpsertOrder(page[i]);
        if id.None? {
          SyncStops(old(Contents()), page, i + 1);
          return None;
        }
        ids := ids + [id.value];
      }
      assert page[..|page|] == page;
      r := Some(ids);
    }

    method ReconcileOrder(external: string, status: string) returns (found: Option<Note>)
      modifies this`notes
      ensures (Contents(), found) == Reconcile(old(Contents()), external, status)
    {
      if external !in mapping || mapping[external] !in orders {
        return None;
      }
      var id := mapping[external];
      var canonical := Canonical(status).order;
      if orders[id].status != canonical {
        var note := Divergence(id, orders[id].status, canonical);
        notes := notes + [note];
        return Some(note);
      }
      found := None;
    }
  }

  const EMPTY := Store(map[], 0, map[], [])

  /** Once an item raised, later items of the page change nothing. */
  lemma {:induction false} SyncStops(s: Store, page: seq<Raw>, k: nat)
    requires k <= |page| && Sync(s, page[..k]).1.None?
    ensures Sync(s, page) == (Sync(s, page[..k]).0, None)
    decreases |page|
  {
    if k < |page| {
      assert page[..|page| - 1][..k] == page[..k];
      SyncStops(s, page[..|page| - 1], k);
    } else {
      assert page[..k] == page;
    }
  }

  // ----- Guarantees --------------------------------------------------------------------

  /** Every mapped order exists and no two external ids share one. */
  predicate Valid(s: Store) {
    (forall e <- s.mapping :: s.mapping[e] in s.orders)
    && (forall e, f :: e in s.mapping && f in s.mapping && s.mapping[e] == s.mapping[f] ==> e == f)
    && (forall id <- s.orders :: id < s.nextId)
  }

  function OrderOf(s: Store, external: string): Option<Order> {
    if external in s.mapping && s.mapping[external] in s.orders then Some(s.orders[s.mapping[external]]) else None
  }

  function OthersOf(s: Store, external: string): seq<Ref> {
    if OrderOf(s, external).Some? then Others(OrderOf(s, external).value.refs, NAME) else []
  }

  /** An order that shows a raw status and has exactly one reference of this connector. */
  predicate Reflects(o: Order, external: string, status: string) {
    o.status == Canonical(status).order && o.fulfillment == Canonical(status).fulfillment
    && Own(o.refs, NAME) == [Ref(NAME, "order", external, o.channel)]
  }

  lemma RefreshReflects(o: Order, raw: Raw)
    ensures Reflects(Refresh(o, raw), raw.id, raw.status)
    ensures Others(Refresh(o, raw).refs, NAME) == Others(o.refs, NAME)
  {
    hide Canonical, Others, Own;
    ReplacedOwn(o.refs, NAME, Ref(NAME, "order", raw.id, o.channel));
  }

  /** One item: its own order shows it, the others stay, ids stay, other references stay. */
  lemma UpsertEffect(s: Store, raw: Raw, external: string)
    requires Valid(s)
    ensures var (t, id) := Upsert(s, raw);
            Valid(t)
            && (forall e <- s.mapping :: e in t.mapping && t.mapping[e] == s.mapping[e])
            && (id.Some? <==> raw.total.Some?)
            && (id.Some? ==> raw.id in t.mapping && t.mapping[raw.id] == id.value)
            && (if external == raw.id && id.Some?
                then OrderOf(t, external).Some? && Reflects(OrderOf(t, external).value, external, raw.status)
                else OrderOf(t, external) == OrderOf(s, external))
            && OthersOf(t, external) == OthersOf(s, external)
  {
    hide Canonical, Refresh, Unmapped, Reflects, Others, Own;
    if raw.total.Some? {
      if raw.id in s.mapping {
        RefreshReflects(s.orders[s.mapping[raw.id]], raw);
      } else {
        RefreshReflects(NewOrder(raw, raw.total.value), raw);
        assert Others([], NAME) == [] by { NoOthers(); }
        NewOrderHasNoRefs(raw, raw.total.value);
      }
    }
  }

  lemma NoOthers()
    ensures Others([], NAME) == []
  {
  }

  lemma NewOrderHasNoRefs(raw: Raw, total: int)
    ensures NewOrder(raw, total).refs == []
  {
  }

  /** The table, status by status; any other status is kept as it is, and a missing one is UNKNOWN. */
  lemma TableSays(status: string)
    ensures Canonical("PendingAvailability") == Canonical("Pending") == Status("PENDING", Some("pending"))
    ensures Canonical("Unshipped") == Canonical("InvoiceUnconfirmed") == Status("PAID", Some("pending"))
    ensures Canonical("PartiallyShipped") == Status("PAID", Some("partially_fulfilled"))
    ensures Canonical("Shipped") == Status("PAID", Some("fulfilled"))
    ensures Canonical("Canceled") == Status("CANCELLED", Some("cancelled"))
    ensures Canonical("Unfulfillable") == Status("PAID", Some("failed"))
    ensures var known := {"PendingAvailability", "Pending", "Unshipped", "PartiallyShipped", "Shipped", "InvoiceUnconfirmed", "Canceled",
                          "Unfulfillable"};
            && (Unmapped(status) <==> status !in known && status != "")
            && (status !in known ==> Canonical(status) == Status(if status == "" then "UNKNOWN" else status, None))
  {
  }

  /**
   An item stored: a new order takes channel, number, total and currency from it, with the
   defaults of the connector, under the next id; an order that was there keeps all of them,
   whatever total the item shows. Both get the mapped status and one reference.
   */
  lemma ItemIsStored(s: Store, raw: Raw)
    requires Valid(s) && raw.total.Some?
    ensures var (t, id) := Upsert(s, raw);
            OrderOf(t, raw.id).Some? &&
            var after := OrderOf(t, raw.id).value;
            && after.status == Canonical(raw.status).order && after.fulfillment == Canonical(raw.status).fulfillment
            && after.refs == OthersBefore(s, raw.id) + [Ref("amazon", "order", raw.id, after.channel)]
            && match OrderOf(s, raw.id)
               case None =>
                 && id == Some(s.nextId) && t.nextId == s.nextId + 1
                 && after.channel == (if raw.channel.Some? then raw.channel.value else "amazon")
                 && after.number == raw.id && after.total == raw.total.value
                 && after.currency == (if raw.currency.Some? then raw.currency.value else "INR")
               case Some(o) =>
                 id == Some(s.mapping[raw.id]) && t.nextId == s.nextId && SameSale(o, after)
  {
    hide Canonical, Unmapped, Others;
    assert Others([], "amazon") == [] by { NoOthers(); }
  }

  function OthersBefore(s: Store, external: string): seq<Ref> {
    match OrderOf(s, external)
    case None => []
    case Some(o) => Others(o.refs, "amazon")
  }

  /** Two states of an order agree on what was sold. */
  predicate SameSale(a: Order, b: Order) {
    a.channel == b.channel && a.number == b.number && a.total == b.total && a.currency == b.currency
  }

  lemma {:induction false} SyncKeepsSale(s: Store, page: seq<Raw>, external: string)
    requires Valid(s) && OrderOf(s, external).Some?
    ensures var t := Sync(s, page).0;
            Valid(t) && OrderOf(t, external).Some? && SameSale(OrderOf(s, external).value, OrderOf(t, external).value)
  {
    hide Upsert, Canonical, Valid, Unmapped;
    if page != [] {
      var init, raw := page[..|page| - 1], page[|page| - 1];
      SyncKeepsSale(s, init, external);
      var mid := Sync(s, init).0;
      UpsertEffect(mid, raw, external);
      if raw.total.Some? && raw.id == external {
        ItemIsStored(mid, raw);
      }
    }
  }

  /** The total, currency, number and channel of an order are those of its first item for ever. */
  lemma {:induction false} FirstTotalStays(s: Store, pages: seq<seq<Raw>>, external: string)
    requires Valid(s) && OrderOf(s, external).Some?
    ensures var t := SyncPages(s, pages);
            Valid(t) && OrderOf(t, external).Some? && SameSale(OrderOf(s, external).value, OrderOf(t, external).value)
  {
    hide Sync, Valid;
    if pages != [] {
      FirstTotalStays(s, pages[..|pages| - 1], external);
      SyncKeepsSale(SyncPages(s, pages[..|pages| - 1]), pages[|pages| - 1], external);
    }
  }

  /** The items of a page that are stored: those before the first that raises. */
  function Stored(page: seq<Raw>): (r: seq<Raw>)
    ensures r <= page
    ensures forall i :: 0 <= i < |r| ==> r[i].total.Some?
    ensures |r| < |page| ==> page[|r|].total.None?
  {
    if page == [] || page[0].total.None? then []
    else
      var rest := Stored(page[1..]);
      assert page == [page[0]] + page[1..];
      [page[0]] + rest
  }

  /** The last raw status listed for an order. */
  function LastStatus(items: seq<Raw>, external: string): Option<string> {
    if items == [] then None
    else if items[|items| - 1].id == external then Some(items[|items| - 1].status)
    else LastStatus(items[..|items| - 1], external)
  }

  /** The statuses of items that the table does not know. */
  function UnmappedNotes(items: seq<Raw>): seq<Note> {
    if items == [] then []
    else
      var raw := items[|items| - 1];
      UnmappedNotes(items[..|items| - 1]) + (if Unmapped(raw.status) then [UnmappedStatus(raw.id, raw.status)] else [])
  }

  /** What a run of items that do not raise leaves behind. */
  predicate Synced(s: Store, t: Store, items: seq<Raw>, external: string) {
    Valid(t)
    && (forall e <- s.mapping :: e in t.mapping && t.mapping[e] == s.mapping[e])
    && (match LastStatus(items, external)
        case None => OrderOf(t, external) == OrderOf(s, external)
        case Some(status) => OrderOf(t, external).Some? && Reflects(OrderOf(t, external).value, external, status))
    && OthersOf(t, external) == OthersOf(s, external)
    && t.notes == s.notes + UnmappedNotes(items)
  }

  lemma {:induction false} SyncsAll(s: Store, items: seq<Raw>, external: string)
    requires Valid(s) && forall i :: 0 <= i < |items| ==> items[i].total.Some?
    ensures Sync(s, items).1.Some? && Synced(s, Sync(s, items).0, items, external)
  {
    hide Upsert, Reflects, Canonical, Unmapped, Valid;
    if items != [] {
      var init, raw := items[..|items| - 1], items[|items| - 1];
      SyncsAll(s, init, external);
      UpsertEffect(Sync(s, init).0, raw, external);
      UpsertNotes(Sync(s, init).0, raw);
    }
  }

  /** The returned ids are those the listed orders are mapped to. */
  lemma {:induction false} SyncReturnsIds(s: Store, items: seq<Raw>)
    requires Valid(s) && forall i :: 0 <= i < |items| ==> items[i].total.Some?
    ensures var (t, ids) := Sync(s, items);
            ids.Some? && |ids.value| == |items|
            && forall i :: 0 <= i < |items| ==> items[i].id in t.mapping && t.mapping[items[i].id] == ids.value[i]
  {
    hide Upsert, Valid;
    if items != [] {
      var init, raw := items[..|items| - 1], items[|items| - 1];
      SyncReturnsIds(s, init);
      SyncsAll(s, init, raw.id);
      UpsertEffect(Sync(s, init).0, raw, raw.id);
    }
  }

  lemma UpsertNotes(s: Store, raw: Raw)
    ensures Upsert(s, raw).0.notes == s.notes + (if Unmapped(raw.status) then [UnmappedStatus(raw.id, raw.status)] else [])
  {
  }

  /**
   Syncing a page from any valid store: each order listed has one canonical order and one
   reference of this connector, all other references stay, and it shows the mapping of its
   last raw status; a note is made for exactly the statuses that are not empty and not in
   the table; an item that raises ends the page with everything before it stored.
   */
  lemma PageIsSynced(s: Store, page: seq<Raw>, external: string)
    requires Valid(s)
    ensures var (t, ids) := Sync(s, page);
            var n := |Stored(page)|;
            (ids.Some? <==> n == |page|)
            && (n == |page| ==> Synced(s, t, page, external))
            && (n < |page| ==>
                  t == WithNote(Sync(s, page[..n]).0, page[n]) && Synced(s, Sync(s, page[..n]).0, page[..n], external))
  {
    hide Upsert, Reflects, Canonical, Unmapped, Synced;
    var n := |Stored(page)|;
    assert Stored(page) == page[..n];
    SyncsAll(s, page[..n], external);
    if n == |page| {
      assert page[..n] == page;
    } else {
      var upTo := page[..n + 1];
      assert upTo[..n] == page[..n] && upTo[n] == page[n];
      Raises(Sync(s, page[..n]).0, page[n]);
      SyncStops(s, page, n + 1);
    }
  }

  lemma Raises(s: Store, raw: Raw)
    requires raw.total.None?
    ensures Upsert(s, raw) == (WithNote(s, raw), None)
  {
  }

  /**
   The divergence check agrees with the sync for every status string, known or not: after a
   sync whose last status for an order is `last`, a report of `now` is a divergence exactly
   when the two map to different canonical statuses. Nothing but a note is written.
   */
  lemma ReconcileAgreesWithSync(s: Store, items: seq<Raw>, external: string, last: string, now: string)
    requires Valid(s) && forall i :: 0 <= i < |items| ==> items[i].total.Some?
    requires LastStatus(items, external) == Some(last)
    ensures var t := Sync(s, items).0;
            var (u, found) := Reconcile(t, external, now);
            (found.Some? <==> Canonical(now).order != Canonical(last).order)
            && (found.Some? ==> external in t.mapping
                                && found.value == Divergence(t.mapping[external], Canonical(last).order, Canonical(now).order))
            && u.(notes := t.notes) == t && u.notes == t.notes + (if found.Some? then [found.value] else [])
  {
    hide Canonical, Sync;
    SyncsAll(s, items, external);
  }

  /** The check for any store, external id and status: nothing for an unknown order, else exactly the difference, noted and returned. */
  lemma CheckIsExact(s: Store, external: string, status: string)
    ensures Reconcile(s, external, status) ==
            match OrderOf(s, external)
            case None => (s, None)
            case Some(o) =>
              var note := Divergence(s.mapping[external], o.status, Canonical(status).order);
              if o.status == Canonical(status).order then (s, None) else (Store(s.orders, s.nextId, s.mapping, s.notes + [note]), Some(note))
  {
    hide Canonical;
  }

  // ----- Many pages --------------------------------------------------------------------

  /** A run of pages. A page that raises is left behind where it raised, and the next one is synced all the same. */
  function SyncPages(s: Store, pages: seq<seq<Raw>>): Store {
    if pages == [] then s else Sync(SyncPages(s, pages[..|pages| - 1]), pages[|pages| - 1]).0
  }

  /** All items that were stored, in order. */
  function StoredAll(pages: seq<seq<Raw>>): seq<Raw> {
    if pages == [] then [] else StoredAll(pages[..|pages| - 1]) + Stored(pages[|pages| - 1])
  }

  /** The notes of a page: those of its stored items, and that of the item that raised. */
  function PageNotes(page: seq<Raw>): seq<Note> {
    var n := |Stored(page)|;
    UnmappedNotes(Stored(page))
    + (if n < |page| && Unmapped(page[n].status) then [UnmappedStatus(page[n].id, page[n].status)] else [])
  }

  function AllNotes(pages: seq<seq<Raw>>): seq<Note> {
    if pages == [] then [] else AllNotes(pages[..|pages| - 1]) + PageNotes(pages[|pages| - 1])
  }

  /** What `items` stored and `notes` made leave behind. */
  predicate Left(s: Store, t: Store, items: seq<Raw>, notes: seq<Note>, external: string) {
    Valid(t)
    && (forall e <- s.mapping :: e in t.mapping && t.mapping[e] == s.mapping[e])
    && (match LastStatus(items, external)
        case None => OrderOf(t, external) == OrderOf(s, external)
        case Some(status) => OrderOf(t, external).Some? && Reflects(OrderOf(t, external).value, external, status))
    && OthersOf(t, external) == OthersOf(s, external)
    && t.notes == s.notes + notes
  }

  lemma PageLeaves(s: Store, page: seq<Raw>, external: string)
    requires Valid(s)
    ensures Left(s, Sync(s, page).0, Stored(page), PageNotes(page), external)
  {
    hide Sync, Reflects, Unmapped, Stored, Valid;
    PageIsSynced(s, page, external);
    var n := |Stored(page)|;
    StoredIsPrefix(page);
    if n < |page| {
      NoteTouchesNothing(Sync(s, page[..n]).0, page[n], external);
    } else {
      assert page[..n] == page;
    }
  }

  lemma StoredIsPrefix(page: seq<Raw>)
    ensures |Stored(page)| <= |page| && Stored(page) == page[..|Stored(page)|]
  {
  }

  lemma NoteTouchesNothing(s: Store, raw: Raw, external: string)
    ensures var t := WithNote(s, raw);
            OrderOf(t, external) == OrderOf(s, external) && OthersOf(t, external) == OthersOf(s, external)
            && t.mapping == s.mapping && (Valid(t) <==> Valid(s))
            && t.notes == s.notes + (if Unmapped(raw.status) then [UnmappedStatus(raw.id, raw.status)] else [])
  {
  }

  lemma {:induction false} LastStatusOfBoth(a: seq<Raw>, b: seq<Raw>, external: string)
    ensures LastStatus(a + b, external) == if LastStatus(b, external).Some? then LastStatus(b, external) else LastStatus(a, external)
  {
    if b == [] {
      assert a + b == a;
    } else {
      var all := a + b;
      assert all[..|all| - 1] == a + b[..|b| - 1] && all[|all| - 1] == b[|b| - 1];
      LastStatusOfBoth(a, b[..|b| - 1], external);
    }
  }

  /**
   Any pages, each of which may raise part-way: every order shows its last stored status, ids
   and other references stay, and the notes are those of the statuses met.
   */
  lemma {:induction false} PagesAreSynced(s: Store, pages: seq<seq<Raw>>, external: string)
    requires Valid(s)
    ensures Left(s, SyncPages(s, pages), StoredAll(pages), AllNotes(pages), external)
  {
    hide Sync, Reflects, Stored, PageNotes, Valid;
    if pages != [] {
      var init, page := pages[..|pages| - 1], pages[|pages| - 1];
      PagesAreSynced(s, init, external);
      PageLeaves(SyncPages(s, init), page, external);
      LastStatusOfBoth(StoredAll(init), Stored(page), external);
      assert s.notes + AllNotes(init) + PageNotes(page) == s.notes + (AllNotes(init) + PageNotes(page));
    }
  }

  /** After any pages the check reports exactly when the status now and the last one stored map to different canonical ones. */
  lemma ReconcileAgreesWithPages(s: Store, pages: seq<seq<Raw>>, external: string, last: string, now: string)
    requires Valid(s) && LastStatus(StoredAll(pages), external) == Some(last)
    ensures var t := SyncPages(s, pages);
            var (u, found) := Reconcile(t, external, now);
            (found.Some? <==> Canonical(now).order != Canonical(last).order)
            && (found.Some? ==> external in t.mapping
                                && found.value == Divergence(t.mapping[external], Canonical(last).order, Canonical(now).order))
            && u.(notes := t.notes) == t && u.notes == t.notes + (if found.Some? then [found.value] else [])
  {
    hide Canonical, SyncPages, StoredAll;
    PagesAreSynced(s, pages, external);
  }

  // ----- What the check does not see ---------------------------------------------------

  /** A difference in fulfilment only. */
  predicate FulfilmentDrift(last: string, now: string) {
    Canonical(now).order == Canonical(last).order && Canonical(now).fulfillment != Canonical(last).fulfillment
  }

  /**
   What the check misses, for every two statuses: the order differs from what the platform
   says and nothing is reported exactly when the two differ in fulfilment only.
   */
  lemma FulfilmentDriftIsInvisible(s: Store, pages: seq<seq<Raw>>, external: string, last: string, now: string)
    requires Valid(s) && LastStatus(StoredAll(pages), external) == Some(last)
    ensures var found := Reconcile(SyncPages(s, pages), external, now).1;
            found.None? && Canonical(now) != Canonical(last) <==> FulfilmentDrift(last, now)
  {
    hide Canonical, SyncPages, StoredAll;
    ReconcileAgreesWithPages(s, pages, external, last, now);
  }

  /** The canonical order statuses the table maps to. */
  const TABLE_ORDERS: set<string> := {"PENDING", "PAID", "CANCELLED"}

  lemma TableOrdersExact(status: string)
    ensures status in STATUS_MAP ==> Canonical(status).order in TABLE_ORDERS
    ensures status !in STATUS_MAP ==> Canonical(status).fulfillment.None?
  {
  }

  /** Exactly the orders with a status that the table maps to can drift unseen. */
  lemma DriftExistsExactly(last: string)
    ensures (exists now :: FulfilmentDrift(last, now)) <==> Canonical(last).order in TABLE_ORDERS
  {
    hide Canonical;
    TableOrdersExact(last);
    if now :| FulfilmentDrift(last, now) {
      TableOrdersExact(now);
    }
    var order := Canonical(last).order;
    if order in TABLE_ORDERS {
      TwoSpellings(order);
      var mapped := if order == "PENDING" then "Pending" else if order == "PAID" then "Shipped" else "Canceled";
      assert FulfilmentDrift(last, mapped) || FulfilmentDrift(last, order);
    }
  }

  /** Each of them has a raw status in the table, and is itself one outside it. */
  lemma TwoSpellings(order: string)
    requires order in TABLE_ORDERS
    ensures Canonical(order) == Status(order, None)
    ensures var mapped := if order == "PENDING" then "Pending" else if order == "PAID" then "Shipped" else "Canceled";
            Canonical(mapped).order == order && Canonical(mapped).fulfillment.Some?
  {
  }
}
