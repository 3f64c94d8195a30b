/** What order webhooks guarantee over whole runs. */
module BigCommerceGuarantees {
  import opened Common
  import opened Timestamps
  import opened BigCommerce
  import opened ExternalRefs

  // ----- One external id at a time -----------------------------------------------------

  function OrderOf(s: Shop, external: string): Option<Order> {
    if external in s.mapping && s.mapping[external] in s.orders then Some(s.orders[s.mapping[external]]) else None
  }

  function LinesFor(lines: seq<Line>, id: nat): seq<Line> {
    if lines == [] then []
    else LinesFor(lines[..|lines| - 1], id) + (if lines[|lines| - 1].order == id then [lines[|lines| - 1]] else [])
  }

  /** The lines of an order, in the order they were stored. */
  function OrderLines(s: Shop, external: string): seq<Line> {
    if external in s.mapping then LinesFor(s.lines, s.mapping[external]) else []
  }

  /** The canonical id of an external one, if it is mapped. */
  function IdOf(s: Shop, external: string): nat {
    if external in s.mapping then s.mapping[external] else 0
  }

  /** A delivery whose snapshot is written: not a replay, fetched, not stale, and with a total if the order is new. */
  predicate Takes(s: Shop, d: Webhook) {
    Key(d) !in s.done && d.fetched.Some?
    && match OrderOf(s, d.external)
       case Some(o) => !Stale(d.fetched.value.modified, o.updated)
       case None => d.fetched.value.total.Some?
  }

  lemma {:induction false} LinesForAppend(a: seq<Line>, b: seq<Line>, id: nat)
    ensures LinesFor(a + b, id) == LinesFor(a, id) + LinesFor(b, id)
  {
    if b == [] {
      assert a + b == a;
    } else {
      assert (a + b)[..|a + b| - 1] == a + b[..|b| - 1];
      LinesForAppend(a, b[..|b| - 1], id);
    }
  }

  lemma {:induction false} LinesForOne(lines: seq<Line>, id: nat, other: nat)
    requires forall i :: 0 <= i < |lines| ==> lines[i].order == id
    ensures LinesFor(lines, other) == if other == id then lines else []
  {
    if lines != [] {
      LinesForOne(lines[..|lines| - 1], id, other);
      assert lines == lines[..|lines| - 1] + [lines[|lines| - 1]];
    }
  }

  lemma {:induction false} LinesForNone(lines: seq<Line>, id: nat)
    requires forall i :: 0 <= i < |lines| ==> lines[i].order != id
    ensures LinesFor(lines, id) == []
  {
    if lines != [] {
      LinesForNone(lines[..|lines| - 1], id);
    }
  }

  /** What writing does to an order: its own is refreshed and gets its lines, others stay. */
  lemma WriteEffect(s: Shop, id: nat, o: Order, d: Webhook, x: Snapshot, external: string)
    requires Valid(s) && id < s.nextId
    requires if d.external in s.mapping then id == s.mapping[d.external] else id !in s.orders
    ensures var t := Write(s, id, o, d, x).0;
            IdOf(t, d.external) == id
            && OrderOf(t, external) == (if external == d.external then Some(Refresh(o, d, x)) else OrderOf(s, external))
            && OrderLines(t, external) == OrderLines(s, external) + (if external == d.external then LinesOf(x.products, id, d.raw) else [])
  {
    hide Refresh, GoodItems, LinesOf, LinesFor;
    var more := LinesOf(x.products, id, d.raw);
    var t := Write(s, id, o, d, x).0;
    assert t.lines == s.lines + more;
    if external in t.mapping {
      var other := t.mapping[external];
      LinesForAppend(s.lines, more, other);
      LinesForOne(more, id, other);
      if external !in s.mapping {
        LinesForNone(s.lines, other);
      }
    }
  }

  /** The status an order keeps when a snapshot has none. */
  function StatusBefore(s: Shop, external: string): string {
    if OrderOf(s, external).Some? then OrderOf(s, external).value.status else "PENDING"
  }

  /** What one delivery does, for every external id. */
  lemma IngestEffect(s: Shop, d: Webhook, external: string)
    requires Valid(s)
    ensures var t := Ingest(s, d).0;
            (external != d.external || !Takes(s, d) ==>
              OrderOf(t, external) == OrderOf(s, external) && OrderLines(t, external) == OrderLines(s, external))
            && (external == d.external && Takes(s, d) ==>
                 OrderOf(t, external).Some?
                 && var o, x := OrderOf(t, external).value, d.fetched.value;
                    o.updated == UpdatedBy(x.modified, if OrderOf(s, external).Some? then OrderOf(s, external).value.updated else None)
                    && o.status == OrElse(x.status, StatusBefore(s, external)) && o.payment == x.payment
                    && OrderLines(t, external) == OrderLines(s, external) + LinesOf(x.products, IdOf(t, external), d.raw))
  {
    hide Stale, NewOrder, WithCustomer, Write, GoodItems, LinesFor, LinesOf, UpdatedBy;
    if Key(d) !in s.done && d.fetched.Some? {
      var x := d.fetched.value;
      CustomerKeeps(s, x.email);
      var (s1, customer) := WithCustomer(s, x.email);
      if d.external in s1.mapping {
        var id := s1.mapping[d.external];
        MappedExists(s1, d.external);
        WriteEffect(s1, id, s1.orders[id], d, x, external);
      } else if x.total.Some? {
        FreshId(s1);
        NewOrderIsPlain(d, x, x.total.value, customer);
        WriteEffect(s1.(nextId := s1.nextId + 1), s1.nextId, NewOrder(d, x, x.total.value, customer), d, x, external);
      }
    }
  }

  lemma NewOrderIsPlain(d: Webhook, x: Snapshot, total: int, customer: Option<nat>)
    ensures NewOrder(d, x, total, customer).updated == None && NewOrder(d, x, total, customer).status == OrElse(x.status, "PENDING")
  {
  }

  function OthersOf(s: Shop, external: string): seq<Ref> {
    if OrderOf(s, external).Some? then Others(OrderOf(s, external).value.refs, NAME) else []
  }

  /** The order keeps one reference of this connector and every reference of others. */
  lemma RefsAreKept(s: Shop, d: Webhook, external: string)
    requires Valid(s)
    ensures var t := Ingest(s, d).0;
            OthersOf(t, external) == OthersOf(s, external)
            && (external == d.external && Takes(s, d) ==>
                  OrderOf(t, external).Some?
                  && var o := OrderOf(t, external).value;
                     Own(o.refs, NAME) == [Ref(NAME, "order", external, o.channel)])
  {
    hide Stale, WithCustomer, GoodItems, LinesFor, UpdatedBy, OrderLines, LinesOf, Others, Own;
    if Key(d) in s.done || d.fetched.None? || external != d.external || !Takes(s, d) {
      IngestEffect(s, d, external);
      return;
    }
    var x := d.fetched.value;
    CustomerKeeps(s, x.email);
    var (s1, customer) := WithCustomer(s, x.email);
    if external in s1.mapping {
      var id := s1.mapping[external];
      MappedExists(s1, external);
      RefreshKeepsRefs(s1.orders[id], d, x);
      WriteEffect(s1, id, s1.orders[id], d, x, external);
    } else {
      FreshId(s1);
      var o := NewOrder(d, x, x.total.value, customer);
      RefreshKeepsRefs(o, d, x);
      WriteEffect(s1.(nextId := s1.nextId + 1), s1.nextId, o, d, x, external);
      assert Others([], NAME) == [] by { NoOthers(); }
    }
  }

  lemma NoOthers()
    ensures Others([], NAME) == []
  {
  }

  lemma RefreshKeepsRefs(o: Order, d: Webhook, x: Snapshot)
    ensures Others(Refresh(o, d, x).refs, NAME) == Others(o.refs, NAME)
    ensures Own(Refresh(o, d, x).refs, NAME) == [Ref(NAME, "order", d.external, Refresh(o, d, x).channel)]
  {
    ReplacedOwn(o.refs, NAME, Ref(NAME, "order", d.external, o.channel));
  }

  /**
   The divergence check against the very snapshot a delivery just brought. It is silent
   whenever the snapshot has a status; a snapshot without one leaves the status before it,
   PENDING for a new order, while the check takes it for UNKNOWN and reports.
   */
  lemma ReconcileAfterDelivery(s: Shop, d: Webhook)
    requires Valid(s) && Takes(s, d)
    ensures var found := Diverges(Ingest(s, d).0, d.external, d.fetched.value.status);
            found.Some? <==> d.fetched.value.status == "" && StatusBefore(s, d.external) != "UNKNOWN"
  {
    hide Ingest, Takes;
    IngestEffect(s, d, d.external);
  }

  // ----- Modification times ------------------------------------------------------------

  /**
   The stored modification time goes back in exactly one case: a new delivery, spelled with
   Z, of an earlier moment in the same second whose digits agree as far as they go.
   */
  lemma TimeGoesBackExactly(s: Shop, d: Webhook, external: string)
    requires Valid(s) && OrderOf(s, external).Some? && OrderOf(s, external).value.updated.Some?
    ensures var t := Ingest(s, d).0;
            var b := OrderOf(s, external).value.updated.value;
            OrderOf(t, external).Some? && OrderOf(t, external).value.updated.Some?
            && (Before(OrderOf(t, external).value.updated.value, b)
                <==> external == d.external && Key(d) !in s.done && d.fetched.Some?
                     && var m := d.fetched.value.modified;
                        m.Utc? && m.zulu && m.width <= 6 && Before(m.moment, b) && SameSecond(m.moment, b) && Cut(m.moment, m.width) == Cut(b, m.width))
  {
    hide Ingest, Stale, SameSecond, Cut;
    var b := OrderOf(s, external).value.updated.value;
    IngestEffect(s, d, external);
    BeforeIsTotal(b, b);
    if d.fetched.Some? && d.fetched.value.modified.Utc? {
      var m := d.fetched.value.modified;
      StaleExactly(m.moment, m.width, m.zulu, b);
      BeforeIsTotal(m.moment, b);
    }
  }

  predicate WholeSecond(m: Stamp) {
    m.Utc? ==> m.width == 0 && m.moment.micros == 0
  }

  predicate WholeSeconds(ds: seq<Webhook>) {
    forall i :: 0 <= i < |ds| ==> ds[i].fetched.Some? ==> WholeSecond(ds[i].fetched.value.modified)
  }

  /** `a` is not later than `b`, where nothing stored is earlier than anything. */
  predicate NotAfter(a: Option<Instant>, b: Option<Instant>) {
    a.Some? ==> b.Some? && !Before(b.value, a.value)
  }

  predicate StoredWhole(o: Option<Order>) {
    o.Some? && o.value.updated.Some? ==> o.value.updated.value.micros == 0
  }

  function TimeOf(s: Shop, external: string): Option<Instant> {
    if OrderOf(s, external).Some? then OrderOf(s, external).value.updated else None
  }

  lemma TimeStep(s: Shop, d: Webhook, external: string)
    requires Valid(s) && StoredWhole(OrderOf(s, external))
    requires d.fetched.Some? ==> WholeSecond(d.fetched.value.modified)
    ensures var t := Ingest(s, d).0;
            StoredWhole(OrderOf(t, external)) && NotAfter(TimeOf(s, external), TimeOf(t, external))
  {
    hide Ingest, Stale, Second;
    IngestEffect(s, d, external);
    if TimeOf(s, external).Some? {
      TimeGoesBackExactly(s, d, external);
    }
  }

  lemma NotAfterTwice(a: Option<Instant>, b: Option<Instant>, c: Option<Instant>)
    requires NotAfter(a, b) && NotAfter(b, c)
    ensures NotAfter(a, c)
  {
  }

  /** With whole seconds the stored time never goes back, in any run. */
  lemma {:induction false} TimeNeverGoesBack(s: Shop, ds: seq<Webhook>, external: string)
    requires Valid(s) && StoredWhole(OrderOf(s, external)) && WholeSeconds(ds)
    ensures StoredWhole(OrderOf(Run(s, ds), external)) && NotAfter(TimeOf(s, external), TimeOf(Run(s, ds), external))
  {
    hide Ingest, StoredWhole, NotAfter, Valid, WholeSecond;
    if ds == [] {
      NotAfterSelf(TimeOf(s, external));
    } else {
      var init := ds[..|ds| - 1];
      TimeNeverGoesBack(s, init, external);
      RunKeeps(s, init);
      TimeStep(Run(s, init), ds[|ds| - 1], external);
      NotAfterTwice(TimeOf(s, external), TimeOf(Run(s, init), external), TimeOf(Run(s, ds), external));
    }
  }

  lemma NotAfterSelf(a: Option<Instant>)
    ensures NotAfter(a, a)
  {
  }

  // ----- Lines -------------------------------------------------------------------------

  /** The lines that the deliveries taken along a run make for an external id. */
  function TakenLines(s: Shop, ds: seq<Webhook>, external: string): seq<Line> {
    if ds == [] then []
    else
      var init, d := ds[..|ds| - 1], ds[|ds| - 1];
      TakenLines(s, init, external)
      + (if d.external == external && Takes(Run(s, init), d)
         then LinesOf(d.fetched.value.products, IdOf(Run(s, ds), external), d.raw)
         else [])
  }

  /** An order's lines are those of all deliveries taken, one after the other: nothing replaces a line. */
  lemma {:induction false} LinesAddUp(s: Shop, ds: seq<Webhook>, external: string)
    requires Valid(s)
    ensures OrderLines(Run(s, ds), external) == OrderLines(s, external) + TakenLines(s, ds, external)
  {
    hide Ingest, Takes, LinesOf, OrderLines, IdOf;
    if ds != [] {
      var init, d := ds[..|ds| - 1], ds[|ds| - 1];
      LinesAddUp(s, init, external);
      RunKeeps(s, init);
      IngestEffect(Run(s, init), d, external);
      var before, taken := OrderLines(s, external), TakenLines(s, init, external);
      assert forall more: seq<Line> :: before + taken + more == before + (taken + more);
    }
  }

  /** A delivery whose operation finishes once its order is written. */
  predicate Finishes(d: Webhook) {
    d.fetched.Some? && Whole(d.fetched.value) && d.signalled
  }

  /** A delivery whose operation cannot raise. */
  predicate Clean(d: Webhook) {
    Finishes(d) && d.fetched.value.total.Some?
  }

  /** A clean delivery that was taken is remembered, so that no delivery of its key is taken again. */
  lemma TakenAtMostOnce(s: Shop, d: Webhook, ds: seq<Webhook>, again: Webhook)
    requires Valid(s) && Clean(d) && Takes(s, d) && Key(again) == Key(d)
    ensures !Takes(Run(Ingest(s, d).0, ds), again)
  {
    CleanIsRemembered(s, d);
    IngestKeeps(s, d);
    RunKeeps(Ingest(s, d).0, ds);
  }

  lemma CleanIsRemembered(s: Shop, d: Webhook)
    requires Valid(s) && Clean(d)
    ensures Key(d) in Ingest(s, d).0.done
    ensures Ingest(s, d).0.done.Keys == s.done.Keys + {Key(d)}
  {
    hide Stale, NewOrder, Refresh, LinesOf, WithCustomer, GoodItems;
    if Key(d) !in s.done {
      UpsertKeepsDone(s, d);
      var x := d.fetched.value;
      CustomerKeeps(s, x.email);
      MappedStays(s, d.external, x.email);
      assert Upsert(s, d).1.Some?;
    }
  }

  lemma MappedStays(s: Shop, external: string, email: string)
    requires Valid(s)
    ensures var t := WithCustomer(s, email).0; external in t.mapping ==> t.mapping[external] in t.orders
  {
    CustomerKeeps(s, email);
  }

  /** Whether the snapshot a delivery brought counts as new when the same stamp comes again. */
  predicate NewAgain(m: Stamp) {
    m.Utc? ==> m.zulu || (m.width > 0 && m.moment.micros == 0)
  }

  /**
   Redelivery after an operation that raised once the order was written, for every order and
   every stamp. If the same stamp counts as stale (spelled with +00:00), the missing lines
   never come; if it counts as new (spelled with Z, or missing, or unreadable), all lines are
   stored again behind those already there.
   */
  lemma RetryAfterFailure(s: Shop, d: Webhook, d2: Webhook)
    requires Valid(s) && Takes(s, d) && !Finishes(d)
    requires d2.external == d.external && Key(d2) == Key(d) && Finishes(d2)
    requires d2.fetched.value.modified == d.fetched.value.modified
    ensures var t := Ingest(Ingest(s, d).0, d2).0;
            var again := NewAgain(d.fetched.value.modified);
            var before, after := |OrderLines(s, d.external)|, |OrderLines(t, d.external)|;
            var first, all := GoodItems(d.fetched.value.products), |d2.fetched.value.products|;
            after == before + first + (if again then all else 0)
            && (after == before + all <==> if again then first == 0 else first == all)
  {
    hide Ingest, Stale, GoodItems, OrderLines, Valid;
    var s1 := Ingest(s, d).0;
    IngestEffect(s, d, d.external);
    IngestKeeps(s, d);
    NotRemembered(s, d);
    var m := d.fetched.value.modified;
    if m.Utc? {
      assert OrderOf(s1, d.external).value.updated == Some(m.moment);
      StaleExactly(m.moment, m.width, m.zulu, m.moment);
      BeforeIsTotal(m.moment, m.moment);
    } else {
      NeverStale(m, if OrderOf(s, d.external).Some? then OrderOf(s, d.external).value.updated else None);
    }
    IngestEffect(s1, d2, d.external);
  }

  /** Nothing is stale where nothing is stored. */
  lemma NeverStale(m: Stamp, stored: Option<Instant>)
    requires ValidStamp(m)
    ensures stored.None? ==> !Stale(m, stored)
  {
  }

  lemma NotRemembered(s: Shop, d: Webhook)
    requires Valid(s) && Takes(s, d) && !Finishes(d)
    ensures Key(d) !in Ingest(s, d).0.done
  {
    hide Stale, NewOrder, Refresh, LinesOf, WithCustomer, GoodItems;
    UpsertKeepsDone(s, d);
    CustomerKeeps(s, d.fetched.value.email);
  }

  // ----- Convergence -------------------------------------------------------------------

  /**
   Deliveries of whole seconds with a status and a total. Behind the write they may raise: a
   product may not convert, or the workflow not be signalled.
   */
  predicate Regular(d: Webhook) {
    d.fetched.Some? && d.fetched.value.total.Some? && d.fetched.value.status != ""
    && d.fetched.value.modified.Utc? && WholeSecond(d.fetched.value.modified)
  }

  function MomentOf(d: Webhook): Instant
    requires Regular(d)
  {
    d.fetched.value.modified.moment
  }

  /** A repeated id is a redelivery of the same event, whether or not it finishes, and snapshots of one moment agree. */
  predicate Coherent(ds: seq<Webhook>) {
    (forall i :: 0 <= i < |ds| ==> Regular(ds[i]))
    && (forall i, j :: 0 <= i < |ds| && 0 <= j < |ds| && Key(ds[i]) == Key(ds[j]) ==>
          ds[i].external == ds[j].external && MomentOf(ds[i]) == MomentOf(ds[j]))
    && (forall i, j :: 0 <= i < |ds| && 0 <= j < |ds| && ds[i].external == ds[j].external && MomentOf(ds[i]) == MomentOf(ds[j]) ==>
          ds[i].fetched.value.status == ds[j].fetched.value.status && ds[i].fetched.value.payment == ds[j].fetched.value.payment)
  }

  /** An order that shows the snapshot of a delivery. */
  predicate Shows(o: Order, d: Webhook)
    requires Regular(d)
  {
    o.updated == Some(MomentOf(d)) && o.status == d.fetched.value.status && o.payment == d.fetched.value.payment
  }

  /** The order shows the latest of the deliveries for its external id. */
  predicate ShowsLatest(s: Shop, ds: seq<Webhook>, external: string)
    requires forall i :: 0 <= i < |ds| ==> Regular(ds[i])
  {
    ((exists i :: 0 <= i < |ds| && ds[i].external == external) ==> OrderOf(s, external).Some?)
    && (OrderOf(s, external).Some? ==>
          (exists i :: 0 <= i < |ds| && ds[i].external == external && Shows(OrderOf(s, external).value, ds[i]))
          && forall i :: 0 <= i < |ds| && ds[i].external == external ==> NotAfter(Some(MomentOf(ds[i])), OrderOf(s, external).value.updated))
  }

  predicate Remembered(s: Shop, ds: seq<Webhook>) {
    forall k <- s.done :: exists i :: 0 <= i < |ds| && Key(ds[i]) == k
  }

  lemma LatestStays(s: Shop, t: Shop, ds: seq<Webhook>, d: Webhook, external: string)
    requires (forall i :: 0 <= i < |ds| ==> Regular(ds[i])) && Regular(d)
    requires ShowsLatest(s, ds, external) && OrderOf(t, external) == OrderOf(s, external)
    requires d.external == external ==> OrderOf(s, external).Some? && NotAfter(Some(MomentOf(d)), OrderOf(s, external).value.updated)
    ensures ShowsLatest(t, ds + [d], external)
  {
    hide Regular, Shows, NotAfter, OrderOf;
    var all := ds + [d];
    if OrderOf(s, external).Some? {
      var i :| 0 <= i < |ds| && ds[i].external == external && Shows(OrderOf(s, external).value, ds[i]);
      assert all[i] == ds[i];
    }
    forall i | 0 <= i < |all| && all[i].external == external
      ensures OrderOf(s, external).Some? && NotAfter(Some(MomentOf(all[i])), OrderOf(s, external).value.updated)
    {
      if i < |ds| {
        assert ds[i].external == external;
      }
    }
  }

  lemma LatestIsNew(s: Shop, t: Shop, ds: seq<Webhook>, d: Webhook)
    requires (forall i :: 0 <= i < |ds| ==> Regular(ds[i])) && Regular(d)
    requires ShowsLatest(s, ds, d.external)
    requires OrderOf(t, d.external).Some? && Shows(OrderOf(t, d.external).value, d)
    requires OrderOf(s, d.external).Some? ==> NotAfter(OrderOf(s, d.external).value.updated, Some(MomentOf(d)))
    ensures ShowsLatest(t, ds + [d], d.external)
  {
    hide Regular, OrderOf, Before;
    var all := ds + [d];
    assert all[|ds|] == d;
    forall i | 0 <= i < |all| && all[i].external == d.external
      ensures NotAfter(Some(MomentOf(all[i])), Some(MomentOf(d)))
    {
      if i < |ds| {
        assert ds[i].external == d.external;
        NotAfterTwice(Some(MomentOf(ds[i])), OrderOf(s, d.external).value.updated, Some(MomentOf(d)));
      } else {
        NotAfterSelf(Some(MomentOf(d)));
      }
    }
  }

  lemma LatestStep(s: Shop, ds: seq<Webhook>, d: Webhook, external: string)
    requires Valid(s) && Coherent(ds + [d]) && (forall i :: 0 <= i < |ds| ==> Regular(ds[i])) && Regular(d)
    requires ShowsLatest(s, ds, external) && Remembered(s, ds)
    requires StoredWhole(OrderOf(s, external))
    ensures ShowsLatest(Ingest(s, d).0, ds + [d], external)
  {
    hide Ingest, Stale, NotAfter, Second, Valid, StoredWhole, Coherent, ShowsLatest, Takes, Regular;
    var t := Ingest(s, d).0;
    IngestEffect(s, d, external);
    if external != d.external {
      LatestStays(s, t, ds, d, external);
    } else if Takes(s, d) {
      TakenIsLatest(s, d);
      LatestIsNew(s, t, ds, d);
    } else {
      NotTakenIsOld(s, ds, d);
      LatestStays(s, t, ds, d, external);
    }
  }

  lemma TakenIsLatest(s: Shop, d: Webhook)
    requires Valid(s) && Regular(d) && Takes(s, d) && StoredWhole(OrderOf(s, d.external))
    ensures OrderOf(Ingest(s, d).0, d.external).Some? && Shows(OrderOf(Ingest(s, d).0, d.external).value, d)
    ensures OrderOf(s, d.external).Some? ==> NotAfter(OrderOf(s, d.external).value.updated, Some(MomentOf(d)))
  {
    hide Ingest, Stale, Second, Valid;
    IngestEffect(s, d, d.external);
    var m := d.fetched.value.modified;
    if TimeOf(s, d.external).Some? {
      WholeSecondsCompare(m.moment, m.zulu, TimeOf(s, d.external).value);
    }
  }

  lemma NotTakenIsOld(s: Shop, ds: seq<Webhook>, d: Webhook)
    requires Coherent(ds + [d]) && (forall i :: 0 <= i < |ds| ==> Regular(ds[i])) && Regular(d)
    requires !Takes(s, d) && ShowsLatest(s, ds, d.external) && Remembered(s, ds) && StoredWhole(OrderOf(s, d.external))
    ensures OrderOf(s, d.external).Some? && NotAfter(Some(MomentOf(d)), OrderOf(s, d.external).value.updated)
  {
    hide Stale, Second, Key;
    if Key(d) in s.done {
      var i :| 0 <= i < |ds| && Key(ds[i]) == Key(d);
      assert (ds + [d])[i] == ds[i] && (ds + [d])[|ds|] == d;
      assert ds[i].external == d.external && MomentOf(ds[i]) == MomentOf(d);
    } else {
      var m, b := d.fetched.value.modified, OrderOf(s, d.external).value.updated;
      if b.Some? {
        WholeSecondsCompare(m.moment, m.zulu, b.value);
        BeforeIsTotal(m.moment, b.value);
      }
    }
  }

  /** Only the delivery's own key is newly remembered, if any. */
  lemma DoneGrows(s: Shop, d: Webhook)
    ensures Ingest(s, d).0.done.Keys <= s.done.Keys + {Key(d)}
  {
    hide Upsert;
    UpsertKeepsDone(s, d);
  }

  lemma RememberedStep(s: Shop, ds: seq<Webhook>, d: Webhook)
    requires Remembered(s, ds)
    ensures Remembered(Ingest(s, d).0, ds + [d])
  {
    hide Ingest, Key;
    DoneGrows(s, d);
    var all := ds + [d];
    forall k | k in Ingest(s, d).0.done
      ensures exists i :: 0 <= i < |all| && Key(all[i]) == k
    {
      if k in s.done {
        var i :| 0 <= i < |ds| && Key(ds[i]) == k;
        assert Key(all[i]) == k;
      } else {
        assert Key(all[|ds|]) == k;
      }
    }
  }

  lemma CoherentPrefix(ds: seq<Webhook>, n: nat)
    requires Coherent(ds) && n <= |ds|
    ensures Coherent(ds[..n])
  {
    hide Regular, Key;
  }

  /** After any run of coherent deliveries every order shows the latest snapshot delivered for it. */
  lemma {:induction false} LatestWins(ds: seq<Webhook>, external: string)
    requires Coherent(ds)
    ensures ShowsLatest(Run(EMPTY, ds), ds, external)
    ensures Remembered(Run(EMPTY, ds), ds)
  {
    if ds != [] {
      hide Ingest, Valid, Shows, Regular, ShowsLatest, Remembered, StoredWhole, WholeSeconds;
      var init, d := ds[..|ds| - 1], ds[|ds| - 1];
      assert ds == init + [d];
      CoherentPrefix(ds, |ds| - 1);
      LatestWins(init, external);
      EmptyIsValid();
      RunKeeps(EMPTY, init);
      RegularIsWhole(init);
      TimeNeverGoesBack(EMPTY, init, external);
      LatestStep(Run(EMPTY, init), init, d, external);
      RememberedStep(Run(EMPTY, init), init, d);
    }
  }

  lemma EmptyIsValid()
    ensures Valid(EMPTY) && forall external :: StoredWhole(OrderOf(EMPTY, external))
  {
  }

  lemma RegularIsWhole(ds: seq<Webhook>)
    requires forall i :: 0 <= i < |ds| ==> Regular(ds[i])
    ensures WholeSeconds(ds)
  {
  }

  /** Two orders that each show the latest of the same deliveries show the same. */
  lemma SameLatest(ds: seq<Webhook>, i: nat, j: nat, o: Order, p: Order)
    requires Coherent(ds) && i < |ds| && j < |ds| && ds[i].external == ds[j].external
    requires Shows(o, ds[i]) && Shows(p, ds[j])
    requires NotAfter(Some(MomentOf(ds[j])), o.updated) && NotAfter(Some(MomentOf(ds[i])), p.updated)
    ensures o.updated == p.updated && o.status == p.status && o.payment == p.payment
  {
    hide Regular, Key, Before;
    BeforeIsTotal(MomentOf(ds[i]), MomentOf(ds[j]));
  }

  predicate SameMembers(ds: seq<Webhook>, es: seq<Webhook>) {
    (forall i :: 0 <= i < |ds| ==> ds[i] in es) && (forall i :: 0 <= i < |es| ==> es[i] in ds)
  }

  lemma CoherentMembers(ds: seq<Webhook>, es: seq<Webhook>)
    requires Coherent(ds) && SameMembers(ds, es)
    ensures Coherent(es)
  {
    hide Key, WholeSecond;
    forall i, j | 0 <= i < |es| && 0 <= j < |es|
      ensures Regular(es[i]) && Regular(es[j])
      ensures Key(es[i]) == Key(es[j]) ==> es[i].external == es[j].external && MomentOf(es[i]) == MomentOf(es[j])
      ensures es[i].external == es[j].external && MomentOf(es[i]) == MomentOf(es[j]) ==>
                es[i].fetched.value.status == es[j].fetched.value.status && es[i].fetched.value.payment == es[j].fetched.value.payment
    {
      var k :| 0 <= k < |ds| && ds[k] == es[i];
      var l :| 0 <= l < |ds| && ds[l] == es[j];
    }
  }

  /** The same deliveries, as often and in whatever order, make the same orders exist. */
  lemma ExistsAlike(ds: seq<Webhook>, es: seq<Webhook>, s: Shop, t: Shop, external: string)
    requires Coherent(ds) && Coherent(es) && SameMembers(ds, es)
    requires ShowsLatest(s, ds, external) && ShowsLatest(t, es, external)
    requires OrderOf(s, external).Some?
    ensures OrderOf(t, external).Some?
    ensures var o, p := OrderOf(s, external).value, OrderOf(t, external).value;
            o.updated == p.updated && o.status == p.status && o.payment == p.payment
  {
    hide Regular, OrderOf, Key, Shows, NotAfter;
    var o := OrderOf(s, external).value;
    var i :| 0 <= i < |ds| && ds[i].external == external && Shows(o, ds[i]);
    var k :| 0 <= k < |es| && es[k] == ds[i];
    var p := OrderOf(t, external).value;
    var l :| 0 <= l < |es| && es[l].external == external && Shows(p, es[l]);
    var j :| 0 <= j < |ds| && ds[j] == es[l];
    SameLatest(ds, i, j, o, p);
  }

  /**
   Order and repetition of deliveries do not matter: two runs of the same deliveries leave
   every order with the same status, payment status and modification time.
   */
  lemma OrderOfDeliveriesIsIrrelevant(ds: seq<Webhook>, es: seq<Webhook>, external: string)
    requires Coherent(ds) && SameMembers(ds, es)
    ensures var a, b := OrderOf(Run(EMPTY, ds), external), OrderOf(Run(EMPTY, es), external);
            (a.Some? <==> b.Some?)
            && (a.Some? ==> a.value.updated == b.value.updated && a.value.status == b.value.status && a.value.payment == b.value.payment)
  {
    hide Run, OrderOf, Coherent, ShowsLatest;
    CoherentMembers(ds, es);
    LatestWins(ds, external);
    LatestWins(es, external);
    if OrderOf(Run(EMPTY, ds), external).Some? {
      ExistsAlike(ds, es, Run(EMPTY, ds), Run(EMPTY, es), external);
    } else if OrderOf(Run(EMPTY, es), external).Some? {
      ExistsAlike(es, ds, Run(EMPTY, es), Run(EMPTY, ds), external);
      assert false;
    }
  }

  /**
   Two new snapshots of one moment: spelled with Z the later delivery decides, spelled with
   +00:00 the earlier one. Snapshots of one moment have to agree for the order of deliveries
   not to matter.
   */
  lemma TieIsDecidedBySpelling(d: Webhook, e: Webhook)
    requires Regular(d) && Regular(e) && Key(d) != Key(e) && d.external == e.external
    requires d.fetched.value.modified == e.fetched.value.modified
    ensures var o := OrderOf(Run(EMPTY, [d, e]), d.external);
            o.Some? && o.value.status == (if d.fetched.value.modified.zulu then e else d).fetched.value.status
  {
    hide Ingest, Stale, Second, Valid;
    EmptyIsValid();
    var s1 := Ingest(EMPTY, d).0;
    assert [d, e][..1] == [d] && [d][..0] == [];
    assert Run(EMPTY, [d]) == s1;
    IngestEffect(EMPTY, d, d.external);
    IngestKeeps(EMPTY, d);
    DoneGrows(EMPTY, d);
    var m := d.fetched.value.modified;
    WholeSecondsCompare(m.moment, m.zulu, m.moment);
    BeforeIsTotal(m.moment, m.moment);
    IngestEffect(s1, e, d.external);
  }

  // ----- Where the order of deliveries matters -----------------------------------------

  lemma RunOfTwo(d: Webhook, e: Webhook)
    ensures Run(EMPTY, [d, e]) == Ingest(Ingest(EMPTY, d).0, e).0
  {
    hide Ingest;
    assert [d, e][..1] == [d] && [d][..0] == [];
    assert Run(EMPTY, [d]) == Ingest(EMPTY, d).0;
  }

  /** Two whole seconds, one before the other, for one order under two keys. */
  predicate Successive(d: Webhook, e: Webhook) {
    d.external == e.external && Key(d) != Key(e) && d.fetched.Some? && e.fetched.Some?
    && d.fetched.value.modified.Utc? && e.fetched.value.modified.Utc?
    && WholeSecond(d.fetched.value.modified) && WholeSecond(e.fetched.value.modified)
    && Before(d.fetched.value.modified.moment, e.fetched.value.modified.moment)
  }

  /**
   A snapshot without a status: behind an earlier one it keeps that one's status, before it
   the order is PENDING for good. So the order of the two matters exactly when the earlier
   status is another one.
   */
  lemma MissingStatusDependsOnOrder(d: Webhook, e: Webhook)
    requires Successive(d, e) && d.fetched.value.total.Some? && e.fetched.value.total.Some?
    requires d.fetched.value.status != "" && e.fetched.value.status == ""
    ensures var a, b := OrderOf(Run(EMPTY, [d, e]), d.external), OrderOf(Run(EMPTY, [e, d]), d.external);
            a.Some? && b.Some? && a.value.updated == b.value.updated
            && a.value.status == d.fetched.value.status && b.value.status == "PENDING"
  {
    hide Ingest, Stale, Second, Valid;
    EmptyIsValid();
    RunOfTwo(d, e);
    RunOfTwo(e, d);
    var m, n := d.fetched.value.modified, e.fetched.value.modified;
    WholeSecondsCompare(n.moment, n.zulu, m.moment);
    WholeSecondsCompare(m.moment, m.zulu, n.moment);
    BeforeIsTotal(m.moment, n.moment);
    AfterOne(d);
    AfterOne(e);
    IngestEffect(Ingest(EMPTY, d).0, e, d.external);
    IngestEffect(Ingest(EMPTY, e).0, d, d.external);
  }

  /** The first delivery of an empty shop. */
  lemma AfterOne(d: Webhook)
    requires d.fetched.Some? && d.fetched.value.modified.Utc?
    ensures var t, x := Ingest(EMPTY, d).0, d.fetched.value;
            Valid(t) && t.done.Keys <= {Key(d)}
            && (x.total.None? ==> OrderOf(t, d.external).None?)
            && (x.total.Some? ==> OrderOf(t, d.external).Some?
                                  && OrderOf(t, d.external).value.updated == Some(x.modified.moment)
                                  && OrderOf(t, d.external).value.status == OrElse(x.status, "PENDING"))
  {
    hide Ingest, Stale;
    EmptyIsValid();
    IngestKeeps(EMPTY, d);
    DoneGrows(EMPTY, d);
    IngestEffect(EMPTY, d, d.external);
  }

  /** A new order whose total cannot be converted raises before the write, an order that exists does not need the total: here too the order of deliveries matters. */
  lemma MissingTotalDependsOnOrder(d: Webhook, e: Webhook)
    requires Successive(d, e) && d.fetched.value.total.Some? && e.fetched.value.total.None?
    requires d.fetched.value.status != "" && e.fetched.value.status != ""
    ensures var a, b := OrderOf(Run(EMPTY, [d, e]), d.external), OrderOf(Run(EMPTY, [e, d]), d.external);
            a.Some? && b.Some? && a.value.status == e.fetched.value.status && b.value.status == d.fetched.value.status
  {
    hide Ingest, Stale, Second, Valid;
    EmptyIsValid();
    RunOfTwo(d, e);
    RunOfTwo(e, d);
    var m, n := d.fetched.value.modified, e.fetched.value.modified;
    WholeSecondsCompare(n.moment, n.zulu, m.moment);
    BeforeIsTotal(m.moment, n.moment);
    AfterOne(d);
    AfterOne(e);
    IngestEffect(Ingest(EMPTY, d).0, e, d.external);
    IngestEffect(Ingest(EMPTY, e).0, d, d.external);
  }

  // ----- Inputs that meet the conditions -----------------------------------------------

  function Sample(id: string, modified: Stamp, products: seq<Item>, signalled: bool): Webhook
    requires ValidStamp(modified)
  {
    Delivery("store/order/updated", id, "100", None, "raw", Some(Snapshot("100", "", "Shipped", None, None, modified, Some(500), "", products)), signalled)
  }

  const HALF: Instant := Moment(2024, 5, 1, 12, 0, 0, 500000)
  const WHOLE: Instant := Moment(2024, 5, 1, 12, 0, 0, 0)
  const CAP := Item(None, "cap", 1, 500)

  lemma SampleIs(id: string, modified: Stamp, products: seq<Item>, signalled: bool)
    requires ValidStamp(modified)
    ensures var d := Sample(id, modified, products, signalled);
            d.external == "100" && Key(d) == ("store/order/updated", id) && d.signalled == signalled && d.fetched.Some?
            && d.fetched.value.modified == modified && d.fetched.value.products == products && d.fetched.value.total == Some(500)
  {
  }

  lemma HalfIsValid()
    ensures ValidStamp(Utc(HALF, 6, true)) && ValidStamp(Utc(WHOLE, 0, true)) && ValidStamp(Utc(WHOLE, 0, false))
    ensures Cut(WHOLE, 0) == Cut(HALF, 0) && SameSecond(WHOLE, HALF) && Before(WHOLE, HALF)
  {
    Million();
    assert Cut(HALF, 6) == HALF.micros;
  }

  /** The time does go back: half a second past noon, then noon spelled with Z. */
  lemma TimeDoesGoBack()
    ensures ValidStamp(Utc(HALF, 6, true)) && ValidStamp(Utc(WHOLE, 0, true))
    ensures var d, e := Sample("a", Utc(HALF, 6, true), [], true), Sample("b", Utc(WHOLE, 0, true), [], true);
            TimeOf(Run(EMPTY, [d]), "100") == Some(HALF) && TimeOf(Run(EMPTY, [d, e]), "100") == Some(WHOLE) && Before(WHOLE, HALF)
  {
    hide Ingest, Stale, Valid, Sample, Second, Cut, Before, ValidMoment, HALF, WHOLE, OrderLines, LinesOf;
    HalfIsValid();
    SampleIs("a", Utc(HALF, 6, true), [], true);
    SampleIs("b", Utc(WHOLE, 0, true), [], true);
    var d, e := Sample("a", Utc(HALF, 6, true), [], true), Sample("b", Utc(WHOLE, 0, true), [], true);
    RunOfTwo(d, e);
    assert [d][..0] == [] && Run(EMPTY, [d]) == Ingest(EMPTY, d).0;
    AfterOne(d);
    assert "a"[0] != "b"[0];
    StaleExactly(WHOLE, 0, true, HALF);
    BeforeIsTotal(WHOLE, HALF);
    IngestEffect(Ingest(EMPTY, d).0, e, "100");
  }

  lemma GoodOfTwo()
    ensures GoodItems([CAP, Malformed]) == 1 && GoodItems([CAP, CAP]) == 2
  {
    assert [CAP, Malformed][1..] == [Malformed] && GoodItems([Malformed]) == 0;
    assert [CAP, CAP][1..] == [CAP] && [CAP][1..] == [] && GoodItems([]) == 0 && GoodItems([CAP]) == 1;
  }

  /** One good product before one that does not convert: the retry leaves one line of two with +00:00, and three with Z. */
  lemma RetryDoesGoWrong(zulu: bool)
    ensures ValidStamp(Utc(WHOLE, 0, zulu))
    ensures var d, d2 := Sample("a", Utc(WHOLE, 0, zulu), [CAP, Malformed], true), Sample("a", Utc(WHOLE, 0, zulu), [CAP, CAP], true);
            |OrderLines(Run(EMPTY, [d, d2]), "100")| == if zulu then 3 else 1
  {
    hide Ingest, Stale, Valid, Sample, Second, WHOLE, CAP, GoodItems, OrderLines;
    HalfIsValid();
    GoodOfTwo();
    SampleIs("a", Utc(WHOLE, 0, zulu), [CAP, Malformed], true);
    SampleIs("a", Utc(WHOLE, 0, zulu), [CAP, CAP], true);
    var d, d2 := Sample("a", Utc(WHOLE, 0, zulu), [CAP, Malformed], true), Sample("a", Utc(WHOLE, 0, zulu), [CAP, CAP], true);
    RunOfTwo(d, d2);
    EmptyIsValid();
    EmptyTakes(d);
    assert OrderLines(EMPTY, "100") == [] by { EmptyHasNoLines("100"); }
    assert NewAgain(d.fetched.value.modified) == zulu;
    RetryAfterFailure(EMPTY, d, d2);
  }

  lemma EmptyTakes(d: Webhook)
    requires d.fetched.Some? && d.fetched.value.total.Some?
    ensures Takes(EMPTY, d)
  {
  }

  lemma EmptyHasNoLines(external: string)
    ensures OrderLines(EMPTY, external) == []
  {
  }
}
