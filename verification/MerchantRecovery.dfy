/**
 One `run_once` for a merchant: orders, then refunds, then stuck workflows, and why the
 three do not disturb one another.
 */
module MerchantRecovery {
  import opened Common
  import opened Exceptions
  import R = Recovery
  import V = RecoveryView
  import F = RefundRecovery
  import G = RefundGuarantees
  import Q = RecoveryGuarantees
  import W = StaleWorkflows

  datatype Merchant = Merchant(orders: R.World, refunds: seq<F.Refund>, provider: seq<F.ProviderRefund>,
                               refundClaims: map<F.Key, F.RefundClaim>, workflows: seq<W.Workflow>)

  /** What the outside does during a run: what the connectors answer for each order and each refund, and the cutoff. */
  datatype Surroundings = Surroundings(orderAnswers: string -> Answers, refundAnswers: int -> Answers, cutoff: int)

  function BooksOf(m: Merchant): F.Books {
    F.Books(m.refunds, m.orders.log, m.provider, m.refundClaims)
  }

  function WithBooks(m: Merchant, b: F.Books): Merchant {
    m.(refunds := b.refunds, provider := b.provider, refundClaims := b.claims, orders := m.orders.(log := b.log))
  }

  datatype RunResult = RunResult(merchant: Merchant, counters: Counters, raised: bool)

  /** `payments` is whether a payment connector is wired up; an exception in one part skips the parts after it. */
  function RunOnce(c: R.Config, payments: bool, m: Merchant, s: Surroundings): RunResult {
    var p := R.PoPass(c, m.orders, s.orderAnswers);
    var m1 := m.(orders := p.world);
    if p.raised then RunResult(m1, p.counters, true)
    else
      var f := F.RefundPass(c.maxAttempts, payments, BooksOf(m1), s.refundAnswers);
      var m2 := WithBooks(m1, f.books);
      if f.raised then RunResult(m2, p.counters.Plus(f.counters), true)
      else
        var flagged := W.FlagStale(m2.orders.log, m2.workflows, s.cutoff);
        RunResult(m2.(orders := m2.orders.(log := flagged)),
                  p.counters.Plus(f.counters).Plus(Counters(0, 0, 0, 0, 0, |flagged| - |m2.orders.log|)),
                  false)
  }

  // ----- Records of one category -------------------------------------------------------

  /** `after` extends `before`, and a record of category `cat` is neither changed, made nor unmade. */
  ghost predicate Keeps(cat: Category, before: seq<Record>, after: seq<Record>) {
    && |before| <= |after|
    && (forall i :: 0 <= i < |before| && before[i].category == cat ==> after[i] == before[i])
    && (forall i :: 0 <= i < |before| && before[i].category != cat ==> after[i].category != cat)
    && (forall i :: |before| <= i < |after| ==> after[i].category != cat)
  }

  lemma KeepsThen(cat: Category, a: seq<Record>, b: seq<Record>, c: seq<Record>)
    requires Keeps(cat, a, b) && Keeps(cat, b, c)
    ensures Keeps(cat, a, c)
  {
  }

  lemma {:induction false} KeepsOrders(before: seq<Record>, after: seq<Record>, id: string)
    requires Keeps(PoSubmissionUncertain, before, after)
    ensures V.SameFor(after, before, id)
    decreases |after|
  {
    if |after| > |before| {
      KeepsOrders(before, after[..|after| - 1], id);
    } else if after != [] {
      KeepsOrders(before[..|before| - 1], after[..|after| - 1], id);
    }
  }

  lemma {:induction false} KeepsDoubts(before: seq<Record>, after: seq<Record>, id: string)
    requires Keeps(ExternalMutationUncertain, before, after)
    ensures G.AgreeOn(after, before, id)
    decreases |after|
  {
    if |after| > |before| {
      KeepsDoubts(before, after[..|after| - 1], id);
    } else if after != [] {
      KeepsDoubts(before[..|before| - 1], after[..|after| - 1], id);
    }
  }

  // ----- Each part keeps the others' records -------------------------------------------

  lemma {:induction false} OrdersKeepDoubts(c: R.Config, w: R.World, ids: seq<string>, answers: string -> Answers)
    ensures Keeps(ExternalMutationUncertain, w.log, R.PassOver(c, w, ids, answers).world.log)
    decreases |ids|
  {
    if ids != [] {
      var h := R.HandlePo(c, w, ids[0], answers(ids[0]));
      if V.NeedsRetry(c, w, ids[0], answers(ids[0])) {
        assert h == R.Retry(c, w, ids[0], answers(ids[0]));
        V.RetryLogIs(c, w, ids[0], answers(ids[0]));
      }
      assert Keeps(ExternalMutationUncertain, w.log, h.world.log);
      if !h.verdict.Raises() {
        OrdersKeepDoubts(c, h.world, ids[1..], answers);
        KeepsThen(ExternalMutationUncertain, w.log, h.world.log, R.PassOver(c, w, ids, answers).world.log);
      }
    }
  }

  lemma {:induction false} RefundsKeepOrders(maxAttempts: int, payments: bool, b: F.Books, todo: seq<int>, answers: int -> Answers)
    requires forall i :: i in todo ==> 0 <= i < |b.refunds| && b.refunds[i].status == F.MutationUncertain
    requires forall j, k :: 0 <= j < k < |todo| ==> todo[j] < todo[k]
    ensures Keeps(PoSubmissionUncertain, b.log, F.RefundsOver(maxAttempts, payments, b, todo, answers).books.log)
    decreases |todo|
  {
    if todo != [] {
      var head, tail := todo[0], todo[1..];
      assert head in todo && forall k :: k in tail ==> k in todo && k > head;
      var h := F.HandleRefund(maxAttempts, payments, b, head, answers(head));
      OneRefundKeepsOrders(maxAttempts, payments, b, head, answers(head));
      if !h.raised {
        RefundsKeepOrders(maxAttempts, payments, h.books, tail, answers);
        KeepsThen(PoSubmissionUncertain, b.log, h.books.log, F.RefundsOver(maxAttempts, payments, b, todo, answers).books.log);
      }
    }
  }

  lemma OneRefundKeepsOrders(maxAttempts: int, payments: bool, b: F.Books, i: nat, w: Answers)
    requires i < |b.refunds| && b.refunds[i].status == F.MutationUncertain
    ensures var h := F.HandleRefund(maxAttempts, payments, b, i, w);
            && Keeps(PoSubmissionUncertain, b.log, h.books.log)
            && (forall k :: 0 <= k < |b.refunds| && k != i ==> h.books.refunds[k] == b.refunds[k])
  {
    hide F.FirstOpen, F.FindRefund, F.Doubts, F.Execute;
    if payments {
      G.InertRetry(b, i, w);
    } else {
      G.Unconnected(b, i, F.DEFAULT_REASON, w);
    }
  }

  // ----- The run as a whole ------------------------------------------------------------

  lemma LogTellsView(w: R.World, log: seq<Record>, id: string)
    requires V.SameFor(log, w.log, id)
    ensures V.Of(w.(log := log), id) == V.Of(w, id)
  {
  }

  /** The refund and stale stages leave the records of purchase orders alone. */
  lemma LaterStagesKeepOrders(maxAttempts: int, payments: bool, b: F.Books, workflows: seq<W.Workflow>, s: Surroundings)
    ensures var f := F.RefundPass(maxAttempts, payments, b, s.refundAnswers);
            Keeps(PoSubmissionUncertain, b.log, f.books.log)
            && Keeps(PoSubmissionUncertain, f.books.log, W.FlagStale(f.books.log, workflows, s.cutoff))
  {
    hide F.RefundsOver, F.Doubts, Keeps, W.FlagStale;
    RefundsKeepOrders(maxAttempts, payments, b, F.InDoubt(b.refunds), s.refundAnswers);
    FlagsKeepOrders(F.RefundPass(maxAttempts, payments, b, s.refundAnswers).books.log, workflows, s.cutoff);
  }

  lemma FlagsKeepOrders(log: seq<Record>, workflows: seq<W.Workflow>, cutoff: int)
    ensures Keeps(PoSubmissionUncertain, log, W.FlagStale(log, workflows, cutoff))
  {
    hide W.OpenFlags;
    W.FlagsExactly(log, workflows, cutoff, "");
  }

  /** For a purchase order, a whole run is the pass over purchase orders and nothing more. */
  lemma RunOnceForOrders(c: R.Config, payments: bool, m: Merchant, s: Surroundings, id: string)
    ensures var r := RunOnce(c, payments, m, s);
            && V.Of(r.merchant.orders, id) == V.Of(R.PoPass(c, m.orders, s.orderAnswers).world, id)
            && (!r.raised ==> V.Of(r.merchant.orders, id) == V.ViewStep(c, V.Of(m.orders, id), id, s.orderAnswers(id)))
  {
    hide R.PoPass, F.RefundPass, W.FlagStale, V.Of, V.ViewStep, V.HandleStep, V.SameFor, Keeps;
    V.PassView(c, m.orders, s.orderAnswers, id);
    var p := R.PoPass(c, m.orders, s.orderAnswers);
    if !p.raised {
      var b := BooksOf(m.(orders := p.world));
      var f := F.RefundPass(c.maxAttempts, payments, b, s.refundAnswers);
      var flagged := W.FlagStale(f.books.log, m.workflows, s.cutoff);
      LaterStagesKeepOrders(c.maxAttempts, payments, b, m.workflows, s);
      KeepsOrders(b.log, f.books.log, id);
      LogTellsView(p.world, f.books.log, id);
      KeepsOrders(f.books.log, flagged, id);
      LogTellsView(p.world.(log := f.books.log), flagged, id);
    }
  }

  /** The doubts of refunds before and after the order stage. */
  lemma OrdersKeepBooks(c: R.Config, m: Merchant, answers: string -> Answers, id: string)
    ensures F.Doubts(R.PoPass(c, m.orders, answers).world.log, id) == F.Doubts(m.orders.log, id)
  {
    hide R.PassOver, F.Doubts, F.OpenDoubts;
    OrdersKeepDoubts(c, m.orders, R.OpenIds(m.orders.log), answers);
    KeepsDoubts(m.orders.log, R.PoPass(c, m.orders, answers).world.log, id);
  }

  lemma FlagsKeepDoubts(log: seq<Record>, workflows: seq<W.Workflow>, cutoff: int, id: string)
    ensures F.Doubts(W.FlagStale(log, workflows, cutoff), id) == F.Doubts(log, id)
  {
    hide W.OpenFlags, F.Doubts, F.OpenDoubts;
    W.FlagsExactly(log, workflows, cutoff, "");
    KeepsDoubts(log, W.FlagStale(log, workflows, cutoff), id);
  }

  lemma StoppedAlike(c: R.Config, payments: bool, m: Merchant, m1: Merchant, answers: int -> Answers, i: int)
    requires m1.refunds == m.refunds && forall id :: F.Doubts(m1.orders.log, id) == F.Doubts(m.orders.log, id)
    ensures G.Stopped(c.maxAttempts, payments, BooksOf(m1), answers, i) <==> G.Stopped(c.maxAttempts, payments, BooksOf(m), answers, i)
  {
    hide F.Doubts;
    forall j | 0 <= j < |m.refunds|
      ensures G.Fails(c.maxAttempts, payments, BooksOf(m1), j, answers(j)) <==> G.Fails(c.maxAttempts, payments, BooksOf(m), j, answers(j))
    {
    }
  }

  /**
   For a refund, a whole run is the refund pass from the state before it, with or without a
   payment connector; a raise in the order stage, or for a refund before it, skips it. The run
   raises exactly when the order stage does or some refund fails.
   */
  lemma RunOnceForRefunds(c: R.Config, payments: bool, m: Merchant, s: Surroundings, i: nat)
    requires F.DistinctIds(m.refunds) && i < |m.refunds|
    ensures var r := RunOnce(c, payments, m, s);
            var skipped := R.PoPass(c, m.orders, s.orderAnswers).raised || G.Stopped(c.maxAttempts, payments, BooksOf(m), s.refundAnswers, i);
            && |r.merchant.refunds| == |m.refunds| && r.merchant.provider == m.provider
            && F.Doubts(r.merchant.orders.log, m.refunds[i].id) == F.Doubts(m.orders.log, m.refunds[i].id)
            && r.merchant.refunds[i] == (if skipped then m.refunds[i] else G.Outcome(c.maxAttempts, BooksOf(m), i))
            && (r.raised <==> R.PoPass(c, m.orders, s.orderAnswers).raised
                              || G.Stopped(c.maxAttempts, payments, BooksOf(m), s.refundAnswers, |m.refunds|))
  {
    hide R.PoPass, F.RefundPass, F.Doubts, F.OpenDoubts, G.Stopped, W.FlagStale, F.FindRefund;
    var p := R.PoPass(c, m.orders, s.orderAnswers);
    forall id ensures F.Doubts(p.world.log, id) == F.Doubts(m.orders.log, id) {
      OrdersKeepBooks(c, m, s.orderAnswers, id);
    }
    if !p.raised {
      var m1 := m.(orders := p.world);
      var b := BooksOf(m1);
      StoppedAlike(c, payments, m, m1, s.refundAnswers, i);
      StoppedAlike(c, payments, m, m1, s.refundAnswers, |m.refunds|);
      G.RefundPassExact(c.maxAttempts, payments, b, s.refundAnswers, i);
      FlagsKeepDoubts(F.RefundPass(c.maxAttempts, payments, b, s.refundAnswers).books.log, m.workflows, s.cutoff, m.refunds[i].id);
    }
  }

  // ----- Runs behind a stuck order -----------------------------------------------------

  /** The merchant after some runs. */
  function Runs(c: R.Config, payments: bool, m: Merchant, runs: seq<Surroundings>): Merchant
    decreases |runs|
  {
    if runs == [] then m else Runs(c, payments, RunOnce(c, payments, m, runs[0]).merchant, runs[1..])
  }

  function OrderAnswers(runs: seq<Surroundings>): (r: seq<string -> Answers>)
    ensures |r| == |runs|
  {
    seq(|runs|, i requires 0 <= i < |runs| => runs[i].orderAnswers)
  }

  lemma {:induction false} OrdersKeepFlags(c: R.Config, w: R.World, ids: seq<string>, answers: string -> Answers)
    ensures Keeps(StaleWorkflowExecution, w.log, R.PassOver(c, w, ids, answers).world.log)
    decreases |ids|
  {
    hide R.HandlePo, Keeps;
    if ids == [] {
      KeepsSelf(StaleWorkflowExecution, w.log);
    } else {
      var h := R.HandlePo(c, w, ids[0], answers(ids[0]));
      HandlingKeepsFlags(c, w, ids[0], answers(ids[0]));
      if !h.verdict.Raises() {
        OrdersKeepFlags(c, h.world, ids[1..], answers);
        KeepsThen(StaleWorkflowExecution, w.log, h.world.log, R.PassOver(c, w, ids, answers).world.log);
      }
    }
  }

  lemma KeepsSelf(cat: Category, log: seq<Record>)
    ensures Keeps(cat, log, log)
  {
  }

  lemma HandlingKeepsFlags(c: R.Config, w: R.World, id: string, ans: Answers)
    ensures Keeps(StaleWorkflowExecution, w.log, R.HandlePo(c, w, id, ans).world.log)
  {
    if V.NeedsRetry(c, w, id, ans) {
      assert R.HandlePo(c, w, id, ans) == R.Retry(c, w, id, ans);
      V.RetryLogIs(c, w, id, ans);
    }
  }

  lemma {:induction false} KeepsFlags(before: seq<Record>, after: seq<Record>, id: string)
    requires Keeps(StaleWorkflowExecution, before, after)
    ensures W.OpenFlags(after, id) == W.OpenFlags(before, id)
    decreases |after|
  {
    if |after| > |before| {
      KeepsFlags(before, after[..|after| - 1], id);
    } else if after != [] {
      KeepsFlags(before[..|before| - 1], after[..|after| - 1], id);
    }
  }

  /**
   One stuck order stops a merchant for ever: whatever happens around the runs, each of them
   raises in the order stage, so that no refund is looked at, nothing reaches the payment
   provider, and no stale workflow is flagged any more.
   */
  lemma {:induction false} StuckOrderStopsTheMerchant(c: R.Config, payments: bool, m: Merchant, runs: seq<Surroundings>, next: Surroundings, id: string, other: string)
    requires Q.Stuck(c, V.Of(m.orders, id), id)
    ensures var after := Runs(c, payments, m, runs);
            && RunOnce(c, payments, after, next).raised
            && after.orders == Q.Passes(c, m.orders, OrderAnswers(runs))
            && after == m.(orders := after.orders)
            && F.Doubts(after.orders.log, other) == F.Doubts(m.orders.log, other)
            && W.OpenFlags(after.orders.log, other) == W.OpenFlags(m.orders.log, other)
    decreases |runs|
  {
    hide R.PoPass, F.RefundPass, W.FlagStale, V.Of, Q.Stuck, F.Doubts, W.OpenFlags, R.OpenIds;
    if runs == [] {
      Q.RaisesExactly(c, m.orders, next.orderAnswers);
    } else {
      var answers := runs[0].orderAnswers;
      var p := R.PoPass(c, m.orders, answers);
      Q.RaisesExactly(c, m.orders, answers);
      StuckAfterPass(c, m.orders, answers, id);
      OrdersKeepBooks(c, m, answers, other);
      assert R.PoPass(c, m.orders, answers) == R.PassOver(c, m.orders, R.OpenIds(m.orders.log), answers) by { PassIsOver(c, m.orders, answers); }
      OrdersKeepFlags(c, m.orders, R.OpenIds(m.orders.log), answers);
      KeepsFlags(m.orders.log, p.world.log, other);
      assert OrderAnswers(runs)[1..] == OrderAnswers(runs[1..]);
      StuckOrderStopsTheMerchant(c, payments, m.(orders := p.world), runs[1..], next, id, other);
    }
  }

  lemma PassIsOver(c: R.Config, w: R.World, answers: string -> Answers)
    ensures R.PoPass(c, w, answers) == R.PassOver(c, w, R.OpenIds(w.log), answers)
  {
  }

  lemma StuckAfterPass(c: R.Config, w: R.World, answers: string -> Answers, id: string)
    requires Q.Stuck(c, V.Of(w, id), id)
    ensures Q.Stuck(c, V.Of(R.PoPass(c, w, answers).world, id), id)
  {
    hide R.PoPass, V.Of, Q.Stuck, V.ViewStep, V.Reached;
    V.PassView(c, w, answers, id);
    Q.StuckStays(c, V.Of(w, id), id, answers(id));
  }

  // ----- What a run reports ------------------------------------------------------------

  /**
   The counters of a run: those of the order pass, and of the refund pass if the order pass did
   not raise, field by field; workflows are counted as flagged by the records the last stage adds.
   */
  lemma RunReports(c: R.Config, payments: bool, m: Merchant, s: Surroundings)
    ensures var r, p := RunOnce(c, payments, m, s), R.PoPass(c, m.orders, s.orderAnswers);
            if p.raised then r.counters == p.counters && r.raised && r.merchant == m.(orders := p.world)
            else
              var f := F.RefundPass(c.maxAttempts, payments, F.Books(m.refunds, p.world.log, m.provider, m.refundClaims), s.refundAnswers);
              var n, log := r.counters, r.merchant.orders.log;
              && r.raised == f.raised
              && n.scanned == p.counters.scanned + f.counters.scanned && n.reconciled == p.counters.reconciled + f.counters.reconciled
              && n.retried == p.counters.retried + f.counters.retried && n.leftOpen == p.counters.leftOpen + f.counters.leftOpen
              && n.escalated == p.counters.escalated + f.counters.escalated
              && n.flagged == p.counters.flagged + f.counters.flagged + (|log| - |f.books.log|)
              && log == (if f.raised then f.books.log else W.FlagStale(f.books.log, m.workflows, s.cutoff))
              && r.merchant.refunds == f.books.refunds && r.merchant.provider == f.books.provider
              && r.merchant.refundClaims == f.books.claims && r.merchant.workflows == m.workflows
              && r.merchant.orders == p.world.(log := log)
  {
    hide R.PoPass, F.RefundPass, W.FlagStale;
  }
}
