/**
 The worker of workers/reconciliation_worker.py, performing its pass in place on the
 store of one merchant.
 */
module ReconciliationWorkers {
  import opened Common
  import opened Exceptions
  import R = Recovery
  import V = RecoveryView
  import F = RefundRecovery
  import W = StaleWorkflows
  import M = MerchantRecovery

  lemma {:induction false} OpenIndicesExact(log: seq<Record>, id: string)
    ensures forall i :: i in R.OpenIndices(log, id) <==> 0 <= i < |log| && R.OpenFor(log[i], id)
  {
    if log != [] {
      OpenIndicesExact(log[..|log| - 1], id);
    }
  }

  /** The groups still to be handled are the open records of their ids. */
  ghost predicate Grouped(log: seq<Record>, order: seq<string>, groups: map<string, seq<nat>>) {
    V.Distinct(order) && forall id :: id in order ==> id in groups && groups[id] == R.OpenIndices(log, id)
  }

  /** With `so` counted and `order` still to do, the pass will end as `whole`. */
  ghost predicate Heading(c: R.Config, w: R.World, order: seq<string>, answers: string -> Answers, so: Counters, whole: R.PassResult) {
    var rest := R.PassOver(c, w, order, answers);
    whole == R.PassResult(rest.world, so.Plus(rest.counters), rest.raised)
  }

  lemma PassStarts(c: R.Config, w: R.World, order: seq<string>, answers: string -> Answers)
    ensures Heading(c, w, order, answers, ZERO, R.PassOver(c, w, order, answers))
  {
    hide R.PassOver;
    assert forall n: Counters :: ZERO.Plus(n) == n;
  }

  lemma PassEnds(c: R.Config, w: R.World, answers: string -> Answers, so: Counters, whole: R.PassResult)
    requires Heading(c, w, [], answers, so, whole)
    ensures whole == R.PassResult(w, so, false)
  {
  }

  /** One turn of the loop. */
  lemma PassTurn(c: R.Config, w: R.World, order: seq<string>, groups: map<string, seq<nat>>, answers: string -> Answers,
                 so: Counters, whole: R.PassResult)
    requires order != [] && Grouped(w.log, order, groups) && Heading(c, w, order, answers, so, whole)
    ensures var h := R.HandlePo(c, w, order[0], answers(order[0]));
            var next := so.Plus(R.Tally(h.verdict, |groups[order[0]]|));
            if h.verdict.Raises() then whole == R.PassResult(h.world, next, true)
            else Grouped(h.world.log, order[1..], groups) && Heading(c, h.world, order[1..], answers, next, whole)
  {
    hide R.HandlePo;
    var h := R.HandlePo(c, w, order[0], answers(order[0]));
    forall id | id in order[1..]
      ensures R.OpenIndices(h.world.log, id) == R.OpenIndices(w.log, id)
    {
      V.HandleOthers(c, w, order[0], answers(order[0]), id);
    }
  }

  ghost predicate RefundsHeading(maxAttempts: int, payments: bool, b: F.Books, todo: seq<int>, answers: int -> Answers,
                                 so: Counters, whole: F.RefundPassResult) {
    && (forall j :: j in todo ==> 0 <= j < |b.refunds|)
    && var rest := F.RefundsOver(maxAttempts, payments, b, todo, answers);
    whole == F.RefundPassResult(rest.books, so.Plus(rest.counters), rest.raised)
  }

  lemma RefundTurn(maxAttempts: int, payments: bool, b: F.Books, todo: seq<int>, answers: int -> Answers,
                   so: Counters, whole: F.RefundPassResult)
    requires todo != [] && RefundsHeading(maxAttempts, payments, b, todo, answers, so, whole)
    ensures 0 <= todo[0] < |b.refunds|
    ensures var h := F.HandleRefund(maxAttempts, payments, b, todo[0], answers(todo[0]));
            if h.raised then whole == F.RefundPassResult(h.books, so.Plus(h.counters), true)
            else RefundsHeading(maxAttempts, payments, h.books, todo[1..], answers, so.Plus(h.counters), whole)
  {
    hide F.HandleRefund;
    assert todo[0] in todo && forall j :: j in todo[1..] ==> j in todo;
  }

  /** The four ways a refund is handled. */
  lemma RefundCases(maxAttempts: int, payments: bool, b: F.Books, i: nat, ans: Answers)
    requires i < |b.refunds|
    ensures var h, id := F.HandleRefund(maxAttempts, payments, b, i, ans), b.refunds[i].id;
            var open, ref := F.FirstOpen(b.log, id), if payments then F.FindRefund(b.provider, F.KeyOf(b.refunds[i], "")) else None;
            if F.Doubts(b.log, id) >= maxAttempts then
              h == F.RefundHandled(F.EscalateFirst(b, id), Counters(1, 0, 0, 0, if open.Some? then 1 else 0, 0), false)
            else if payments && !ans.truth then h == F.RefundHandled(b, Counters(1, 0, 0, 0, 0, 0), true)
            else if ref.None? then h == F.RetryRefund(payments, b, i, ans)
            else
              var reconciled := F.Reconcile(b, i, ref.value);
              h == F.RefundHandled(if open.Some? then F.ResolveAt(reconciled, open.value) else reconciled, Counters(1, 1, 0, 0, 0, 0), false)
  {
    hide F.FirstOpen, F.FindRefund, F.Doubts, F.RetryRefund, F.Reconcile, F.EscalateFirst, F.ResolveAt;
  }

  class ReconciliationWorker {
    const config: R.Config
    const payments: bool
    var pos: map<string, R.Po>
    var log: seq<Record>
    var claims: map<string, R.Claim>
    var supplier: R.Supplier
    var refunds: seq<F.Refund>
    var provider: seq<F.ProviderRefund>
    var refundClaims: map<F.Key, F.RefundClaim>
    var workflows: seq<W.Workflow>

    function Orders(): R.World
      reads this
    {
      R.World(pos, log, claims, supplier)
    }

    function Books(): F.Books
      reads this
    {
      F.Books(refunds, log, provider, refundClaims)
    }

    function State(): M.Merchant
      reads this
    {
      M.Merchant(Orders(), refunds, provider, refundClaims, workflows)
    }

    constructor (config: R.Config, payments: bool, m: M.Merchant)
      ensures this.config == config && this.payments == payments && State() == m
    {
      this.config := config;
      this.payments := payments;
      pos, log, claims, supplier := m.orders.pos, m.orders.log, m.orders.claims, m.orders.supplier;
      refunds, provider, refundClaims, workflows := m.refunds, m.provider, m.refundClaims, m.workflows;
    }

    // ----- Helpers -----------------------------------------------------------------------

    method AttemptCount(id: string) returns (n: nat)
      ensures n == R.Attempts(log, id)
    {
      n := 0;
      for k := 0 to |log|
        invariant n == R.Attempts(log[..k], id)
      {
        assert log[..k + 1][..k] == log[..k];
        if R.UncertainFor(log[k], id) {
          n := n + 1;
        }
      }
      assert log[..|log|] == log;
    }

    method Resolve(i: nat)
      requires i < |log|
      modifies `log
      ensures log == old(log)[i := old(log)[i].(status := Resolved)]
    {
      log := log[i := log[i].(status := Resolved)];
    }

    method EscalateTerminal(i: nat)
      requires i < |log|
      modifies `log
      ensures log == old(log)[i := old(log)[i].(severity := Critical, remediation := ["human_review_required"])]
    {
      log := log[i := log[i].(severity := Critical, remediation := ["human_review_required"])];
    }

    /** `for exc in exceptions_for_po: self._resolve(exc)`: the records as they were grouped. */
    method ResolveGroup(group: seq<nat>, id: string, n: nat)
      requires n <= |log| && group == R.OpenIndices(log[..n], id)
      modifies `log
      ensures log == R.ResolveBefore(old(log), id, n)
    {
      OpenIndicesExact(log[..n], id);
      for j := 0 to |group|
        invariant |log| == |old(log)|
        invariant forall i :: 0 <= i < |log| ==>
                    log[i] == if i in group[..j] then old(log)[i].(status := Resolved) else old(log)[i]
      {
        assert group[j] in group;
        Resolve(group[j]);
        assert group[..j + 1] == group[..j] + [group[j]];
      }
      assert group[..|group|] == group;
    }

    method EscalateGroup(group: seq<nat>, id: string)
      requires group == R.OpenIndices(log, id)
      modifies `log
      ensures log == R.EscalateAll(old(log), id)
    {
      OpenIndicesExact(log, id);
      for j := 0 to |group|
        invariant |log| == |old(log)|
        invariant forall i :: 0 <= i < |log| ==>
                    log[i] == if i in group[..j]
                              then old(log)[i].(severity := Critical, remediation := ["human_review_required"])
                              else old(log)[i]
      {
        assert group[j] in group;
        EscalateTerminal(group[j]);
        assert group[..j + 1] == group[..j] + [group[j]];
      }
      assert group[..|group|] == group;
    }

    // ----- Purchase orders ---------------------------------------------------------------

    /** The dictionary of open records by purchase order: its keys in insertion order, and the groups. */
    method GroupOpenRecords() returns (order: seq<string>, groups: map<string, seq<nat>>)
      ensures order == R.OpenIds(log)
      ensures forall id :: id in groups <==> id in order
      ensures forall id :: id in groups ==> groups[id] == R.OpenIndices(log, id)
    {
      order, groups := [], map[];
      for k := 0 to |log|
        invariant order == R.OpenIds(log[..k])
        invariant forall id :: id in groups <==> id in order
        invariant forall id :: id in groups ==> groups[id] == R.OpenIndices(log[..k], id)
      {
        assert log[..k + 1][..k] == log[..k];
        V.OpenIdsExact(log[..k]);
        if R.Groupable(log[k]) {
          var id := log[k].objectId.value;
          V.IndicesMatchSeverities(log[..k], id);
          if id !in groups {
            order := order + [id];
            groups := groups[id := []];
          }
          groups := groups[id := groups[id] + [k]];
        }
      }
      assert log[..|log|] == log;
    }

    /** `exceptions.create` */
    method CreateException(category: Category, id: string)
      modifies `log
      ensures log == old(log) + [Fresh(category, id)]
    {
      log := log + [Fresh(category, id)];
    }

    /** The timeout handler of a submission. */
    method ReadBack(id: string, readable: bool) returns (raised: bool, status: R.PoStatus)
      requires id in pos
      modifies `pos, `log
      ensures Orders() == R.AfterTimeout(old(Orders()), id, readable).world
      ensures raised == R.AfterTimeout(old(Orders()), id, readable).Raised?
      ensures !raised ==> status == R.AfterTimeout(old(Orders()), id, readable).status
    {
      if !readable {
        return true, pos[id].status;
      }
      var external := R.Find(supplier, id);
      if external.Some? {
        pos := pos[id := R.Po(R.Submitted, external)];
        return false, R.Submitted;
      }
      CreateException(PoSubmissionUncertain, id);
      return false, pos[id].status;
    }

    /** `services.procurement.submit_purchase_order`, with the claim it takes and gives back. */
    method SubmitPurchaseOrder(id: string, ans: Answers) returns (raised: bool, status: R.PoStatus)
      requires id in pos
      modifies `pos, `log, `claims, `supplier
      ensures Orders() == R.Submit(config, old(Orders()), id, ans).world
      ensures raised == R.Submit(config, old(Orders()), id, ans).Raised?
      ensures !raised ==> status == R.Submit(config, old(Orders()), id, ans).status
    {
      hide R.AfterTimeout, R.Create, R.Requested;
      raised, status := false, pos[id].status;
      if status != R.AutoApproved && status != R.Approved {
        return;
      }
      if !config.connected {
        return true, status;
      }
      if id in claims {
        match claims[id] {
          case Reserved =>
            raised := true;
          case Completed(ref) =>
            pos := pos[id := R.Po(R.Submitted, Some(ref))];
            status := R.Submitted;
        }
        return;
      }
      claims := claims[id := R.Claim.Reserved];
      supplier := R.Requested(supplier, id);
      if ans.fate == Accept || ans.fate == TimeoutAfter {
        var ref;
        supplier, ref := R.Create(config, supplier, id).0, R.Create(config, supplier, id).1;
        if ans.fate == Accept {
          claims := claims[id := R.Claim.Completed(ref)];
          assert claims == old(claims)[id := R.Claim.Completed(ref)];
          pos := pos[id := R.Po(R.Submitted, Some(ref))];
          return false, R.Submitted;
        }
      }
      claims := claims - {id};
      assert claims == old(claims);
      if ans.fate == RateLimit {
        CreateException(PoConnectorRateLimited, id);
      } else if ans.fate == ServerError {
        CreateException(PoConnectorError, id);
      } else {
        raised, status := ReadBack(id, ans.readBack);
      }
    }

    /** One turn of the loop over the grouped purchase orders. */
    method RecoverPurchaseOrder(id: string, group: seq<nat>, ans: Answers) returns (verdict: R.Verdict)
      requires group == R.OpenIndices(log, id)
      modifies `pos, `log, `claims, `supplier
      ensures R.Handled(Orders(), verdict) == R.HandlePo(config, old(Orders()), id, ans)
    {
      if id !in pos {
        return R.MissingPo;
      }
      ghost var n := |log|;
      assert log[..n] == log;
      if pos[id].status == R.Submitted {
        ResolveGroup(group, id, |log|);
        return R.AlreadySubmitted;
      }
      var attempts := AttemptCount(id);
      if attempts >= config.maxAttempts {
        EscalateGroup(group, id);
        return R.Escalated;
      }
      if config.connected && !ans.truth {
        return R.TruthUnread;
      }
      var external := if config.connected then R.Find(supplier, id) else None;
      if external.Some? {
        pos := pos[id := R.Po(R.Submitted, Some(external.value))];
        ResolveGroup(group, id, |log|);
        return R.Adopted;
      }
      var before := |log|;
      var raised, status := SubmitPurchaseOrder(id, ans);
      if raised {
        return R.SubmitFailed;
      }
      assert log[..before] == old(log);
      ResolveGroup(group, id, before);
      verdict := if status == R.Submitted then R.Retried else R.LeftOpen;
    }

    method RecoverUncertainPoSubmissions(answers: string -> Answers) returns (counters: Counters, raised: bool)
      modifies `pos, `log, `claims, `supplier
      ensures R.PassResult(Orders(), counters, raised) == R.PoPass(config, old(Orders()), answers)
    {
      hide R.PassOver, R.HandlePo, V.OpenSeverities, R.OpenIds, R.OpenIndices;
      var order, groups := GroupOpenRecords();
      V.OpenIdsExact(log);
      counters, raised := ZERO, false;
      PassStarts(config, Orders(), order, answers);
      ghost var whole := R.PoPass(config, Orders(), answers);
      while order != []
        invariant Grouped(log, order, groups) && Heading(config, Orders(), order, answers, counters, whole)
        decreases |order|
      {
        var id := order[0];
        PassTurn(config, Orders(), order, groups, answers, counters, whole);
        var verdict := RecoverPurchaseOrder(id, groups[id], answers(id));
        counters := counters.Plus(R.Tally(verdict, |groups[id]|));
        if verdict.Raises() {
          raised := true;
          return;
        }
        order := order[1..];
      }
      PassEnds(config, Orders(), answers, counters, whole);
    }

    // ----- Refunds -----------------------------------------------------------------------

    method SetRefundStatus(i: nat, status: F.RefundStatus)
      requires i < |refunds|
      modifies `refunds
      ensures refunds == old(refunds)[i := old(refunds)[i].(status := status)]
    {
      refunds := refunds[i := refunds[i].(status := status)];
    }

    /** `reconcile_refund` */
    method ReconcileRefund(i: nat, ref: nat, truth: bool) returns (raised: bool)
      requires i < |refunds| && ref < |provider|
      modifies `refunds, `log
      ensures Books() == F.FetchAndReconcile(old(Books()), i, ref, truth).books
      ensures raised == F.FetchAndReconcile(old(Books()), i, ref, truth).Raised?
    {
      if !truth {
        return true;
      }
      var refund, external := refunds[i], provider[ref];
      if external.key.amount != refund.amount || external.key.currency != refund.currency || !external.succeeded {
        CreateException(RefundReconciliationMismatch, refund.id);
        return false;
      }
      SetRefundStatus(i, F.RefundStatus.Reconciled);
      SetRefundStatus(i, F.RefundStatus.Completed);
      assert refunds == old(refunds)[i := old(refunds)[i].(status := F.RefundStatus.Completed)];
      raised := false;
    }

    /** `_refund_read_back` and `_resolve_refund_uncertainty` */
    method ResolveRefundUncertainty(i: nat, reason: string, ans: Answers) returns (raised: bool)
      requires i < |refunds|
      modifies `refunds, `log
      ensures Books() == F.Resolve(old(Books()), i, reason, ans).books
      ensures raised == F.Resolve(old(Books()), i, reason, ans).Raised?
    {
      raised := false;
      var refund := refunds[i];
      if !ans.readBack {
        SetRefundStatus(i, F.MutationUncertain);
        CreateException(ExternalMutationUncertain, refund.id);
        return;
      }
      var external := F.FindRefund(provider, F.KeyOf(refund, reason));
      match external {
        case Some(ref) =>
          SetRefundStatus(i, F.ExternalConfirmed);
          raised := ReconcileRefund(i, ref, ans.truth);
        case None =>
          SetRefundStatus(i, F.Permitted);
      }
    }

    /** `services.post_order.execute_refund` */
    method ExecuteRefund(i: nat, reason: string, ans: Answers) returns (raised: bool)
      requires i < |refunds|
      modifies `refunds, `log, `provider, `refundClaims
      ensures Books() == F.Execute(payments, old(Books()), i, reason, ans).books
      ensures raised == F.Execute(payments, old(Books()), i, reason, ans).Raised?
    {
      hide F.Resolve, F.FetchAndReconcile, F.FindRefund, F.Reconcile;
      if !payments {
        return true;
      }
      raised := false;
      var refund := refunds[i];
      if !F.Executable(refund.status) {
        return;
      }
      SetRefundStatus(i, F.MutationSubmitted);
      var key := F.KeyOf(refund, reason);
      if key in refundClaims {
        match refundClaims[key] {
          case Reserved =>
            raised := true;
          case Completed(ref) =>
            SetRefundStatus(i, F.ExternalConfirmed);
            if ref < |provider| {
              raised := ReconcileRefund(i, ref, ans.truth);
            } else {
              raised := true;
            }
        }
        return;
      }
      if ans.fate == Accept {
        var created := F.CreateRefund(provider, key);
        provider := created.0;
        refundClaims := refundClaims[key := F.RefundClaim.Completed(created.1)];
        SetRefundStatus(i, F.ExternalConfirmed);
        raised := ReconcileRefund(i, created.1, ans.truth);
        return;
      }
      if ans.fate == TimeoutAfter {
        provider := F.CreateRefund(provider, key).0;
      }
      CreateException(if ans.fate == RateLimit then ConnectorRateLimited
                      else if ans.fate == ServerError then Connector5xx
                      else ExternalMutationUncertain, refund.id);
      raised := ResolveRefundUncertainty(i, reason, ans);
    }

    /** The retry of a refund and what follows it. */
    method RetryRefund(i: nat, openExc: Option<nat>, ans: Answers) returns (counters: Counters, raised: bool)
      requires i < |refunds| && openExc == F.FirstOpen(log, refunds[i].id)
      modifies `refunds, `log, `provider, `refundClaims
      ensures var h := F.RetryRefund(payments, old(Books()), i, ans);
              Books() == h.books && counters == h.counters && raised == h.raised
    {
      hide F.Execute;
      counters := Counters(1, 0, 0, 0, 0, 0);
      raised := ExecuteRefund(i, F.DEFAULT_REASON, ans);
      if raised {
        return;
      }
      if refunds[i].status in {F.RefundStatus.Reconciled, F.RefundStatus.Completed, F.ExternalConfirmed} {
        if openExc.Some? {
          Resolve(openExc.value);
        }
        return Counters(1, 0, 1, 0, 0, 0), false;
      }
      return Counters(1, 0, 0, 1, 0, 0), false;
    }

    /** External truth shows the refund: it is reconciled and its first open record closed. */
    method AdoptRefund(i: nat, ref: nat, openExc: Option<nat>)
      requires i < |refunds| && ref < |provider| && (openExc.Some? ==> openExc.value < |log|)
      modifies `refunds, `log
      ensures var reconciled := F.Reconcile(old(Books()), i, ref);
              Books() == if openExc.Some? then F.ResolveAt(reconciled, openExc.value) else reconciled
    {
      hide F.Reconcile;
      var raised := ReconcileRefund(i, ref, true);
      if openExc.Some? {
        Resolve(openExc.value);
      }
    }

    /** The limit is reached: the first open record becomes critical. */
    method EscalateRefund(id: string, openExc: Option<nat>) returns (escalated: nat)
      requires openExc == F.FirstOpen(log, id)
      modifies `log
      ensures Books() == F.EscalateFirst(old(Books()), id) && escalated == if openExc.Some? then 1 else 0
    {
      escalated := 0;
      if openExc.Some? {
        EscalateTerminal(openExc.value);
        escalated := 1;
      }
    }

    /** One turn of the loop over the refunds in doubt. */
    method RecoverRefund(i: nat, ans: Answers) returns (counters: Counters, raised: bool)
      requires i < |refunds|
      modifies `refunds, `log, `provider, `refundClaims
      ensures var h := F.HandleRefund(config.maxAttempts, payments, old(Books()), i, ans);
              Books() == h.books && counters == h.counters && raised == h.raised
    {
      hide F.FirstOpen, F.FindRefund, F.Doubts, F.RetryRefund, F.Reconcile, F.EscalateFirst, F.ResolveAt, F.HandleRefund;
      RefundCases(config.maxAttempts, payments, Books(), i, ans);
      var refund := refunds[i];
      counters, raised := Counters(1, 0, 0, 0, 0, 0), false;
      var openExc := F.FirstOpen(log, refund.id);
      if F.Doubts(log, refund.id) >= config.maxAttempts {
        var escalated := EscalateRefund(refund.id, openExc);
        return Counters(1, 0, 0, 0, escalated, 0), false;
      }
      if payments && !ans.truth {
        raised := true;
        return;
      }
      var external := if payments then F.FindRefund(provider, F.KeyOf(refund, "")) else None;
      if external.Some? {
        AdoptRefund(i, external.value, openExc);
        return Counters(1, 1, 0, 0, 0, 0), false;
      }
      counters, raised := RetryRefund(i, openExc, ans);
    }

    method RecoverUncertainRefundExecutions(answers: int -> Answers) returns (counters: Counters, raised: bool)
      modifies `refunds, `log, `provider, `refundClaims
      ensures var r := F.RefundPass(config.maxAttempts, payments, old(Books()), answers);
              Books() == r.books && counters == r.counters && raised == r.raised
    {
      var todo := F.InDoubt(refunds);
      counters, raised := ZERO, false;
      ghost var whole := F.RefundPass(config.maxAttempts, payments, Books(), answers);
      while todo != []
        invariant RefundsHeading(config.maxAttempts, payments, Books(), todo, answers, counters, whole)
        decreases |todo|
      {
        RefundTurn(config.maxAttempts, payments, Books(), todo, answers, counters, whole);
        var one, failed := RecoverRefund(todo[0], answers(todo[0]));
        counters := counters.Plus(one);
        if failed {
          raised := true;
          return;
        }
        todo := todo[1..];
      }
    }

    // ----- Stuck workflows ---------------------------------------------------------------

    method FlagStaleWorkflows(cutoff: int) returns (flagged: nat)
      modifies `log
      ensures log == W.FlagStale(old(log), workflows, cutoff)
      ensures flagged == |log| - |old(log)|
    {
      flagged := 0;
      for k := 0 to |workflows|
        invariant W.FlagStale(log, workflows[k..], cutoff) == W.FlagStale(old(log), workflows, cutoff)
        invariant flagged == |log| - |old(log)|
      {
        var wf := workflows[k];
        assert workflows[k..][0] == wf && workflows[k..][1..] == workflows[k + 1..];
        if W.Stale(wf, cutoff) && W.OpenFlags(log, wf.id) == 0 {
          log := log + [W.Flag(wf.id)];
          flagged := flagged + 1;
        }
      }
    }

    // ----- One run -----------------------------------------------------------------------

    method RunOnce(s: M.Surroundings) returns (counters: Counters, raised: bool)
      modifies this
      ensures var r := M.RunOnce(config, payments, old(State()), s);
              State() == r.merchant && counters == r.counters && raised == r.raised
    {
      hide R.PoPass, F.RefundPass, W.FlagStale;
      counters, raised := RecoverUncertainPoSubmissions(s.orderAnswers);
      if raised {
        return;
      }
      var forRefunds, refundsRaised := RecoverUncertainRefundExecutions(s.refundAnswers);
      counters := counters.Plus(forRefunds);
      if refundsRaised {
        raised := true;
        return;
      }
      var flagged := FlagStaleWorkflows(s.cutoff);
      counters := counters.Plus(Counters(0, 0, 0, 0, 0, flagged));
    }
  }
}
