/**
 What the refund pass really does: the retry is inert, so a refund leaves doubt exactly
 when the provider holds it under the empty reason.
 */
module RefundGuarantees {
  import opened Common
  import opened Exceptions
  import opened RefundRecovery

  /** The worker's read of external truth passes no reason. */
  function SeenByWorker(b: Books, i: nat): Option<nat>
    requires i < |b.refunds|
  {
    FindRefund(b.provider, KeyOf(b.refunds[i], ""))
  }

  predicate BelowLimit(maxAttempts: int, b: Books, i: nat)
    requires i < |b.refunds|
  {
    Doubts(b.log, b.refunds[i].id) < maxAttempts
  }

  /** What a pass makes of one refund. */
  function Outcome(maxAttempts: int, b: Books, i: nat): Refund
    requires i < |b.refunds|
  {
    var r := b.refunds[i];
    if r.status == MutationUncertain && BelowLimit(maxAttempts, b, i)
       && SeenByWorker(b, i).Some? && b.provider[SeenByWorker(b, i).value].succeeded
    then r.(status := RefundStatus.Completed) else r
  }

  /** How many open records of a refund a pass closes: one, if it adopts external truth and there is one. */
  function Closed(maxAttempts: int, b: Books, i: nat): nat
    requires i < |b.refunds|
  {
    if b.refunds[i].status == MutationUncertain && BelowLimit(maxAttempts, b, i) && SeenByWorker(b, i).Some?
       && OpenDoubts(b.log, b.refunds[i].id) > 0 then 1 else 0
  }

  /** The retry branch calls `execute_refund` on a refund in doubt, which returns it untouched whatever the provider would do. */
  lemma RetryIsInert(b: Books, i: nat, reason: string, ans: Answers)
    requires i < |b.refunds| && b.refunds[i].status == MutationUncertain
    ensures Execute(true, b, i, reason, ans) == Returned(b)
  {
  }

  lemma InertRetry(b: Books, i: nat, ans: Answers)
    requires i < |b.refunds| && b.refunds[i].status == MutationUncertain
    ensures RetryRefund(true, b, i, ans) == RefundHandled(b, Counters(1, 0, 0, 1, 0, 0), false)
  {
    RetryIsInert(b, i, DEFAULT_REASON, ans);
  }

  // ----- The log -----------------------------------------------------------------------

  /** Two logs agree on the doubt records of an id. */
  ghost predicate AgreeOn(a: seq<Record>, b: seq<Record>, id: string) {
    Doubts(a, id) == Doubts(b, id) && OpenDoubts(a, id) == OpenDoubts(b, id)
  }

  lemma {:induction false} PointwiseAgree(a: seq<Record>, b: seq<Record>, id: string)
    requires |a| == |b|
    requires forall k :: 0 <= k < |a| ==> DoubtFor(a[k], id) == DoubtFor(b[k], id)
    ensures Doubts(a, id) == Doubts(b, id)
    ensures (forall k :: 0 <= k < |a| ==> OpenDoubt(a[k], id) == OpenDoubt(b[k], id)) ==> AgreeOn(a, b, id)
  {
    if a != [] {
      PointwiseAgree(a[..|a| - 1], b[..|b| - 1], id);
    }
  }

  lemma {:induction false} CloseOne(log: seq<Record>, k: nat, id: string)
    requires k < |log| && OpenDoubt(log[k], id)
    ensures OpenDoubts(log[k := log[k].(status := Resolved)], id) == OpenDoubts(log, id) - 1
  {
    var closed := log[k := log[k].(status := Resolved)];
    if k < |log| - 1 {
      assert closed[..|log| - 1] == log[..|log| - 1][k := log[k].(status := Resolved)];
      CloseOne(log[..|log| - 1], k, id);
    } else {
      assert closed[..|log| - 1] == log[..|log| - 1];
    }
  }

  lemma AppendAgrees(log: seq<Record>, r: Record, id: string)
    requires !DoubtFor(r, id)
    ensures AgreeOn(log + [r], log, id)
  {
    assert (log + [r])[..|log|] == log;
  }

  lemma {:induction false} OpenIffFound(log: seq<Record>, id: string)
    ensures FirstOpen(log, id).Some? <==> OpenDoubts(log, id) > 0
  {
    if log != [] {
      OpenIffFound(log[..|log| - 1], id);
    }
  }

  // ----- One refund --------------------------------------------------------------------

  lemma EscalateKeeps(b: Books, id: string, q: string)
    ensures var after := EscalateFirst(b, id); after == b.(log := after.log) && AgreeOn(after.log, b.log, q)
  {
    PointwiseAgree(EscalateFirst(b, id).log, b.log, q);
  }

  /**
   At the limit nothing is asked of the provider and no refund changes: the refund's first
   open record becomes critical and is left to a human, and no other record is touched.
   */
  lemma AtTheLimitEscalates(maxAttempts: int, connected: bool, b: Books, i: nat, ans: Answers, k: nat)
    requires i < |b.refunds| && !BelowLimit(maxAttempts, b, i) && k < |b.log|
    ensures var h := HandleRefund(maxAttempts, connected, b, i, ans);
            var id := b.refunds[i].id;
            var first := OpenDoubt(b.log[k], id) && forall j :: 0 <= j < k ==> !OpenDoubt(b.log[j], id);
            && !h.raised && h.books == b.(log := h.books.log) && |h.books.log| == |b.log|
            && h.books.log[k] == (if first then b.log[k].(severity := Critical, remediation := ["human_review_required"]) else b.log[k])
            && h.counters.escalated == (if OpenDoubts(b.log, id) > 0 then 1 else 0) && h.counters.leftOpen == 0
  {
    OpenIffFound(b.log, b.refunds[i].id);
  }

  /** Reconciling against a refund found under the same amount and currency, then closing the first open record. */
  lemma AdoptCloses(b: Books, i: nat, ref: nat, q: string)
    requires i < |b.refunds| && ref < |b.provider| && b.provider[ref].key == KeyOf(b.refunds[i], "")
    ensures var reconciled, open := Reconcile(b, i, ref), FirstOpen(b.log, b.refunds[i].id);
            var after := if open.Some? then ResolveAt(reconciled, open.value) else reconciled;
            && after == reconciled.(log := after.log)
            && Doubts(after.log, q) == Doubts(b.log, q)
            && (q != b.refunds[i].id ==> AgreeOn(after.log, b.log, q))
            && (q == b.refunds[i].id ==>
                  OpenDoubts(after.log, q) == if OpenDoubts(b.log, q) > 0 then OpenDoubts(b.log, q) - 1 else 0)
  {
    hide Doubts, OpenDoubts;
    OpenIffFound(b.log, b.refunds[i].id);
    var r, reconciled, open := b.refunds[i], Reconcile(b, i, ref), FirstOpen(b.log, b.refunds[i].id);
    AppendAgrees(b.log, Fresh(RefundReconciliationMismatch, r.id), q);
    assert AgreeOn(reconciled.log, b.log, q);
    if open.Some? {
      var after := ResolveAt(reconciled, open.value);
      PointwiseAgree(after.log, reconciled.log, q);
      if q == r.id {
        CloseOne(reconciled.log, open.value, q);
      }
    }
  }

  /** Below the limit the provider has to be read; without a connector the retry behind the read raises. */
  predicate Fails(maxAttempts: int, connected: bool, b: Books, i: nat, ans: Answers)
    requires i < |b.refunds|
  {
    b.refunds[i].status == MutationUncertain && BelowLimit(maxAttempts, b, i) && (!connected || !ans.truth)
  }

  lemma HandleRefundExact(maxAttempts: int, connected: bool, b: Books, i: nat, ans: Answers, q: string)
    requires i < |b.refunds| && b.refunds[i].status == MutationUncertain
    ensures var h := HandleRefund(maxAttempts, connected, b, i, ans);
            && (h.raised <==> Fails(maxAttempts, connected, b, i, ans)) && (h.raised ==> h.books == b)
            && h.books.provider == b.provider && h.books.claims == b.claims
            && (!h.raised ==> h.books.refunds == b.refunds[i := Outcome(maxAttempts, b, i)])
            && Doubts(h.books.log, q) == Doubts(b.log, q)
            && (q != b.refunds[i].id ==> AgreeOn(h.books.log, b.log, q))
            && (q == b.refunds[i].id && !h.raised ==> OpenDoubts(h.books.log, q) == OpenDoubts(b.log, q) - Closed(maxAttempts, b, i))
  {
    hide Doubts, OpenDoubts, FirstOpen, FindRefund, EscalateFirst, Execute;
    if connected {
      InertRetry(b, i, ans);
    } else {
      assert Execute(connected, b, i, DEFAULT_REASON, ans) == Raised(b) by { Unconnected(b, i, DEFAULT_REASON, ans); }
    }
    EscalateKeeps(b, b.refunds[i].id, q);
    if SeenByWorker(b, i).Some? {
      AdoptCloses(b, i, SeenByWorker(b, i).value, q);
    }
  }

  lemma Unconnected(b: Books, i: nat, reason: string, ans: Answers)
    requires i < |b.refunds|
    ensures Execute(false, b, i, reason, ans) == Raised(b)
  {
  }

  // ----- A pass ------------------------------------------------------------------------

  /** From `b` to `after`, refund `i` was handled once or, when not `touched`, not at all. */
  ghost predicate HandledAs(maxAttempts: int, b: Books, after: Books, i: nat, touched: bool) {
    && i < |b.refunds| == |after.refunds|
    && after.provider == b.provider && after.claims == b.claims
    && (forall k :: 0 <= k < |b.refunds| ==> after.refunds[k].id == b.refunds[k].id)
    && after.refunds[i] == (if touched then Outcome(maxAttempts, b, i) else b.refunds[i])
    && Doubts(after.log, b.refunds[i].id) == Doubts(b.log, b.refunds[i].id)
    && OpenDoubts(after.log, b.refunds[i].id)
       == OpenDoubts(b.log, b.refunds[i].id) - (if touched then Closed(maxAttempts, b, i) else 0)
    && (!touched ==> AgreeOn(after.log, b.log, b.refunds[i].id))
  }

  lemma HandledThen(maxAttempts: int, b: Books, mid: Books, after: Books, i: nat, first: bool, second: bool)
    requires HandledAs(maxAttempts, b, mid, i, first) && HandledAs(maxAttempts, mid, after, i, second)
    requires !(first && second)
    ensures HandledAs(maxAttempts, b, after, i, first || second)
  {
  }

  lemma HandleRefundAs(maxAttempts: int, connected: bool, b: Books, head: nat, ans: Answers, i: nat)
    requires DistinctIds(b.refunds) && i < |b.refunds|
    requires head < |b.refunds| && b.refunds[head].status == MutationUncertain
    ensures var h := HandleRefund(maxAttempts, connected, b, head, ans);
            && (h.raised <==> Fails(maxAttempts, connected, b, head, ans))
            && HandledAs(maxAttempts, b, h.books, i, i == head && !h.raised)
            && forall k :: 0 <= k < |b.refunds| && k != head ==> h.books.refunds[k] == b.refunds[k]
  {
    hide HandleRefund, Doubts, OpenDoubts;
    HandleRefundExact(maxAttempts, connected, b, head, ans, b.refunds[i].id);
  }

  /** Some refund of `todo` up to `i` fails. */
  ghost predicate FailsUpTo(maxAttempts: int, connected: bool, b: Books, todo: seq<int>, answers: int -> Answers, i: int) {
    exists j :: j in todo && 0 <= j < |b.refunds| && j <= i && Fails(maxAttempts, connected, b, j, answers(j))
  }

  lemma FailsAlike(maxAttempts: int, connected: bool, b: Books, mid: Books, todo: seq<int>, answers: int -> Answers, i: int)
    requires |mid.refunds| == |b.refunds|
    requires forall j :: j in todo && 0 <= j < |b.refunds| ==>
               mid.refunds[j] == b.refunds[j] && Doubts(mid.log, b.refunds[j].id) == Doubts(b.log, b.refunds[j].id)
    ensures FailsUpTo(maxAttempts, connected, mid, todo, answers, i) <==> FailsUpTo(maxAttempts, connected, b, todo, answers, i)
  {
    hide Doubts;
    forall j | j in todo && 0 <= j < |b.refunds|
      ensures Fails(maxAttempts, connected, mid, j, answers(j)) <==> Fails(maxAttempts, connected, b, j, answers(j))
    {
    }
  }

  /** The head of an ascending sequence and what follows it. */
  lemma AscendingTail(todo: seq<int>)
    requires todo != [] && forall j, k :: 0 <= j < k < |todo| ==> todo[j] < todo[k]
    ensures forall k :: k in todo <==> k == todo[0] || k in todo[1..]
    ensures forall k :: k in todo[1..] ==> k > todo[0]
  {
  }

  /** After one refund was handled the failures of the others are what they were. */
  lemma FailuresStay(maxAttempts: int, connected: bool, b: Books, head: nat, tail: seq<int>, answers: int -> Answers, i: int)
    requires DistinctIds(b.refunds) && head < |b.refunds| && b.refunds[head].status == MutationUncertain
    requires forall k :: k in tail ==> head < k < |b.refunds|
    ensures var mid := HandleRefund(maxAttempts, connected, b, head, answers(head)).books;
            DistinctIds(mid.refunds) && (forall k :: k in tail ==> mid.refunds[k] == b.refunds[k])
            && (FailsUpTo(maxAttempts, connected, mid, tail, answers, i) <==> FailsUpTo(maxAttempts, connected, b, tail, answers, i))
  {
    hide HandleRefund, HandledAs, Doubts, OpenDoubts, Fails, FailsUpTo, Outcome;
    var h := HandleRefund(maxAttempts, connected, b, head, answers(head));
    forall j | 0 <= j < |b.refunds| && j != head
      ensures h.books.refunds[j] == b.refunds[j] && Doubts(h.books.log, b.refunds[j].id) == Doubts(b.log, b.refunds[j].id)
    {
      HandleRefundAs(maxAttempts, connected, b, head, answers(head), j);
      HandledKeepsDoubts(maxAttempts, b, h.books, j, false);
    }
    HandleRefundAs(maxAttempts, connected, b, head, answers(head), head);
    HandledIds(maxAttempts, b, h.books, head, !h.raised);
    FailsAlike(maxAttempts, connected, b, h.books, tail, answers, i);
  }

  /** How a failure up to `i` splits into the head and the rest. */
  lemma FailsSplit(maxAttempts: int, connected: bool, b: Books, todo: seq<int>, answers: int -> Answers, i: int)
    requires todo != [] && 0 <= todo[0] < |b.refunds| && forall k :: k in todo <==> k == todo[0] || k in todo[1..]
    ensures FailsUpTo(maxAttempts, connected, b, todo, answers, i)
            <==> (todo[0] <= i && Fails(maxAttempts, connected, b, todo[0], answers(todo[0])))
                 || FailsUpTo(maxAttempts, connected, b, todo[1..], answers, i)
  {
    hide Fails;
  }

  lemma {:induction false} RefundsOverExact(maxAttempts: int, connected: bool, b: Books, todo: seq<int>, answers: int -> Answers, i: nat)
    requires DistinctIds(b.refunds) && i < |b.refunds|
    requires forall k :: k in todo ==> 0 <= k < |b.refunds| && b.refunds[k].status == MutationUncertain
    requires forall j, k :: 0 <= j < k < |todo| ==> todo[j] < todo[k]
    ensures RefundsOver(maxAttempts, connected, b, todo, answers).raised <==> FailsUpTo(maxAttempts, connected, b, todo, answers, |b.refunds|)
    ensures HandledAs(maxAttempts, b, RefundsOver(maxAttempts, connected, b, todo, answers).books, i,
                      i in todo && !FailsUpTo(maxAttempts, connected, b, todo, answers, i))
    decreases |todo|
  {
    if todo == [] {
      Untouched(maxAttempts, b, i);
    } else {
      hide HandleRefund, HandledAs, Doubts, OpenDoubts, Fails, FailsUpTo, DistinctIds;
      var head, tail := todo[0], todo[1..];
      assert head in todo;
      AscendingTail(todo);
      var h := HandleRefund(maxAttempts, connected, b, head, answers(head));
      HandleRefundAs(maxAttempts, connected, b, head, answers(head), i);
      FailsSplit(maxAttempts, connected, b, todo, answers, i);
      FailsSplit(maxAttempts, connected, b, todo, answers, |b.refunds|);
      if !h.raised {
        FailuresStay(maxAttempts, connected, b, head, tail, answers, i);
        FailuresStay(maxAttempts, connected, b, head, tail, answers, |b.refunds|);
        RefundsOverExact(maxAttempts, connected, h.books, tail, answers, i);
        var second := i in tail && !FailsUpTo(maxAttempts, connected, b, tail, answers, i);
        HandledThen(maxAttempts, b, h.books, RefundsOver(maxAttempts, connected, h.books, tail, answers).books, i, i == head, second);
        NothingBefore(maxAttempts, connected, b, tail, answers, i, head);
      }
    }
  }

  /** Nothing in the rest fails up to the head. */
  lemma NothingBefore(maxAttempts: int, connected: bool, b: Books, tail: seq<int>, answers: int -> Answers, i: int, head: int)
    requires forall k :: k in tail ==> k > head
    ensures i == head ==> !FailsUpTo(maxAttempts, connected, b, tail, answers, i)
  {
    hide Fails;
  }

  lemma Untouched(maxAttempts: int, b: Books, i: nat)
    requires i < |b.refunds|
    ensures HandledAs(maxAttempts, b, b, i, false)
  {
  }

  lemma HandledKeepsDoubts(maxAttempts: int, b: Books, after: Books, i: nat, touched: bool)
    requires HandledAs(maxAttempts, b, after, i, touched)
    ensures i < |b.refunds| && Doubts(after.log, b.refunds[i].id) == Doubts(b.log, b.refunds[i].id)
  {
  }

  lemma HandledIds(maxAttempts: int, b: Books, after: Books, i: nat, touched: bool)
    requires HandledAs(maxAttempts, b, after, i, touched) && DistinctIds(b.refunds)
    ensures DistinctIds(after.refunds)
  {
  }

  /** A refund in doubt at or before `i` makes the pass raise. */
  ghost predicate Stopped(maxAttempts: int, connected: bool, b: Books, answers: int -> Answers, i: int) {
    exists j :: 0 <= j < |b.refunds| && j <= i && Fails(maxAttempts, connected, b, j, answers(j))
  }

  lemma StoppedIsFailing(maxAttempts: int, connected: bool, b: Books, answers: int -> Answers, i: int)
    ensures Stopped(maxAttempts, connected, b, answers, i) <==> FailsUpTo(maxAttempts, connected, b, InDoubt(b.refunds), answers, i)
  {
    hide Doubts;
    if j :| 0 <= j < |b.refunds| && j <= i && Fails(maxAttempts, connected, b, j, answers(j)) {
      assert j in InDoubt(b.refunds);
    }
  }

  /**
   The refund pass, exactly. It raises exactly when a refund in doubt below the limit meets a
   provider that cannot be read, or none; refunds from there on are not handled. The
   provider never changes. A refund that is handled changes only from doubt to completed, and
   only when below the limit the provider holds a succeeded refund under the empty reason;
   one open record of it is closed exactly when external truth was adopted and there was one.
   */
  lemma RefundPassExact(maxAttempts: int, connected: bool, b: Books, answers: int -> Answers, i: nat)
    requires DistinctIds(b.refunds) && i < |b.refunds|
    ensures var r := RefundPass(maxAttempts, connected, b, answers);
            var handled := !Stopped(maxAttempts, connected, b, answers, i);
            && (r.raised <==> Stopped(maxAttempts, connected, b, answers, |b.refunds|))
            && r.books.provider == b.provider && r.books.claims == b.claims
            && |r.books.refunds| == |b.refunds| && r.books.refunds[i] == (if handled then Outcome(maxAttempts, b, i) else b.refunds[i])
            && Doubts(r.books.log, b.refunds[i].id) == Doubts(b.log, b.refunds[i].id)
            && OpenDoubts(r.books.log, b.refunds[i].id)
               == OpenDoubts(b.log, b.refunds[i].id) - (if handled then Closed(maxAttempts, b, i) else 0)
  {
    hide RefundsOver, Doubts, OpenDoubts, FindRefund;
    StoppedIsFailing(maxAttempts, connected, b, answers, i);
    StoppedIsFailing(maxAttempts, connected, b, answers, |b.refunds|);
    RefundsOverExact(maxAttempts, connected, b, InDoubt(b.refunds), answers, i);
  }

  function RefundPasses(maxAttempts: int, connected: bool, b: Books, rounds: seq<int -> Answers>): Books
    ensures |RefundPasses(maxAttempts, connected, b, rounds).refunds| == |b.refunds|
    decreases |rounds|
  {
    if rounds == [] then b else RefundPasses(maxAttempts, connected, RefundPass(maxAttempts, connected, b, rounds[0]).books, rounds[1..])
  }

  lemma PassKeepsIds(maxAttempts: int, connected: bool, b: Books, answers: int -> Answers)
    requires DistinctIds(b.refunds)
    ensures DistinctIds(RefundPass(maxAttempts, connected, b, answers).books.refunds)
  {
    hide RefundPass, Stopped, Doubts, OpenDoubts, FindRefund;
    var next := RefundPass(maxAttempts, connected, b, answers).books;
    forall k | 0 <= k < |b.refunds| ensures next.refunds[k].id == b.refunds[k].id {
      RefundPassExact(maxAttempts, connected, b, answers, k);
    }
  }

  /**
   The livelock: below the limit and with nothing under the empty reason, a refund stays in
   doubt, with the same number of attempts, through any number of passes. It is never
   retried, never completed, and never reaches the escalation it was promised. At the limit
   it stays in doubt as well, whatever the provider holds.
   */
  lemma {:induction false} StuckForever(maxAttempts: int, connected: bool, b: Books, rounds: seq<int -> Answers>, i: nat)
    requires DistinctIds(b.refunds) && i < |b.refunds|
    requires b.refunds[i].status == MutationUncertain && (!BelowLimit(maxAttempts, b, i) || SeenByWorker(b, i).None?)
    ensures var after := RefundPasses(maxAttempts, connected, b, rounds);
            && after.refunds[i] == b.refunds[i]
            && after.provider == b.provider && (BelowLimit(maxAttempts, after, i) <==> BelowLimit(maxAttempts, b, i))
    decreases |rounds|
  {
    hide RefundPass, Stopped, Doubts, DistinctIds;
    if rounds != [] {
      RefundPassExact(maxAttempts, connected, b, rounds[0], i);
      PassKeepsIds(maxAttempts, connected, b, rounds[0]);
      StuckForever(maxAttempts, connected, RefundPass(maxAttempts, connected, b, rounds[0]).books, rounds[1..], i);
    }
  }

  /** A refund that is not in doubt is never looked at again, and so none of its records is closed any more. */
  lemma {:induction false} OthersAreForgotten(maxAttempts: int, connected: bool, b: Books, rounds: seq<int -> Answers>, i: nat)
    requires DistinctIds(b.refunds) && i < |b.refunds| && b.refunds[i].status != MutationUncertain
    ensures var after := RefundPasses(maxAttempts, connected, b, rounds);
            after.refunds[i] == b.refunds[i] && OpenDoubts(after.log, b.refunds[i].id) == OpenDoubts(b.log, b.refunds[i].id)
    decreases |rounds|
  {
    hide RefundPass, Stopped, Doubts, OpenDoubts, DistinctIds;
    if rounds != [] {
      RefundPassExact(maxAttempts, connected, b, rounds[0], i);
      PassKeepsIds(maxAttempts, connected, b, rounds[0]);
      OthersAreForgotten(maxAttempts, connected, RefundPass(maxAttempts, connected, b, rounds[0]).books, rounds[1..], i);
    }
  }

  // ----- How a refund gets there -------------------------------------------------------

  lemma {:induction false} FindLatest(provider: seq<ProviderRefund>, entry: ProviderRefund, key: Key)
    ensures FindRefund(provider + [entry], key) ==
            if FindRefund(provider, key).Some? then FindRefund(provider, key)
            else if entry.key == key then Some(|provider|) else None
  {
    assert (provider + [entry])[..|provider|] == provider;
  }

  /** The request takes effect, its response is lost, and the read-back does not get through. */
  const PAID_UNSEEN := Answers(true, TimeoutAfter, false)

  /** What such an execution leaves: the refund in doubt, its entry at the provider, and two more open records. */
  lemma PaidUnseen(b: Books, i: nat, reason: string)
    requires DistinctIds(b.refunds) && i < |b.refunds|
    requires Executable(b.refunds[i].status) && KeyOf(b.refunds[i], reason) !in b.claims
    requires FindRefund(b.provider, KeyOf(b.refunds[i], reason)).None? && SeenByWorker(b, i).None?
    ensures var lost, r := Execute(true, b, i, reason, PAID_UNSEEN).books, b.refunds[i];
            && DistinctIds(lost.refunds) && |lost.refunds| == |b.refunds| && lost.refunds[i] == r.(status := MutationUncertain)
            && FindRefund(lost.provider, KeyOf(r, reason)).Some?
            && (SeenByWorker(lost, i).Some? <==> reason == "")
            && (reason == "" ==> lost.provider[SeenByWorker(lost, i).value].succeeded)
            && Doubts(lost.log, r.id) == Doubts(b.log, r.id) + 2 && OpenDoubts(lost.log, r.id) == OpenDoubts(b.log, r.id) + 2
  {
    var r := b.refunds[i];
    var lost := Execute(true, b, i, reason, PAID_UNSEEN).books;
    var entry := ProviderRefund(KeyOf(r, reason), true);
    assert lost.provider == b.provider + [entry];
    FindLatest(b.provider, entry, KeyOf(r, reason));
    FindLatest(b.provider, entry, KeyOf(r, ""));
    var once := b.log + [Fresh(ExternalMutationUncertain, r.id)];
    assert lost.log == once + [Fresh(ExternalMutationUncertain, r.id)];
    assert once[..|b.log|] == b.log && lost.log[..|once|] == once;
  }

  /**
   A refund executed under `reason` takes effect at the provider, its response is lost and
   the read-back does not get through, which costs two attempts. A pass completes it exactly
   if the reason was empty, attempts are left, and the pass gets to it. If the reason was not
   empty, as the default is not, or no attempts are left, it is in doubt for ever, although
   the provider has paid.
   */
  lemma LostRefundRecoversIffReasonEmpty(maxAttempts: int, b: Books, i: nat, reason: string, rounds: seq<int -> Answers>)
    requires DistinctIds(b.refunds) && i < |b.refunds|
    requires Executable(b.refunds[i].status) && KeyOf(b.refunds[i], reason) !in b.claims
    requires FindRefund(b.provider, KeyOf(b.refunds[i], reason)).None? && SeenByWorker(b, i).None?
    requires |rounds| >= 1
    ensures var lost := Execute(true, b, i, reason, PAID_UNSEEN).books;
            var left := Doubts(b.log, b.refunds[i].id) + 2 < maxAttempts;
            && lost.refunds[i].status == MutationUncertain
            && FindRefund(lost.provider, KeyOf(b.refunds[i], reason)).Some?
            && (RefundPass(maxAttempts, true, lost, rounds[0]).books.refunds[i].status == RefundStatus.Completed
                <==> reason == "" && left && !Stopped(maxAttempts, true, lost, rounds[0], i))
            && (reason != "" || !left ==> RefundPasses(maxAttempts, true, lost, rounds).refunds[i].status == MutationUncertain)
  {
    hide RefundPass, RefundPasses, Stopped, Execute, FindRefund, Doubts, OpenDoubts, DistinctIds;
    var lost := Execute(true, b, i, reason, PAID_UNSEEN).books;
    PaidUnseen(b, i, reason);
    RefundPassExact(maxAttempts, true, lost, rounds[0], i);
    if reason != "" || !BelowLimit(maxAttempts, lost, i) {
      StuckForever(maxAttempts, true, lost, rounds, i);
    }
  }

  /**
   Even then not all is closed: the execution left two open records, completion closes one,
   and no later pass looks at the completed refund. One open doubt about a refund that is
   done remains for ever.
   */
  lemma OneDoubtStaysOpen(maxAttempts: int, b: Books, i: nat, first: int -> Answers, rounds: seq<int -> Answers>)
    requires DistinctIds(b.refunds) && i < |b.refunds|
    requires Executable(b.refunds[i].status) && KeyOf(b.refunds[i], "") !in b.claims && SeenByWorker(b, i).None?
    requires Doubts(b.log, b.refunds[i].id) + 2 < maxAttempts
    requires !Stopped(maxAttempts, true, Execute(true, b, i, "", PAID_UNSEEN).books, first, i)
    ensures var lost := Execute(true, b, i, "", PAID_UNSEEN).books;
            var after := RefundPasses(maxAttempts, true, RefundPass(maxAttempts, true, lost, first).books, rounds);
            && after.refunds[i].status == RefundStatus.Completed
            && OpenDoubts(after.log, b.refunds[i].id) == OpenDoubts(b.log, b.refunds[i].id) + 1
  {
    hide RefundPass, RefundPasses, Stopped, Execute, FindRefund, Doubts, OpenDoubts, DistinctIds;
    var lost := Execute(true, b, i, "", PAID_UNSEEN).books;
    PaidUnseen(b, i, "");
    RefundPassExact(maxAttempts, true, lost, first, i);
    PassKeepsIds(maxAttempts, true, lost, first);
    OthersAreForgotten(maxAttempts, true, RefundPass(maxAttempts, true, lost, first).books, rounds, i);
  }

  /** A refund under the default reason, paid unseen with the limit at five, is in doubt after any number of passes. */
  lemma OneRefundIsStuck(rounds: seq<int -> Answers>)
    requires |rounds| >= 1
    ensures var b := Books([Refund("r1", "o1", 100, "INR", Approved)], [], [], map[]);
            var lost := Execute(true, b, 0, DEFAULT_REASON, PAID_UNSEEN).books;
            lost.provider == [ProviderRefund(KeyOf(b.refunds[0], DEFAULT_REASON), true)]
            && RefundPasses(5, true, lost, rounds).refunds[0].status == MutationUncertain
  {
    var b := Books([Refund("r1", "o1", 100, "INR", Approved)], [], [], map[]);
    hide RefundPass, RefundPasses, Stopped;
    LostRefundRecoversIffReasonEmpty(5, b, 0, DEFAULT_REASON, rounds);
  }

  // ----- At most one external refund ---------------------------------------------------

  ghost predicate UniqueKeys(provider: seq<ProviderRefund>) {
    forall j, k :: 0 <= j < k < |provider| ==> provider[j].key != provider[k].key
  }

  lemma {:induction false} FindMisses(provider: seq<ProviderRefund>, key: Key)
    requires FindRefund(provider, key).None?
    ensures forall k :: 0 <= k < |provider| ==> provider[k].key != key
  {
    if provider != [] {
      FindMisses(provider[..|provider| - 1], key);
    }
  }

  /** However execution ends, the provider holds at most one refund per order, amount, currency and reason. */
  lemma ExecuteKeepsKeysUnique(b: Books, i: nat, reason: string, ans: Answers)
    requires i < |b.refunds| && UniqueKeys(b.provider)
    ensures UniqueKeys(Execute(true, b, i, reason, ans).books.provider)
  {
    if FindRefund(b.provider, KeyOf(b.refunds[i], reason)).None? {
      FindMisses(b.provider, KeyOf(b.refunds[i], reason));
    }
  }
}
