/**
 What executing a refund does, case by case, and what the refund pass reports. Everything
 is told from the books before, the provider's answers and the records that result.
 */
module RefundExecution {
  import opened Common
  import opened Exceptions
  import opened RefundRecovery
  import opened RefundGuarantees

  /** A new record about a refund. */
  function NewRecord(category: Category, r: Refund): Record {
    Record(category, Some(r.id), Open, Warning, ["review"])
  }

  /** Everything but the status of refund `i`, the log and the provider's side is as before. */
  predicate OnlyTouches(b: Books, after: Books, i: nat, status: RefundStatus, news: seq<Record>)
    requires i < |b.refunds|
  {
    after.refunds == b.refunds[i := b.refunds[i].(status := status)] && after.log == b.log + news
  }

  lemma Unfound(provider: seq<ProviderRefund>, key: Key)
    requires forall k :: 0 <= k < |provider| ==> provider[k].key != key
    ensures FindRefund(provider, key).None?
  {
  }

  lemma FoundLast(provider: seq<ProviderRefund>, key: Key)
    requires forall k :: 0 <= k < |provider| ==> provider[k].key != key
    ensures FindRefund(provider + [ProviderRefund(key, true)], key) == Some(|provider|)
  {
    Unfound(provider, key);
    FindLatest(provider, ProviderRefund(key, true), key);
  }

  /** The record of a request that failed. */
  function CategoryOf(fate: Fate): Category {
    match fate
    case RateLimit => ConnectorRateLimited
    case ServerError => Connector5xx
    case _ => ExternalMutationUncertain
  }

  predicate Executes(b: Books, i: nat) {
    i < |b.refunds| && b.refunds[i].status in {Permitted, AutoApproved, Approved}
  }

  /** The provider accepts, or takes the refund and its response is lost. */
  lemma NewRefundIsPaid(b: Books, i: nat, reason: string, ans: Answers)
    requires Executes(b, i) && (ans.fate == Accept || ans.fate == TimeoutAfter)
    requires var r := b.refunds[i];
             var key := Key(r.orderId, r.amount, r.currency, reason);
             key !in b.claims && forall k :: 0 <= k < |b.provider| ==> b.provider[k].key != key
    ensures var r := b.refunds[i];
            var key := Key(r.orderId, r.amount, r.currency, reason);
            var x := Execute(true, b, i, reason, ans);
            && x.books.provider == b.provider + [ProviderRefund(key, true)]
            && (if ans.fate == Accept then
                  && x.books.claims == b.claims[key := RefundClaim.Completed(|b.provider|)]
                  && OnlyTouches(b, x.books, i, if ans.truth then RefundStatus.Completed else ExternalConfirmed, [])
                  && (x.Raised? <==> !ans.truth)
                else
                  && x.books.claims == b.claims
                  && if !ans.readBack then
                       x.Returned? && OnlyTouches(b, x.books, i, MutationUncertain,
                                                  [NewRecord(ExternalMutationUncertain, r), NewRecord(ExternalMutationUncertain, r)])
                     else
                       OnlyTouches(b, x.books, i, if ans.truth then RefundStatus.Completed else ExternalConfirmed,
                                   [NewRecord(ExternalMutationUncertain, r)])
                       && (x.Raised? <==> !ans.truth))
  {
    var r := b.refunds[i];
    var key := Key(r.orderId, r.amount, r.currency, reason);
    Unfound(b.provider, key);
    FoundLast(b.provider, key);
    assert b.log + [] == b.log;
  }

  /** The request is lost or refused: nothing is paid, and the read-back decides between a retry and doubt. */
  lemma NewRefundIsNotPaid(b: Books, i: nat, reason: string, ans: Answers)
    requires Executes(b, i) && ans.fate != Accept && ans.fate != TimeoutAfter
    requires var r := b.refunds[i];
             var key := Key(r.orderId, r.amount, r.currency, reason);
             key !in b.claims && forall k :: 0 <= k < |b.provider| ==> b.provider[k].key != key
    ensures var r := b.refunds[i];
            var x := Execute(true, b, i, reason, ans);
            && x.Returned? && x.books.provider == b.provider && x.books.claims == b.claims
            && (if ans.readBack then OnlyTouches(b, x.books, i, Permitted, [NewRecord(CategoryOf(ans.fate), r)])
                else OnlyTouches(b, x.books, i, MutationUncertain,
                                 [NewRecord(CategoryOf(ans.fate), r), NewRecord(ExternalMutationUncertain, r)]))
  {
    var r := b.refunds[i];
    Unfound(b.provider, Key(r.orderId, r.amount, r.currency, reason));
  }

  /** A refund the provider has already paid is not paid again, whatever becomes of the request. */
  lemma KnownRefundIsNotPaidAgain(b: Books, i: nat, reason: string, ans: Answers, k: nat)
    requires Executes(b, i) && k < |b.provider| && UniqueKeys(b.provider)
    requires var r := b.refunds[i];
             var key := Key(r.orderId, r.amount, r.currency, reason);
             key !in b.claims && b.provider[k] == ProviderRefund(key, true)
    ensures var r := b.refunds[i];
            var key := Key(r.orderId, r.amount, r.currency, reason);
            var x := Execute(true, b, i, reason, ans);
            && x.books.provider == b.provider
            && x.books.claims == (if ans.fate == Accept then b.claims[key := RefundClaim.Completed(k)] else b.claims)
            && var news := if ans.fate == Accept then [] else [NewRecord(CategoryOf(ans.fate), r)];
               if ans.fate != Accept && !ans.readBack then
                 x.Returned? && OnlyTouches(b, x.books, i, MutationUncertain, news + [NewRecord(ExternalMutationUncertain, r)])
               else
                 OnlyTouches(b, x.books, i, if ans.truth then RefundStatus.Completed else ExternalConfirmed, news)
                 && (x.Raised? <==> !ans.truth)
  {
    var r := b.refunds[i];
    var key := Key(r.orderId, r.amount, r.currency, reason);
    FoundIs(b.provider, key, k);
    assert b.log + [] == b.log;
  }

  lemma {:induction false} FoundIs(provider: seq<ProviderRefund>, key: Key, k: nat)
    requires UniqueKeys(provider) && k < |provider| && provider[k].key == key
    ensures FindRefund(provider, key) == Some(k)
  {
    if FindRefund(provider, key).None? {
      FindMisses(provider, key);
    }
  }

  /**
   Under a claim no request goes out: a completed one is reconciled against the refund it
   names, and one that was abandoned, or names no refund, makes the execution raise.
   */
  lemma ClaimAnswers(b: Books, i: nat, reason: string, ans: Answers)
    requires Executes(b, i)
    requires var r := b.refunds[i]; Key(r.orderId, r.amount, r.currency, reason) in b.claims
    ensures var r := b.refunds[i];
            var claim := b.claims[Key(r.orderId, r.amount, r.currency, reason)];
            var x := Execute(true, b, i, reason, ans);
            && x.books.provider == b.provider && x.books.claims == b.claims
            && (claim.Reserved? ==> x.Raised? && OnlyTouches(b, x.books, i, MutationSubmitted, []))
            && (claim.Completed? && claim.ref >= |b.provider| ==> x.Raised? && OnlyTouches(b, x.books, i, ExternalConfirmed, []))
            && (claim.Completed? && claim.ref < |b.provider| ==>
                  var paid := b.provider[claim.ref];
                  var matches := paid.key.amount == r.amount && paid.key.currency == r.currency && paid.succeeded;
                  && (x.Raised? <==> !ans.truth)
                  && OnlyTouches(b, x.books, i, if ans.truth && matches then RefundStatus.Completed else ExternalConfirmed,
                                 if ans.truth && !matches then [NewRecord(RefundReconciliationMismatch, r)] else []))
  {
    assert b.log + [] == b.log;
  }

  /** Without a connector execution raises; a refund in any other status is returned. Neither changes anything. */
  lemma NotExecuted(connected: bool, b: Books, i: nat, reason: string, ans: Answers)
    requires i < |b.refunds| && (!connected || !Executes(b, i))
    ensures Execute(connected, b, i, reason, ans) == if connected then Returned(b) else Raised(b)
  {
  }

  // ----- What adoption leaves ----------------------------------------------------------

  /**
   Below the limit a refund found under the empty reason is completed and its first open
   record resolved; one that does not match leaves a record instead. No other record changes.
   */
  lemma AdoptionIsExact(maxAttempts: int, b: Books, i: nat, ans: Answers, ref: nat)
    requires i < |b.refunds| && b.refunds[i].status == MutationUncertain && BelowLimit(maxAttempts, b, i) && ans.truth
    requires SeenByWorker(b, i) == Some(ref)
    ensures var r := b.refunds[i];
            var h := HandleRefund(maxAttempts, true, b, i, ans);
            var succeeded := b.provider[ref].succeeded;
            && !h.raised && h.books.provider == b.provider && h.books.claims == b.claims
            && h.books.refunds == b.refunds[i := if succeeded then r.(status := RefundStatus.Completed) else r]
            && |h.books.log| == |b.log| + (if succeeded then 0 else 1)
            && (!succeeded ==> h.books.log[|b.log|] == NewRecord(RefundReconciliationMismatch, r))
            && forall k :: 0 <= k < |b.log| ==>
                 h.books.log[k] == if OpenDoubt(b.log[k], r.id) && forall j :: 0 <= j < k ==> !OpenDoubt(b.log[j], r.id)
                                   then b.log[k].(status := Resolved) else b.log[k]
  {
    hide Doubts, FindRefund, Execute;
  }

  // ----- What the pass reports ---------------------------------------------------------

  /** How a refund in doubt stands before the pass. */
  datatype Kind = Failing | AtLimit | AtLimitClosed | Seen | Unseen

  function KindOf(maxAttempts: int, connected: bool, b: Books, j: int, ans: Answers): Kind
    requires 0 <= j < |b.refunds|
  {
    if Doubts(b.log, b.refunds[j].id) >= maxAttempts then (if OpenDoubts(b.log, b.refunds[j].id) > 0 then AtLimit else AtLimitClosed)
    else if !connected || !ans.truth then Failing
    else if SeenByWorker(b, j).Some? then Seen
    else Unseen
  }

  predicate InRange(b: Books, todo: seq<int>) {
    forall k :: 0 <= k < |todo| ==> 0 <= todo[k] < |b.refunds|
  }

  function Kinds(maxAttempts: int, connected: bool, b: Books, todo: seq<int>, answers: int -> Answers): (r: seq<Kind>)
    requires InRange(b, todo)
    ensures |r| == |todo|
  {
    seq(|todo|, k requires 0 <= k < |todo| => KindOf(maxAttempts, connected, b, todo[k], answers(todo[k])))
  }

  /** The pass ends with the first refund that fails. */
  function UpToFailure(kinds: seq<Kind>): seq<Kind> {
    if kinds == [] then []
    else if kinds[0].Failing? then [Failing]
    else [kinds[0]] + UpToFailure(kinds[1..])
  }

  lemma OneCounted(maxAttempts: int, connected: bool, b: Books, i: nat, ans: Answers)
    requires i < |b.refunds| && b.refunds[i].status == MutationUncertain
    ensures var h := HandleRefund(maxAttempts, connected, b, i, ans);
            var n, kind := h.counters, KindOf(maxAttempts, connected, b, i, ans);
            n == Counters(1, if kind == Seen then 1 else 0, 0, if kind == Unseen then 1 else 0, if kind == AtLimit then 1 else 0, 0)
            && (h.raised <==> kind == Failing)
  {
    hide Doubts, OpenDoubts, FirstOpen, FindRefund, Execute, EscalateFirst, Reconcile;
    OpenIffFound(b.log, b.refunds[i].id);
    if connected {
      InertRetry(b, i, ans);
    } else {
      Unconnected(b, i, DEFAULT_REASON, ans);
    }
  }

  /** Handling one refund leaves the others as they stand. */
  lemma KindStays(maxAttempts: int, connected: bool, b: Books, head: nat, answers: int -> Answers, j: nat)
    requires DistinctIds(b.refunds) && head < |b.refunds| && j < |b.refunds| && j != head
    requires b.refunds[head].status == MutationUncertain
    ensures var mid := HandleRefund(maxAttempts, connected, b, head, answers(head)).books;
            |mid.refunds| == |b.refunds| && mid.refunds[j] == b.refunds[j]
            && KindOf(maxAttempts, connected, mid, j, answers(j)) == KindOf(maxAttempts, connected, b, j, answers(j))
  {
    hide HandleRefund, Doubts, OpenDoubts, FindRefund, Outcome, Closed;
    HandleRefundAs(maxAttempts, connected, b, head, answers(head), j);
  }

  /** The counters of a pass, told from how the refunds it reached stood before. */
  ghost predicate Reported(n: Counters, reached: seq<Kind>) {
    && n.scanned == |reached|
    && n.escalated == multiset(reached)[AtLimit]
    && n.reconciled == multiset(reached)[Seen]
    && n.leftOpen == multiset(reached)[Unseen]
    && n.retried == 0 && n.flagged == 0
  }

  lemma ReportStep(kind: Kind, n: Counters, reached: seq<Kind>)
    requires Reported(n, reached)
    ensures Reported(Counters(1, if kind == Seen then 1 else 0, 0, if kind == Unseen then 1 else 0, if kind == AtLimit then 1 else 0, 0).Plus(n),
                     [kind] + reached)
  {
  }

  lemma KindsStay(maxAttempts: int, connected: bool, b: Books, todo: seq<int>, answers: int -> Answers)
    requires DistinctIds(b.refunds) && InRange(b, todo) && todo != [] && b.refunds[todo[0]].status == MutationUncertain
    requires forall k :: 0 < k < |todo| ==> todo[k] > todo[0]
    ensures var mid := HandleRefund(maxAttempts, connected, b, todo[0], answers(todo[0])).books;
            InRange(mid, todo[1..])
            && Kinds(maxAttempts, connected, mid, todo[1..], answers) == Kinds(maxAttempts, connected, b, todo, answers)[1..]
  {
    hide HandleRefund, KindOf, DistinctIds;
    var mid := HandleRefund(maxAttempts, connected, b, todo[0], answers(todo[0])).books;
    forall k | 0 <= k < |todo| - 1
      ensures Kinds(maxAttempts, connected, mid, todo[1..], answers)[k] == Kinds(maxAttempts, connected, b, todo, answers)[k + 1]
    {
      KindStays(maxAttempts, connected, b, todo[0], answers, todo[k + 1]);
    }
  }

  lemma {:induction false} RefundsOverReport(maxAttempts: int, connected: bool, b: Books, todo: seq<int>, answers: int -> Answers)
    requires DistinctIds(b.refunds) && InRange(b, todo)
    requires forall k :: k in todo ==> 0 <= k < |b.refunds| && b.refunds[k].status == MutationUncertain
    requires forall j, k :: 0 <= j < k < |todo| ==> todo[j] < todo[k]
    ensures Reported(RefundsOver(maxAttempts, connected, b, todo, answers).counters,
                     UpToFailure(Kinds(maxAttempts, connected, b, todo, answers)))
    decreases |todo|
  {
    if todo != [] {
      assert Reported(ZERO, []);
      hide HandleRefund, KindOf, Reported, DistinctIds, FailsUpTo, Fails;
      var head, tail := todo[0], todo[1..];
      assert head in todo;
      AscendingTail(todo);
      var h := HandleRefund(maxAttempts, connected, b, head, answers(head));
      OneCounted(maxAttempts, connected, b, head, answers(head));
      var kind := KindOf(maxAttempts, connected, b, head, answers(head));
      if h.raised {
        ReportStep(kind, ZERO, []);
        assert h.counters.Plus(ZERO) == h.counters && [kind] + [] == [Failing];
      } else {
        FailuresStay(maxAttempts, connected, b, head, tail, answers, 0);
        KindsStay(maxAttempts, connected, b, todo, answers);
        RefundsOverReport(maxAttempts, connected, h.books, tail, answers);
        ReportStep(kind, RefundsOver(maxAttempts, connected, h.books, tail, answers).counters,
                   UpToFailure(Kinds(maxAttempts, connected, h.books, tail, answers)));
      }
    }
  }

  /**
   What the refund pass reports, over the refunds in doubt up to the first that fails:
   escalated are those at the limit with an open record, reconciled those the provider holds
   under the empty reason, left open the others below the limit, and retried is always zero.
   */
  lemma RefundPassReport(maxAttempts: int, connected: bool, b: Books, answers: int -> Answers)
    requires DistinctIds(b.refunds)
    ensures InRange(b, InDoubt(b.refunds))
    ensures Reported(RefundPass(maxAttempts, connected, b, answers).counters,
                     UpToFailure(Kinds(maxAttempts, connected, b, InDoubt(b.refunds), answers)))
  {
    hide RefundsOver, Reported;
    assert forall k :: 0 <= k < |InDoubt(b.refunds)| ==> InDoubt(b.refunds)[k] in InDoubt(b.refunds);
    RefundsOverReport(maxAttempts, connected, b, InDoubt(b.refunds), answers);
  }

  // ----- Attempts, told from the log ---------------------------------------------------

  /** Where a refund's doubt records stand in the log; `open` asks for the open ones only. */
  function Doubtful(log: seq<Record>, id: string, open: bool): set<nat> {
    set k: nat | k < |log| && log[k].category == ExternalMutationUncertain && log[k].objectId == Some(id) && (open ==> log[k].status == Open)
  }

  lemma DoubtfulGrows(log: seq<Record>, r: Record, id: string, open: bool)
    ensures var mine := r.category == ExternalMutationUncertain && r.objectId == Some(id) && (open ==> r.status == Open);
            && Doubtful(log + [r], id, open) == Doubtful(log, id, open) + (if mine then {|log|} else {})
            && |Doubtful(log + [r], id, open)| == |Doubtful(log, id, open)| + (if mine then 1 else 0)
  {
    assert |log| !in Doubtful(log, id, open);
  }

  /** Attempts are the doubt records of a refund in whatever status. */
  lemma {:induction false} DoubtsAreRecords(log: seq<Record>, id: string)
    ensures Doubts(log, id) == |Doubtful(log, id, false)| && OpenDoubts(log, id) == |Doubtful(log, id, true)|
  {
    if log != [] {
      var n := |log| - 1;
      DoubtsAreRecords(log[..n], id);
      DoubtfulGrows(log[..n], log[n], id, false);
      DoubtfulGrows(log[..n], log[n], id, true);
      assert log == log[..n] + [log[n]];
      hide Doubtful;
    }
  }
}
