/**
 What recovery of purchase orders guarantees over any number of passes, and exactly
 where the promises in the worker's own comments stop holding.
 */
module RecoveryGuarantees {
  import opened Common
  import opened Exceptions
  import opened Recovery
  import opened RecoveryView

  // ----- Shapes after a pass -----------------------------------------------------------

  /**
   `Settled`: SUBMITTED, nothing open. `Pending`: still to submit, one fresh open record.
   `Exhausted`: at the attempt limit, every open record critical. `Dropped`: still not
   SUBMITTED and yet nothing open, so no later pass will look at it.
   */
  datatype Shape = Settled | Pending | Exhausted | Dropped | Unhandled

  function ShapeOf(c: Config, v: View): Shape {
    if v.po.None? then Unhandled
    else if v.po.value.status == Submitted then (if v.open == [] then Settled else Unhandled)
    else if v.open == [] then Dropped
    else if v.open == [Warning] && v.attempts <= c.maxAttempts then Pending
    else if v.attempts >= c.maxAttempts && v.open == Criticals(|v.open|) then Exhausted
    else Unhandled
  }

  predicate AtSupplier(c: Config, v: View) {
    c.connected && v.held > 0
  }

  /**
   The pass gets to the order and handles it without raising there, whatever it meets
   behind it.
   */
  predicate Handles(c: Config, w: World, answers: string -> Answers, id: string) {
    Reached(c, w, answers, id) && !HandleStep(c, Of(w, id), id, answers(id)).1
  }

  /**
   The shape of every purchase order a pass handles, by conditions on the state before
   it. The worker's comment promises that a failed retry leaves one fresh record; that
   fails exactly in the last case: the supplier answered 429 or 5xx, or the order was
   not in a state `submit_purchase_order` submits.
   */
  lemma PassShapes(c: Config, w: World, answers: string -> Answers, id: string)
    requires Handles(c, w, answers, id)
    ensures var v := Of(w, id);
            var after := ShapeOf(c, Of(PoPass(c, w, answers).world, id));
            var ans := answers(id);
            v.po.Some? &&
            var status := v.po.value.status;
            var retried := status != Submitted && v.attempts < c.maxAttempts && !AtSupplier(c, v);
            && after != Unhandled
            && (after == Settled <==>
                status == Submitted
                || (v.attempts < c.maxAttempts && AtSupplier(c, v))
                || (retried && Submittable(status) && (v.claim.Some? || ans.fate == Accept || ans.fate == TimeoutAfter)))
            && (after == Exhausted <==> status != Submitted && v.attempts >= c.maxAttempts)
            && (after == Pending <==> retried && Submittable(status) && v.claim.None? && ans.fate == TimeoutBefore)
            && (after == Dropped <==>
                retried && (!Submittable(status) || (v.claim.None? && (ans.fate == RateLimit || ans.fate == ServerError))))
  {
    OpenIdsExact(w.log);
    PassView(c, w, answers, id);
    var n := |Of(w, id).open|;
    assert Criticals(n)[0] == Critical && [Warning][0] == Warning;
  }

  /** A step that leaves an order pending, whatever it was before, cost it one request and one attempt. */
  lemma PendingIsFresh(c: Config, v: View, id: string, ans: Answers)
    requires v.open != [] && id != ""
    requires !HandleStep(c, v, id, ans).1
    requires ShapeOf(c, ViewStep(c, v, id, ans)) == Pending
    ensures ViewStep(c, v, id, ans).attempts == v.attempts + 1
    ensures ViewStep(c, v, id, ans).requests == v.requests + 1
  {
    assert |v.open| > 0 && Criticals(|v.open|)[0] == Critical;
  }

  lemma {:induction false} AbsentStays(c: Config, w: World, ids: seq<string>, answers: string -> Answers, id: string)
    requires id !in ids
    ensures OpenIndices(PassOver(c, w, ids, answers).world.log, id) == OpenIndices(w.log, id)
    decreases |ids|
  {
    hide HandlePo, OpenIndices;
    if ids != [] {
      HandleOthers(c, w, ids[0], answers(ids[0]), id);
      AbsentStays(c, HandlePo(c, w, ids[0], answers(ids[0])).world, ids[1..], answers, id);
    }
  }

  lemma LogGrows(c: Config, w: World, id: string, ans: Answers)
    ensures |HandlePo(c, w, id, ans).world.log| >= |w.log|
  {
  }

  /** Handling that leaves an order pending resolves its records and appends one. */
  lemma HandlingAppends(c: Config, w: World, id: string, ans: Answers)
    requires id in w.pos && OpenSeverities(w.log, id) != [] && !HandlePo(c, w, id, ans).verdict.Raises()
    requires ShapeOf(c, Of(HandlePo(c, w, id, ans).world, id)) == Pending
    ensures var after := HandlePo(c, w, id, ans).world.log;
            OpenIndices(after, id) == [|w.log|] && |after| == |w.log| + 1 && after[|w.log|] == Fresh(PoSubmissionUncertain, id)
  {
    hide Attempts, OpenSeverities, ResolveBefore, EscalateAll, OpenIndices;
    HandleOwn(c, w, id, ans);
    var h := HandlePo(c, w, id, ans);
    var n := |OpenSeverities(w.log, id)|;
    assert Criticals(n)[0] == Critical;
    assert NeedsRetry(c, w, id, ans);
    RetryLogIs(c, w, id, ans);
    assert InVain(c, w, id, ans) && ans.fate == TimeoutBefore;
    ResolvedIndices(w.log, Fresh(PoSubmissionUncertain, id), id);
  }

  lemma ResolvedIndices(log: seq<Record>, r: Record, id: string)
    requires OpenFor(r, id)
    ensures var after := ResolveBefore(log + [r], id, |log|);
            OpenIndices(after, id) == [|log|] && |after| == |log| + 1 && after[|log|] == r
  {
    var after := ResolveBefore(log + [r], id, |log|);
    assert after[..|log|] == ResolveBefore(log, id, |log|);
    ResolveOwn(log, id, |log|);
    IndicesMatchSeverities(ResolveBefore(log, id, |log|), id);
  }

  lemma {:induction false} PassAppends(c: Config, w: World, ids: seq<string>, answers: string -> Answers, id: string) returns (k: nat)
    requires Distinct(ids) && OpenSeverities(w.log, id) != []
    requires ReachedIn(c, w, ids, answers, id) && !HandleStep(c, Of(w, id), id, answers(id)).1
    requires ShapeOf(c, Of(PassOver(c, w, ids, answers).world, id)) == Pending
    ensures k >= |w.log| && OpenIndices(PassOver(c, w, ids, answers).world.log, id) == [k]
    decreases |ids|
  {
    hide HandlePo, OpenIndices, OpenSeverities, ShapeOf, HandleStep;
    var head, tail := ids[0], ids[1..];
    var h := HandlePo(c, w, head, answers(head));
    LogGrows(c, w, head, answers(head));
    HandleOwn(c, w, head, answers(head));
    if head == id {
      PassOverView(c, h.world, tail, answers, id);
      ReachedIsGrouped(c, h.world, tail, answers, id);
      assert id in w.pos by { NotMissing(c, w, id, answers(id)); }
      HandlingAppends(c, w, id, answers(id));
      AbsentStays(c, h.world, tail, answers, id);
      k := |w.log|;
    } else {
      ReachedIsGrouped(c, w, tail, answers, id);
      forall q | q in tail ensures Of(h.world, q) == Of(w, q) {
        HandleOthers(c, w, head, answers(head), q);
      }
      ReachedSame(c, w, h.world, tail, answers, id);
      OpenOf(w, id);
      OpenOf(h.world, id);
      k := PassAppends(c, h.world, tail, answers, id);
    }
  }

  lemma NotMissing(c: Config, w: World, id: string, ans: Answers)
    requires !HandlePo(c, w, id, ans).verdict.Raises()
    ensures id in w.pos
  {
  }

  /**
   An order that a pass handled and left pending has exactly one open record, and that record
   was appended by this very pass, whatever records the order had before.
   */
  lemma PendingRecordIsNew(c: Config, w: World, answers: string -> Answers, id: string) returns (k: nat)
    requires Handles(c, w, answers, id)
    requires ShapeOf(c, Of(PoPass(c, w, answers).world, id)) == Pending
    ensures k >= |w.log| && OpenIndices(PoPass(c, w, answers).world.log, id) == [k]
    ensures Attempts(PoPass(c, w, answers).world.log, id) == Attempts(w.log, id) + 1
  {
    hide HandleStep, ShapeOf, PassOver;
    OpenIdsExact(w.log);
    PassView(c, w, answers, id);
    k := PassAppends(c, w, OpenIds(w.log), answers, id);
    PendingIsFresh(c, Of(w, id), id, answers(id));
  }

  // ----- Sequences of passes -----------------------------------------------------------

  function Passes(c: Config, w: World, rounds: seq<string -> Answers>): World
    decreases |rounds|
  {
    if rounds == [] then w else Passes(c, PoPass(c, w, rounds[0]).world, rounds[1..])
  }

  /** Once nothing is open for an order, no pass ever looks at it again. */
  lemma {:induction false} ClosedForever(c: Config, w: World, rounds: seq<string -> Answers>, id: string)
    requires OpenSeverities(w.log, id) == []
    ensures Of(Passes(c, w, rounds), id) == Of(w, id)
    decreases |rounds|
  {
    if rounds != [] {
      PassView(c, w, rounds[0], id);
      ClosedForever(c, PoPass(c, w, rounds[0]).world, rounds[1..], id);
    }
  }

  // ----- Bounded retries ---------------------------------------------------------------

  /**
   One thing that can happen between two looks at the world: a pass, or an outside change of
   the orders, the claims and what the supplier holds that adds no doubt record.
   */
  datatype Event = Pass(answers: string -> Answers) | Outside(pos: map<string, Po>, claims: map<string, Claim>, held: map<string, nat>)

  function Apply(c: Config, w: World, e: Event): World {
    match e
    case Pass(answers) => PoPass(c, w, answers).world
    case Outside(pos, claims, held) => w.(pos := pos, claims := claims, supplier := w.supplier.(held := held))
  }

  function Run(c: Config, w: World, events: seq<Event>): World
    decreases |events|
  {
    if events == [] then w else Run(c, Apply(c, w, events[0]), events[1..])
  }

  function Max(a: int, b: int): int {
    if a >= b then a else b
  }

  /** An order in doubt, below the limit, that is to be sent: the supplier does not hold it and no claim answers for it. */
  predicate ToBeSent(c: Config, v: View, id: string) {
    c.connected && id != "" && v.open != [] && v.po.Some? && Submittable(v.po.value.status)
    && v.attempts < c.maxAttempts && v.held == 0 && v.claim.None?
  }

  /** A step that sends a request: the order is to be sent, and external truth could be read. */
  predicate Sends(c: Config, v: View, id: string, ans: Answers) {
    ToBeSent(c, v, id) && ans.truth
  }

  /** The request timed out and the read-back failed: nothing at all was recorded. */
  predicate Unrecorded(c: Config, v: View, id: string, ans: Answers) {
    Sends(c, v, id, ans) && (ans.fate == TimeoutBefore || ans.fate == TimeoutAfter) && !ans.readBack
  }

  /** The request ended the doubt: it took effect, or the supplier refused it. */
  predicate Closing(c: Config, v: View, id: string, ans: Answers) {
    Sends(c, v, id, ans) && ans.fate != TimeoutBefore && (ans.fate == TimeoutAfter ==> ans.readBack)
  }

  function One(b: bool): nat {
    if b then 1 else 0
  }

  /** How many passes of a run sent a request of which nothing was recorded. */
  function UnrecordedSends(c: Config, w: World, events: seq<Event>, id: string): nat
    decreases |events|
  {
    if events == [] then 0
    else
      var e := events[0];
      One(e.Pass? && Reached(c, w, e.answers, id) && Unrecorded(c, Of(w, id), id, e.answers(id)))
      + UnrecordedSends(c, Apply(c, w, e), events[1..], id)
  }

  function ClosingSends(c: Config, w: World, events: seq<Event>, id: string): nat
    decreases |events|
  {
    if events == [] then 0
    else
      var e := events[0];
      One(e.Pass? && Reached(c, w, e.answers, id) && Closing(c, Of(w, id), id, e.answers(id)))
      + ClosingSends(c, Apply(c, w, e), events[1..], id)
  }

  /** Attempts never pass the limit, or what they were if that was more. */
  function Ceiling(c: Config, v: View): int {
    Max(c.maxAttempts, v.attempts)
  }

  /** Each request costs one attempt, or went unrecorded, or closed the doubt, and only one of these. */
  lemma StepAccounts(c: Config, v: View, id: string, ans: Answers)
    ensures var after := ViewStep(c, v, id, ans);
            && after.requests == v.requests + (after.attempts - v.attempts) + One(Unrecorded(c, v, id, ans)) + One(Closing(c, v, id, ans))
            && v.attempts <= after.attempts <= Ceiling(c, v)
            && (v.open == [] ==> after.open == [] && after.requests == v.requests)
            && (Closing(c, v, id, ans) ==> after.attempts == v.attempts < c.maxAttempts && v.open != [] && after.open == [])
            && (after.open == [] && !Closing(c, v, id, ans) ==> after.requests == v.requests)
  {
    assert |v.open| > 0 ==> Criticals(|v.open|)[0] == Critical;
  }

  lemma EventAccounts(c: Config, w: World, e: Event, id: string)
    ensures var v, after := Of(w, id), Of(Apply(c, w, e), id);
            var mine := e.Pass? && Reached(c, w, e.answers, id);
            var unrecorded, closing := mine && Unrecorded(c, v, id, e.answers(id)), mine && Closing(c, v, id, e.answers(id));
            && after.requests == v.requests + (after.attempts - v.attempts) + One(unrecorded) + One(closing)
            && v.attempts <= after.attempts <= Ceiling(c, v)
            && (v.open == [] ==> after.open == [] && after.requests == v.requests)
            && (closing ==> after.attempts == v.attempts < c.maxAttempts && after.open == [])
  {
    hide PoPass, HandleStep, Reached;
    if e.Pass? {
      PassView(c, w, e.answers, id);
      StepAccounts(c, Of(w, id), id, e.answers(id));
    }
  }

  /** Once nothing is open for an order, no run sends anything for it. */
  lemma {:induction false} ClosedSendsNothing(c: Config, w: World, events: seq<Event>, id: string)
    requires Of(w, id).open == []
    ensures Of(Run(c, w, events), id).requests == Of(w, id).requests
    ensures UnrecordedSends(c, w, events, id) == 0 && ClosingSends(c, w, events, id) == 0
    ensures Of(Run(c, w, events), id).attempts == Of(w, id).attempts
    decreases |events|
  {
    hide PoPass, Of, Reached, Apply;
    if events != [] {
      EventAccounts(c, w, events[0], id);
      ClosedSendsNothing(c, Apply(c, w, events[0]), events[1..], id);
    }
  }

  /**
   Where every request of a run went, over passes, outside changes and every behaviour of the
   supplier: it cost an attempt, or nothing of it was recorded, or it closed the doubt, which
   happens once at most.
   */
  lemma {:induction false} RequestsAreAccounted(c: Config, w: World, events: seq<Event>, id: string)
    ensures var before, after := Of(w, id), Of(Run(c, w, events), id);
            var unrecorded, closing := UnrecordedSends(c, w, events, id), ClosingSends(c, w, events, id);
            && after.requests == before.requests + (after.attempts - before.attempts) + unrecorded + closing
            && before.attempts <= after.attempts <= Ceiling(c, before) && closing <= 1
            && (closing == 1 ==> after.attempts < c.maxAttempts)
    decreases |events|
  {
    hide PoPass, Of, Reached, Apply;
    if events != [] {
      var next := Apply(c, w, events[0]);
      EventAccounts(c, w, events[0], id);
      if Of(next, id).open == [] {
        ClosedSendsNothing(c, next, events[1..], id);
      }
      RequestsAreAccounted(c, next, events[1..], id);
    }
  }

  /**
   The bound on retries, over every run: the limit minus the records the order already had,
   and on top of that one request for every pass whose request timed out with a read-back
   that failed. Without such a pass it is the bound the worker promises.
   */
  lemma RetriesAreBounded(c: Config, w: World, events: seq<Event>, id: string)
    ensures Of(Run(c, w, events), id).requests
            <= Of(w, id).requests + Max(0, c.maxAttempts - Attempts(w.log, id)) + UnrecordedSends(c, w, events, id)
  {
    hide Run, Attempts, OpenSeverities, UnrecordedSends, ClosingSends;
    RequestsAreAccounted(c, w, events, id);
  }

  /** The order a pass looks at first, to be sent and not at the supplier, below the limit. */
  predicate FirstToSend(c: Config, w: World, id: string) {
    c.connected && OpenIds(w.log) != [] && OpenIds(w.log)[0] == id
    && id in w.pos && Submittable(w.pos[id].status) && id !in w.claims
    && CountOf(w.supplier.held, id) == 0 && Attempts(w.log, id) < c.maxAttempts
  }

  /**
   Such passes are unlimited: while requests are lost and the read-back fails, every pass
   sends one more and spends no attempt, so that the promised bound fails after enough of them.
   */
  lemma {:induction false} UnrecordedSendsAreUnlimited(c: Config, w: World, rounds: seq<string -> Answers>, id: string)
    requires FirstToSend(c, w, id)
    requires forall i :: 0 <= i < |rounds| ==> rounds[i](id) == Answers(true, TimeoutBefore, false)
    ensures var after := Passes(c, w, rounds);
            Of(after, id) == Of(w, id).(requests := CountOf(w.supplier.requests, id) + |rounds|) && after.log == w.log
    decreases |rounds|
  {
    hide OpenIds, Attempts, OpenSeverities;
    if rounds != [] {
      assert rounds[0](id) == Answers(true, TimeoutBefore, false);
      var h := HandlePo(c, w, id, rounds[0](id));
      assert h == Handled(w.(supplier := Requested(w.supplier, id)), SubmitFailed);
      assert PoPass(c, w, rounds[0]).world == h.world;
      UnrecordedSendsAreUnlimited(c, h.world, rounds[1..], id);
    }
  }

  /** A step sends one request exactly for an order that is to be sent and was seen not to be at the supplier. */
  lemma StepSendsOnce(c: Config, v: View, id: string, ans: Answers)
    ensures var after := ViewStep(c, v, id, ans);
            && after.requests == v.requests + One(Sends(c, v, id, ans))
            && after.held <= Max(v.held, 1)
  {
  }

  /** A pass sends at most one request for an order, and sends it exactly after external truth was read and showed nothing, below the limit. */
  lemma RequestsFollowATruthRead(c: Config, w: World, answers: string -> Answers, id: string)
    ensures var before, after := Of(w, id), Of(PoPass(c, w, answers).world, id);
            && after.requests == before.requests + One(Reached(c, w, answers, id) && Sends(c, before, id, answers(id)))
            && after.held <= Max(before.held, 1)
  {
    hide PoPass, ViewStep, Reached, Of, Sends;
    PassView(c, w, answers, id);
    StepSendsOnce(c, Of(w, id), id, answers(id));
  }

  // ----- When a pass raises --------------------------------------------------------------

  /**
   An order that raises whenever a pass gets to it, whatever the supplier answers: it is
   missing, or it would have to be sent and cannot, because no supplier is wired up or a
   crash abandoned its claim.
   */
  predicate Stuck(c: Config, v: View, id: string) {
    id != "" && v.open != []
    && (v.po.None?
        || (v.po.value.status != Submitted && v.attempts < c.maxAttempts && !AtSupplier(c, v) && Submittable(v.po.value.status)
            && (!c.connected || v.claim == Some(Reserved))))
  }

  /** A read of external truth that fails this time: the worker's own, or the read-back after a timeout. */
  predicate Unread(c: Config, v: View, id: string, ans: Answers) {
    id != "" && v.open != [] && c.connected
    && v.po.Some? && v.po.value.status != Submitted && v.attempts < c.maxAttempts
    && (!ans.truth || Unrecorded(c, v, id, ans))
  }

  lemma StepRaisesExactly(c: Config, v: View, id: string, ans: Answers)
    requires id != "" && v.open != []
    ensures HandleStep(c, v, id, ans).1 <==> Stuck(c, v, id) || Unread(c, v, id, ans)
  {
  }

  /** A pass raises exactly when an order is stuck or a read it makes fails. */
  lemma RaisesExactly(c: Config, w: World, answers: string -> Answers)
    ensures PoPass(c, w, answers).raised <==>
            exists id :: Stuck(c, Of(w, id), id) || Unread(c, Of(w, id), id, answers(id))
  {
    hide HandleStep, PoPass, Of;
    PassView(c, w, answers, "");
    OpenIdsExact(w.log);
    forall id | id in OpenIds(w.log)
      ensures HandleStep(c, Of(w, id), id, answers(id)).1 <==> Stuck(c, Of(w, id), id) || Unread(c, Of(w, id), id, answers(id))
    {
      OpenOf(w, id);
      StepRaisesExactly(c, Of(w, id), id, answers(id));
    }
    forall id | Stuck(c, Of(w, id), id) || Unread(c, Of(w, id), id, answers(id))
      ensures id in OpenIds(w.log)
    {
      OpenOf(w, id);
    }
  }

  lemma OpenOf(w: World, id: string)
    ensures Of(w, id).open == OpenSeverities(w.log, id)
  {
  }

  /** A stuck order stays as it is, and no step makes an order stuck. */
  lemma StuckStays(c: Config, v: View, id: string, ans: Answers)
    ensures Stuck(c, v, id) ==> ViewStep(c, v, id, ans) == v
    ensures Stuck(c, v, id) <==> Stuck(c, ViewStep(c, v, id, ans), id)
  {
    assert |v.open| > 0 ==> Criticals(|v.open|)[0] == Critical;
  }

  lemma {:induction false} StuckForGood(c: Config, w: World, rounds: seq<string -> Answers>, id: string)
    ensures Stuck(c, Of(Passes(c, w, rounds), id), id) <==> Stuck(c, Of(w, id), id)
    ensures Stuck(c, Of(w, id), id) ==> Of(Passes(c, w, rounds), id) == Of(w, id)
    decreases |rounds|
  {
    hide PoPass, Of, Stuck, ViewStep, Reached;
    if rounds != [] {
      PassView(c, w, rounds[0], id);
      StuckStays(c, Of(w, id), id, rounds[0](id));
      StuckForGood(c, PoPass(c, w, rounds[0]).world, rounds[1..], id);
    }
  }

  /**
   After any passes whatever, the next one raises exactly when some order was stuck from the
   beginning or a read fails now. So one stuck order, wherever it stands among the groups,
   makes every pass of its merchant raise for ever, and nothing else does.
   */
  lemma StuckRaisesForEver(c: Config, w: World, rounds: seq<string -> Answers>, answers: string -> Answers)
    ensures var now := Passes(c, w, rounds);
            PoPass(c, now, answers).raised <==>
            (exists id :: Stuck(c, Of(w, id), id)) || exists id :: Unread(c, Of(now, id), id, answers(id))
  {
    hide PoPass, Of, Stuck, Unread, Passes;
    RaisesExactly(c, Passes(c, w, rounds), answers);
    forall id
      ensures Stuck(c, Of(Passes(c, w, rounds), id), id) <==> Stuck(c, Of(w, id), id)
    {
      StuckForGood(c, w, rounds, id);
    }
  }

  /** All reads get through. */
  ghost predicate Clear(answers: string -> Answers) {
    forall id :: answers(id).truth && answers(id).readBack
  }

  /** With reads that get through, every later pass raises if and only if some order is stuck now. */
  lemma StuckRaisesExactly(c: Config, w: World, rounds: seq<string -> Answers>, answers: string -> Answers)
    requires Clear(answers)
    ensures PoPass(c, Passes(c, w, rounds), answers).raised <==> exists id :: Stuck(c, Of(w, id), id)
  {
    hide PoPass, Of, Stuck, Passes;
    StuckRaisesForEver(c, w, rounds, answers);
  }

  /** If it is the first group that is stuck, nothing at all changes any more. */
  lemma {:induction false} OneRaiserBlocksTheMerchant(c: Config, w: World, rounds: seq<string -> Answers>)
    requires OpenIds(w.log) != [] && Stuck(c, Of(w, OpenIds(w.log)[0]), OpenIds(w.log)[0])
    ensures Passes(c, w, rounds) == w
    ensures forall answers: string -> Answers :: PoPass(c, w, answers).raised
    decreases |rounds|
  {
    if rounds != [] {
      assert PoPass(c, w, rounds[0]).world == w by { StuckChangesNothing(c, w, OpenIds(w.log)[0], rounds[0](OpenIds(w.log)[0])); }
      OneRaiserBlocksTheMerchant(c, w, rounds[1..]);
    }
    forall answers: string -> Answers ensures PoPass(c, w, answers).raised {
      RaisesExactly(c, w, answers);
    }
  }

  lemma StuckChangesNothing(c: Config, w: World, id: string, ans: Answers)
    requires Stuck(c, Of(w, id), id)
    ensures HandlePo(c, w, id, ans).world == w && HandlePo(c, w, id, ans).verdict.Raises()
  {
    hide Attempts, OpenSeverities;
  }

  /** No order of this world is stuck: the supplier is wired up, no claim was abandoned, no record dangles. */
  ghost predicate Sound(c: Config, w: World) {
    && c.connected
    && (forall id :: id in w.claims ==> w.claims[id].Completed?)
    && (forall id :: id in OpenIds(w.log) ==> id in w.pos)
  }

  predicate SoundView(v: View, id: string) {
    (v.open != [] && id != "" ==> v.po.Some?) && v.claim != Some(Reserved)
  }

  lemma SoundMeans(c: Config, w: World)
    ensures Sound(c, w) <==> c.connected && forall id :: SoundView(Of(w, id), id)
  {
    OpenIdsExact(w.log);
    if c.connected && forall id :: SoundView(Of(w, id), id) {
      forall id | id in w.claims ensures w.claims[id].Completed? {
        assert SoundView(Of(w, id), id);
      }
      forall id | id in OpenIds(w.log) ensures id in w.pos {
        assert SoundView(Of(w, id), id);
      }
    }
  }

  lemma SoundStep(c: Config, v: View, id: string, ans: Answers)
    requires SoundView(v, id)
    ensures SoundView(ViewStep(c, v, id, ans), id)
    ensures c.connected ==> !Stuck(c, v, id)
  {
  }

  /** A sound world stays sound, and its passes raise exactly when a read fails. */
  lemma SoundPasses(c: Config, w: World, answers: string -> Answers)
    requires Sound(c, w)
    ensures PoPass(c, w, answers).raised <==> exists id :: Unread(c, Of(w, id), id, answers(id))
    ensures Sound(c, PoPass(c, w, answers).world)
  {
    hide PoPass, Of, Stuck, Unread, SoundView, Sound, ViewStep, Reached;
    var after := PoPass(c, w, answers).world;
    SoundMeans(c, w);
    SoundMeans(c, after);
    RaisesExactly(c, w, answers);
    assert c.connected by { SoundConnects(c, w); }
    forall id ensures SoundView(Of(after, id), id) && !Stuck(c, Of(w, id), id) {
      PassView(c, w, answers, id);
      SoundStep(c, Of(w, id), id, answers(id));
    }
  }

  lemma SoundConnects(c: Config, w: World)
    requires Sound(c, w)
    ensures c.connected
  {
  }

  // ----- Dropping out ------------------------------------------------------------------

  /**
   An approved order whose retry the supplier refuses leaves recovery unsubmitted and below
   the attempt limit: however many passes follow, and whatever the supplier would answer,
   it stays approved and is never looked at again.
   */
  lemma RefusalDropsOut(c: Config, w: World, answers: string -> Answers, rounds: seq<string -> Answers>, id: string)
    requires Reached(c, w, answers, id) && answers(id).truth && c.connected
    requires id in w.pos && Submittable(w.pos[id].status) && id !in w.claims
    requires Attempts(w.log, id) < c.maxAttempts && CountOf(w.supplier.held, id) == 0
    requires answers(id).fate == RateLimit || answers(id).fate == ServerError
    ensures var after := Passes(c, PoPass(c, w, answers).world, rounds);
            && id in after.pos && after.pos[id] == w.pos[id]
            && id !in OpenIds(after.log) && Attempts(after.log, id) < c.maxAttempts
  {
    var dropped := PoPass(c, w, answers).world;
    OpenIdsExact(w.log);
    PassView(c, w, answers, id);
    ClosedForever(c, dropped, rounds, id);
    OpenIdsExact(Passes(c, dropped, rounds).log);
    assert Of(Passes(c, dropped, rounds), id).po == Some(w.pos[id]);
  }

  /** Such a state exists: one approved order with one open record. */
  lemma OneRefusalIsEnough(rounds: seq<string -> Answers>)
    ensures var c := Config(5, true, true);
            var w := World(map["po1" := Po(Approved, None)], [Fresh(PoSubmissionUncertain, "po1")], map[], Supplier(map[], map[]));
            var refused: string -> Answers := _ => Answers(true, RateLimit, true);
            var after := Passes(c, PoPass(c, w, refused).world, rounds);
            OpenIds(w.log) == ["po1"] && "po1" in after.pos && after.pos["po1"].status == Approved && "po1" !in OpenIds(after.log)
  {
    hide PoPass, Passes;
    var c := Config(5, true, true);
    var refused: string -> Answers := _ => Answers(true, RateLimit, true);
    var log := [Fresh(PoSubmissionUncertain, "po1")];
    var w := World(map["po1" := Po(Approved, None)], log, map[], Supplier(map[], map[]));
    assert log[..0] == [] && OpenIds(log) == ["po1"];
    SoundPasses(c, w, refused);
    RefusalDropsOut(c, w, refused, rounds, "po1");
  }

  // ----- Status regression -------------------------------------------------------------

  /** The states a purchase order passes through after SUBMITTED. */
  predicate PastSubmitted(status: PoStatus) {
    status in {PoStatus.Acknowledged, PartiallyConfirmed, Confirmed, OverConfirmed, Inbound, PartiallyReceived, Received, Reconciled, Closed}
  }

  /**
   An order that has moved on keeps its state through a pass, except that adopting external
   truth sets it back to SUBMITTED: exactly when the pass gets to it, a doubt record is still
   open below the limit, and the supplier can be read and holds the order.
   */
  lemma ProgressIsLostExactlyOnAdoption(c: Config, w: World, answers: string -> Answers, id: string)
    requires id in w.pos && PastSubmitted(w.pos[id].status)
    ensures id in PoPass(c, w, answers).world.pos
    ensures var after := PoPass(c, w, answers).world.pos[id].status;
            var regresses := Reached(c, w, answers, id) && Attempts(w.log, id) < c.maxAttempts
                             && c.connected && answers(id).truth && CountOf(w.supplier.held, id) > 0;
            after == if regresses then Submitted else w.pos[id].status
  {
    OpenIdsExact(w.log);
    PassView(c, w, answers, id);
    var after := PoPass(c, w, answers).world;
    assert Of(after, id).po.Some?;
  }

  // ----- Worlds that meet the conditions -----------------------------------------------

  function OneOrder(po: Po, held: nat): World {
    World(map["po1" := po], [Fresh(PoSubmissionUncertain, "po1")], map[], Supplier(map["po1" := held], map[]))
  }

  lemma OneOrderIsOpen(po: Po, held: nat)
    ensures var w := OneOrder(po, held);
            OpenIds(w.log) == ["po1"] && Attempts(w.log, "po1") == 1 && OpenSeverities(w.log, "po1") == [Warning]
  {
    var log := [Fresh(PoSubmissionUncertain, "po1")];
    assert log[..0] == [];
  }

  /** A confirmed order that the supplier holds falls back to SUBMITTED. */
  lemma OneConfirmedOrderFallsBack()
    ensures var w := OneOrder(Po(Confirmed, None), 1);
            var after := PoPass(Config(5, true, true), w, _ => Answers(true, Accept, true)).world;
            "po1" in after.pos && after.pos["po1"].status == Submitted
  {
    hide PoPass, Attempts, OpenIds, OpenSeverities;
    var w, c := OneOrder(Po(Confirmed, None), 1), Config(5, true, true);
    OneOrderIsOpen(Po(Confirmed, None), 1);
    ProgressIsLostExactlyOnAdoption(c, w, _ => Answers(true, Accept, true), "po1");
  }

  /** An approved order whose claim a crash abandoned is stuck: every pass raises. */
  lemma OneAbandonedClaimIsEnough(rounds: seq<string -> Answers>, answers: string -> Answers)
    ensures var w := OneOrder(Po(Approved, None), 0).(claims := map["po1" := Reserved]);
            PoPass(Config(5, true, true), Passes(Config(5, true, true), w, rounds), answers).raised
  {
    hide PoPass, Passes, Attempts, OpenSeverities;
    var w := OneOrder(Po(Approved, None), 0).(claims := map["po1" := Reserved]);
    OneOrderIsOpen(Po(Approved, None), 0);
    assert Stuck(Config(5, true, true), Of(w, "po1"), "po1");
    StuckRaisesForEver(Config(5, true, true), w, rounds, answers);
  }

  /** Six requests for an order with four attempts left, when requests are lost and read-backs fail. */
  lemma SixRequestsForFourAttempts()
    ensures var c, w := Config(5, true, true), OneOrder(Po(Approved, None), 0);
            var rounds: seq<string -> Answers> := seq(6, _ => (_ => Answers(true, TimeoutBefore, false)));
            Of(Passes(c, w, rounds), "po1").requests == 6 && Max(0, c.maxAttempts - Attempts(w.log, "po1")) == 4
  {
    hide Passes, Attempts, OpenIds, OpenSeverities;
    var c, w := Config(5, true, true), OneOrder(Po(Approved, None), 0);
    var rounds: seq<string -> Answers> := seq(6, _ => (_ => Answers(true, TimeoutBefore, false)));
    OneOrderIsOpen(Po(Approved, None), 0);
    UnrecordedSendsAreUnlimited(c, w, rounds, "po1");
  }

  // ----- Counters ----------------------------------------------------------------------

  function TotalOpen(log: seq<Record>, ids: seq<string>): nat {
    if ids == [] then 0 else |OpenIndices(log, ids[0])| + TotalOpen(log, ids[1..])
  }

  lemma {:induction false} TotalOpenSame(a: seq<Record>, b: seq<Record>, ids: seq<string>)
    requires forall q :: q in ids ==> OpenIndices(a, q) == OpenIndices(b, q)
    ensures TotalOpen(a, ids) == TotalOpen(b, ids)
  {
    if ids != [] {
      TotalOpenSame(a, b, ids[1..]);
    }
  }

  lemma {:induction false} PassOverCounters(c: Config, w: World, ids: seq<string>, answers: string -> Answers)
    requires Distinct(ids)
    requires !PassOver(c, w, ids, answers).raised
    ensures var n := PassOver(c, w, ids, answers).counters;
            && n.reconciled + n.retried + n.leftOpen + n.escalated == |ids|
            && n.scanned == TotalOpen(w.log, ids) && n.flagged == 0
    decreases |ids|
  {
    if ids != [] {
      var h := HandlePo(c, w, ids[0], answers(ids[0]));
      forall q | q in ids[1..]
        ensures OpenIndices(h.world.log, q) == OpenIndices(w.log, q)
      {
        HandleOthers(c, w, ids[0], answers(ids[0]), q);
      }
      TotalOpenSame(h.world.log, w.log, ids[1..]);
      PassOverCounters(c, h.world, ids[1..], answers);
    }
  }

  /** The four outcomes partition the groups, and every open record of a group is scanned once. */
  lemma CountersPartitionTheGroups(c: Config, w: World, answers: string -> Answers)
    requires !PoPass(c, w, answers).raised
    ensures var n := PoPass(c, w, answers).counters;
            && n.reconciled + n.retried + n.leftOpen + n.escalated == |OpenIds(w.log)|
            && n.scanned == TotalOpen(w.log, OpenIds(w.log))
  {
    OpenIdsExact(w.log);
    PassOverCounters(c, w, OpenIds(w.log), answers);
  }
}
