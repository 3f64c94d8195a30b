/**
 What one pass over the purchase orders reports, and what it leaves behind, told from how
 each order stood before the pass and how the supplier answered.
 */
module RecoveryReport {
  import opened Common
  import opened Exceptions
  import opened Recovery
  import opened RecoveryView
  import opened RecoveryGuarantees

  /**
   How a group fares: it raises, it was SUBMITTED already, it is at the limit, the supplier
   holds it, its retry submits it, or its retry does not.
   */
  datatype Standing = Failing | AlreadyDone | AtLimit | Held | Ordered | NotOrdered

  function StandingOf(c: Config, v: View, id: string, ans: Answers): Standing {
    if Stuck(c, v, id) || Unread(c, v, id, ans) || v.po.None? then Failing
    else if v.po.value.status == Submitted then AlreadyDone
    else if v.attempts >= c.maxAttempts then AtLimit
    else if c.connected && v.held > 0 then Held
    else if v.po.value.status in {Approved, AutoApproved} && (v.claim.Some? || ans.fate in {Accept, TimeoutAfter}) then Ordered
    else NotOrdered
  }

  function Standings(c: Config, w: World, ids: seq<string>, answers: string -> Answers): (r: seq<Standing>)
    ensures |r| == |ids|
  {
    seq(|ids|, k requires 0 <= k < |ids| => StandingOf(c, Of(w, ids[k]), ids[k], answers(ids[k])))
  }

  /** The groups a pass gets to: those up to the first that raises. */
  function Groups(c: Config, w: World, ids: seq<string>, answers: string -> Answers): (r: seq<string>)
    ensures |r| <= |ids| && r == ids[..|r|]
  {
    if ids == [] then []
    else if StandingOf(c, Of(w, ids[0]), ids[0], answers(ids[0])).Failing? then [ids[0]]
    else [ids[0]] + Groups(c, w, ids[1..], answers)
  }

  // ----- One group ---------------------------------------------------------------------

  /** Groups are non-empty and have an id. */
  ghost predicate InGroups(w: World, ids: seq<string>) {
    Distinct(ids) && forall k :: 0 <= k < |ids| ==> ids[k] != "" && OpenSeverities(w.log, ids[k]) != []
  }

  /** The counters one group adds, apart from the records it had open. */
  ghost predicate CountsOne(n: Counters, standing: Standing) {
    && n.reconciled == One(standing == AlreadyDone || standing == Held)
    && n.escalated == One(standing == AtLimit)
    && n.retried == One(standing == Ordered)
    && n.leftOpen == One(standing == NotOrdered)
    && n.flagged == 0
  }

  lemma GroupCounts(c: Config, w: World, id: string, ans: Answers)
    requires id != "" && OpenSeverities(w.log, id) != []
    ensures var h, standing := HandlePo(c, w, id, ans), StandingOf(c, Of(w, id), id, ans);
            && (h.verdict.Raises() <==> standing.Failing?)
            && forall scanned :: CountsOne(Tally(h.verdict, scanned), standing) && Tally(h.verdict, scanned).scanned == scanned
  {
    hide Attempts, OpenSeverities, ResolveBefore, EscalateAll, OpenIndices;
  }

  // ----- What the pass reports ---------------------------------------------------------

  ghost predicate Reported(n: Counters, standings: seq<Standing>) {
    var of := multiset(standings);
    && n.reconciled == of[AlreadyDone] + of[Held]
    && n.escalated == of[AtLimit]
    && n.retried == of[Ordered]
    && n.leftOpen == of[NotOrdered]
    && n.flagged == 0
  }

  lemma ReportStep(one: Counters, standing: Standing, rest: Counters, standings: seq<Standing>)
    requires CountsOne(one, standing) && Reported(rest, standings)
    ensures Reported(one.Plus(rest), [standing] + standings) && one.Plus(rest).scanned == one.scanned + rest.scanned
  {
  }

  /** Handling the head leaves the other groups as they stand. */
  lemma RestStands(c: Config, w: World, ids: seq<string>, answers: string -> Answers)
    requires ids != [] && InGroups(w, ids)
    ensures var after, tail := HandlePo(c, w, ids[0], answers(ids[0])).world, ids[1..];
            && InGroups(after, tail)
            && (forall id :: id in tail ==> Of(after, id) == Of(w, id) && OpenIndices(after.log, id) == OpenIndices(w.log, id))
  {
    hide HandlePo, OpenIndices, OpenSeverities;
    var after, tail := HandlePo(c, w, ids[0], answers(ids[0])).world, ids[1..];
    forall id | id in tail
      ensures Of(after, id) == Of(w, id) && OpenIndices(after.log, id) == OpenIndices(w.log, id)
    {
      HandleOthers(c, w, ids[0], answers(ids[0]), id);
    }
    forall k | 0 <= k < |tail| ensures tail[k] != "" && OpenSeverities(after.log, tail[k]) != [] {
      assert tail[k] == ids[k + 1];
      OpenOf(w, tail[k]);
      OpenOf(after, tail[k]);
    }
  }

  lemma {:induction false} GroupsSame(c: Config, a: World, b: World, ids: seq<string>, answers: string -> Answers)
    requires forall id :: id in ids ==> Of(a, id) == Of(b, id)
    ensures Groups(c, a, ids, answers) == Groups(c, b, ids, answers)
    ensures Standings(c, a, Groups(c, a, ids, answers), answers) == Standings(c, b, Groups(c, b, ids, answers), answers)
  {
    hide Of, StandingOf;
    if ids != [] {
      assert ids[0] in ids && forall id :: id in ids[1..] ==> id in ids;
      GroupsSame(c, a, b, ids[1..], answers);
      var groups := Groups(c, a, ids, answers);
      assert forall k :: 0 <= k < |groups| ==> groups[k] == ids[k] && ids[k] in ids;
    }
  }

  lemma StandingsSplit(c: Config, w: World, head: string, tail: seq<string>, answers: string -> Answers)
    ensures Standings(c, w, [head] + tail, answers) == [StandingOf(c, Of(w, head), head, answers(head))] + Standings(c, w, tail, answers)
  {
  }

  /** A pass over groups, as it reports and ends. */
  ghost predicate PassReported(c: Config, w: World, ids: seq<string>, answers: string -> Answers, n: Counters, raised: bool) {
    var groups := Groups(c, w, ids, answers);
    && Reported(n, Standings(c, w, groups, answers))
    && n.scanned == TotalOpen(w.log, groups)
    && (raised <==> Failing in Standings(c, w, groups, answers))
  }

  lemma ReportNone(c: Config, w: World, answers: string -> Answers)
    ensures PassReported(c, w, [], answers, ZERO, false)
  {
  }

  lemma ReportLast(c: Config, w: World, ids: seq<string>, answers: string -> Answers)
    requires InGroups(w, ids) && ids != [] && StandingOf(c, Of(w, ids[0]), ids[0], answers(ids[0])).Failing?
    ensures var h := HandlePo(c, w, ids[0], answers(ids[0]));
            h.verdict.Raises()
            && PassReported(c, w, ids, answers, Tally(h.verdict, |OpenIndices(w.log, ids[0])|), true)
  {
    hide HandlePo, StandingOf, Of, OpenIndices, Tally;
    GroupCounts(c, w, ids[0], answers(ids[0]));
    var scanned := |OpenIndices(w.log, ids[0])|;
    var one := Tally(HandlePo(c, w, ids[0], answers(ids[0])).verdict, scanned);
    assert CountsOne(one, Failing) && one.scanned == scanned;
    assert Groups(c, w, ids, answers) == [ids[0]] + [];
    StandingsSplit(c, w, ids[0], [], answers);
    ReportStep(one, Failing, ZERO, []);
    assert one.Plus(ZERO) == one && TotalOpen(w.log, [ids[0]]) == scanned;
  }

  lemma GroupsThen(c: Config, w: World, ids: seq<string>, answers: string -> Answers)
    requires ids != [] && !StandingOf(c, Of(w, ids[0]), ids[0], answers(ids[0])).Failing?
    ensures var groups, rest := Groups(c, w, ids, answers), Groups(c, w, ids[1..], answers);
            && groups == [ids[0]] + rest
            && Standings(c, w, groups, answers)
               == [StandingOf(c, Of(w, ids[0]), ids[0], answers(ids[0]))] + Standings(c, w, rest, answers)
            && TotalOpen(w.log, groups) == |OpenIndices(w.log, ids[0])| + TotalOpen(w.log, rest)
  {
    hide StandingOf, Of, OpenIndices;
    var rest := Groups(c, w, ids[1..], answers);
    StandingsSplit(c, w, ids[0], rest, answers);
    assert ([ids[0]] + rest)[1..] == rest;
  }

  lemma ReportThen(c: Config, w: World, ids: seq<string>, answers: string -> Answers, n: Counters, raised: bool)
    requires InGroups(w, ids) && ids != [] && !StandingOf(c, Of(w, ids[0]), ids[0], answers(ids[0])).Failing?
    requires PassReported(c, HandlePo(c, w, ids[0], answers(ids[0])).world, ids[1..], answers, n, raised)
    ensures var h := HandlePo(c, w, ids[0], answers(ids[0]));
            !h.verdict.Raises()
            && PassReported(c, w, ids, answers, Tally(h.verdict, |OpenIndices(w.log, ids[0])|).Plus(n), raised)
  {
    var head, tail := ids[0], ids[1..];
    var h := HandlePo(c, w, head, answers(head));
    RestStands(c, w, ids, answers);
    GroupCounts(c, w, head, answers(head));
    GroupsSame(c, w, h.world, tail, answers);
    hide HandlePo, StandingOf, Of, OpenIndices, Tally, InGroups, CountsOne, Standings, Reported, Groups, TotalOpen;
    var scanned := |OpenIndices(w.log, head)|;
    var one := Tally(h.verdict, scanned);
    var standing := StandingOf(c, Of(w, head), head, answers(head));
    assert CountsOne(one, standing) && one.scanned == scanned;
    var groups := Groups(c, w, tail, answers);
    GroupsThen(c, w, ids, answers);
    assert Groups(c, h.world, tail, answers) == groups
           && Standings(c, h.world, groups, answers) == Standings(c, w, groups, answers);
    ReportStep(one, standing, n, Standings(c, w, groups, answers));
    TotalOpenSame(h.world.log, w.log, groups);
  }

  lemma {:induction false} PassOverReported(c: Config, w: World, ids: seq<string>, answers: string -> Answers)
    requires InGroups(w, ids)
    ensures var r := PassOver(c, w, ids, answers);
            PassReported(c, w, ids, answers, r.counters, r.raised)
    decreases |ids|
  {
    if ids == [] {
      ReportNone(c, w, answers);
    } else {
      hide HandlePo, StandingOf, Of, OpenIndices, Tally, PassReported, InGroups;
      var h := HandlePo(c, w, ids[0], answers(ids[0]));
      if StandingOf(c, Of(w, ids[0]), ids[0], answers(ids[0])).Failing? {
        ReportLast(c, w, ids, answers);
      } else {
        RestStands(c, w, ids, answers);
        PassOverReported(c, h.world, ids[1..], answers);
        var rest := PassOver(c, h.world, ids[1..], answers);
        ReportThen(c, w, ids, answers, rest.counters, rest.raised);
      }
    }
  }

  /**
   What the order pass reports, over the groups in the order of their first open record and up
   to the first that raises: reconciled are those SUBMITTED already and those below the limit
   that the supplier holds, escalated those at the limit, retried those the retry submits and
   left open those it does not. Scanned are all open records of these groups.
   */
  lemma OrderPassReport(c: Config, w: World, answers: string -> Answers)
    ensures var r := PoPass(c, w, answers);
            PassReported(c, w, OpenIds(w.log), answers, r.counters, r.raised)
  {
    hide PassOver, PassReported;
    OpenIdsExact(w.log);
    assert forall k :: 0 <= k < |OpenIds(w.log)| ==> OpenIds(w.log)[k] in OpenIds(w.log);
    PassOverReported(c, w, OpenIds(w.log), answers);
  }

  /** The standing of a group the pass handles, by the shape the pass leaves it in. */
  lemma StandingIsOutcome(c: Config, w: World, answers: string -> Answers, id: string)
    requires Handles(c, w, answers, id)
    ensures var v, standing := Of(w, id), StandingOf(c, Of(w, id), id, answers(id));
            var after := ShapeOf(c, Of(PoPass(c, w, answers).world, id));
            && standing != Failing
            && (standing == AtLimit <==> after == Exhausted)
            && (standing == NotOrdered <==> after == Pending || after == Dropped)
            && (standing in {AlreadyDone, Held, Ordered} <==> after == Settled)
  {
    OpenIdsExact(w.log);
    PassView(c, w, answers, id);
    ReachedIsGrouped(c, w, OpenIds(w.log), answers, id);
    StepRaisesExactly(c, Of(w, id), id, answers(id));
    PassShapes(c, w, answers, id);
  }

  // ----- What the pass leaves in the log -----------------------------------------------

  /** What becomes of an open record of a group. */
  function Treated(standing: Standing, r: Record): Record {
    match standing
    case Failing => r
    case AtLimit => r.(severity := Critical, remediation := ["human_review_required"])
    case _ => r.(status := Resolved)
  }

  /** What a group adds: one record, if its retry reached the supplier and did not submit it. */
  function Added(c: Config, v: View, id: string, ans: Answers): seq<Record> {
    if StandingOf(c, v, id, ans) != NotOrdered || v.po.value.status !in {Approved, AutoApproved} then []
    else
      var category := if ans.fate == RateLimit then PoConnectorRateLimited
                      else if ans.fate == ServerError then PoConnectorError
                      else PoSubmissionUncertain;
      [Record(category, Some(id), Open, Warning, ["review"])]
  }

  lemma GroupLog(c: Config, w: World, id: string, ans: Answers)
    requires id != "" && OpenSeverities(w.log, id) != []
    ensures var after, v := HandlePo(c, w, id, ans).world.log, Of(w, id);
            && |after| >= |w.log| && after[|w.log|..] == Added(c, v, id, ans)
            && forall k :: 0 <= k < |w.log| ==>
                 after[k] == if Groupable(w.log[k]) && w.log[k].objectId == Some(id) then Treated(StandingOf(c, v, id, ans), w.log[k])
                             else w.log[k]
  {
    hide Attempts, OpenSeverities, OpenIndices;
    if NeedsRetry(c, w, id, ans) {
      RetryLogIs(c, w, id, ans);
      assert HandlePo(c, w, id, ans) == Retry(c, w, id, ans);
      hide HandlePo, Retry;
      GroupCounts(c, w, id, ans);
    }
  }

  function AllAdded(c: Config, w: World, ids: seq<string>, answers: string -> Answers): seq<Record> {
    if ids == [] then [] else Added(c, Of(w, ids[0]), ids[0], answers(ids[0])) + AllAdded(c, w, ids[1..], answers)
  }

  /** The log after a pass, record by record. */
  ghost predicate LogAfter(c: Config, w: World, groups: seq<string>, answers: string -> Answers, after: seq<Record>) {
    && |after| >= |w.log| && after[|w.log|..] == AllAdded(c, w, groups, answers)
    && forall k :: 0 <= k < |w.log| ==>
         after[k] == if Groupable(w.log[k]) && w.log[k].objectId.value in groups
                     then Treated(StandingOf(c, Of(w, w.log[k].objectId.value), w.log[k].objectId.value, answers(w.log[k].objectId.value)), w.log[k])
                     else w.log[k]
  }

  lemma {:induction false} AllAddedSame(c: Config, a: World, b: World, ids: seq<string>, answers: string -> Answers)
    requires forall id :: id in ids ==> Of(a, id) == Of(b, id)
    ensures AllAdded(c, a, ids, answers) == AllAdded(c, b, ids, answers)
  {
    hide Of, Added;
    if ids != [] {
      assert ids[0] in ids && forall id :: id in ids[1..] ==> id in ids;
      AllAddedSame(c, a, b, ids[1..], answers);
    }
  }

  /** The head's records are treated first, and no later group touches them again. */
  lemma LogThen(c: Config, w: World, head: string, rest: seq<string>, answers: string -> Answers, after: seq<Record>)
    requires head != "" && OpenSeverities(w.log, head) != [] && head !in rest
    requires var mid := HandlePo(c, w, head, answers(head)).world;
             (forall id :: id in rest ==> Of(mid, id) == Of(w, id)) && LogAfter(c, mid, rest, answers, after)
    ensures LogAfter(c, w, [head] + rest, answers, after)
  {
    hide HandlePo, StandingOf, Of, OpenSeverities, Added;
    var mid := HandlePo(c, w, head, answers(head)).world;
    GroupLog(c, w, head, answers(head));
    AllAddedSame(c, w, mid, rest, answers);
    assert ([head] + rest)[1..] == rest;
    assert after[|w.log|..] == after[|w.log|..|mid.log|] + after[|mid.log|..];
    forall k | |w.log| <= k < |mid.log| ensures after[k] == mid.log[k] {
      assert mid.log[k] == mid.log[|w.log|..][k - |w.log|];
      AddedIsOwn(c, Of(w, head), head, answers(head), k - |w.log|);
    }
    assert after[|w.log|..|mid.log|] == mid.log[|w.log|..];
    forall k | 0 <= k < |w.log|
      ensures after[k] == if Groupable(w.log[k]) && w.log[k].objectId.value in [head] + rest
                          then Treated(StandingOf(c, Of(w, w.log[k].objectId.value), w.log[k].objectId.value, answers(w.log[k].objectId.value)), w.log[k])
                          else w.log[k]
    {
      assert mid.log[k].objectId == w.log[k].objectId;
    }
  }

  lemma AddedIsOwn(c: Config, v: View, id: string, ans: Answers, k: nat)
    requires k < |Added(c, v, id, ans)|
    ensures Added(c, v, id, ans)[k].objectId == Some(id)
  {
    hide StandingOf;
  }

  lemma GroupsAreIds(c: Config, w: World, ids: seq<string>, answers: string -> Answers, id: string)
    requires id in Groups(c, w, ids, answers)
    ensures id in ids
  {
    hide StandingOf, Of;
    assert Groups(c, w, ids, answers) == ids[..|Groups(c, w, ids, answers)|];
  }

  lemma {:induction false} PassOverLog(c: Config, w: World, ids: seq<string>, answers: string -> Answers)
    requires InGroups(w, ids)
    ensures LogAfter(c, w, Groups(c, w, ids, answers), answers, PassOver(c, w, ids, answers).world.log)
    decreases |ids|
  {
    if ids != [] {
      hide HandlePo, StandingOf, Of, OpenSeverities, Added, LogAfter, Tally;
      var head, tail := ids[0], ids[1..];
      var h := HandlePo(c, w, head, answers(head));
      GroupCounts(c, w, head, answers(head));
      if StandingOf(c, Of(w, head), head, answers(head)).Failing? {
        NoneAfter(c, h.world, answers);
        LogThen(c, w, head, [], answers, h.world.log);
        assert [head] + [] == [head];
      } else {
        RestStands(c, w, ids, answers);
        GroupsSame(c, w, h.world, tail, answers);
        PassOverLog(c, h.world, tail, answers);
        var rest := Groups(c, w, tail, answers);
        forall id | id in rest ensures id in tail && id != head && Of(h.world, id) == Of(w, id) {
          GroupsAreIds(c, w, tail, answers, id);
        }
        LogThen(c, w, head, rest, answers, PassOver(c, h.world, tail, answers).world.log);
      }
    } else {
      NoneAfter(c, w, answers);
    }
  }

  lemma NoneAfter(c: Config, w: World, answers: string -> Answers)
    ensures LogAfter(c, w, [], answers, w.log)
  {
  }

  /**
   The log after an order pass, record by record. Of the groups the pass gets to, the open
   records become resolved, or critical at the limit, or stay if the group raises; every other
   record stays as it is. Behind them stands one record for each retry that reached the supplier
   and did not submit its order, by the category of the answer.
   */
  lemma OrderPassLog(c: Config, w: World, answers: string -> Answers)
    ensures LogAfter(c, w, Groups(c, w, OpenIds(w.log), answers), answers, PoPass(c, w, answers).world.log)
  {
    hide PassOver, LogAfter;
    OpenIdsExact(w.log);
    assert forall k :: 0 <= k < |OpenIds(w.log)| ==> OpenIds(w.log)[k] in OpenIds(w.log);
    PassOverLog(c, w, OpenIds(w.log), answers);
  }

  /** Where an order stands with the supplier after the pass handled it: its reference, the claim, and what was sent. */
  lemma HandledOrder(c: Config, w: World, answers: string -> Answers, id: string)
    requires Handles(c, w, answers, id)
    ensures var v, after, ans := Of(w, id), Of(PoPass(c, w, answers).world, id), answers(id);
            v.po.Some?
            && var refreshed := v.(open := after.open, attempts := after.attempts);
               match StandingOf(c, v, id, ans)
               case Held => after == refreshed.(po := Some(Po(Submitted, Some(Ref(id, 0)))))
               case Ordered =>
                 (match v.claim
                  case Some(claim) => claim.Completed? && after == refreshed.(po := Some(Po(Submitted, Some(claim.ref))))
                  case None => after == View(Some(Po(Submitted, Some(Ref(id, 0)))), after.attempts, after.open,
                                             if ans.fate == Accept then Some(Claim.Completed(Ref(id, 0))) else None,
                                             1, v.requests + 1))
               case NotOrdered => after == refreshed.(requests := v.requests + One(Submittable(v.po.value.status)))
               case _ => after == refreshed
  {
    OpenIdsExact(w.log);
    PassView(c, w, answers, id);
    ReachedIsGrouped(c, w, OpenIds(w.log), answers, id);
    StepRaisesExactly(c, Of(w, id), id, answers(id));
  }

  // ----- One submission ----------------------------------------------------------------

  /**
   A submission that sends its request, whatever the supplier holds: what it answers, the
   order, the claim, the record and the supplier's books after it.
   */
  lemma SubmissionSays(c: Config, w: World, id: string, ans: Answers)
    requires id in w.pos && w.pos[id].status in {Approved, AutoApproved} && c.connected && id !in w.claims
    ensures var r, held := Submit(c, w, id, ans), CountOf(w.supplier.held, id);
            var reused, took := c.deduplicates && held > 0, ans.fate in {Accept, TimeoutAfter};
            var heldAfter := if took && !reused then held + 1 else held;
            var timedOut := ans.fate in {TimeoutBefore, TimeoutAfter};
            && r.world.supplier == Supplier(if took && !reused then w.supplier.held[id := held + 1] else w.supplier.held,
                                            w.supplier.requests[id := CountOf(w.supplier.requests, id) + 1])
            && (r.Raised? <==> timedOut && !ans.readBack)
            && (r.Raised? ==> r.world == w.(supplier := r.world.supplier))
            && (r.Returned? && ans.fate == Accept ==>
                 var ref := Ref(id, if reused then 0 else held);
                 r == Returned(World(w.pos[id := Po(Submitted, Some(ref))], w.log, w.claims[id := Completed(ref)], r.world.supplier), Submitted))
            && (r.Returned? && timedOut && heldAfter > 0 ==>
                 r == Returned(World(w.pos[id := Po(Submitted, Some(Ref(id, 0)))], w.log, w.claims, r.world.supplier), Submitted))
            && (r.Returned? && ans.fate != Accept && !(timedOut && heldAfter > 0) ==>
                 var category := if timedOut then PoSubmissionUncertain else if ans.fate == RateLimit then PoConnectorRateLimited else PoConnectorError;
                 r == Returned(World(w.pos, w.log + [Record(category, Some(id), Open, Warning, ["review"])], w.claims, r.world.supplier), w.pos[id].status))
  {
  }

  // ----- Attempts and open records, told from the log ----------------------------------

  /** Where an id's uncertain records stand in the log; `open` asks for the open ones only. */
  function Doubtful(log: seq<Record>, id: string, open: bool): set<nat> {
    set k: nat | k < |log| && log[k].category == PoSubmissionUncertain && log[k].objectId == Some(id) && (open ==> log[k].status == Open)
  }

  lemma DoubtfulGrows(log: seq<Record>, r: Record, id: string, open: bool)
    ensures var mine := r.category == PoSubmissionUncertain && r.objectId == Some(id) && (open ==> r.status == Open);
            && Doubtful(log + [r], id, open) == Doubtful(log, id, open) + (if mine then {|log|} else {})
            && |Doubtful(log + [r], id, open)| == |Doubtful(log, id, open)| + (if mine then 1 else 0)
  {
    assert |log| !in Doubtful(log, id, open);
  }

  /** Attempts are the uncertain records of an id in whatever status, and the pass groups those still open. */
  lemma {:induction false} AttemptsAreRecords(log: seq<Record>, id: string)
    ensures Attempts(log, id) == |Doubtful(log, id, false)| && |OpenIndices(log, id)| == |Doubtful(log, id, true)|
  {
    if log != [] {
      var n := |log| - 1;
      AttemptsAreRecords(log[..n], id);
      DoubtfulGrows(log[..n], log[n], id, false);
      DoubtfulGrows(log[..n], log[n], id, true);
      assert log == log[..n] + [log[n]];
      hide Doubtful;
    }
  }
}
