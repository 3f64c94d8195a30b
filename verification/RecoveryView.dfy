/**
 What a pass means for a single purchase order.

 A pass works on the whole exception log of a merchant and on every purchase order in
 it. `View` keeps what concerns one id, `ViewStep` says what a pass does to it, and
 `PassView` proves that the pass on the real log is exactly that, for every id at once:
 purchase orders do not disturb one another.
 */
module RecoveryView {
  import opened Common
  import opened Exceptions
  import opened Recovery

  datatype View = View(po: Option<Po>, attempts: nat, open: seq<Severity>, claim: Option<Claim>, held: nat, requests: nat)

  /** Severities of the open uncertain records of an id, in log order. */
  function OpenSeverities(log: seq<Record>, id: string): seq<Severity> {
    if log == [] then []
    else OpenSeverities(log[..|log| - 1], id) + if OpenFor(log[|log| - 1], id) then [log[|log| - 1].severity] else []
  }

  function Of(w: World, id: string): View {
    View(if id in w.pos then Some(w.pos[id]) else None,
         Attempts(w.log, id),
         OpenSeverities(w.log, id),
         if id in w.claims then Some(w.claims[id]) else None,
         CountOf(w.supplier.held, id),
         CountOf(w.supplier.requests, id))
  }

  function Criticals(n: nat): seq<Severity> {
    seq(n, _ => Critical)
  }

  /** The supplier's count for an id after one more creation takes effect. */
  function HeldAfterCreate(c: Config, held: nat): nat {
    if c.deduplicates && held > 0 then held else held + 1
  }

  function Done(v: View, ref: ExternalRef): View {
    v.(po := Some(Po(Submitted, Some(ref))), open := [])
  }

  /** The retry of one purchase order the supplier does not hold; the flag tells whether it raised. */
  function RetryStep(c: Config, v: View, id: string, ans: Answers): (View, bool)
    requires v.po.Some?
    requires c.connected ==> v.held == 0
  {
    if !Submittable(v.po.value.status) then (v.(open := []), false)
    else if !c.connected then (v, true)
    else
      match v.claim
      case Some(Completed(ref)) => (Done(v, ref), false)
      case Some(Reserved) => (v, true)
      case None =>
        var asked := v.(requests := v.requests + 1);
        match ans.fate
        case Accept => (Done(asked, Ref(id, 0)).(held := HeldAfterCreate(c, v.held), claim := Some(Completed(Ref(id, 0)))), false)
        case TimeoutBefore => if !ans.readBack then (asked, true) else (asked.(attempts := v.attempts + 1, open := [Warning]), false)
        case TimeoutAfter =>
          var taken := asked.(held := HeldAfterCreate(c, v.held));
          if !ans.readBack then (taken, true) else (Done(taken, Ref(id, 0)), false)
        case RateLimit => (asked.(open := []), false)
        case ServerError => (asked.(open := []), false)
  }

  /** What handling an id does to its view, and whether it raises. */
  function HandleStep(c: Config, v: View, id: string, ans: Answers): (View, bool) {
    if v.po.None? then (v, true)
    else if v.po.value.status == Submitted then (v.(open := []), false)
    else if v.attempts >= c.maxAttempts then (v.(open := Criticals(|v.open|)), false)
    else if c.connected && !ans.truth then (v, true)
    else if c.connected && v.held > 0 then (Done(v, Ref(id, 0)), false)
    else RetryStep(c, v, id, ans)
  }

  function ViewStep(c: Config, v: View, id: string, ans: Answers): View {
    if v.open == [] || id == "" then v else HandleStep(c, v, id, ans).0
  }

  // ----- The log, one id at a time -----------------------------------------------------

  /** Two logs that look the same to `id`. */
  ghost predicate SameFor(a: seq<Record>, b: seq<Record>, id: string) {
    Attempts(a, id) == Attempts(b, id) && OpenSeverities(a, id) == OpenSeverities(b, id)
    && OpenIndices(a, id) == OpenIndices(b, id)
  }

  lemma {:induction false} PointwiseSame(a: seq<Record>, b: seq<Record>, id: string)
    requires |a| == |b|
    requires forall i :: 0 <= i < |a| ==> UncertainFor(a[i], id) == UncertainFor(b[i], id)
    requires forall i :: 0 <= i < |a| ==> OpenFor(a[i], id) == OpenFor(b[i], id)
    requires forall i :: 0 <= i < |a| && OpenFor(a[i], id) ==> a[i].severity == b[i].severity
    ensures SameFor(a, b, id)
  {
    if a != [] {
      PointwiseSame(a[..|a| - 1], b[..|b| - 1], id);
    }
  }

  lemma AppendSame(log: seq<Record>, r: Record, id: string)
    requires !UncertainFor(r, id)
    ensures SameFor(log + [r], log, id)
  {
    assert (log + [r])[..|log|] == log;
  }

  lemma ResolveOthers(log: seq<Record>, id: string, n: nat, q: string)
    requires q != id
    ensures SameFor(ResolveBefore(log, id, n), log, q)
  {
    PointwiseSame(ResolveBefore(log, id, n), log, q);
  }

  lemma {:induction false} ResolveOwn(log: seq<Record>, id: string, n: nat)
    ensures Attempts(ResolveBefore(log, id, n), id) == Attempts(log, id)
    ensures n >= |log| ==> OpenSeverities(ResolveBefore(log, id, n), id) == []
  {
    if log != [] {
      assert ResolveBefore(log, id, n)[..|log| - 1] == ResolveBefore(log[..|log| - 1], id, n);
      ResolveOwn(log[..|log| - 1], id, n);
    }
  }

  /** Resolving the records a retry accounted for leaves the one it appended. */
  lemma ResolveOlder(log: seq<Record>, r: Record, id: string)
    ensures ResolveBefore(log + [r], id, |log|) == ResolveBefore(log, id, |log|) + [r]
    ensures OpenSeverities(ResolveBefore(log + [r], id, |log|), id) == if OpenFor(r, id) then [r.severity] else []
    ensures Attempts(ResolveBefore(log + [r], id, |log|), id) == Attempts(log + [r], id)
  {
    ResolveOwn(log, id, |log|);
    ResolveOwn(log + [r], id, |log|);
    var all := ResolveBefore(log + [r], id, |log|);
    assert all == ResolveBefore(log, id, |log|) + [r];
    assert all[..|log|] == ResolveBefore(log, id, |log|);
  }

  lemma EscalateOthers(log: seq<Record>, id: string, q: string)
    requires q != id
    ensures SameFor(EscalateAll(log, id), log, q)
  {
    PointwiseSame(EscalateAll(log, id), log, q);
  }

  lemma {:induction false} EscalateOwn(log: seq<Record>, id: string)
    ensures Attempts(EscalateAll(log, id), id) == Attempts(log, id)
    ensures OpenSeverities(EscalateAll(log, id), id) == Criticals(|OpenSeverities(log, id)|)
  {
    if log != [] {
      assert EscalateAll(log, id)[..|log| - 1] == EscalateAll(log[..|log| - 1], id);
      EscalateOwn(log[..|log| - 1], id);
    }
  }

  lemma {:induction false} IndicesMatchSeverities(log: seq<Record>, id: string)
    ensures |OpenIndices(log, id)| == |OpenSeverities(log, id)|
  {
    if log != [] {
      IndicesMatchSeverities(log[..|log| - 1], id);
    }
  }

  /** The grouping finds exactly the ids with an open record, each once. */
  lemma {:induction false} OpenIdsExact(log: seq<Record>)
    ensures forall i, j :: 0 <= i < j < |OpenIds(log)| ==> OpenIds(log)[i] != OpenIds(log)[j]
    ensures forall id :: id in OpenIds(log) <==> id != "" && OpenSeverities(log, id) != []
  {
    if log != [] {
      OpenIdsExact(log[..|log| - 1]);
    }
  }

  // ----- Handling one id ---------------------------------------------------------------

  /** The log after a retry: the view of any id depends on it only through the record the retry appended. */
  lemma RetriedLog(log: seq<Record>, r: Record, id: string, q: string)
    requires r.objectId == Some(id)
    ensures Attempts(ResolveBefore(log + [r], id, |log|), id) == Attempts(log, id) + if UncertainFor(r, id) then 1 else 0
    ensures OpenSeverities(ResolveBefore(log + [r], id, |log|), id) == if OpenFor(r, id) then [r.severity] else []
    ensures q != id ==> SameFor(ResolveBefore(log + [r], id, |log|), log, q)
  {
    ResolveOlder(log, r, id);
    assert (log + [r])[..|log|] == log;
    if q != id {
      ResolveOthers(log + [r], id, |log|, q);
      AppendSame(log, r, q);
    }
  }

  /** `ResolveOwn` and `ResolveOthers` for the log as it stands, and the same for escalation. */
  lemma SettledLog(log: seq<Record>, id: string, q: string)
    ensures var done := ResolveBefore(log, id, |log|);
            && Attempts(done, id) == Attempts(log, id) && OpenSeverities(done, id) == []
            && (q != id ==> SameFor(done, log, q))
    ensures var critical := EscalateAll(log, id);
            && Attempts(critical, id) == Attempts(log, id)
            && OpenSeverities(critical, id) == Criticals(|OpenSeverities(log, id)|)
            && (q != id ==> SameFor(critical, log, q))
  {
    ResolveOwn(log, id, |log|);
    EscalateOwn(log, id);
    if q != id {
      ResolveOthers(log, id, |log|, q);
      EscalateOthers(log, id, q);
    }
  }

  /** The record a retry that reached the supplier in vain appends. */
  function Appended(ans: Answers, id: string): Record {
    match ans.fate
    case RateLimit => Fresh(PoConnectorRateLimited, id)
    case ServerError => Fresh(PoConnectorError, id)
    case _ => Fresh(PoSubmissionUncertain, id)
  }

  /** The retry reached the supplier and came back without an order. */
  predicate InVain(c: Config, w: World, id: string, ans: Answers)
    requires id in w.pos
  {
    Submittable(w.pos[id].status) && c.connected && id !in w.claims && ans.fate != Accept && ans.fate != TimeoutAfter
  }

  lemma RetryLogIs(c: Config, w: World, id: string, ans: Answers)
    requires id in w.pos
    requires c.connected ==> CountOf(w.supplier.held, id) == 0
    ensures var h := Retry(c, w, id, ans);
            h.world.log ==
            if h.verdict.Raises() then w.log
            else if InVain(c, w, id, ans) then ResolveBefore(w.log + [Appended(ans, id)], id, |w.log|)
            else ResolveBefore(w.log, id, |w.log|)
  {
  }

  lemma RetryOwn(c: Config, w: World, id: string, ans: Answers)
    requires id in w.pos
    requires c.connected ==> CountOf(w.supplier.held, id) == 0
    ensures Of(Retry(c, w, id, ans).world, id) == RetryStep(c, Of(w, id), id, ans).0
    ensures Retry(c, w, id, ans).verdict.Raises() == RetryStep(c, Of(w, id), id, ans).1
  {
    hide Attempts, OpenSeverities, ResolveBefore, OpenIndices;
    var h := Retry(c, w, id, ans);
    RetryLogIs(c, w, id, ans);
    SettledLog(w.log, id, id);
    RetriedLog(w.log, Appended(ans, id), id, id);
    var after := RetryStep(c, Of(w, id), id, ans).0;
    assert Attempts(h.world.log, id) == after.attempts && OpenSeverities(h.world.log, id) == after.open;
  }

  lemma RetryOthers(c: Config, w: World, id: string, ans: Answers, q: string)
    requires id in w.pos && q != id
    requires c.connected ==> CountOf(w.supplier.held, id) == 0
    ensures Of(Retry(c, w, id, ans).world, q) == Of(w, q)
    ensures OpenIndices(Retry(c, w, id, ans).world.log, q) == OpenIndices(w.log, q)
  {
    hide Attempts, OpenSeverities, ResolveBefore, OpenIndices;
    var h := Retry(c, w, id, ans);
    RetryLogIs(c, w, id, ans);
    SettledLog(w.log, id, q);
    RetriedLog(w.log, Appended(ans, id), id, q);
    assert SameFor(h.world.log, w.log, q);
  }

  /** The pass neither finds the order resolved, nor exhausted, nor at the supplier. */
  predicate NeedsRetry(c: Config, w: World, id: string, ans: Answers) {
    && id in w.pos && w.pos[id].status != Submitted && Attempts(w.log, id) < c.maxAttempts
    && (c.connected ==> ans.truth) && Lookup(c, w, id).None?
  }

  lemma HandleWithoutRetry(c: Config, w: World, id: string, ans: Answers, q: string)
    requires !NeedsRetry(c, w, id, ans)
    ensures var h := HandlePo(c, w, id, ans);
            && Of(h.world, id) == HandleStep(c, Of(w, id), id, ans).0
            && h.verdict.Raises() == HandleStep(c, Of(w, id), id, ans).1
            && (q != id ==> Of(h.world, q) == Of(w, q) && OpenIndices(h.world.log, q) == OpenIndices(w.log, q))
  {
    hide Attempts, OpenSeverities, ResolveBefore, OpenIndices, EscalateAll;
    SettledLog(w.log, id, q);
  }

  /** Handling an id moves its view by `HandleStep` and raises exactly when that does. */
  lemma HandleOwn(c: Config, w: World, id: string, ans: Answers)
    ensures Of(HandlePo(c, w, id, ans).world, id) == HandleStep(c, Of(w, id), id, ans).0
    ensures HandlePo(c, w, id, ans).verdict.Raises() == HandleStep(c, Of(w, id), id, ans).1
  {
    if NeedsRetry(c, w, id, ans) {
      assert HandlePo(c, w, id, ans) == Retry(c, w, id, ans);
      assert HandleStep(c, Of(w, id), id, ans) == RetryStep(c, Of(w, id), id, ans);
      RetryOwn(c, w, id, ans);
    } else {
      HandleWithoutRetry(c, w, id, ans, id);
    }
  }

  /** Handling an id leaves the view of every other id alone, and its open records where they were. */
  lemma HandleOthers(c: Config, w: World, id: string, ans: Answers, q: string)
    requires q != id
    ensures Of(HandlePo(c, w, id, ans).world, q) == Of(w, q)
    ensures OpenIndices(HandlePo(c, w, id, ans).world.log, q) == OpenIndices(w.log, q)
  {
    if NeedsRetry(c, w, id, ans) {
      assert HandlePo(c, w, id, ans) == Retry(c, w, id, ans);
      RetryOthers(c, w, id, ans, q);
    } else {
      HandleWithoutRetry(c, w, id, ans, q);
    }
  }

  // ----- A whole pass ------------------------------------------------------------------

  ghost predicate Distinct(ids: seq<string>) {
    forall i, j :: 0 <= i < j < |ids| ==> ids[i] != ids[j]
  }

  /** The pass gets to `id`: it is among the groups, and no group before it raises. */
  predicate ReachedIn(c: Config, w: World, ids: seq<string>, answers: string -> Answers, id: string)
    decreases |ids|
  {
    ids != []
    && (ids[0] == id
        || (!HandleStep(c, Of(w, ids[0]), ids[0], answers(ids[0])).1 && ReachedIn(c, w, ids[1..], answers, id)))
  }

  predicate Reached(c: Config, w: World, answers: string -> Answers, id: string) {
    ReachedIn(c, w, OpenIds(w.log), answers, id)
  }

  lemma {:induction false} ReachedSame(c: Config, a: World, b: World, ids: seq<string>, answers: string -> Answers, id: string)
    requires forall q :: q in ids ==> Of(a, q) == Of(b, q)
    ensures ReachedIn(c, a, ids, answers, id) == ReachedIn(c, b, ids, answers, id)
    decreases |ids|
  {
    hide HandleStep, Of;
    if ids != [] {
      assert ids[0] in ids && forall q :: q in ids[1..] ==> q in ids;
      ReachedSame(c, a, b, ids[1..], answers, id);
    }
  }

  lemma {:induction false} ReachedIsGrouped(c: Config, w: World, ids: seq<string>, answers: string -> Answers, id: string)
    ensures ReachedIn(c, w, ids, answers, id) ==> id in ids
    ensures id in ids && (forall q :: q in ids ==> !HandleStep(c, Of(w, q), q, answers(q)).1) ==> ReachedIn(c, w, ids, answers, id)
    decreases |ids|
  {
    hide HandleStep, Of;
    if ids != [] {
      assert forall q :: q in ids[1..] ==> q in ids;
      ReachedIsGrouped(c, w, ids[1..], answers, id);
    }
  }

  /** Every purchase order the pass reaches moves by its own step; a raise leaves the rest untouched. */
  lemma {:induction false} PassOverView(c: Config, w: World, ids: seq<string>, answers: string -> Answers, id: string)
    requires Distinct(ids)
    ensures var after := Of(PassOver(c, w, ids, answers).world, id);
            after == if ReachedIn(c, w, ids, answers, id) then HandleStep(c, Of(w, id), id, answers(id)).0 else Of(w, id)
    ensures PassOver(c, w, ids, answers).raised <==> exists q :: q in ids && HandleStep(c, Of(w, q), q, answers(q)).1
    decreases |ids|
  {
    hide HandleStep, HandlePo, Of;
    if ids != [] {
      var head, tail := ids[0], ids[1..];
      var h := HandlePo(c, w, head, answers(head));
      HandleOwn(c, w, head, answers(head));
      if id != head {
        HandleOthers(c, w, head, answers(head), id);
      }
      if h.verdict.Raises() {
        assert head in ids;
      } else {
        forall q | q in tail
          ensures q != head && Of(h.world, q) == Of(w, q)
        {
          HandleOthers(c, w, head, answers(head), q);
        }
        PassOverView(c, h.world, tail, answers, id);
        ReachedSame(c, w, h.world, tail, answers, id);
        ReachedIsGrouped(c, w, tail, answers, id);
        forall q | q in ids ensures q == head || q in tail {}
        forall q | q in tail ensures q in ids {}
      }
    }
  }

  /**
   A pass, seen from one purchase order. It moves by its own step if the pass reaches it and
   stays as it is otherwise; a pass that does not raise reaches every group, and it raises
   exactly when some group's own step raises.
   */
  lemma PassView(c: Config, w: World, answers: string -> Answers, id: string)
    ensures var r := PoPass(c, w, answers);
            && Of(r.world, id) == (if Reached(c, w, answers, id) then ViewStep(c, Of(w, id), id, answers(id)) else Of(w, id))
            && (!r.raised ==> Of(r.world, id) == ViewStep(c, Of(w, id), id, answers(id)))
            && (!r.raised && id in OpenIds(w.log) ==> Reached(c, w, answers, id))
            && (Reached(c, w, answers, id) ==> id in OpenIds(w.log))
    ensures PoPass(c, w, answers).raised <==>
            exists q :: q in OpenIds(w.log) && HandleStep(c, Of(w, q), q, answers(q)).1
  {
    hide HandleStep;
    OpenIdsExact(w.log);
    PassOverView(c, w, OpenIds(w.log), answers, id);
    ReachedIsGrouped(c, w, OpenIds(w.log), answers, id);
  }
}
