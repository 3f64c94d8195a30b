/**
 The recovery of purchase orders whose submission is in doubt
 (workers/reconciliation_worker.py) together with the submission it retries
 (packages/procurement/operations.py) and the idempotency guard in front of the
 supplier (packages/idempotency/service.py, packages/connector_sdk/base.py).

 Everything here is a value: the class that performs the pass in place is in
 ReconciliationWorker.dfy and is proved against these functions.
 */
module Recovery {
  import opened Common
  import opened Exceptions

  datatype PoStatus =
    | Draft | Validated | Approved | AutoApproved | RequiresApproval | Blocked | Rejected
    | Submitted | Acknowledged | PartiallyConfirmed | Confirmed | OverConfirmed
    | Inbound | PartiallyReceived | Received | Reconciled | Closed

  /** The supplier's reference for the `copy`-th order it opened for a purchase order. */
  datatype ExternalRef = Ref(po: string, copy: nat)

  datatype Po = Po(status: PoStatus, externalRef: Option<ExternalRef>)

  /** An idempotency entry: reserved by a call that has not finished, or completed with its result. */
  datatype Claim = Reserved | Completed(ref: ExternalRef)

  /**
   The supplier: how many orders it holds per purchase order id, and how many
   creation requests reached it.
   */
  datatype Supplier = Supplier(held: map<string, nat>, requests: map<string, nat>)

  datatype World = World(pos: map<string, Po>, log: seq<Record>, claims: map<string, Claim>, supplier: Supplier)

  /**
   `deduplicates` is whether the supplier returns an existing order when asked to
   create a second one for the same id, as the simulated supplier does.
   */
  datatype Config = Config(maxAttempts: int, connected: bool, deduplicates: bool)

  // ----- The supplier ------------------------------------------------------------------

  function Find(supplier: Supplier, id: string): Option<ExternalRef> {
    if CountOf(supplier.held, id) > 0 then Some(Ref(id, 0)) else None
  }

  function Create(c: Config, supplier: Supplier, id: string): (Supplier, ExternalRef) {
    var n := CountOf(supplier.held, id);
    if c.deduplicates && n > 0
    then (supplier, Ref(id, 0))
    else (supplier.(held := supplier.held[id := n + 1]), Ref(id, n))
  }

  function Requested(supplier: Supplier, id: string): Supplier {
    supplier.(requests := supplier.requests[id := CountOf(supplier.requests, id) + 1])
  }

  // ----- The exception log -------------------------------------------------------------

  predicate UncertainFor(r: Record, id: string) {
    r.category == PoSubmissionUncertain && r.objectId == Some(id)
  }

  predicate OpenFor(r: Record, id: string) {
    UncertainFor(r, id) && r.status == Open
  }

  /** `_attempt_count`: the uncertain records of an id, whatever their status. */
  function Attempts(log: seq<Record>, id: string): nat {
    if log == [] then 0
    else Attempts(log[..|log| - 1], id) + if UncertainFor(log[|log| - 1], id) then 1 else 0
  }

  /** Positions of the open uncertain records of an id, in log order. */
  function OpenIndices(log: seq<Record>, id: string): seq<nat> {
    if log == [] then []
    else OpenIndices(log[..|log| - 1], id) + if OpenFor(log[|log| - 1], id) then [|log| - 1] else []
  }

  /** The ids the pass groups by: `if exc.object_id` also skips the empty string. */
  predicate Groupable(r: Record) {
    r.category == PoSubmissionUncertain && r.status == Open && r.objectId.Some? && r.objectId.value != ""
  }

  /** The keys of the grouping dictionary, in insertion order. */
  function OpenIds(log: seq<Record>): seq<string> {
    if log == [] then []
    else
      var before := OpenIds(log[..|log| - 1]);
      var r := log[|log| - 1];
      if Groupable(r) && r.objectId.value !in before then before + [r.objectId.value] else before
  }

  /** The open records of `id` among the first `n` become resolved. */
  function ResolveBefore(log: seq<Record>, id: string, n: nat): (r: seq<Record>)
    ensures |r| == |log|
  {
    seq(|log|, i requires 0 <= i < |log| => if i < n && OpenFor(log[i], id) then log[i].(status := Resolved) else log[i])
  }

  /** The open records of `id` become critical and only a human may act on them. */
  function EscalateAll(log: seq<Record>, id: string): (r: seq<Record>)
    ensures |r| == |log|
  {
    seq(|log|, i requires 0 <= i < |log| =>
      if OpenFor(log[i], id) then log[i].(severity := Critical, remediation := ["human_review_required"]) else log[i])
  }

  // ----- submit_purchase_order ---------------------------------------------------------

  datatype SubmitResult = Returned(world: World, status: PoStatus) | Raised(world: World)

  predicate Submittable(status: PoStatus) {
    status == AutoApproved || status == Approved
  }

  function MarkSubmitted(w: World, id: string, ref: ExternalRef): World {
    w.(pos := w.pos[id := Po(Submitted, Some(ref))])
  }

  /**
   The timeout handler of `submit_purchase_order`: read the supplier back, else record the
   doubt. Nothing guards the read: if it fails, the handler raises and records nothing.
   */
  function AfterTimeout(w: World, id: string, readBack: bool): SubmitResult
    requires id in w.pos
  {
    if !readBack then Raised(w)
    else
      match Find(w.supplier, id)
      case Some(ref) => Returned(MarkSubmitted(w, id, ref), Submitted)
      case None => Returned(w.(log := w.log + [Fresh(PoSubmissionUncertain, id)]), w.pos[id].status)
  }

  /**
   `submit_purchase_order` through `execute_mutation` and `run_once`: a completed
   claim answers without a request, an abandoned reservation yields no result and
   the caller fails on it, anything else sends one request and releases the claim
   when the request raises.
   */
  function Submit(c: Config, w: World, id: string, ans: Answers): SubmitResult
    requires id in w.pos
  {
    if !Submittable(w.pos[id].status) then Returned(w, w.pos[id].status)
    else if !c.connected then Raised(w)
    else if id in w.claims then
      match w.claims[id]
      case Completed(ref) => Returned(MarkSubmitted(w, id, ref), Submitted)
      case Reserved => Raised(w)
    else
      var asked := w.(supplier := Requested(w.supplier, id));
      match ans.fate
      case Accept =>
        var (supplier, ref) := Create(c, asked.supplier, id);
        Returned(MarkSubmitted(asked.(supplier := supplier, claims := w.claims[id := Completed(ref)]), id, ref), Submitted)
      case TimeoutBefore => AfterTimeout(asked, id, ans.readBack)
      case TimeoutAfter => AfterTimeout(asked.(supplier := Create(c, asked.supplier, id).0), id, ans.readBack)
      case RateLimit => Returned(asked.(log := w.log + [Fresh(PoConnectorRateLimited, id)]), w.pos[id].status)
      case ServerError => Returned(asked.(log := w.log + [Fresh(PoConnectorError, id)]), w.pos[id].status)
  }

  // ----- One purchase order in a pass --------------------------------------------------

  datatype Verdict = AlreadySubmitted | Escalated | Adopted | Retried | LeftOpen | MissingPo | TruthUnread | SubmitFailed {
    predicate Raises() {
      MissingPo? || TruthUnread? || SubmitFailed?
    }
  }

  datatype Handled = Handled(world: World, verdict: Verdict)

  function Lookup(c: Config, w: World, id: string): Option<ExternalRef> {
    if c.connected then Find(w.supplier, id) else None
  }

  /** The retry after external truth showed nothing: only the records older than the retry are resolved. */
  function Retry(c: Config, w: World, id: string, ans: Answers): Handled
    requires id in w.pos
  {
    match Submit(c, w, id, ans)
    case Raised(w') => Handled(w', SubmitFailed)
    case Returned(w', status) =>
      Handled(w'.(log := ResolveBefore(w'.log, id, |w.log|)), if status == Submitted then Retried else LeftOpen)
  }

  function HandlePo(c: Config, w: World, id: string, ans: Answers): Handled {
    if id !in w.pos then Handled(w, MissingPo)
    else if w.pos[id].status == Submitted then
      Handled(w.(log := ResolveBefore(w.log, id, |w.log|)), AlreadySubmitted)
    else if Attempts(w.log, id) >= c.maxAttempts then
      Handled(w.(log := EscalateAll(w.log, id)), Escalated)
    else if c.connected && !ans.truth then Handled(w, TruthUnread)
    else
      match Lookup(c, w, id)
      case Some(ref) =>
        Handled(MarkSubmitted(w, id, ref).(log := ResolveBefore(w.log, id, |w.log|)), Adopted)
      case None => Retry(c, w, id, ans)
  }

  // ----- A pass over one merchant ------------------------------------------------------

  function Tally(verdict: Verdict, scanned: nat): Counters {
    match verdict
    case AlreadySubmitted => Counters(scanned, 1, 0, 0, 0, 0)
    case Adopted => Counters(scanned, 1, 0, 0, 0, 0)
    case Retried => Counters(scanned, 0, 1, 0, 0, 0)
    case LeftOpen => Counters(scanned, 0, 0, 1, 0, 0)
    case Escalated => Counters(scanned, 0, 0, 0, 1, 0)
    case TruthUnread => Counters(scanned, 0, 0, 0, 0, 0)
    case MissingPo => Counters(scanned, 0, 0, 0, 0, 0)
    case SubmitFailed => Counters(scanned, 0, 0, 0, 0, 0)
  }

  datatype PassResult = PassResult(world: World, counters: Counters, raised: bool)

  /** The first purchase order that raises ends the pass. */
  function PassOver(c: Config, w: World, ids: seq<string>, answers: string -> Answers): PassResult
    decreases |ids|
  {
    if ids == [] then PassResult(w, ZERO, false)
    else
      var h := HandlePo(c, w, ids[0], answers(ids[0]));
      var first := Tally(h.verdict, |OpenIndices(w.log, ids[0])|);
      if h.verdict.Raises() then PassResult(h.world, first, true)
      else
        var rest := PassOver(c, h.world, ids[1..], answers);
        PassResult(rest.world, first.Plus(rest.counters), rest.raised)
  }

  function PoPass(c: Config, w: World, answers: string -> Answers): PassResult {
    PassOver(c, w, OpenIds(w.log), answers)
  }
}
