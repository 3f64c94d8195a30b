/**
 Recovery of refunds whose execution is in doubt (workers/reconciliation_worker.py), the
 refund execution it retries (packages/post_order/operations.py) and the payment
 provider behind it (connectors/payments/simulated.py).
 */
module RefundRecovery {
  import opened Common
  import opened Exceptions

  datatype RefundStatus =
    | Permitted | ApprovalRequired | AutoApproved | Approved | Denied
    | MutationSubmitted | MutationUncertain | ExternalConfirmed | Reconciled | Completed

  datatype Refund = Refund(id: string, orderId: string, amount: int, currency: string, status: RefundStatus)

  /** The provider's business key; a missing reason is the empty one. */
  datatype Key = Key(orderId: string, amount: int, currency: string, reason: string)

  datatype ProviderRefund = ProviderRefund(key: Key, succeeded: bool)

  datatype RefundClaim = Reserved | Completed(ref: nat)

  /** Refunds by position, the exception log, the provider's books and the idempotency claims. */
  datatype Books = Books(refunds: seq<Refund>, log: seq<Record>, provider: seq<ProviderRefund>, claims: map<Key, RefundClaim>)

  /** Refund ids are the store's keys. */
  predicate DistinctIds(refunds: seq<Refund>) {
    forall i, j :: 0 <= i < j < |refunds| ==> refunds[i].id != refunds[j].id
  }

  /** A change of one refund and of the log that leaves provider and claims alone. */
  predicate LocalOnly(before: Books, after: Books, i: nat) {
    && |after.refunds| == |before.refunds| && |after.log| >= |before.log|
    && after.provider == before.provider && after.claims == before.claims
    && (forall j :: 0 <= j < |before.refunds| && j != i ==> after.refunds[j] == before.refunds[j])
    && (i < |before.refunds| ==> after.refunds[i] == before.refunds[i].(status := after.refunds[i].status))
  }

  const DEFAULT_REASON := "customer_refund"

  function KeyOf(r: Refund, reason: string): Key {
    Key(r.orderId, r.amount, r.currency, reason)
  }

  /** `find_refund`: the provider's refund under a key. */
  function FindRefund(provider: seq<ProviderRefund>, key: Key): (r: Option<nat>)
    ensures r.Some? ==> r.value < |provider| && provider[r.value].key == key
  {
    if provider == [] then None
    else
      match FindRefund(provider[..|provider| - 1], key)
      case Some(k) => Some(k)
      case None => if provider[|provider| - 1].key == key then Some(|provider| - 1) else None
  }

  function CreateRefund(provider: seq<ProviderRefund>, key: Key): (r: (seq<ProviderRefund>, nat))
    ensures r.1 < |r.0| && r.0[r.1].key == key
  {
    match FindRefund(provider, key)
    case Some(k) => (provider, k)
    case None => (provider + [ProviderRefund(key, true)], |provider|)
  }

  function SetStatus(b: Books, i: nat, status: RefundStatus): (r: Books)
    requires i < |b.refunds|
    ensures LocalOnly(b, r, i)
  {
    b.(refunds := b.refunds[i := b.refunds[i].(status := status)])
  }

  function Note(b: Books, category: Category, id: string): Books {
    b.(log := b.log + [Fresh(category, id)])
  }

  // ----- reconcile_refund and execute_refund -------------------------------------------

  /** `reconcile_refund`: a mismatch raises a record and leaves the refund's status alone. */
  function Reconcile(b: Books, i: nat, ref: nat): (r: Books)
    requires i < |b.refunds| && ref < |b.provider|
    ensures LocalOnly(b, r, i)
  {
    var refund, external := b.refunds[i], b.provider[ref];
    if external.key.amount != refund.amount || external.key.currency != refund.currency || !external.succeeded
    then Note(b, RefundReconciliationMismatch, refund.id)
    else SetStatus(b, i, RefundStatus.Completed)
  }

  datatype ExecuteResult = Returned(books: Books) | Raised(books: Books)

  /** `reconcile_refund` begins by fetching the refund from the provider; if that fails it raises and changes nothing. */
  function FetchAndReconcile(b: Books, i: nat, ref: nat, truth: bool): (r: ExecuteResult)
    requires i < |b.refunds| && ref < |b.provider|
    ensures LocalOnly(b, r.books, i)
  {
    if truth then Returned(Reconcile(b, i, ref)) else Raised(b)
  }

  /** Resolution by read-back after an attempt whose outcome is unknown; a read-back that fails is caught. */
  function Resolve(b: Books, i: nat, reason: string, ans: Answers): (r: ExecuteResult)
    requires i < |b.refunds|
    ensures LocalOnly(b, r.books, i)
  {
    var refund := b.refunds[i];
    if !ans.readBack then Returned(Note(SetStatus(b, i, MutationUncertain), ExternalMutationUncertain, refund.id))
    else
      match FindRefund(b.provider, KeyOf(refund, reason))
      case Some(ref) => FetchAndReconcile(SetStatus(b, i, ExternalConfirmed), i, ref, ans.truth)
      case None => Returned(SetStatus(b, i, Permitted))
  }

  predicate Executable(status: RefundStatus) {
    status == Permitted || status == AutoApproved || status == Approved
  }

  /** `execute_refund`. Only permitted and approved refunds are executed; every other status is returned as it is. */
  function Execute(connected: bool, b: Books, i: nat, reason: string, ans: Answers): (r: ExecuteResult)
    requires i < |b.refunds|
    ensures |r.books.refunds| == |b.refunds| && |r.books.log| >= |b.log|
  {
    var refund := b.refunds[i];
    var key := KeyOf(refund, reason);
    if !connected then Raised(b)
    else if !Executable(refund.status) then Returned(b)
    else
      var sent := SetStatus(b, i, MutationSubmitted);
      if key in b.claims then
        match b.claims[key]
        case Completed(ref) =>
          // The reference is fetched back from the provider; an unknown one raises.
          var confirmed := SetStatus(sent, i, ExternalConfirmed);
          if ref < |b.provider| then FetchAndReconcile(confirmed, i, ref, ans.truth) else Raised(confirmed)
        case Reserved => Raised(sent)
      else
        match ans.fate
        case Accept =>
          var (provider, ref) := CreateRefund(b.provider, key);
          var done := sent.(provider := provider, claims := b.claims[key := RefundClaim.Completed(ref)]);
          FetchAndReconcile(SetStatus(done, i, ExternalConfirmed), i, ref, ans.truth)
        case TimeoutBefore => Resolve(Note(sent, ExternalMutationUncertain, refund.id), i, reason, ans)
        case TimeoutAfter =>
          var lost := sent.(provider := CreateRefund(b.provider, key).0);
          Resolve(Note(lost, ExternalMutationUncertain, refund.id), i, reason, ans)
        case RateLimit => Resolve(Note(sent, ConnectorRateLimited, refund.id), i, reason, ans)
        case ServerError => Resolve(Note(sent, Connector5xx, refund.id), i, reason, ans)
  }

  // ----- The worker's refund pass ------------------------------------------------------

  predicate DoubtFor(r: Record, id: string) {
    r.category == ExternalMutationUncertain && r.objectId == Some(id)
  }

  function Doubts(log: seq<Record>, id: string): nat {
    if log == [] then 0 else Doubts(log[..|log| - 1], id) + if DoubtFor(log[|log| - 1], id) then 1 else 0
  }

  predicate OpenDoubt(r: Record, id: string) {
    DoubtFor(r, id) && r.status == Open
  }

  function OpenDoubts(log: seq<Record>, id: string): nat {
    if log == [] then 0 else OpenDoubts(log[..|log| - 1], id) + if OpenDoubt(log[|log| - 1], id) then 1 else 0
  }

  /** `next(...)`: the first open record of a refund. */
  function FirstOpen(log: seq<Record>, id: string): (r: Option<nat>)
    ensures r.Some? ==> r.value < |log| && OpenDoubt(log[r.value], id) && forall i :: 0 <= i < r.value ==> !OpenDoubt(log[i], id)
    ensures r.None? ==> forall i :: 0 <= i < |log| ==> !OpenDoubt(log[i], id)
  {
    if log == [] then None
    else
      match FirstOpen(log[..|log| - 1], id)
      case Some(k) => Some(k)
      case None => if OpenDoubt(log[|log| - 1], id) then Some(|log| - 1) else None
  }

  function ResolveAt(b: Books, k: nat): Books
    requires k < |b.log|
  {
    b.(log := b.log[k := b.log[k].(status := Resolved)])
  }

  function EscalateFirst(b: Books, id: string): Books {
    match FirstOpen(b.log, id)
    case Some(k) => b.(log := b.log[k := b.log[k].(severity := Critical, remediation := ["human_review_required"])])
    case None => b
  }

  datatype RefundHandled = RefundHandled(books: Books, counters: Counters, raised: bool)

  /** The retry after external truth showed nothing. */
  function RetryRefund(connected: bool, b: Books, i: nat, ans: Answers): (r: RefundHandled)
    requires i < |b.refunds|
    ensures |r.books.refunds| == |b.refunds|
  {
    var open := FirstOpen(b.log, b.refunds[i].id);
    match Execute(connected, b, i, DEFAULT_REASON, ans)
    case Raised(b') => RefundHandled(b', Counters(1, 0, 0, 0, 0, 0), true)
    case Returned(b') =>
      if b'.refunds[i].status in {RefundStatus.Reconciled, RefundStatus.Completed, ExternalConfirmed}
      then RefundHandled(if open.Some? then ResolveAt(b', open.value) else b', Counters(1, 0, 1, 0, 0, 0), false)
      else RefundHandled(b', Counters(1, 0, 0, 1, 0, 0), false)
  }

  function HandleRefund(maxAttempts: int, connected: bool, b: Books, i: nat, ans: Answers): (r: RefundHandled)
    requires i < |b.refunds|
    ensures |r.books.refunds| == |b.refunds|
  {
    var id := b.refunds[i].id;
    var open := FirstOpen(b.log, id);
    if Doubts(b.log, id) >= maxAttempts then
      RefundHandled(EscalateFirst(b, id), Counters(1, 0, 0, 0, if open.Some? then 1 else 0, 0), false)
    else if connected && !ans.truth then
      // Neither `find_refund` nor the fetch in `reconcile_refund` is guarded.
      RefundHandled(b, Counters(1, 0, 0, 0, 0, 0), true)
    else
      match if connected then FindRefund(b.provider, KeyOf(b.refunds[i], "")) else None
      case Some(ref) =>
        var reconciled := Reconcile(b, i, ref);
        RefundHandled(if open.Some? then ResolveAt(reconciled, open.value) else reconciled, Counters(1, 1, 0, 0, 0, 0), false)
      case None => RetryRefund(connected, b, i, ans)
  }

  /** The refunds in doubt when the pass begins, by position. */
  function InDoubt(refunds: seq<Refund>): (r: seq<int>)
    ensures forall i :: i in r <==> 0 <= i < |refunds| && refunds[i].status == MutationUncertain
    ensures forall i, j :: 0 <= i < j < |r| ==> r[i] < r[j]
  {
    if refunds == [] then []
    else
      var before := InDoubt(refunds[..|refunds| - 1]);
      assert forall k :: 0 <= k < |before| ==> before[k] in before;
      before + if refunds[|refunds| - 1].status == MutationUncertain then [|refunds| - 1] else []
  }

  datatype RefundPassResult = RefundPassResult(books: Books, counters: Counters, raised: bool)

  function RefundsOver(maxAttempts: int, connected: bool, b: Books, todo: seq<int>, answers: int -> Answers): RefundPassResult
    requires forall i :: i in todo ==> 0 <= i < |b.refunds|
    ensures |RefundsOver(maxAttempts, connected, b, todo, answers).books.refunds| == |b.refunds|
    decreases |todo|
  {
    if todo == [] then RefundPassResult(b, ZERO, false)
    else
      assert todo[0] in todo && forall i :: i in todo[1..] ==> i in todo;
      var h := HandleRefund(maxAttempts, connected, b, todo[0], answers(todo[0]));
      if h.raised then RefundPassResult(h.books, h.counters, true)
      else
        var rest := RefundsOver(maxAttempts, connected, h.books, todo[1..], answers);
        RefundPassResult(rest.books, h.counters.Plus(rest.counters), rest.raised)
  }

  function RefundPass(maxAttempts: int, connected: bool, b: Books, answers: int -> Answers): RefundPassResult
    ensures |RefundPass(maxAttempts, connected, b, answers).books.refunds| == |b.refunds|
  {
    RefundsOver(maxAttempts, connected, b, InDoubt(b.refunds), answers)
  }
}
