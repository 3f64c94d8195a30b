/**
 Any number of recovery runners (scripts/run_recovery_worker.py) sharing one store, one
 advisory lock and one supplier.

 A runner's work on a purchase order is cut into its separate reads and writes, and a
 runner may crash between any two of them, which frees the lock. Everything outside the
 runners may change purchase orders, records and claims at any moment.
 */
module RecoveryProtocol {
  import opened Common
  import opened Exceptions
  import opened Recovery

  /**
   Where a runner is. `Absent`: the supplier was read and does not hold the order.
   `Sending`: the claim is reserved. `Delivered`: the supplier has acted, the response is
   on its way. `Doubt`: the call timed out. `Closing(po, n)`: the records of `po` among the
   first `n` are about to be resolved.
   */
  datatype Pc =
    | Idle
    | Holding
    | Found(po: string, ref: ExternalRef)
    | Absent(po: string)
    | Sending(po: string, n: nat)
    | Delivered(po: string, n: nat, ref: ExternalRef)
    | Doubt(po: string, n: nat)
    | Closing(po: string, n: nat)

  datatype System = System(world: World, runners: seq<Pc>, lock: Option<nat>)

  datatype Action =
    | Acquire | Release | Crash
    | CloseOut(po: string) | Escalate(po: string)
    | ReadTruth(po: string) | ReadFails(po: string) | Adopt
    | Decline | Recall | GiveUp | Begin
    | Deliver | Refuse(category: Category) | LoseRequest | LoseResponse | Acknowledge
    | ReadBack | ReadBackFails | Close

  datatype Label =
    | By(runner: nat, action: Action)
    | Elsewhere(pos: map<string, Po>, log: seq<Record>, claims: map<string, Claim>)

  /** `exclusive` says whether the lock excludes: it is a parameter to show that it has to. */
  predicate Enabled(c: Config, exclusive: bool, s: System, e: Label) {
    match e
    case Elsewhere(_, _, _) => true
    case By(r, a) =>
      r < |s.runners| &&
      var w, pc := s.world, s.runners[r];
      match a
      case Acquire => pc.Idle? && (exclusive ==> s.lock.None?)
      case Release => pc.Holding?
      case Crash => !pc.Idle?
      case CloseOut(po) => pc.Holding? && po in w.pos && w.pos[po].status == Submitted
      case Escalate(po) => pc.Holding? && po in w.pos && w.pos[po].status != Submitted && Attempts(w.log, po) >= c.maxAttempts
      case ReadTruth(po) =>
        pc.Holding? && po in w.pos && w.pos[po].status != Submitted && Attempts(w.log, po) < c.maxAttempts && c.connected
      case ReadFails(po) => pc.Holding?
      case Adopt => pc.Found?
      case Decline => pc.Absent? && pc.po in w.pos && !Submittable(w.pos[pc.po].status)
      case Recall => pc.Absent? && pc.po in w.claims && w.claims[pc.po].Completed?
      case GiveUp => pc.Absent? && pc.po in w.claims && w.claims[pc.po].Reserved?
      case Begin => pc.Absent? && pc.po in w.pos && Submittable(w.pos[pc.po].status) && pc.po !in w.claims
      case Deliver => pc.Sending?
      case Refuse(category) => pc.Sending? && (category == PoConnectorRateLimited || category == PoConnectorError)
      case LoseRequest => pc.Sending?
      case LoseResponse => pc.Delivered?
      case Acknowledge => pc.Delivered?
      case ReadBack => pc.Doubt?
      case ReadBackFails => pc.Doubt?
      case Close => pc.Closing?
  }

  function At(s: System, w: World, r: nat, pc: Pc): System
    requires r < |s.runners|
  {
    System(w, s.runners[r := pc], s.lock)
  }

  function Unclaimed(w: World, po: string): World {
    w.(claims := w.claims - {po})
  }

  function Do(c: Config, exclusive: bool, s: System, e: Label): System
    requires Enabled(c, exclusive, s, e)
  {
    match e
    case Elsewhere(pos, log, claims) => s.(world := s.world.(pos := pos, log := log, claims := claims))
    case By(r, a) =>
      var w, pc := s.world, s.runners[r];
      var freed := if s.lock == Some(r) then None else s.lock;
      match a
      case Acquire => At(s, w, r, Holding).(lock := Some(r))
      case Release => At(s, w, r, Idle).(lock := freed)
      case Crash => At(s, w, r, Idle).(lock := freed)
      case CloseOut(po) => At(s, w, r, Closing(po, |w.log|))
      case Escalate(po) => At(s, w.(log := EscalateAll(w.log, po)), r, Holding)
      case ReadTruth(po) =>
        (match Find(w.supplier, po)
         case Some(ref) => At(s, w, r, Found(po, ref))
         case None => At(s, w, r, Absent(po)))
      case ReadFails(po) => At(s, w, r, Holding)
      case Adopt => At(s, MarkSubmitted(w, pc.po, pc.ref), r, Closing(pc.po, |w.log|))
      case Decline => At(s, w, r, Closing(pc.po, |w.log|))
      case Recall => At(s, MarkSubmitted(w, pc.po, w.claims[pc.po].ref), r, Closing(pc.po, |w.log|))
      case GiveUp => At(s, w, r, Holding)
      case Begin => At(s, w.(claims := w.claims[pc.po := Reserved]), r, Sending(pc.po, |w.log|))
      case Deliver =>
        var (supplier, ref) := Create(c, Requested(w.supplier, pc.po), pc.po);
        At(s, w.(supplier := supplier), r, Delivered(pc.po, pc.n, ref))
      case Refuse(category) =>
        At(s, Unclaimed(w, pc.po).(supplier := Requested(w.supplier, pc.po), log := w.log + [Fresh(category, pc.po)]), r, Closing(pc.po, pc.n))
      case LoseRequest => At(s, Unclaimed(w, pc.po).(supplier := Requested(w.supplier, pc.po)), r, Doubt(pc.po, pc.n))
      case LoseResponse => At(s, Unclaimed(w, pc.po), r, Doubt(pc.po, pc.n))
      case Acknowledge =>
        At(s, MarkSubmitted(w, pc.po, pc.ref).(claims := w.claims[pc.po := Completed(pc.ref)]), r, Closing(pc.po, pc.n))
      case ReadBack =>
        (match Find(w.supplier, pc.po)
         case Some(ref) => At(s, MarkSubmitted(w, pc.po, ref), r, Closing(pc.po, pc.n))
         case None => At(s, w.(log := w.log + [Fresh(PoSubmissionUncertain, pc.po)]), r, Closing(pc.po, pc.n)))
      case ReadBackFails => At(s, w, r, Holding)
      case Close => At(s, w.(log := ResolveBefore(w.log, pc.po, pc.n)), r, Holding)
  }

  /** `labels` is an execution from `s` to `t`. */
  ghost predicate Leads(c: Config, exclusive: bool, s: System, labels: seq<Label>, t: System)
    decreases |labels|
  {
    if labels == [] then s == t
    else Enabled(c, exclusive, s, labels[0]) && Leads(c, exclusive, Do(c, exclusive, s, labels[0]), labels[1..], t)
  }

  ghost predicate Initial(s: System) {
    && s.lock.None?
    && (forall r :: 0 <= r < |s.runners| ==> s.runners[r].Idle?)
    && (forall po :: CountOf(s.world.supplier.held, po) <= 1)
  }

  // ----- Safety ------------------------------------------------------------------------

  predicate MutualExclusion(s: System) {
    forall r :: 0 <= r < |s.runners| && !s.runners[r].Idle? ==> s.lock == Some(r)
  }

  ghost predicate AtMostOneOrder(s: System) {
    forall po :: CountOf(s.world.supplier.held, po) <= 1
  }

  /** What each runner knows of the supplier while it holds the lock. */
  predicate KnowsAbsence(s: System) {
    forall r :: 0 <= r < |s.runners| && (s.runners[r].Absent? || s.runners[r].Sending?) ==>
      CountOf(s.world.supplier.held, s.runners[r].po) == 0
  }

  ghost predicate Safe(s: System) {
    MutualExclusion(s) && AtMostOneOrder(s) && KnowsAbsence(s)
  }

  lemma StepKeepsSafe(c: Config, s: System, e: Label)
    requires Safe(s) && Enabled(c, true, s, e)
    ensures Safe(Do(c, true, s, e))
  {
    var t := Do(c, true, s, e);
    forall po ensures CountOf(t.world.supplier.held, po) <= 1 {
      assert CountOf(s.world.supplier.held, po) <= 1;
      if e.By? && e.action.Deliver? {
        assert CountOf(s.world.supplier.held, s.runners[e.runner].po) == 0;
      }
    }
  }

  /**
   Over every execution of any number of runners, with crashes and lost messages anywhere,
   one runner at most works at a time and the supplier holds at most one order per purchase
   order, even if it never deduplicates.
   */
  lemma {:induction false} AlwaysSafe(c: Config, s: System, labels: seq<Label>, t: System)
    requires Safe(s) && Leads(c, true, s, labels, t)
    ensures Safe(t)
    decreases |labels|
  {
    if labels != [] {
      StepKeepsSafe(c, s, labels[0]);
      AlwaysSafe(c, Do(c, true, s, labels[0]), labels[1..], t);
    }
  }

  lemma SafeFromTheStart(c: Config, s: System, labels: seq<Label>, t: System)
    requires Initial(s) && Leads(c, true, s, labels, t)
    ensures MutualExclusion(t) && AtMostOneOrder(t)
  {
    AlwaysSafe(c, s, labels, t);
  }

  // ----- Executions ----------------------------------------------------------------------

  lemma {:induction false} LeadsThen(c: Config, exclusive: bool, s: System, first: seq<Label>, t: System, second: seq<Label>, u: System)
    requires Leads(c, exclusive, s, first, t) && Leads(c, exclusive, t, second, u)
    ensures Leads(c, exclusive, s, first + second, u)
    decreases |first|
  {
    if first == [] {
      assert first + second == second;
    } else {
      assert (first + second)[1..] == first[1..] + second;
      LeadsThen(c, exclusive, Do(c, exclusive, s, first[0]), first[1..], t, second, u);
    }
  }

  lemma One(c: Config, exclusive: bool, s: System, e: Label)
    requires Enabled(c, exclusive, s, e)
    ensures Leads(c, exclusive, s, [e], Do(c, exclusive, s, e))
  {
    var t := Do(c, exclusive, s, e);
    assert Leads(c, exclusive, t, [], t);
    assert [e][1..] == [];
  }

  // ----- Why the lock is there -----------------------------------------------------------

  const UNSAFE := Config(5, true, false)

  /** Both runners of an unlocked system come to know that the supplier holds nothing. */
  lemma BothRead(w: World) returns (labels: seq<Label>, t: System)
    requires "po1" in w.pos && w.pos["po1"].status == Approved && w.log == [] && CountOf(w.supplier.held, "po1") == 0
    ensures Leads(UNSAFE, false, System(w, [Idle, Idle], None), labels, t)
    ensures t.world == w && |t.runners| == 2 && t.runners[0] == Absent("po1") && t.runners[1] == Absent("po1")
  {
    var s0 := System(w, [Idle, Idle], None);
    var l := [By(0, Acquire), By(0, ReadTruth("po1")), By(1, Acquire), By(1, ReadTruth("po1"))];
    var s1 := Do(UNSAFE, false, s0, l[0]);
    var s2 := Do(UNSAFE, false, s1, l[1]);
    var s3 := Do(UNSAFE, false, s2, l[2]);
    t := Do(UNSAFE, false, s3, l[3]);
    One(UNSAFE, false, s0, l[0]);
    One(UNSAFE, false, s1, l[1]);
    One(UNSAFE, false, s2, l[2]);
    One(UNSAFE, false, s3, l[3]);
    LeadsThen(UNSAFE, false, s0, [l[0]], s1, [l[1]], s2);
    LeadsThen(UNSAFE, false, s0, [l[0]] + [l[1]], s2, [l[2]], s3);
    LeadsThen(UNSAFE, false, s0, [l[0]] + [l[1]] + [l[2]], s3, [l[3]], t);
    labels := [l[0]] + [l[1]] + [l[2]] + [l[3]];
  }

  /** A runner that knows of nothing sends, and the response is lost. */
  lemma SendAndLose(s: System, r: nat) returns (labels: seq<Label>, t: System)
    requires r < |s.runners| && s.runners[r] == Absent("po1")
    requires "po1" in s.world.pos && s.world.pos["po1"].status == Approved && "po1" !in s.world.claims
    ensures Leads(UNSAFE, false, s, labels, t)
    ensures |t.runners| == |s.runners| && forall k :: 0 <= k < |s.runners| && k != r ==> t.runners[k] == s.runners[k]
    ensures t.world.pos == s.world.pos && "po1" !in t.world.claims
    ensures CountOf(t.world.supplier.held, "po1") == CountOf(s.world.supplier.held, "po1") + 1
  {
    var s1 := Do(UNSAFE, false, s, By(r, Begin));
    var s2 := Do(UNSAFE, false, s1, By(r, Deliver));
    t := Do(UNSAFE, false, s2, By(r, LoseResponse));
    One(UNSAFE, false, s, By(r, Begin));
    One(UNSAFE, false, s1, By(r, Deliver));
    One(UNSAFE, false, s2, By(r, LoseResponse));
    LeadsThen(UNSAFE, false, s, [By(r, Begin)], s1, [By(r, Deliver)], s2);
    labels := [By(r, Begin)] + [By(r, Deliver)] + [By(r, LoseResponse)];
    LeadsThen(UNSAFE, false, s, [By(r, Begin)] + [By(r, Deliver)], s2, [By(r, LoseResponse)], t);
  }

  /**
   The lock is needed. Without exclusion two runners both read the supplier before either
   sends; when the first response is lost its claim is released, and the second sends again.
   */
  lemma WithoutTheLockOrdersDouble()
    ensures exists s, labels, t ::
              Initial(s) && Leads(UNSAFE, false, s, labels, t) && CountOf(t.world.supplier.held, "po1") == 2
  {
    hide Leads, Do, Enabled;
    var w := World(map["po1" := Po(Approved, None)], [], map[], Supplier(map[], map[]));
    var s := System(w, [Idle, Idle], None);
    var l1, s1 := BothRead(w);
    var l2, s2 := SendAndLose(s1, 0);
    var l3, s3 := SendAndLose(s2, 1);
    LeadsThen(UNSAFE, false, s, l1, s1, l2, s2);
    LeadsThen(UNSAFE, false, s, l1 + l2, s2, l3, s3);
    assert Initial(s) && Leads(UNSAFE, false, s, l1 + l2 + l3, s3);
  }

  // ----- The sequential worker is one of these executions --------------------------------

  function Working(w: World, runners: seq<Pc>, r: nat, pc: Pc): System
    requires r < |runners|
  {
    System(w, runners[r := pc], Some(r))
  }

  /** The labels that follow a timeout. A read-back that fails raises, and the records stay as they are. */
  function AfterLoss(r: nat, readBack: bool): seq<Label> {
    if readBack then [By(r, ReadBack)] + [By(r, Close)] else [By(r, ReadBackFails)]
  }

  /** The labels of one retry, after the read of external truth. */
  function RetryLabels(r: nat, w: World, id: string, ans: Answers): seq<Label>
    requires id in w.pos
  {
    if !Submittable(w.pos[id].status) then [By(r, Decline), By(r, Close)]
    else if id in w.claims then
      if w.claims[id].Completed? then [By(r, Recall), By(r, Close)] else [By(r, GiveUp)]
    else
      [By(r, Begin)] +
      match ans.fate
      case Accept => [By(r, Deliver), By(r, Acknowledge), By(r, Close)]
      case TimeoutBefore => [By(r, LoseRequest)] + AfterLoss(r, ans.readBack)
      case TimeoutAfter => [By(r, Deliver), By(r, LoseResponse)] + AfterLoss(r, ans.readBack)
      case RateLimit => [By(r, Refuse(PoConnectorRateLimited)), By(r, Close)]
      case ServerError => [By(r, Refuse(PoConnectorError)), By(r, Close)]
  }

  /** The execution that handles one purchase order as the sequential worker does. */
  function HandleLabels(c: Config, r: nat, w: World, id: string, ans: Answers): seq<Label>
    requires id in w.pos
  {
    if w.pos[id].status == Submitted then [By(r, CloseOut(id)), By(r, Close)]
    else if Attempts(w.log, id) >= c.maxAttempts then [By(r, Escalate(id))]
    else if !ans.truth then [By(r, ReadFails(id))]
    else if Find(w.supplier, id).Some? then [By(r, ReadTruth(id)), By(r, Adopt), By(r, Close)]
    else [By(r, ReadTruth(id))] + RetryLabels(r, w, id, ans)
  }

  /** One step of the working runner, followed by what it leads to. */
  lemma Move(c: Config, w: World, runners: seq<Pc>, r: nat, pc: Pc, a: Action, w': World, pc': Pc, rest: seq<Label>, t: System)
    requires r < |runners| && a != Acquire && a != Release && a != Crash
    requires Enabled(c, true, Working(w, runners, r, pc), By(r, a))
    requires var next := Do(c, true, Working(w, runners, r, pc), By(r, a)); next.world == w' && next.runners[r] == pc'
    requires Leads(c, true, Working(w', runners, r, pc'), rest, t)
    ensures Leads(c, true, Working(w, runners, r, pc), [By(r, a)] + rest, t)
  {
    var next := Do(c, true, Working(w, runners, r, pc), By(r, a));
    assert next.runners == runners[r := pc'];
    assert ([By(r, a)] + rest)[1..] == rest;
  }

  lemma Stays(c: Config, s: System)
    ensures Leads(c, true, s, [], s)
  {
  }

  /** The last step of every handling: the older records are resolved. */
  lemma Closes(c: Config, w: World, runners: seq<Pc>, r: nat, id: string, n: nat)
    requires r < |runners|
    ensures Leads(c, true, Working(w, runners, r, Closing(id, n)), [By(r, Close)],
                  Working(w.(log := ResolveBefore(w.log, id, n)), runners, r, Holding))
  {
    var w' := w.(log := ResolveBefore(w.log, id, n));
    var t := Working(w', runners, r, Holding);
    assert Leads(c, true, t, [], t);
    Move(c, w, runners, r, Closing(id, n), Close, w', Holding, [], t);
    assert [By(r, Close)] + [] == [By(r, Close)];
  }

  function Claimed(w: World, id: string): World {
    w.(claims := w.claims[id := Reserved])
  }

  lemma UnclaimRestores(w: World, id: string)
    requires id !in w.claims
    ensures Unclaimed(Claimed(w, id), id) == w
  {
    assert w.claims[id := Reserved] - {id} == w.claims;
  }

  predicate CanSend(c: Config, w: World, id: string) {
    c.connected && id in w.pos && Submittable(w.pos[id].status) && id !in w.claims && Find(w.supplier, id).None?
  }

  /** The supplier has the order and its response arrives. */
  lemma AcknowledgeRefines(c: Config, w: World, runners: seq<Pc>, r: nat, id: string, n: nat, ref: ExternalRef)
    requires id in w.pos && r < |runners|
    ensures var done := MarkSubmitted(w, id, ref).(claims := w.claims[id := Completed(ref)]);
            Leads(c, true, Working(w, runners, r, Delivered(id, n, ref)), [By(r, Acknowledge)] + [By(r, Close)],
                  Working(done.(log := ResolveBefore(w.log, id, n)), runners, r, Holding))
  {
    hide Leads, ResolveBefore;
    var done := MarkSubmitted(w, id, ref).(claims := w.claims[id := Completed(ref)]);
    var t := Working(done.(log := ResolveBefore(w.log, id, n)), runners, r, Holding);
    Closes(c, done, runners, r, id, n);
    Move(c, w, runners, r, Delivered(id, n, ref), Acknowledge, done, Closing(id, n), [By(r, Close)], t);
  }

  /** The request takes effect and the response arrives. */
  lemma AcceptRefines(c: Config, w: World, runners: seq<Pc>, r: nat, id: string, ans: Answers)
    requires CanSend(c, w, id) && r < |runners| && ans.fate == Accept
    ensures Leads(c, true, Working(Claimed(w, id), runners, r, Sending(id, |w.log|)),
                  [By(r, Deliver)] + ([By(r, Acknowledge)] + [By(r, Close)]),
                  Working(Retry(c, w, id, ans).world, runners, r, Holding))
  {
    hide Leads, ResolveBefore;
    var n := |w.log|;
    var t := Working(Retry(c, w, id, ans).world, runners, r, Holding);
    var (supplier, ref) := Create(c, Requested(w.supplier, id), id);
    var delivered := Claimed(w, id).(supplier := supplier);
    assert w.claims[id := Reserved][id := Completed(ref)] == w.claims[id := Completed(ref)];
    AcknowledgeRefines(c, delivered, runners, r, id, n, ref);
    Move(c, Claimed(w, id), runners, r, Sending(id, n), Deliver, delivered, Delivered(id, n, ref), [By(r, Acknowledge)] + [By(r, Close)], t);
  }

  /** The world after a timeout was dealt with. */
  function Doubted(w: World, id: string, n: nat, readBack: bool): World
    requires id in w.pos
  {
    match AfterTimeout(w, id, readBack)
    case Raised(w') => w'
    case Returned(w', _) => w'.(log := ResolveBefore(w'.log, id, n))
  }

  /** The read-back finds the order, or finds nothing and leaves a fresh record, or fails. */
  lemma DoubtRefines(c: Config, w: World, runners: seq<Pc>, r: nat, id: string, n: nat, readBack: bool)
    requires id in w.pos && r < |runners|
    ensures Leads(c, true, Working(w, runners, r, Doubt(id, n)), AfterLoss(r, readBack),
                  Working(Doubted(w, id, n, readBack), runners, r, Holding))
  {
    hide Leads, ResolveBefore;
    var t := Working(Doubted(w, id, n, readBack), runners, r, Holding);
    if readBack {
      var resolved := AfterTimeout(w, id, readBack).world;
      Closes(c, resolved, runners, r, id, n);
      Move(c, w, runners, r, Doubt(id, n), ReadBack, resolved, Closing(id, n), [By(r, Close)], t);
    } else {
      Stays(c, t);
      Move(c, w, runners, r, Doubt(id, n), ReadBackFails, w, Holding, [], t);
      assert [By(r, ReadBackFails)] + [] == [By(r, ReadBackFails)];
    }
  }

  /** The request is lost: nothing at the supplier, and a timeout. */
  lemma LostRequestRefines(c: Config, w: World, runners: seq<Pc>, r: nat, id: string, ans: Answers)
    requires CanSend(c, w, id) && r < |runners| && ans.fate == TimeoutBefore
    ensures Leads(c, true, Working(Claimed(w, id), runners, r, Sending(id, |w.log|)),
                  [By(r, LoseRequest)] + AfterLoss(r, ans.readBack),
                  Working(Retry(c, w, id, ans).world, runners, r, Holding))
  {
    hide Leads, ResolveBefore;
    var n := |w.log|;
    UnclaimRestores(w, id);
    var asked := w.(supplier := Requested(w.supplier, id));
    var t := Working(Retry(c, w, id, ans).world, runners, r, Holding);
    assert Retry(c, w, id, ans).world == Doubted(asked, id, n, ans.readBack);
    DoubtRefines(c, asked, runners, r, id, n, ans.readBack);
    assert Unclaimed(Claimed(w, id), id).(supplier := asked.supplier) == asked;
    Move(c, Claimed(w, id), runners, r, Sending(id, n), LoseRequest, asked, Doubt(id, n), AfterLoss(r, ans.readBack), t);
  }

  /** The request takes effect and the response is lost. */
  lemma LostResponseRefines(c: Config, w: World, runners: seq<Pc>, r: nat, id: string, ans: Answers)
    requires CanSend(c, w, id) && r < |runners| && ans.fate == TimeoutAfter
    ensures Leads(c, true, Working(Claimed(w, id), runners, r, Sending(id, |w.log|)),
                  [By(r, Deliver)] + ([By(r, LoseResponse)] + AfterLoss(r, ans.readBack)),
                  Working(Retry(c, w, id, ans).world, runners, r, Holding))
  {
    hide Leads, ResolveBefore;
    var n := |w.log|;
    UnclaimRestores(w, id);
    var t := Working(Retry(c, w, id, ans).world, runners, r, Holding);
    var asked := w.(supplier := Requested(w.supplier, id));
    var (supplier, ref) := Create(c, asked.supplier, id);
    var delivered := Claimed(w, id).(supplier := supplier);
    var lost := w.(supplier := supplier);
    assert Unclaimed(delivered, id) == lost;
    assert Retry(c, w, id, ans).world == Doubted(lost, id, n, ans.readBack);
    DoubtRefines(c, lost, runners, r, id, n, ans.readBack);
    var rest := AfterLoss(r, ans.readBack);
    Move(c, delivered, runners, r, Delivered(id, n, ref), LoseResponse, lost, Doubt(id, n), rest, t);
    Move(c, Claimed(w, id), runners, r, Sending(id, n), Deliver, delivered, Delivered(id, n, ref), [By(r, LoseResponse)] + rest, t);
  }

  /** The supplier refuses: a record of another category. */
  lemma RefusalRefines(c: Config, w: World, runners: seq<Pc>, r: nat, id: string, ans: Answers)
    requires CanSend(c, w, id) && r < |runners| && (ans.fate == RateLimit || ans.fate == ServerError)
    ensures Leads(c, true, Working(Claimed(w, id), runners, r, Sending(id, |w.log|)),
                  [By(r, Refuse(if ans.fate == RateLimit then PoConnectorRateLimited else PoConnectorError))] + [By(r, Close)],
                  Working(Retry(c, w, id, ans).world, runners, r, Holding))
  {
    var n := |w.log|;
    UnclaimRestores(w, id);
    var submitted := Submit(c, w, id, ans).world;
    var t := Working(Retry(c, w, id, ans).world, runners, r, Holding);
    Closes(c, submitted, runners, r, id, n);
    var asked := w.(supplier := Requested(w.supplier, id));
    var category := if ans.fate == RateLimit then PoConnectorRateLimited else PoConnectorError;
    Move(c, Claimed(w, id), runners, r, Sending(id, n), Refuse(category), submitted, Closing(id, n), [By(r, Close)], t);
  }

  /** The exchange with the supplier, for each fate of the request. */
  lemma SendRefines(c: Config, w: World, runners: seq<Pc>, r: nat, id: string, ans: Answers)
    requires CanSend(c, w, id) && r < |runners|
    ensures Leads(c, true, Working(Claimed(w, id), runners, r, Sending(id, |w.log|)),
                  RetryLabels(r, w, id, ans)[1..],
                  Working(Retry(c, w, id, ans).world, runners, r, Holding))
  {
    hide Leads, Retry, Do, Enabled;
    var rest := RetryLabels(r, w, id, ans)[1..];
    match ans.fate {
      case Accept =>
        AcceptRefines(c, w, runners, r, id, ans);
        assert rest == [By(r, Deliver)] + ([By(r, Acknowledge)] + [By(r, Close)]);
      case TimeoutBefore =>
        LostRequestRefines(c, w, runners, r, id, ans);
        assert rest == [By(r, LoseRequest)] + AfterLoss(r, ans.readBack);
      case TimeoutAfter =>
        LostResponseRefines(c, w, runners, r, id, ans);
        assert rest == [By(r, Deliver)] + ([By(r, LoseResponse)] + AfterLoss(r, ans.readBack));
      case RateLimit =>
        RefusalRefines(c, w, runners, r, id, ans);
        assert rest == [By(r, Refuse(PoConnectorRateLimited))] + [By(r, Close)];
      case ServerError =>
        RefusalRefines(c, w, runners, r, id, ans);
        assert rest == [By(r, Refuse(PoConnectorError))] + [By(r, Close)];
    }
  }

  /** The order is not in a state that is submitted: only the records are resolved. */
  lemma DeclineRefines(c: Config, w: World, runners: seq<Pc>, r: nat, id: string, ans: Answers)
    requires id in w.pos && !Submittable(w.pos[id].status) && r < |runners|
    ensures Leads(c, true, Working(w, runners, r, Absent(id)), [By(r, Decline)] + [By(r, Close)],
                  Working(Retry(c, w, id, ans).world, runners, r, Holding))
  {
    hide Attempts, ResolveBefore, Leads;
    var n, t := |w.log|, Working(Retry(c, w, id, ans).world, runners, r, Holding);
    Closes(c, w, runners, r, id, n);
    Move(c, w, runners, r, Absent(id), Decline, w, Closing(id, n), [By(r, Close)], t);
  }

  /** A completed claim answers for the supplier. */
  lemma RecallRefines(c: Config, w: World, runners: seq<Pc>, r: nat, id: string, ans: Answers)
    requires c.connected && id in w.pos && Submittable(w.pos[id].status) && id in w.claims && w.claims[id].Completed? && r < |runners|
    ensures Leads(c, true, Working(w, runners, r, Absent(id)), [By(r, Recall)] + [By(r, Close)],
                  Working(Retry(c, w, id, ans).world, runners, r, Holding))
  {
    hide Attempts, ResolveBefore, Leads;
    var n, t := |w.log|, Working(Retry(c, w, id, ans).world, runners, r, Holding);
    var recalled := MarkSubmitted(w, id, w.claims[id].ref);
    Closes(c, recalled, runners, r, id, n);
    Move(c, w, runners, r, Absent(id), Recall, recalled, Closing(id, n), [By(r, Close)], t);
  }

  /** An abandoned claim makes the call fail. */
  lemma GiveUpRefines(c: Config, w: World, runners: seq<Pc>, r: nat, id: string, ans: Answers)
    requires c.connected && id in w.pos && Submittable(w.pos[id].status) && id in w.claims && w.claims[id].Reserved? && r < |runners|
    ensures Leads(c, true, Working(w, runners, r, Absent(id)), [By(r, GiveUp)],
                  Working(Retry(c, w, id, ans).world, runners, r, Holding))
  {
    hide Attempts, ResolveBefore, Leads;
    var t := Working(Retry(c, w, id, ans).world, runners, r, Holding);
    Stays(c, t);
    Move(c, w, runners, r, Absent(id), GiveUp, w, Holding, [], t);
    assert [By(r, GiveUp)] + [] == [By(r, GiveUp)];
  }

  lemma RetryRefines(c: Config, w: World, runners: seq<Pc>, r: nat, id: string, ans: Answers)
    requires c.connected && id in w.pos && Find(w.supplier, id).None? && r < |runners|
    ensures Leads(c, true, Working(w, runners, r, Absent(id)), RetryLabels(r, w, id, ans),
                  Working(Retry(c, w, id, ans).world, runners, r, Holding))
  {
    hide Attempts, ResolveBefore, Leads, Retry;
    var t := Working(Retry(c, w, id, ans).world, runners, r, Holding);
    if !Submittable(w.pos[id].status) {
      DeclineRefines(c, w, runners, r, id, ans);
      assert RetryLabels(r, w, id, ans) == [By(r, Decline)] + [By(r, Close)];
    } else if id in w.claims {
      if w.claims[id].Completed? {
        RecallRefines(c, w, runners, r, id, ans);
        assert RetryLabels(r, w, id, ans) == [By(r, Recall)] + [By(r, Close)];
      } else {
        GiveUpRefines(c, w, runners, r, id, ans);
      }
    } else {
      SendRefines(c, w, runners, r, id, ans);
      var rest := RetryLabels(r, w, id, ans)[1..];
      Move(c, w, runners, r, Absent(id), Begin, Claimed(w, id), Sending(id, |w.log|), rest, t);
      assert RetryLabels(r, w, id, ans) == [By(r, Begin)] + rest;
    }
  }

  /**
   The sequential worker refines the protocol: what `HandlePo` does to one purchase order in
   one go is an execution of the protocol's separate steps by the lock holder, whatever the
   supplier does. So the protocol's safety covers the worker as written.
   */
  lemma HandleRefines(c: Config, w: World, runners: seq<Pc>, r: nat, id: string, ans: Answers)
    requires c.connected && id in w.pos && r < |runners|
    ensures Leads(c, true, Working(w, runners, r, Holding), HandleLabels(c, r, w, id, ans),
                  Working(HandlePo(c, w, id, ans).world, runners, r, Holding))
  {
    hide Retry, ResolveBefore, Leads;
    var n := |w.log|;
    var t := Working(HandlePo(c, w, id, ans).world, runners, r, Holding);
    if w.pos[id].status == Submitted {
      Closes(c, w, runners, r, id, n);
      Move(c, w, runners, r, Holding, CloseOut(id), w, Closing(id, n), [By(r, Close)], t);
      assert HandleLabels(c, r, w, id, ans) == [By(r, CloseOut(id))] + [By(r, Close)];
    } else if Attempts(w.log, id) >= c.maxAttempts {
      Stays(c, t);
      Move(c, w, runners, r, Holding, Escalate(id), w.(log := EscalateAll(w.log, id)), Holding, [], t);
      assert HandleLabels(c, r, w, id, ans) == [By(r, Escalate(id))] + [];
    } else if !ans.truth {
      Stays(c, t);
      Move(c, w, runners, r, Holding, ReadFails(id), w, Holding, [], t);
      assert HandleLabels(c, r, w, id, ans) == [By(r, ReadFails(id))] + [];
    } else if Find(w.supplier, id).Some? {
      var ref := Find(w.supplier, id).value;
      var adopted := MarkSubmitted(w, id, ref);
      Closes(c, adopted, runners, r, id, n);
      Move(c, w, runners, r, Found(id, ref), Adopt, adopted, Closing(id, n), [By(r, Close)], t);
      Move(c, w, runners, r, Holding, ReadTruth(id), w, Found(id, ref), [By(r, Adopt)] + [By(r, Close)], t);
      assert HandleLabels(c, r, w, id, ans) == [By(r, ReadTruth(id))] + ([By(r, Adopt)] + [By(r, Close)]);
    } else {
      RetryRefines(c, w, runners, r, id, ans);
      Move(c, w, runners, r, Holding, ReadTruth(id), w, Absent(id), RetryLabels(r, w, id, ans), t);
    }
  }

  /** And so a whole pass over a merchant, up to its end or to the order it raises at, is an execution too. */
  lemma {:induction false} PassRefines(c: Config, w: World, runners: seq<Pc>, r: nat, ids: seq<string>, answers: string -> Answers)
    returns (labels: seq<Label>)
    requires c.connected && r < |runners|
    ensures Leads(c, true, Working(w, runners, r, Holding), labels,
                  Working(PassOver(c, w, ids, answers).world, runners, r, Holding))
    decreases |ids|
  {
    labels := [];
    if ids != [] && ids[0] in w.pos {
      var h := HandlePo(c, w, ids[0], answers(ids[0]));
      labels := HandleLabels(c, r, w, ids[0], answers(ids[0]));
      HandleRefines(c, w, runners, r, ids[0], answers(ids[0]));
      if !h.verdict.Raises() {
        var rest := PassRefines(c, h.world, runners, r, ids[1..], answers);
        LeadsThen(c, true, Working(w, runners, r, Holding), labels, Working(h.world, runners, r, Holding), rest,
                  Working(PassOver(c, w, ids, answers).world, runners, r, Holding));
        labels := labels + rest;
      }
    }
  }
}
