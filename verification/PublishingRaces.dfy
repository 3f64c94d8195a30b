/**
 Several publishers at once. The look-up and the write of a publication are separate
 requests, and other publishers may get in between.
 */
module PublishingRaces {
  import opened Common
  import opened Publishing

  /** A publisher that has looked up: its request, and the id of the product it found. */
  datatype Pending = Pending(request: Request, found: Option<nat>)

  datatype System = System(world: World, publishers: seq<Option<Pending>>)

  datatype Label = LookUp(p: nat, request: Request) | Write(p: nat, fate: Fate)

  /** The key of a request is claimed while it is under way and when it is done. */
  predicate Claimed(s: System, r: Request) {
    Key(r) in s.world.done
    || exists q :: 0 <= q < |s.publishers| && s.publishers[q].Some? && Key(s.publishers[q].value.request) == Key(r)
  }

  predicate Enabled(s: System, l: Label) {
    l.p < |s.publishers|
    && match l
       case LookUp(p, request) => s.publishers[p].None? && !Claimed(s, request)
       case Write(p, _) => s.publishers[p].Some?
  }

  /** The write decided on by the look-up, whatever happened since. */
  function ApplyFound(w: World, m: Pending): (World, nat) {
    match m.found
    case Some(id) => (Put(w, id, m.request.sku, m.request.body), id)
    case None => (Post(w, m.request.sku, m.request.body), w.nextId)
  }

  predicate Applied(fate: Fate) {
    fate == AnswerLost || fate == Answered
  }

  function Do(s: System, l: Label): System
    requires Enabled(s, l)
  {
    match l
    case LookUp(p, request) =>
      var found := Find(s.world, request.sku);
      s.(publishers := s.publishers[p := Some(Pending(request, if found.Some? then Some(found.value.id) else None))])
    case Write(p, fate) =>
      var m := s.publishers[p].value;
      var (w, id) := ApplyFound(s.world, m);
      var world := if fate == Answered then w.(done := w.done[Key(m.request) := id]) else if fate == AnswerLost then w else s.world;
      System(world, s.publishers[p := None])
  }

  /** `labels` is an execution from `s` to `t`. */
  ghost predicate Leads(s: System, labels: seq<Label>, t: System)
    decreases |labels|
  {
    if labels == [] then s == t else Enabled(s, labels[0]) && Leads(Do(s, labels[0]), labels[1..], t)
  }

  /** A look-up followed by its write is the publication of one publisher. */
  lemma PublishIsTwoSteps(w: World, r: Request, fate: Fate)
    requires fate != LookUpFails && Key(r) !in w.done
    ensures var s := System(w, [None]);
            Enabled(s, LookUp(0, r)) && Enabled(Do(s, LookUp(0, r)), Write(0, fate))
            && Do(Do(s, LookUp(0, r)), Write(0, fate)) == System(Publish(w, r, fate).0, [None])
  {
    var s := System(w, [None]);
    var looked := Do(s, LookUp(0, r));
    assert looked.publishers[0 := None] == [None];
  }

  // ----- What is always so -------------------------------------------------------------

  predicate DistinctIds(w: World) {
    (forall i, j :: 0 <= i < j < |w.products| ==> w.products[i].id != w.products[j].id)
    && forall i :: 0 <= i < |w.products| ==> w.products[i].id < w.nextId
  }

  predicate DistinctSkus(w: World) {
    forall i, j :: 0 <= i < j < |w.products| ==> w.products[i].sku != w.products[j].sku
  }

  predicate HasSku(w: World, sku: string) {
    exists i :: 0 <= i < |w.products| && w.products[i].sku == sku
  }

  predicate Knows(w: World, m: Pending) {
    m.found.Some? ==> exists i :: 0 <= i < |w.products| && w.products[i].id == m.found.value && w.products[i].sku == m.request.sku
  }

  /** Ids are distinct, and what a publisher found is still there. */
  predicate Grounded(s: System) {
    DistinctIds(s.world) && forall p :: 0 <= p < |s.publishers| && s.publishers[p].Some? ==> Knows(s.world, s.publishers[p].value)
  }

  /** A write that reaches the platform adds a product if the look-up found none, and otherwise changes the one it found. */
  lemma WriteEffect(w: World, m: Pending)
    requires DistinctIds(w) && Knows(w, m)
    ensures var t := ApplyFound(w, m).0;
            DistinctIds(t) && |t.products| == |w.products| + (if m.found.None? then 1 else 0)
            && (forall i :: 0 <= i < |w.products| ==> t.products[i].sku == w.products[i].sku && t.products[i].id == w.products[i].id)
            && (m.found.None? ==> t.products[|w.products|] == Product(w.nextId, m.request.sku, m.request.body))
  {
    if m.found.Some? {
      var i :| 0 <= i < |w.products| && w.products[i].id == m.found.value && w.products[i].sku == m.request.sku;
      assert IndexOfId(w.products, m.found.value) == i;
    }
  }

  lemma KnowsStays(w: World, t: World, m: Pending)
    requires Knows(w, m) && |w.products| <= |t.products|
    requires forall i :: 0 <= i < |w.products| ==> t.products[i].sku == w.products[i].sku && t.products[i].id == w.products[i].id
    ensures Knows(t, m)
  {
    if m.found.Some? {
      var i :| 0 <= i < |w.products| && w.products[i].id == m.found.value && w.products[i].sku == m.request.sku;
      assert t.products[i].id == m.found.value;
    }
  }

  lemma StepKeepsGrounded(s: System, l: Label)
    requires Grounded(s) && Enabled(s, l)
    ensures Grounded(Do(s, l))
  {
    hide Knows, DistinctIds, ApplyFound, Claimed;
    match l {
      case LookUp(p, request) =>
        LookUpKnows(s.world, request);
      case Write(p, fate) =>
        var m := s.publishers[p].value;
        WriteEffect(s.world, m);
        var w := ApplyFound(s.world, m).0;
        assert DistinctIds(Do(s, l).world) by { DoneIsNoMatter(w, Key(m.request), ApplyFound(s.world, m).1); }
        forall q | 0 <= q < |s.publishers| && Do(s, l).publishers[q].Some?
          ensures Knows(Do(s, l).world, Do(s, l).publishers[q].value)
        {
          if Applied(fate) {
            KnowsStays(s.world, Do(s, l).world, s.publishers[q].value);
          }
        }
    }
  }

  lemma LookUpKnows(w: World, r: Request)
    ensures var found := Find(w, r.sku);
            Knows(w, Pending(r, if found.Some? then Some(found.value.id) else None))
  {
  }

  lemma DoneIsNoMatter(w: World, k: (Action, string), id: nat)
    ensures DistinctIds(w.(done := w.done[k := id])) <==> DistinctIds(w)
  {
  }

  // ----- Exactly when SKUs stay distinct -----------------------------------------------

  /** A write that creates a product whose SKU another publisher created since the look-up. */
  predicate Overtaken(s: System, l: Label)
    requires Enabled(s, l)
  {
    l.Write? && Applied(l.fate) && s.publishers[l.p].value.found.None? && HasSku(s.world, s.publishers[l.p].value.request.sku)
  }

  /** Some write of an execution is overtaken. */
  predicate OvertakenIn(s: System, labels: seq<Label>)
    decreases |labels|
  {
    labels != [] && Enabled(s, labels[0]) && (Overtaken(s, labels[0]) || OvertakenIn(Do(s, labels[0]), labels[1..]))
  }

  lemma StepKeepsSkus(s: System, l: Label)
    requires Grounded(s) && Enabled(s, l)
    ensures DistinctSkus(Do(s, l).world) <==> DistinctSkus(s.world) && !Overtaken(s, l)
  {
    hide ApplyFound, Knows, DistinctIds, Claimed;
    if l.Write? && Applied(l.fate) {
      var m := s.publishers[l.p].value;
      WriteEffect(s.world, m);
      var t, n := Do(s, l).world, |s.world.products|;
      if !DistinctSkus(s.world) {
        var i, j :| 0 <= i < j < n && s.world.products[i].sku == s.world.products[j].sku;
        assert t.products[i].sku == t.products[j].sku;
      } else if Overtaken(s, l) {
        var i :| 0 <= i < n && s.world.products[i].sku == m.request.sku;
        assert t.products[i].sku == t.products[n].sku;
      }
    }
  }

  /** Over every execution, SKUs stay distinct if and only if no write was overtaken. */
  lemma {:induction false} DistinctExactly(s: System, labels: seq<Label>, t: System)
    requires Grounded(s) && Leads(s, labels, t)
    ensures DistinctSkus(t.world) <==> DistinctSkus(s.world) && !OvertakenIn(s, labels)
    ensures Grounded(t)
    decreases |labels|
  {
    hide Do, Enabled, Grounded, DistinctSkus, Overtaken;
    if labels != [] {
      StepKeepsSkus(s, labels[0]);
      StepKeepsGrounded(s, labels[0]);
      DistinctExactly(Do(s, labels[0]), labels[1..], t);
    }
  }

  // ----- A condition on look-ups -------------------------------------------------------

  /** Two publishers that both looked up one SKU and found nothing. */
  predicate Twins(s: System) {
    exists p, q :: 0 <= p < q < |s.publishers| && s.publishers[p].Some? && s.publishers[q].Some?
                   && s.publishers[p].value.found.None? && s.publishers[q].value.found.None?
                   && s.publishers[p].value.request.sku == s.publishers[q].value.request.sku
  }

  /** What was not found is not there. */
  predicate UpToDate(s: System) {
    forall p :: 0 <= p < |s.publishers| && s.publishers[p].Some? && s.publishers[p].value.found.None? ==>
      !HasSku(s.world, s.publishers[p].value.request.sku)
  }

  predicate Safe(s: System) {
    Grounded(s) && DistinctSkus(s.world) && UpToDate(s) && !Twins(s)
  }

  /** A look-up that finds nothing comes only when no other such look-up of its SKU is pending. */
  predicate Disciplined(s: System, l: Label) {
    l.LookUp? && !HasSku(s.world, l.request.sku) ==>
      forall q :: 0 <= q < |s.publishers| && s.publishers[q].Some? && s.publishers[q].value.found.None? ==>
        s.publishers[q].value.request.sku != l.request.sku
  }

  predicate DisciplinedIn(s: System, labels: seq<Label>)
    decreases |labels|
  {
    labels == [] || (Enabled(s, labels[0]) && Disciplined(s, labels[0]) && DisciplinedIn(Do(s, labels[0]), labels[1..]))
  }

  lemma HasSkuAfterWrite(w: World, m: Pending, done: map<(Action, string), nat>, sku: string)
    requires DistinctIds(w) && Knows(w, m)
    ensures var t := ApplyFound(w, m).0.(done := done);
            HasSku(t, sku) <==> HasSku(w, sku) || (m.found.None? && m.request.sku == sku)
  {
    hide ApplyFound, Knows, DistinctIds;
    WriteEffect(w, m);
    var t := ApplyFound(w, m).0;
    if i :| 0 <= i < |w.products| && w.products[i].sku == sku {
      assert t.products[i].sku == sku;
    }
  }

  lemma FindsIffHas(w: World, sku: string)
    ensures Find(w, sku).None? <==> !HasSku(w, sku)
  {
  }

  lemma DisciplineKeepsSafe(s: System, l: Label)
    requires Safe(s) && Enabled(s, l) && Disciplined(s, l)
    ensures Safe(Do(s, l))
  {
    hide Knows, DistinctIds, HasSku, ApplyFound, Claimed, DistinctSkus, Grounded, Find;
    var t := Do(s, l);
    StepKeepsGrounded(s, l);
    StepKeepsSkus(s, l);
    match l {
      case LookUp(p, request) =>
        FindsIffHas(s.world, request.sku);
      case Write(p, fate) =>
        var m := s.publishers[p].value;
        assert DistinctIds(s.world) && Knows(s.world, m) by { GroundedKnows(s, p); }
        forall sku
          ensures Applied(fate) ==> (HasSku(t.world, sku) <==> HasSku(s.world, sku) || (m.found.None? && m.request.sku == sku))
        {
          HasSkuAfterWrite(s.world, m, t.world.done, sku);
        }
    }
  }

  lemma GroundedKnows(s: System, p: nat)
    requires Grounded(s) && p < |s.publishers| && s.publishers[p].Some?
    ensures DistinctIds(s.world) && Knows(s.world, s.publishers[p].value)
  {
  }

  /** Publishers that keep the discipline keep SKUs distinct, in every execution. */
  lemma {:induction false} DisciplineIsEnough(s: System, labels: seq<Label>, t: System)
    requires Safe(s) && DisciplinedIn(s, labels) && Leads(s, labels, t)
    ensures Safe(t)
    decreases |labels|
  {
    hide Safe, Do, Enabled, Disciplined;
    if labels != [] {
      DisciplineKeepsSafe(s, labels[0]);
      DisciplineIsEnough(Do(s, labels[0]), labels[1..], t);
    }
  }

  predicate WritesOnly(labels: seq<Label>) {
    forall i :: 0 <= i < |labels| ==> labels[i].Write?
  }

  lemma {:induction false} WritesAreDisciplined(s: System, labels: seq<Label>, t: System)
    requires WritesOnly(labels) && Leads(s, labels, t)
    ensures DisciplinedIn(s, labels)
    decreases |labels|
  {
    hide Do, Enabled;
    if labels != [] {
      WritesAreDisciplined(Do(s, labels[0]), labels[1..], t);
    }
  }

  /** Twins that both write make two products of one SKU. */
  lemma TwinsDouble(s: System, p: nat, q: nat) returns (t: System)
    requires Grounded(s) && p < q < |s.publishers| && s.publishers[p].Some? && s.publishers[q].Some?
    requires s.publishers[p].value.found.None? && s.publishers[q].value.found.None?
    requires s.publishers[p].value.request.sku == s.publishers[q].value.request.sku
    ensures Leads(s, [Write(p, Answered), Write(q, Answered)], t) && !DistinctSkus(t.world)
  {
    var l1, l2 := Write(p, Answered), Write(q, Answered);
    var s1 := Do(s, l1);
    t := Do(s1, l2);
    assert [l1, l2][1..] == [l2] && [l2][1..] == [];
    assert Leads(t, [], t) && Leads(s1, [l2], t);
    StepKeepsGrounded(s, l1);
    GroundedKnows(s, p);
    HasSkuAfterWrite(s.world, s.publishers[p].value, s1.world.done, s.publishers[p].value.request.sku);
    StepKeepsSkus(s1, l2);
  }

  /**
   What look-ups have to avoid, exactly: the pending writes can go ahead in any order, each
   with any fate, and keep SKUs distinct, if and only if no two of them looked up the same
   SKU and found nothing.
   */
  lemma TwinsAreTheCondition(s: System)
    requires Grounded(s) && DistinctSkus(s.world) && UpToDate(s)
    ensures (forall labels, t :: WritesOnly(labels) && Leads(s, labels, t) ==> DistinctSkus(t.world)) <==> !Twins(s)
  {
    hide Leads, Grounded, DistinctSkus, UpToDate;
    if Twins(s) {
      var p, q :| 0 <= p < q < |s.publishers| && s.publishers[p].Some? && s.publishers[q].Some?
                  && s.publishers[p].value.found.None? && s.publishers[q].value.found.None?
                  && s.publishers[p].value.request.sku == s.publishers[q].value.request.sku;
      var t := TwinsDouble(s, p, q);
      assert WritesOnly([Write(p, Answered), Write(q, Answered)]);
    } else {
      forall labels, t | WritesOnly(labels) && Leads(s, labels, t)
        ensures DistinctSkus(t.world)
      {
        SafeWrites(s, labels, t);
      }
    }
  }

  lemma SafeWrites(s: System, labels: seq<Label>, t: System)
    requires Safe(s) && WritesOnly(labels) && Leads(s, labels, t)
    ensures DistinctSkus(t.world)
  {
    hide Leads, WritesOnly, Twins, UpToDate, DistinctSkus, Grounded;
    WritesAreDisciplined(s, labels, t);
    DisciplineIsEnough(s, labels, t);
  }

  /** Such a state is reached whenever two publishers look up an absent SKU before either writes. */
  lemma InterleavedPublishersDouble(w: World, a: Request, b: Request) returns (labels: seq<Label>, t: System)
    requires Distinct(w) && a.sku == b.sku && Find(w, a.sku).None?
    requires Key(a) != Key(b) && Key(a) !in w.done && Key(b) !in w.done
    ensures labels == [LookUp(0, a), LookUp(1, b), Write(0, Answered), Write(1, Answered)]
    ensures Leads(System(w, [None, None]), labels, t) && !Distinct(t.world)
  {
    hide Find;
    var s := System(w, [None, None]);
    var s1 := Do(s, LookUp(0, a));
    var s2 := Do(s1, LookUp(1, b));
    StepKeepsGrounded(s, LookUp(0, a));
    StepKeepsGrounded(s1, LookUp(1, b));
    t := TwinsDouble(s2, 0, 1);
    var writes := [Write(0, Answered), Write(1, Answered)];
    labels := [LookUp(0, a)] + ([LookUp(1, b)] + writes);
    assert ([LookUp(1, b)] + writes)[1..] == writes;
    assert Leads(s1, [LookUp(1, b)] + writes, t);
    assert labels[1..] == [LookUp(1, b)] + writes;
  }
}
