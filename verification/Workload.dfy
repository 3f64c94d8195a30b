/** The counters of the simulated workload of scripts/run_phase11_simulation.py. */
module Workload {
  import opened Common
  import CatalogueText

  // ----- Products ----------------------------------------------------------------------

  datatype Policy = AutoPublish | RequireApproval | Exceptional | NoDecision

  /** A validated draft: its state, what the policy says, its state once reloaded or approved, and how publishing ends. */
  datatype Validated = Validated(
    state: string, policy: Policy, reloaded: string, approved: string, internalOnly: bool, publication: Option<bool>)

  /** A draft as the loop finds it; no `validated` when the validator raises. */
  datatype DraftFacts = DraftFacts(sku: string, image: string, imageThere: bool, validated: Option<Validated>)

  /** What becomes of a draft. */
  datatype Fate = Prevented | NotValidated | Failed | Verified | Mismatched

  function ImageName(d: DraftFacts): string {
    if d.image != "" then d.image else (if d.sku == "" then "None" else d.sku) + ".png"
  }

  function Component(s: string): seq<string> {
    if s == "" || s == "." then [] else [s]
  }

  /** The components of a path, without empty and `.` ones; `current` has been read so far. */
  function Components(path: string, current: string): seq<string> {
    if path == "" then Component(current)
    else if path[0] == '/' then Component(current) + Components(path[1..], "")
    else Components(path[1..], current + [path[0]])
  }

  /** The `name` of the image's path below the directory of images. */
  function BaseName(image: string): string {
    var cs := Components(image, "");
    if cs != [] then cs[|cs| - 1] else if image != "" && image[0] == '/' then "" else "images"
  }

  predicate WrongImage(d: DraftFacts) {
    var name := BaseName(ImageName(d));
    d.sku != "" && !CatalogueText.Contains(name, d.sku) && CatalogueText.Contains(name, "OTHER")
  }

  predicate NeedsApproval(hardened: bool, v: Validated) {
    !(hardened && v.policy == AutoPublish) && (v.state == "NEEDS_APPROVAL" || (hardened && v.policy == RequireApproval))
  }

  function FinalState(hardened: bool, v: Validated): string {
    if hardened && v.policy == AutoPublish then v.reloaded else if NeedsApproval(hardened, v) then v.approved else v.state
  }

  predicate Blocked(state: string) {
    state == "INCOMPLETE" || state == "CONFLICTED" || state == "INVALID"
  }

  function FateOf(hardened: bool, d: DraftFacts): Fate {
    if !d.imageThere || WrongImage(d) then Prevented
    else
      match d.validated
      case None => NotValidated
      case Some(v) =>
        if Blocked(FinalState(hardened, v)) || v.internalOnly then Prevented
        else
          match v.publication
          case None => Failed
          case Some(verified) => if verified then Verified else Mismatched
  }

  function Count(hardened: bool, drafts: seq<DraftFacts>, fate: Fate): nat {
    if drafts == [] then 0
    else Count(hardened, drafts[..|drafts| - 1], fate) + (if FateOf(hardened, drafts[|drafts| - 1]) == fate then 1 else 0)
  }

  /** The loop asks for approval: the draft's image is right, it was validated, and the policy does not publish it by itself. */
  predicate AsksApproval(hardened: bool, d: DraftFacts) {
    d.imageThere && !WrongImage(d) && d.validated.Some? && NeedsApproval(hardened, d.validated.value)
  }

  function Asked(hardened: bool, drafts: seq<DraftFacts>): nat {
    if drafts == [] then 0
    else Asked(hardened, drafts[..|drafts| - 1]) + (if AsksApproval(hardened, drafts[|drafts| - 1]) then 1 else 0)
  }

  /** Each way a draft can end, by what is known of it. */
  lemma FatesAreExact(hardened: bool, d: DraftFacts)
    ensures var fate, usable := FateOf(hardened, d), d.imageThere && !WrongImage(d);
            && (!usable ==> fate == Prevented && !AsksApproval(hardened, d))
            && (usable && d.validated.None? ==> fate == NotValidated && !AsksApproval(hardened, d))
            && (usable && d.validated.Some? ==>
                 var v := d.validated.value;
                 var auto := hardened && v.policy.AutoPublish?;
                 var asked := !auto && (v.state == "NEEDS_APPROVAL" || (hardened && v.policy.RequireApproval?));
                 var state := if auto then v.reloaded else if asked then v.approved else v.state;
                 && (AsksApproval(hardened, d) <==> asked)
                 && (fate == Prevented <==> state in {"INCOMPLETE", "CONFLICTED", "INVALID"} || v.internalOnly)
                 && (fate != Prevented ==>
                      && (fate == Verified <==> v.publication == Some(true))
                      && (fate == Mismatched <==> v.publication == Some(false))
                      && (fate == Failed <==> v.publication == None)))
  {
    hide WrongImage;
  }

  /** An image is wrong when its file name says OTHER and lacks the draft's SKU. */
  lemma WrongImageIs(d: DraftFacts)
    ensures var name := BaseName(if d.image != "" then d.image else if d.sku == "" then "None.png" else d.sku + ".png");
            WrongImage(d) <==>
            && d.sku != ""
            && (forall i :: !CatalogueText.OccursAt(name, d.sku, i))
            && (exists i :: CatalogueText.OccursAt(name, "OTHER", i))
  {
    hide BaseName, CatalogueText.Contains, CatalogueText.OccursAt;
    assert "None" + ".png" == "None.png";
    var name := BaseName(ImageName(d));
    CatalogueText.ContainsIs(name, d.sku);
    CatalogueText.ContainsIs(name, "OTHER");
  }

  lemma {:induction false} ComponentsSplit(a: string, b: string, current: string)
    ensures Components(a + "/" + b, current) == Components(a, current) + Components(b, "")
  {
    var path := a + "/" + b;
    if a == "" {
      assert path[0] == '/' && path[1..] == b;
    } else {
      assert path[0] == a[0] && path[1..] == a[1..] + "/" + b;
      ComponentsSplit(a[1..], b, if a[0] == '/' then "" else current + [a[0]]);
    }
  }

  lemma {:induction false} ComponentsOne(last: string, current: string)
    requires '/' !in last
    ensures Components(last, current) == Component(current + last)
  {
    if last == "" {
      assert current + last == current;
    } else {
      assert last[0] in last && current + last == current + [last[0]] + last[1..];
      ComponentsOne(last[1..], current + [last[0]]);
    }
  }

  /** The name is the last component of the path; a slash or `/.` behind a path changes nothing. */
  lemma BaseNameIsLast(path: string, last: string)
    requires '/' !in last
    ensures last != "" && last != "." ==> BaseName(last) == last && BaseName(path + "/" + last) == last
    ensures last == "" || last == "." ==> BaseName(last) == "images" && (path != "" ==> BaseName(path + "/" + last) == BaseName(path))
    ensures path == "" && (last == "" || last == ".") ==> BaseName(path + "/" + last) == ""
  {
    hide Components;
    ComponentsSplit(path, last, "");
    ComponentsOne(last, "");
    assert "" + last == last;
    if path == "" {
      ComponentsOne("", "");
      assert "" + "" == "";
    } else {
      assert (path + "/" + last)[0] == path[0];
    }
    assert Components(path, "") + [] == Components(path, "");
  }

  function OwnSku(d: DraftFacts): set<string> {
    if d.sku != "" then {d.sku} else {}
  }

  /** The SKUs of some drafts. */
  function Skus(drafts: seq<DraftFacts>): set<string> {
    if drafts == [] then {} else Skus(drafts[..|drafts| - 1]) + OwnSku(drafts[|drafts| - 1])
  }

  function Named(drafts: seq<DraftFacts>): nat {
    if drafts == [] then 0 else Named(drafts[..|drafts| - 1]) + (if drafts[|drafts| - 1].sku != "" then 1 else 0)
  }

  datatype ProductReport = ProductReport(
    duplicates: nat, corrective: nat, prevented: nat, approvals: nat, attempts: nat, verified: nat, mismatches: nat, failures: nat)

  /** Every draft ends in one of the five ways. */
  lemma {:induction false} FatesPartition(hardened: bool, drafts: seq<DraftFacts>)
    ensures Count(hardened, drafts, Prevented) + Count(hardened, drafts, NotValidated) + Count(hardened, drafts, Failed)
            + Count(hardened, drafts, Verified) + Count(hardened, drafts, Mismatched) == |drafts|
  {
    if drafts != [] {
      FatesPartition(hardened, drafts[..|drafts| - 1]);
    }
  }

  /** The product loop. The counters say what became of the drafts, and together account for all of them. */
  method ProcessProducts(hardened: bool, drafts: seq<DraftFacts>) returns (r: ProductReport)
    ensures r.corrective == Count(hardened, drafts, Prevented) + Count(hardened, drafts, NotValidated)
    ensures r.prevented == Count(hardened, drafts, Prevented)
    ensures r.verified == Count(hardened, drafts, Verified) && r.mismatches == Count(hardened, drafts, Mismatched)
    ensures r.attempts == r.verified + r.mismatches && r.failures == Count(hardened, drafts, Failed)
    ensures r.corrective + r.attempts + r.failures == |drafts|
    ensures r.approvals == Asked(hardened, drafts)
    ensures r.duplicates + |Skus(drafts)| == Named(drafts)
  {
    hide FateOf, Skus, Named, Count, Asked, AsksApproval, SameNames;
    NothingYet(hardened);
    r := ProductReport(0, 0, 0, 0, 0, 0, 0, 0);
    var seen: set<string> := {};
    for i := 0 to |drafts|
      invariant SameNames(seen, Skus(drafts[..i]))
      invariant r.duplicates + |Skus(drafts[..i])| == Named(drafts[..i])
      invariant r.prevented == Count(hardened, drafts[..i], Prevented)
      invariant r.corrective == r.prevented + Count(hardened, drafts[..i], NotValidated)
      invariant r.verified == Count(hardened, drafts[..i], Verified) && r.mismatches == Count(hardened, drafts[..i], Mismatched)
      invariant r.attempts == r.verified + r.mismatches && r.failures == Count(hardened, drafts[..i], Failed)
      invariant r.approvals == Asked(hardened, drafts[..i])
    {
      var d := drafts[i];
      assert drafts[..i + 1] == drafts[..i] + [d];
      CountsGrow(hardened, drafts[..i], d);
      SkusGrow(seen, drafts[..i], d);
      if d.sku in seen && d.sku != "" {
        r := r.(duplicates := r.duplicates + 1);
      }
      seen := seen + {d.sku};
      r := ProcessProduct(hardened, d, r);
    }
    assert drafts[..|drafts|] == drafts;
    FatesPartition(hardened, drafts);
  }

  lemma NothingYet(hardened: bool)
    ensures Skus([]) == {} && SameNames({}, {}) && Named([]) == 0 && Asked(hardened, []) == 0 && forall fate :: Count(hardened, [], fate) == 0
  {
  }

  lemma CountsGrow(hardened: bool, drafts: seq<DraftFacts>, d: DraftFacts)
    ensures forall fate ::
              Count(hardened, drafts + [d], fate) == Count(hardened, drafts, fate) + (if FateOf(hardened, d) == fate then 1 else 0)
    ensures Asked(hardened, drafts + [d]) == Asked(hardened, drafts) + (if AsksApproval(hardened, d) then 1 else 0)
  {
    hide FateOf, AsksApproval;
    assert (drafts + [d])[..|drafts|] == drafts;
  }

  /** The loop also puts the empty SKU into its set. */
  ghost predicate SameNames(seen: set<string>, skus: set<string>) {
    forall x :: x != "" ==> (x in seen <==> x in skus)
  }

  lemma SkusGrow(seen: set<string>, drafts: seq<DraftFacts>, d: DraftFacts)
    requires SameNames(seen, Skus(drafts))
    ensures SameNames(seen + {d.sku}, Skus(drafts + [d]))
    ensures Named(drafts + [d]) == Named(drafts) + (if d.sku != "" then 1 else 0)
    ensures |Skus(drafts + [d])| == |Skus(drafts)| + (if d.sku != "" && d.sku !in seen then 1 else 0)
  {
    hide Count, FateOf;
    assert (drafts + [d])[..|drafts|] == drafts;
    assert Skus(drafts + [d]) == Skus(drafts) + OwnSku(d);
    if d.sku == "" {
      assert Skus(drafts) + {} == Skus(drafts);
    } else {
      OneMore(Skus(drafts), d.sku);
    }
  }

  lemma OneMore(s: set<string>, x: string)
    ensures |s + {x}| == |s| + (if x in s then 0 else 1)
  {
    if x in s {
      assert s + {x} == s;
    }
  }

  /** One turn of the loop. */
  method ProcessProduct(hardened: bool, d: DraftFacts, before: ProductReport) returns (r: ProductReport)
    ensures r.approvals == before.approvals + (if AsksApproval(hardened, d) then 1 else 0)
    ensures r.(approvals := before.approvals) ==
            match FateOf(hardened, d)
            case Prevented => before.(corrective := before.corrective + 1, prevented := before.prevented + 1)
            case NotValidated => before.(corrective := before.corrective + 1)
            case Failed => before.(failures := before.failures + 1)
            case Verified => before.(attempts := before.attempts + 1, verified := before.verified + 1)
            case Mismatched => before.(attempts := before.attempts + 1, mismatches := before.mismatches + 1)
  {
    hide CatalogueText.Contains, ImageName, BaseName;
    r := before;
    if d.imageThere {
      if WrongImage(d) {
        r := r.(corrective := r.corrective + 1);
        r := r.(prevented := r.prevented + 1);
        return;
      }
    } else {
      r := r.(corrective := r.corrective + 1);
      r := r.(prevented := r.prevented + 1);
      return;
    }
    if d.validated.None? {
      r := r.(corrective := r.corrective + 1);
      return;
    }
    var v := d.validated.value;
    var state := v.state;
    if hardened && v.policy == AutoPublish {
      state := v.reloaded;
    } else if v.state == "NEEDS_APPROVAL" || (hardened && v.policy == RequireApproval) {
      r := r.(approvals := r.approvals + 1);
      state := v.approved;
    }
    if Blocked(state) || v.internalOnly {
      r := r.(corrective := r.corrective + 1);
      r := r.(prevented := r.prevented + 1);
      return;
    }
    match v.publication {
      case None => r := r.(failures := r.failures + 1);
      case Some(verified) =>
        r := r.(attempts := r.attempts + 1);
        if verified {
          r := r.(verified := r.verified + 1);
        } else {
          r := r.(mismatches := r.mismatches + 1);
        }
    }
  }

  // ----- Orders and conversations ------------------------------------------------------

  datatype Handling = Automatic | ApprovalGated | Escalated

  /** The orders seen as paid, and the others. */
  method ProcessOrders(paid: seq<bool>) returns (monitored: nat, delayed: nat)
    ensures monitored + delayed == |paid|
    ensures monitored == multiset(paid)[true] && delayed == multiset(paid)[false]
  {
    monitored, delayed := 0, 0;
    for i := 0 to |paid|
      invariant monitored + delayed == i
      invariant monitored == multiset(paid[..i])[true] && delayed == multiset(paid[..i])[false]
    {
      assert paid[..i + 1] == paid[..i] + [paid[i]];
      if paid[i] {
        monitored := monitored + 1;
      } else {
        delayed := delayed + 1;
      }
    }
    assert paid[..|paid|] == paid;
  }

  method ProcessConversations(modes: seq<Handling>) returns (automatic: nat, gated: nat, escalated: nat)
    ensures automatic + gated + escalated == |modes|
    ensures automatic == multiset(modes)[Automatic] && gated == multiset(modes)[ApprovalGated] && escalated == multiset(modes)[Escalated]
  {
    automatic, gated, escalated := 0, 0, 0;
    for i := 0 to |modes|
      invariant automatic + gated + escalated == i
      invariant automatic == multiset(modes[..i])[Automatic]
      invariant gated == multiset(modes[..i])[ApprovalGated] && escalated == multiset(modes[..i])[Escalated]
    {
      assert modes[..i + 1] == modes[..i] + [modes[i]];
      match modes[i] {
        case Automatic => automatic := automatic + 1;
        case ApprovalGated => gated := gated + 1;
        case Escalated => escalated := escalated + 1;
      }
    }
    assert modes[..|modes|] == modes;
  }

  // ----- Rates -------------------------------------------------------------------------

  /** A rate before rounding. */
  function Rate(part: nat, whole: nat): real
    requires whole > 0
  {
    part as real / whole as real
  }

  lemma RateBounds(part: nat, whole: nat)
    requires 0 < whole
    ensures 0.0 <= Rate(part, whole) <= 1.0 <==> part <= whole
  {
    if part <= whole {
      assert Rate(part, whole) * whole as real == part as real;
    } else {
      assert Rate(part, whole) * whole as real > whole as real;
    }
  }

  /** A rate says that `part` of `whole` operations are meant. */
  ghost predicate IsShare(rate: real, part: nat, whole: nat) {
    rate * whole as real == part as real
  }

  lemma RateIsShare(part: nat, whole: nat)
    requires whole > 0
    ensures IsShare(Rate(part, whole), part, whole)
  {
  }

  lemma {:induction false} AskedBound(hardened: bool, drafts: seq<DraftFacts>)
    ensures Asked(hardened, drafts) <= |drafts|
  {
    if drafts != [] {
      AskedBound(hardened, drafts[..|drafts| - 1]);
    }
  }

  /**
   The whole run. Of all operations, the automation rate is the share of the verified drafts,
   the paid orders and the conversations resolved automatically; the approval rate that of the
   drafts and conversations that asked for approval; the corrective rate that of the drafts
   prevented or not validated, the orders not paid and the conversations escalated.
   */
  method RunWorkload(hardened: bool, drafts: seq<DraftFacts>, paid: seq<bool>, modes: seq<Handling>)
    returns (automation: real, approvalTouch: real, corrective: real)
    requires |drafts| + |paid| + |modes| > 0
    ensures var total := |drafts| + |paid| + |modes|;
            && IsShare(automation, Count(hardened, drafts, Verified) + multiset(paid)[true] + multiset(modes)[Automatic], total)
            && IsShare(approvalTouch, Asked(hardened, drafts) + multiset(modes)[ApprovalGated], total)
            && IsShare(corrective, Count(hardened, drafts, Prevented) + Count(hardened, drafts, NotValidated)
                                   + multiset(paid)[false] + multiset(modes)[Escalated], total)
    ensures 0.0 <= automation <= 1.0 && 0.0 <= approvalTouch <= 1.0 && 0.0 <= corrective <= 1.0
    ensures automation + corrective <= 1.0
  {
    hide Count, Asked, Rate, IsShare;
    var r := ProcessProducts(hardened, drafts);
    AskedBound(hardened, drafts);
    var monitored, delayed := ProcessOrders(paid);
    var automatic, gated, escalated := ProcessConversations(modes);
    var total := |drafts| + |paid| + |modes|;
    automation := Rate(r.verified + monitored + automatic, total);
    approvalTouch := Rate(r.approvals + gated, total);
    corrective := Rate(r.corrective + delayed + escalated, total);
    RateIsShare(r.verified + monitored + automatic, total);
    RateIsShare(r.approvals + gated, total);
    RateIsShare(r.corrective + delayed + escalated, total);
    RateBounds(r.verified + monitored + automatic, total);
    RateBounds(r.approvals + gated, total);
    RateBounds(r.corrective + delayed + escalated, total);
    RateBounds(r.verified + monitored + automatic + (r.corrective + delayed + escalated), total);
    RatesAdd(r.verified + monitored + automatic, r.corrective + delayed + escalated, total);
  }

  lemma RatesAdd(a: nat, b: nat, whole: nat)
    requires whole > 0
    ensures Rate(a, whole) + Rate(b, whole) == Rate(a + b, whole)
  {
  }
}
