/**
 How recovery of a purchase order ends: over any run of passes its final shape is a function
 of the supplier's answers to it alone.
 */
module RecoveryOutcomes {
  import opened Common
  import opened Exceptions
  import opened Recovery
  import opened RecoveryView
  import opened RecoveryGuarantees

  // ----- Final shapes ------------------------------------------------------------------

  predicate Final(s: Shape) {
    s.Settled? || s.Exhausted? || s.Dropped?
  }

  /** A final view never moves again. */
  lemma FinalIsStable(c: Config, v: View, id: string, ans: Answers)
    requires Final(ShapeOf(c, v))
    ensures ViewStep(c, v, id, ans) == v
  {
  }

  lemma {:induction false} StaysFinal(c: Config, w: World, rounds: seq<string -> Answers>, id: string)
    requires Final(ShapeOf(c, Of(w, id)))
    ensures Of(Passes(c, w, rounds), id) == Of(w, id)
    decreases |rounds|
  {
    hide PoPass, ShapeOf, Of, Reached, ViewStep;
    if rounds != [] {
      PassView(c, w, rounds[0], id);
      FinalIsStable(c, Of(w, id), id, rounds[0](id));
      StaysFinal(c, PoPass(c, w, rounds[0]).world, rounds[1..], id);
    }
  }

  // ----- One order over many passes ----------------------------------------------------

  /** The answers of the rounds that got to an order. */
  function Faced(c: Config, w: World, rounds: seq<string -> Answers>, id: string): seq<Answers>
    decreases |rounds|
  {
    if rounds == [] then []
    else
      (if Reached(c, w, rounds[0], id) then [rounds[0](id)] else [])
      + Faced(c, PoPass(c, w, rounds[0]).world, rounds[1..], id)
  }

  function ViewRun(c: Config, v: View, id: string, faced: seq<Answers>): View
    decreases |faced|
  {
    if faced == [] then v else ViewRun(c, ViewStep(c, v, id, faced[0]), id, faced[1..])
  }

  /** What passes make of an order depends only on the answers to it. */
  lemma {:induction false} RunsAlone(c: Config, w: World, rounds: seq<string -> Answers>, id: string)
    ensures Of(Passes(c, w, rounds), id) == ViewRun(c, Of(w, id), id, Faced(c, w, rounds, id))
    decreases |rounds|
  {
    hide PoPass, Of, ViewStep, Reached;
    if rounds != [] {
      PassView(c, w, rounds[0], id);
      var next := PoPass(c, w, rounds[0]).world;
      var later := Faced(c, next, rounds[1..], id);
      RunsAlone(c, next, rounds[1..], id);
      if Reached(c, w, rounds[0], id) {
        assert ([rounds[0](id)] + later)[1..] == later;
      } else {
        assert [] + later == later;
      }
    }
  }

  // ----- Answers that tell -------------------------------------------------------------

  /** A round that leaves no trace in the store: the first read fails, or the request is lost and so is the read-back. */
  predicate Silent(ans: Answers) {
    !ans.truth || (ans.fate == TimeoutBefore && !ans.readBack)
  }

  function Heard(faced: seq<Answers>): seq<Answers> {
    if faced == [] then []
    else (if Silent(faced[0]) then [] else [faced[0]]) + Heard(faced[1..])
  }

  /** The first answer other than a lost request. */
  function FirstTelling(heard: seq<Answers>): (k: nat)
    ensures k <= |heard|
    ensures k < |heard| ==> heard[k].fate != TimeoutBefore
    ensures forall i :: 0 <= i < k ==> heard[i].fate == TimeoutBefore
  {
    if heard == [] || heard[0].fate != TimeoutBefore then 0 else 1 + FirstTelling(heard[1..])
  }

  /** The attempts an order has left. */
  function Remaining(c: Config, v: View): nat {
    Max(0, c.maxAttempts - v.attempts)
  }

  /**
   How an order in doubt ends. One that is to be sent is settled if the first answer other
   than a lost request comes within its remaining attempts and took effect, dropped if it
   comes within them and was a refusal, and exhausted if none comes.
   */
  function Destiny(c: Config, v: View, heard: seq<Answers>): Shape
    requires v.po.Some?
  {
    if v.po.value.status == Submitted then Settled
    else if v.attempts >= c.maxAttempts then Exhausted
    else if v.held > 0 then Settled
    else if !Submittable(v.po.value.status) then Dropped
    else if v.claim.Some? then Settled
    else
      var k := FirstTelling(heard);
      if k >= Remaining(c, v) || k >= |heard| then Exhausted
      else if heard[k].fate == Accept || heard[k].fate == TimeoutAfter then Settled
      else Dropped
  }

  lemma {:induction false} FinalRuns(c: Config, v: View, id: string, faced: seq<Answers>)
    requires Final(ShapeOf(c, v))
    ensures ViewRun(c, v, id, faced) == v
    decreases |faced|
  {
    hide ShapeOf, ViewStep;
    if faced != [] {
      FinalIsStable(c, v, id, faced[0]);
      FinalRuns(c, v, id, faced[1..]);
    }
  }

  /** In doubt, and able to be handled. */
  predicate InDoubt(c: Config, v: View, id: string) {
    c.connected && id != "" && v.open != [] && v.po.Some? && !Stuck(c, v, id)
  }

  /** An order the supplier holds is adopted as soon as it is heard of, and ends in no other way. */
  lemma {:induction false} HeldIsAdopted(c: Config, v: View, id: string, faced: seq<Answers>)
    requires InDoubt(c, v, id) && v.held > 0 && v.attempts < c.maxAttempts
    ensures var shape := ShapeOf(c, ViewRun(c, v, id, faced));
            (Heard(faced) != [] ==> shape == Settled) && (Final(shape) ==> shape == Settled)
    decreases |faced|
  {
    if faced == [] {
      assert |v.open| > 0 ==> v.open != [];
    } else {
      hide ViewRun;
      ViewRunStep(c, v, id, faced);
      var next := ViewStep(c, v, id, faced[0]);
      if next == v {
        HeldIsAdopted(c, v, id, faced[1..]);
      } else {
        FinalRuns(c, next, id, faced[1..]);
      }
    }
  }

  lemma ViewRunStep(c: Config, v: View, id: string, faced: seq<Answers>)
    requires faced != []
    ensures ViewRun(c, v, id, faced) == ViewRun(c, ViewStep(c, v, id, faced[0]), id, faced[1..])
  {
  }

  /**
   What one step does to an order in doubt: it meets its destiny; or nothing was heard; or a
   request was lost, at the cost of an attempt; or the supplier took the order unseen.
   */
  lemma StepTowardsDestiny(c: Config, v: View, id: string, ans: Answers, later: seq<Answers>)
    requires InDoubt(c, v, id)
    ensures var next := ViewStep(c, v, id, ans);
            var heard := (if Silent(ans) then [] else [ans]) + later;
            if Final(ShapeOf(c, next)) then ShapeOf(c, next) == Destiny(c, v, heard)
            else
              InDoubt(c, next, id)
              && if Silent(ans) then Remaining(c, next) == Remaining(c, v) && Destiny(c, next, later) == Destiny(c, v, heard)
                 else if ans.fate == TimeoutBefore then
                   Remaining(c, next) == Remaining(c, v) - 1 && Destiny(c, next, later) == Destiny(c, v, heard)
                 else next.held > 0 && next.attempts == v.attempts < c.maxAttempts && Destiny(c, v, heard) == Settled
  {
    assert |v.open| > 0 && Criticals(|v.open|)[0] == Critical && |Criticals(|v.open|)| == |v.open|;
    var heard := (if Silent(ans) then [] else [ans]) + later;
    if Silent(ans) {
      assert heard == later;
    } else {
      assert heard[0] == ans && heard[1..] == later;
    }
  }

  /** Only an escalated order is both in doubt and final. */
  lemma InDoubtAndFinal(c: Config, v: View, id: string, heard: seq<Answers>)
    requires InDoubt(c, v, id) && Final(ShapeOf(c, v))
    ensures ShapeOf(c, v) == Exhausted == Destiny(c, v, heard)
  {
  }

  /**
   An order in doubt that has become final has met its destiny, as told by the answers heard;
   and it is final once one more answer was heard than it has attempts left.
   */
  lemma {:induction false} DestinyIsMet(c: Config, v: View, id: string, faced: seq<Answers>)
    requires InDoubt(c, v, id)
    ensures var shape := ShapeOf(c, ViewRun(c, v, id, faced));
            (Final(shape) ==> shape == Destiny(c, v, Heard(faced)))
            && (|Heard(faced)| >= 1 + Remaining(c, v) ==> Final(shape))
    decreases |faced|
  {
    if faced == [] {
      hide ShapeOf, Destiny, InDoubt;
      if Final(ShapeOf(c, v)) {
        InDoubtAndFinal(c, v, id, []);
      }
    } else {
      hide ViewRun, ViewStep, Destiny, Stuck, ShapeOf, Silent;
      var tail := faced[1..];
      var next := ViewStep(c, v, id, faced[0]);
      ViewRunStep(c, v, id, faced);
      StepTowardsDestiny(c, v, id, faced[0], Heard(tail));
      if Final(ShapeOf(c, next)) {
        FinalRuns(c, next, id, tail);
      } else if Silent(faced[0]) || faced[0].fate == TimeoutBefore {
        DestinyIsMet(c, next, id, tail);
      } else {
        HeldIsAdopted(c, next, id, tail);
      }
    }
  }

  // ----- Whole runs --------------------------------------------------------------------

  /**
   How every order in doubt ends, over any run: if it has become final, its shape is the one
   told by the answers heard in the rounds that got to it, early or late; and it is final once
   one more answer was heard than it has attempts left. No other order matters, except that
   one that raises may keep a round from getting to it.
   */
  lemma OrdersMeetTheirDestiny(c: Config, w: World, rounds: seq<string -> Answers>, id: string)
    requires InDoubt(c, Of(w, id), id)
    ensures var shape := ShapeOf(c, Of(Passes(c, w, rounds), id));
            var heard := Heard(Faced(c, w, rounds, id));
            (Final(shape) ==> shape == Destiny(c, Of(w, id), heard))
            && (|heard| >= 1 + Remaining(c, Of(w, id)) ==> Final(shape))
  {
    hide Passes, Of, ViewRun, Destiny, InDoubt, ShapeOf, Faced, Remaining;
    RunsAlone(c, w, rounds, id);
    DestinyIsMet(c, Of(w, id), id, Faced(c, w, rounds, id));
  }

  /** The answers to an order over some rounds. */
  function AnswersTo(rounds: seq<string -> Answers>, id: string): (r: seq<Answers>)
    ensures |r| == |rounds|
  {
    seq(|rounds|, i requires 0 <= i < |rounds| => rounds[i](id))
  }

  ghost predicate AllClear(rounds: seq<string -> Answers>) {
    forall i :: 0 <= i < |rounds| ==> Clear(rounds[i])
  }

  lemma ClearReads(c: Config, w: World, answers: string -> Answers)
    requires Clear(answers)
    ensures forall id :: !Unread(c, Of(w, id), id, answers(id))
  {
  }

  /** In a sound world whose reads get through, every round takes every order one step further. */
  lemma {:induction false} ClearRoundsRun(c: Config, w: World, rounds: seq<string -> Answers>, id: string)
    requires Sound(c, w) && AllClear(rounds)
    ensures Of(Passes(c, w, rounds), id) == ViewRun(c, Of(w, id), id, AnswersTo(rounds, id))
    decreases |rounds|
  {
    hide PoPass, Of, ViewStep, Reached, Sound, Clear, OpenIds, Unread;
    if rounds != [] {
      var next := PoPass(c, w, rounds[0]).world;
      assert AnswersTo(rounds, id)[1..] == AnswersTo(rounds[1..], id);
      SoundPasses(c, w, rounds[0]);
      assert Clear(rounds[0]);
      ClearReads(c, w, rounds[0]);
      PassView(c, w, rounds[0], id);
      ClearRoundsRun(c, next, rounds[1..], id);
    }
  }

  lemma {:induction false} NothingIsSilent(faced: seq<Answers>)
    requires forall i :: 0 <= i < |faced| ==> !Silent(faced[i])
    ensures Heard(faced) == faced
  {
    if faced != [] {
      NothingIsSilent(faced[1..]);
    }
  }

  /**
   In a sound world whose reads get through, the shape of every order in doubt after one
   round more than it has attempts left is a function of the answers to it.
   */
  lemma ShapeIsDecided(c: Config, w: World, rounds: seq<string -> Answers>, id: string)
    requires Sound(c, w) && AllClear(rounds) && id in OpenIds(w.log)
    requires |rounds| >= 1 + Remaining(c, Of(w, id))
    ensures id in w.pos
    ensures ShapeOf(c, Of(Passes(c, w, rounds), id)) == Destiny(c, Of(w, id), AnswersTo(rounds, id))
  {
    hide Passes, ViewRun, Destiny, ShapeOf, Remaining, OpenIds;
    OpenIdsExact(w.log);
    ClearRoundsRun(c, w, rounds, id);
    assert forall i :: 0 <= i < |rounds| ==> Clear(rounds[i]);
    NothingIsSilent(AnswersTo(rounds, id));
    SoundMeans(c, w);
    assert SoundView(Of(w, id), id);
    DestinyIsMet(c, Of(w, id), id, AnswersTo(rounds, id));
  }

  /** An order the supplier refuses, after lost requests only, before its attempts run out. */
  predicate RefusedInTime(c: Config, v: View, heard: seq<Answers>) {
    exists k :: 0 <= k < |heard| && k < Remaining(c, v) && (heard[k].fate == RateLimit || heard[k].fate == ServerError)
                && forall i :: 0 <= i < k ==> heard[i].fate == TimeoutBefore
  }

  /** An order that leaves recovery unsubmitted and below the limit. */
  predicate FallsOut(c: Config, v: View, heard: seq<Answers>) {
    v.po.Some? && v.po.value.status != Submitted && v.attempts < c.maxAttempts && v.held == 0
    && (!Submittable(v.po.value.status) || (v.claim.None? && RefusedInTime(c, v, heard)))
  }

  lemma DestinyIsDroppedExactly(c: Config, v: View, heard: seq<Answers>)
    requires v.po.Some?
    ensures Final(Destiny(c, v, heard))
    ensures Destiny(c, v, heard) == Dropped <==> FallsOut(c, v, heard)
  {
    var k := FirstTelling(heard);
    if RefusedInTime(c, v, heard) {
      var j :| 0 <= j < |heard| && j < Remaining(c, v) && (heard[j].fate == RateLimit || heard[j].fate == ServerError)
               && forall i :: 0 <= i < j ==> heard[i].fate == TimeoutBefore;
      assert j == k;
    }
  }

  /**
   Convergence over any run: an order in doubt is final once one more answer was heard than
   it has attempts left; and whenever it is final, it is submitted or escalated, as promised,
   unless and only unless it fell out.
   */
  lemma Converges(c: Config, w: World, rounds: seq<string -> Answers>, id: string)
    requires InDoubt(c, Of(w, id), id)
    ensures var shape := ShapeOf(c, Of(Passes(c, w, rounds), id));
            var heard := Heard(Faced(c, w, rounds, id));
            (|heard| >= 1 + Remaining(c, Of(w, id)) ==> Final(shape))
            && (Final(shape) ==> ((shape == Settled || shape == Exhausted) <==> !FallsOut(c, Of(w, id), heard)))
  {
    hide Passes, Of, Destiny, ShapeOf, Faced, Remaining, FallsOut;
    OrdersMeetTheirDestiny(c, w, rounds, id);
    DestinyIsDroppedExactly(c, Of(w, id), Heard(Faced(c, w, rounds, id)));
  }

  lemma {:induction false} InDoubtHasAttempt(log: seq<Record>, id: string)
    requires OpenSeverities(log, id) != []
    ensures Attempts(log, id) >= 1
  {
    if !OpenFor(log[|log| - 1], id) {
      InDoubtHasAttempt(log[..|log| - 1], id);
    }
  }

  /**
   In a sound world whose reads get through, as many passes as the limit are enough: every
   order in doubt is then submitted with nothing open, or escalated, unless and only unless
   it was not to be submitted or was refused in time.
   */
  lemma ConvergesWithinTheLimit(c: Config, w: World, rounds: seq<string -> Answers>, id: string)
    requires Sound(c, w) && AllClear(rounds) && id in OpenIds(w.log)
    requires c.maxAttempts >= 1 && |rounds| >= c.maxAttempts
    ensures var shape := ShapeOf(c, Of(Passes(c, w, rounds), id));
            Final(shape) && ((shape == Settled || shape == Exhausted) <==> !FallsOut(c, Of(w, id), AnswersTo(rounds, id)))
  {
    hide Passes, Destiny, ShapeOf, FallsOut, OpenIds, OpenSeverities;
    OpenIdsExact(w.log);
    InDoubtHasAttempt(w.log, id);
    ShapeIsDecided(c, w, rounds, id);
    DestinyIsDroppedExactly(c, Of(w, id), AnswersTo(rounds, id));
  }

  // ----- The promised bound ------------------------------------------------------------

  /**
   How many requests the answers to an order draw, with `left` attempts to go: a round whose
   first read fails draws none; a lost request costs an attempt only if its read-back got
   through; any other answer is the last.
   */
  function Sent(left: nat, faced: seq<Answers>): nat
    decreases |faced|
  {
    if left == 0 || faced == [] then 0
    else
      var ans := faced[0];
      if !ans.truth then Sent(left, faced[1..])
      else if ans.fate == TimeoutBefore then 1 + Sent(if ans.readBack then left - 1 else left, faced[1..])
      else 1
  }

  lemma StepSends(c: Config, v: View, id: string, ans: Answers)
    ensures var next := ViewStep(c, v, id, ans);
            if !ToBeSent(c, v, id) then next.requests == v.requests && !ToBeSent(c, next, id)
            else if !ans.truth then next == v
            else
              next.requests == v.requests + 1
              && if ans.fate == TimeoutBefore then
                   next.attempts == v.attempts + One(ans.readBack) && (ToBeSent(c, next, id) <==> next.attempts < c.maxAttempts)
                 else !ToBeSent(c, next, id)
  {
  }

  /** The requests sent for an order are those its answers draw; none are sent for one that is not to be sent. */
  lemma {:induction false} RequestsAreDrawn(c: Config, v: View, id: string, faced: seq<Answers>)
    ensures ViewRun(c, v, id, faced).requests == v.requests + (if ToBeSent(c, v, id) then Sent(Remaining(c, v), faced) else 0)
    decreases |faced|
  {
    hide ViewStep, ToBeSent;
    if faced != [] {
      SendableIsBelow(c, v, id);
      StepSends(c, v, id, faced[0]);
      RequestsAreDrawn(c, ViewStep(c, v, id, faced[0]), id, faced[1..]);
    }
  }

  lemma SendableIsBelow(c: Config, v: View, id: string)
    ensures ToBeSent(c, v, id) ==> v.attempts < c.maxAttempts
  {
  }

  /**
   Exactly when a run of passes keeps the bound the worker promises, told from the attempts
   left and the supplier's answers: the order is not to be sent, or the answers it faces draw
   no more requests than it has attempts left.
   */
  lemma PromisedBoundHoldsExactly(c: Config, w: World, rounds: seq<string -> Answers>, id: string)
    ensures var v, left := Of(w, id), Remaining(c, Of(w, id));
            Of(Passes(c, w, rounds), id).requests <= v.requests + left
            <==> !ToBeSent(c, v, id) || Sent(left, Faced(c, w, rounds, id)) <= left
  {
    hide Passes, Of, ViewRun, Faced, ToBeSent, Sent;
    RunsAlone(c, w, rounds, id);
    RequestsAreDrawn(c, Of(w, id), id, Faced(c, w, rounds, id));
  }

  /** The same from the rounds alone, in a sound world whose reads get through: there it always holds. */
  lemma ClearRoundsKeepTheBound(c: Config, w: World, rounds: seq<string -> Answers>, id: string)
    requires Sound(c, w) && AllClear(rounds)
    ensures var v, left := Of(w, id), Remaining(c, Of(w, id));
            Of(Passes(c, w, rounds), id).requests == v.requests + (if ToBeSent(c, v, id) then Sent(left, AnswersTo(rounds, id)) else 0)
            && Sent(left, AnswersTo(rounds, id)) <= left
  {
    hide Passes, Of, ViewRun, ToBeSent, Sent;
    ClearRoundsRun(c, w, rounds, id);
    RequestsAreDrawn(c, Of(w, id), id, AnswersTo(rounds, id));
    assert forall i :: 0 <= i < |rounds| ==> Clear(rounds[i]);
    ReadBacksKeepTheBound(Remaining(c, Of(w, id)), AnswersTo(rounds, id));
  }

  /** When every read-back gets through, no more requests are drawn than attempts are left. */
  lemma {:induction false} ReadBacksKeepTheBound(left: nat, faced: seq<Answers>)
    requires forall i :: 0 <= i < |faced| ==> faced[i].readBack
    ensures Sent(left, faced) <= left
    decreases |faced|
  {
    if left > 0 && faced != [] {
      ReadBacksKeepTheBound(if faced[0].truth && faced[0].fate == TimeoutBefore then left - 1 else left, faced[1..]);
    }
  }
}
