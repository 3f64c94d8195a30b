/** Detection of stuck workflow executions (workers/reconciliation_worker.py). */
module StaleWorkflows {
  import opened Common
  import opened Exceptions

  datatype Workflow = Workflow(id: string, running: bool, updatedAt: Option<int>)

  /** Running, and not known to have been updated since the cutoff. */
  predicate Stale(wf: Workflow, cutoff: int) {
    wf.running && !(wf.updatedAt.Some? && wf.updatedAt.value >= cutoff)
  }

  predicate FlagFor(r: Record, id: string) {
    r.category == StaleWorkflowExecution && r.status == Open && r.objectId == Some(id)
  }

  function OpenFlags(log: seq<Record>, id: string): nat {
    if log == [] then 0 else OpenFlags(log[..|log| - 1], id) + if FlagFor(log[|log| - 1], id) then 1 else 0
  }

  const REMEDIES := ["inspect_workflow", "manual_advance", "terminate"]

  function Flag(id: string): Record {
    Record(StaleWorkflowExecution, Some(id), Open, Warning, REMEDIES)
  }

  function FlagStale(log: seq<Record>, workflows: seq<Workflow>, cutoff: int): (r: seq<Record>)
    ensures log <= r
    decreases |workflows|
  {
    if workflows == [] then log
    else
      var wf := workflows[0];
      var next := if Stale(wf, cutoff) && OpenFlags(log, wf.id) == 0 then log + [Flag(wf.id)] else log;
      FlagStale(next, workflows[1..], cutoff)
  }

  ghost predicate AnyStale(workflows: seq<Workflow>, cutoff: int, id: string) {
    exists k :: 0 <= k < |workflows| && workflows[k].id == id && workflows[k].running
                && (workflows[k].updatedAt.None? || workflows[k].updatedAt.value < cutoff)
  }

  lemma AppendFlag(log: seq<Record>, r: Record, id: string)
    ensures OpenFlags(log + [r], id) == OpenFlags(log, id) + if FlagFor(r, id) then 1 else 0
  {
    assert (log + [r])[..|log|] == log;
  }

  lemma AnyStaleSplits(workflows: seq<Workflow>, cutoff: int, id: string)
    requires workflows != []
    ensures AnyStale(workflows, cutoff, id)
            <==> (workflows[0].id == id && Stale(workflows[0], cutoff)) || AnyStale(workflows[1..], cutoff, id)
  {
    var rest := workflows[1..];
    if k :| 0 <= k < |rest| && rest[k].id == id && rest[k].running && (rest[k].updatedAt.None? || rest[k].updatedAt.value < cutoff) {
      assert workflows[k + 1] == rest[k];
    }
    if k :| 0 <= k < |workflows| && workflows[k].id == id && workflows[k].running
            && (workflows[k].updatedAt.None? || workflows[k].updatedAt.value < cutoff) {
      assert k > 0 ==> rest[k - 1] == workflows[k];
    }
  }

  /** A stale workflow ends with an open flag, exactly one new one and only if it had none; nothing else changes. */
  lemma {:induction false} FlagsExactly(log: seq<Record>, workflows: seq<Workflow>, cutoff: int, id: string)
    ensures OpenFlags(FlagStale(log, workflows, cutoff), id) ==
            if AnyStale(workflows, cutoff, id) && OpenFlags(log, id) == 0 then 1 else OpenFlags(log, id)
    ensures forall i :: |log| <= i < |FlagStale(log, workflows, cutoff)| ==>
              FlagStale(log, workflows, cutoff)[i].category == StaleWorkflowExecution
    decreases |workflows|
  {
    if workflows != [] {
      var wf := workflows[0];
      var next := if Stale(wf, cutoff) && OpenFlags(log, wf.id) == 0 then log + [Flag(wf.id)] else log;
      AppendFlag(log, Flag(wf.id), id);
      hide OpenFlags, AnyStale;
      FlagsExactly(next, workflows[1..], cutoff, id);
      AnyStaleSplits(workflows, cutoff, id);
    }
  }

  /** A second look, at the same cutoff or an earlier one, raises nothing new. */
  lemma {:induction false} FlagOnce(log: seq<Record>, workflows: seq<Workflow>, cutoff: int)
    requires forall k :: 0 <= k < |workflows| && Stale(workflows[k], cutoff) ==> OpenFlags(log, workflows[k].id) > 0
    ensures FlagStale(log, workflows, cutoff) == log
    decreases |workflows|
  {
    if workflows != [] {
      FlagOnce(log, workflows[1..], cutoff);
    }
  }

  lemma FlaggingIsIdempotent(log: seq<Record>, workflows: seq<Workflow>, cutoff: int, earlier: int)
    requires earlier <= cutoff
    ensures FlagStale(FlagStale(log, workflows, cutoff), workflows, earlier) == FlagStale(log, workflows, cutoff)
  {
    forall k | 0 <= k < |workflows| && Stale(workflows[k], earlier)
      ensures OpenFlags(FlagStale(log, workflows, cutoff), workflows[k].id) > 0
    {
      FlagsExactly(log, workflows, cutoff, workflows[k].id);
      assert Stale(workflows[k], cutoff);
    }
    FlagOnce(FlagStale(log, workflows, cutoff), workflows, earlier);
  }

  /** Whether an id has an open flag, told from the records. */
  lemma {:induction false} FlagsAreOpenRecords(log: seq<Record>, id: string)
    ensures OpenFlags(log, id) > 0
            <==> exists k :: 0 <= k < |log| && log[k].category == StaleWorkflowExecution && log[k].status == Open && log[k].objectId == Some(id)
  {
    if log != [] {
      var init := log[..|log| - 1];
      FlagsAreOpenRecords(init, id);
      if k :| 0 <= k < |log| && log[k].category == StaleWorkflowExecution && log[k].status == Open && log[k].objectId == Some(id) {
        assert k < |init| ==> init[k] == log[k];
      }
      if k :| 0 <= k < |init| && init[k].category == StaleWorkflowExecution && init[k].status == Open && init[k].objectId == Some(id) {
        assert log[k] == init[k];
      }
    }
  }

  /** A record the stage may add. */
  ghost predicate IsFlag(r: Record, workflows: seq<Workflow>, cutoff: int) {
    && r.objectId.Some? && AnyStale(workflows, cutoff, r.objectId.value)
    && r == Record(StaleWorkflowExecution, r.objectId, Open, Warning, ["inspect_workflow", "manual_advance", "terminate"])
  }

  /** The log is only added to, and every record added is an open warning about a stale workflow with the three remedies. */
  lemma {:induction false} FlagsSay(log: seq<Record>, workflows: seq<Workflow>, cutoff: int)
    ensures log <= FlagStale(log, workflows, cutoff)
    ensures forall i :: |log| <= i < |FlagStale(log, workflows, cutoff)| ==> IsFlag(FlagStale(log, workflows, cutoff)[i], workflows, cutoff)
    decreases |workflows|
  {
    hide OpenFlags;
    if workflows != [] {
      var wf := workflows[0];
      var next := if Stale(wf, cutoff) && OpenFlags(log, wf.id) == 0 then log + [Flag(wf.id)] else log;
      var after := FlagStale(log, workflows, cutoff);
      FlagsSay(next, workflows[1..], cutoff);
      forall i | |log| <= i < |after|
        ensures IsFlag(after[i], workflows, cutoff)
      {
        if i < |next| {
          assert after[i] == next[i] == Flag(workflows[0].id);
        } else {
          var k :| 0 <= k < |workflows[1..]| && workflows[1..][k].id == after[i].objectId.value && workflows[1..][k].running
                   && (workflows[1..][k].updatedAt.None? || workflows[1..][k].updatedAt.value < cutoff);
          assert workflows[k + 1] == workflows[1..][k];
        }
      }
    }
  }
}
