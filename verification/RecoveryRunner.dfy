/**
 One pass of the runner over all merchants (scripts/run_recovery_worker.py), for any
 per-merchant run: what a run does to a merchant is a parameter here.
 */
module RunnerPass {
  import opened Exceptions

  datatype Outcome<S> = Outcome(state: S, counters: Counters, raised: bool)

  type Runs<!S> = (string, S) -> Outcome<S>

  datatype Summary<S> = Summary(worlds: map<string, S>, failures: nat, totals: Counters)

  /** Every merchant is tried, whatever the ones before it raised. */
  function RunMerchants<S>(run: Runs<S>, worlds: map<string, S>, merchants: seq<string>): Summary<S>
    requires forall m :: m in merchants ==> m in worlds
    decreases |merchants|
  {
    if merchants == [] then Summary(worlds, 0, ZERO)
    else
      assert merchants[0] in merchants && forall m :: m in merchants[1..] ==> m in merchants;
      var r := run(merchants[0], worlds[merchants[0]]);
      var rest := RunMerchants(run, worlds[merchants[0] := r.state], merchants[1..]);
      if r.raised then rest.(failures := rest.failures + 1)
      else rest.(totals := r.counters.Plus(rest.totals))
  }

  /** With `failures` and `totals` counted and `todo` still to run, the pass will end as `whole`. */
  ghost predicate Heading<S>(run: Runs<S>, worlds: map<string, S>, todo: seq<string>, failures: nat, totals: Counters, whole: Summary<S>) {
    && (forall m :: m in todo ==> m in worlds)
    && var rest := RunMerchants(run, worlds, todo);
    whole == Summary(rest.worlds, failures + rest.failures, totals.Plus(rest.totals))
  }

  lemma HeadingStarts<S>(run: Runs<S>, worlds: map<string, S>, merchants: seq<string>)
    requires forall m :: m in merchants ==> m in worlds
    ensures Heading(run, worlds, merchants, 0, ZERO, RunMerchants(run, worlds, merchants))
  {
    hide RunMerchants;
    var rest := RunMerchants(run, worlds, merchants);
    assert ZERO.Plus(rest.totals) == rest.totals;
  }

  lemma HeadingEnds<S>(run: Runs<S>, worlds: map<string, S>, failures: nat, totals: Counters, whole: Summary<S>)
    requires Heading(run, worlds, [], failures, totals, whole)
    ensures whole == Summary(worlds, failures, totals)
  {
  }

  lemma Turn<S>(run: Runs<S>, worlds: map<string, S>, todo: seq<string>, failures: nat, totals: Counters, whole: Summary<S>)
    requires todo != [] && Heading(run, worlds, todo, failures, totals, whole)
    ensures todo[0] in worlds
    ensures var o := run(todo[0], worlds[todo[0]]);
            Heading(run, worlds[todo[0] := o.state], todo[1..], failures + (if o.raised then 1 else 0),
                    if o.raised then totals else totals.Plus(o.counters), whole)
  {
    assert todo[0] in todo && forall m :: m in todo[1..] ==> m in todo;
  }

  ghost predicate Distinct(ids: seq<string>) {
    forall i, j :: 0 <= i < j < |ids| ==> ids[i] != ids[j]
  }

  /** The number of merchants whose own run raises, and the sum of the counters of the others. */
  function Reference<S>(run: Runs<S>, worlds: map<string, S>, merchants: seq<string>): (nat, Counters)
    requires forall m :: m in merchants ==> m in worlds
    decreases |merchants|
  {
    if merchants == [] then (0, ZERO)
    else
      assert merchants[0] in merchants && forall m :: m in merchants[1..] ==> m in merchants;
      var alone := run(merchants[0], worlds[merchants[0]]);
      var (failures, totals) := Reference(run, worlds, merchants[1..]);
      if alone.raised then (failures + 1, totals) else (failures, alone.counters.Plus(totals))
  }

  lemma {:induction false} ReferenceLocal<S>(run: Runs<S>, a: map<string, S>, b: map<string, S>, merchants: seq<string>)
    requires forall m :: m in merchants ==> m in a && m in b && a[m] == b[m]
    ensures Reference(run, a, merchants) == Reference(run, b, merchants)
    decreases |merchants|
  {
    if merchants != [] {
      assert merchants[0] in merchants && forall m :: m in merchants[1..] ==> m in merchants;
      ReferenceLocal(run, a, b, merchants[1..]);
    }
  }

  /**
   A pass over the merchants treats each as if it were alone: its final state depends on
   nothing but its own, the failures are the merchants whose own run raises, and the totals
   are the field-wise sum over the rest.
   */
  lemma {:induction false} MerchantsAreIsolated<S>(run: Runs<S>, worlds: map<string, S>, merchants: seq<string>)
    requires Distinct(merchants) && forall m :: m in merchants ==> m in worlds
    ensures var s := RunMerchants(run, worlds, merchants);
            && s.worlds.Keys == worlds.Keys
            && (forall m :: m in worlds ==> s.worlds[m] == if m in merchants then run(m, worlds[m]).state else worlds[m])
            && (s.failures, s.totals) == Reference(run, worlds, merchants)
    decreases |merchants|
  {
    if merchants != [] {
      var head, tail := merchants[0], merchants[1..];
      assert head in merchants && forall m :: m in tail ==> m in merchants && m != head;
      assert forall m :: m in merchants ==> m == head || m in tail;
      var next := worlds[head := run(head, worlds[head]).state];
      MerchantsAreIsolated(run, next, tail);
      ReferenceLocal(run, next, worlds, tail);
    }
  }

  lemma {:induction false} FailuresWitnessed<S>(run: Runs<S>, worlds: map<string, S>, merchants: seq<string>)
    requires forall m :: m in merchants ==> m in worlds
    ensures Reference(run, worlds, merchants).0 > 0 <==> exists m :: m in merchants && run(m, worlds[m]).raised
    decreases |merchants|
  {
    if merchants != [] {
      assert merchants[0] in merchants && forall m :: m in merchants[1..] ==> m in merchants;
      assert forall m :: m in merchants ==> m == merchants[0] || m in merchants[1..];
      FailuresWitnessed(run, worlds, merchants[1..]);
    }
  }

  /** One pass and its exit code: nothing happens while another runner holds the lock. */
  function SinglePass<S>(run: Runs<S>, worlds: map<string, S>, merchants: seq<string>, acquired: bool): (map<string, S>, int)
    requires forall m :: m in merchants ==> m in worlds
  {
    if !acquired then (worlds, 0)
    else
      var s := RunMerchants(run, worlds, merchants);
      (s.worlds, if s.failures > 0 then 1 else 0)
  }

  /**
   A pass under the lock. Without it nothing is touched and the code is 0; with it every
   merchant listed ends as its own run says, the others stay, and the code is 1 exactly when
   some merchant's own run raised.
   */
  lemma ExitCodeReportsFailure<S>(run: Runs<S>, worlds: map<string, S>, merchants: seq<string>, acquired: bool)
    requires Distinct(merchants) && forall m :: m in merchants ==> m in worlds
    ensures var (after, code) := SinglePass(run, worlds, merchants, acquired);
            && (!acquired ==> after == worlds && code == 0)
            && after.Keys == worlds.Keys
            && (acquired ==> forall m <- worlds :: after[m] == if m in merchants then run(m, worlds[m]).state else worlds[m])
            && code in {0, 1}
            && (code == 1 <==> acquired && exists m :: m in merchants && run(m, worlds[m]).raised)
  {
    MerchantsAreIsolated(run, worlds, merchants);
    FailuresWitnessed(run, worlds, merchants);
  }

  /** The state after `n` passes, each with its own runs and its own luck with the lock, and the last pass's exit code. */
  function Iterated<S>(runs: nat -> Runs<S>, worlds: map<string, S>, merchants: seq<string>, acquired: nat -> bool, n: nat)
    : (r: (map<string, S>, int))
    requires forall m :: m in merchants ==> m in worlds
    ensures worlds.Keys <= r.0.Keys
  {
    if n == 0 then (worlds, 0)
    else
      var before := Iterated(runs, worlds, merchants, acquired, n - 1).0;
      KeysStay(runs(n - 1), before, merchants);
      SinglePass(runs(n - 1), before, merchants, acquired(n - 1))
  }

  lemma {:induction false} KeysStay<S>(run: Runs<S>, worlds: map<string, S>, merchants: seq<string>)
    requires forall m :: m in merchants ==> m in worlds
    ensures worlds.Keys <= RunMerchants(run, worlds, merchants).worlds.Keys
    decreases |merchants|
  {
    if merchants != [] {
      assert merchants[0] in merchants && forall m :: m in merchants[1..] ==> m in merchants;
      KeysStay(run, worlds[merchants[0] := run(merchants[0], worlds[merchants[0]]).state], merchants[1..]);
    }
  }

  /** What its own runs make of one merchant over the first `n` passes; a pass that does not win the lock leaves it as it was. */
  function Alone<S>(runs: nat -> Runs<S>, m: string, world: S, acquired: nat -> bool, n: nat): S {
    if n == 0 then world
    else
      var before := Alone(runs, m, world, acquired, n - 1);
      if acquired(n - 1) then runs(n - 1)(m, before).state else before
  }

  /** The last of `n` passes won the lock, and some merchant's own run raised in it. */
  ghost predicate LastFailed<S>(runs: nat -> Runs<S>, worlds: map<string, S>, merchants: seq<string>, acquired: nat -> bool, n: nat)
    requires forall m :: m in merchants ==> m in worlds
  {
    n > 0 && acquired(n - 1) && exists m :: m in merchants && runs(n - 1)(m, Alone(runs, m, worlds[m], acquired, n - 1)).raised
  }

  /** Over any number of passes each merchant goes its own way, and the last pass's code tells whether it failed. */
  lemma {:induction false} PassesAreIsolated<S>(runs: nat -> Runs<S>, worlds: map<string, S>, merchants: seq<string>, acquired: nat -> bool, n: nat)
    requires Distinct(merchants) && forall m :: m in merchants ==> m in worlds
    ensures var (after, code) := Iterated(runs, worlds, merchants, acquired, n);
            && after.Keys == worlds.Keys
            && (forall m <- worlds :: after[m] == if m in merchants then Alone(runs, m, worlds[m], acquired, n) else worlds[m])
            && code == if LastFailed(runs, worlds, merchants, acquired, n) then 1 else 0
  {
    hide SinglePass;
    if n > 0 {
      PassesAreIsolated(runs, worlds, merchants, acquired, n - 1);
      var before := Iterated(runs, worlds, merchants, acquired, n - 1).0;
      ExitCodeReportsFailure(runs(n - 1), before, merchants, acquired(n - 1));
    }
  }
}

/** The runner itself. */
module RecoveryRunners {
  import opened Common
  import opened Exceptions
  import opened RunnerPass
  import R = Recovery
  import M = MerchantRecovery
  import RW = ReconciliationWorkers

  type Environment = string -> M.Surroundings

  /** A merchant's run as the pass sees it. */
  function Run(c: R.Config, payments: bool, env: Environment): Runs<M.Merchant> {
    (id, m) => var r := M.RunOnce(c, payments, m, env(id)); Outcome(r.merchant, r.counters, r.raised)
  }

  class RecoveryRunner {
    const config: R.Config
    const payments: bool
    const merchants: seq<string>
    var worlds: map<string, M.Merchant>

    constructor (config: R.Config, payments: bool, merchants: seq<string>, worlds: map<string, M.Merchant>)
      requires Distinct(merchants) && forall m :: m in merchants ==> m in worlds
      ensures this.config == config && this.payments == payments && this.merchants == merchants && this.worlds == worlds
      ensures Valid()
    {
      this.config, this.payments, this.merchants, this.worlds := config, payments, merchants, worlds;
    }

    /** Merchants are listed by their ids, each once. */
    ghost predicate Valid()
      reads this
    {
      Distinct(merchants) && forall m :: m in merchants ==> m in worlds
    }

    /** One merchant in its own `try`. */
    method RunMerchant(id: string, m: M.Merchant, ghost run: Runs<M.Merchant>, env: Environment) returns (o: Outcome<M.Merchant>)
      requires run == Run(config, payments, env)
      ensures o == run(id, m)
    {
      var worker := new RW.ReconciliationWorker(config, payments, m);
      var counters, raised := worker.RunOnce(env(id));
      o := Outcome(worker.State(), counters, raised);
    }

    /** The loop over the merchants, with each failure caught and counted. */
    method RunAll(env: Environment, ghost run: Runs<M.Merchant>) returns (failures: nat, totals: Counters)
      requires (forall m :: m in merchants ==> m in worlds) && run == Run(config, payments, env)
      modifies `worlds
      ensures Summary(worlds, failures, totals) == RunMerchants(run, old(worlds), merchants)
    {
      hide *;
      failures, totals := 0, ZERO;
      var todo := merchants;
      ghost var whole := RunMerchants(run, worlds, merchants);
      HeadingStarts(run, worlds, merchants);
      while todo != []
        invariant Heading(run, worlds, todo, failures, totals, whole)
        decreases |todo|
      {
        var m := todo[0];
        Turn(run, worlds, todo, failures, totals, whole);
        var o := RunMerchant(m, worlds[m], run, env);
        worlds := worlds[m := o.state];
        if o.raised {
          failures := failures + 1;
        } else {
          totals := totals.Plus(o.counters);
        }
        todo := todo[1..];
      }
      HeadingEnds(run, worlds, failures, totals, whole);
    }

    method RunSinglePass(env: Environment, acquired: bool) returns (code: int)
      requires Valid()
      modifies `worlds
      ensures Valid()
      ensures (worlds, code) == SinglePass(Run(config, payments, env), old(worlds), merchants, acquired)
      ensures !acquired ==> worlds == old(worlds) && code == 0
      ensures worlds.Keys == old(worlds).Keys
      ensures acquired ==> forall m <- worlds ::
                worlds[m] == if m in merchants then M.RunOnce(config, payments, old(worlds)[m], env(m)).merchant else old(worlds)[m]
      ensures code == if acquired && exists m :: m in merchants && M.RunOnce(config, payments, old(worlds)[m], env(m)).raised then 1 else 0
    {
      hide M.RunOnce;
      ghost var run := Run(config, payments, env);
      ExitCodeReportsFailure(run, worlds, merchants, acquired);
      if !acquired {
        return 0;
      }
      KeysStay(run, worlds, merchants);
      var failures, totals := RunAll(env, run);
      code := if failures > 0 then 1 else 0;
    }

    /**
     Loop mode. `stopping(k)` is whether the stop flag is up when the loop looks at it after
     `k` passes; without a bound on the iterations it has to come up at some point.
     */
    method Loop(maxIterations: Option<int>, stopping: nat -> bool, envs: nat -> Environment, acquired: nat -> bool, ghost stop: nat)
      returns (exitCode: int, iterations: nat)
      requires Valid()
      requires maxIterations.None? ==> stopping(stop)
      modifies `worlds
      ensures Valid()
      ensures (worlds, exitCode) == Iterated(k => Run(config, payments, envs(k)), old(worlds), merchants, acquired, iterations)
      ensures worlds.Keys == old(worlds).Keys
      ensures forall m <- worlds ::
                worlds[m] == if m in merchants then Alone(k => Run(config, payments, envs(k)), m, old(worlds)[m], acquired, iterations) else old(worlds)[m]
      ensures exitCode == if LastFailed(k => Run(config, payments, envs(k)), old(worlds), merchants, acquired, iterations) then 1 else 0
      ensures maxIterations.Some? ==> iterations <= if maxIterations.value >= 1 then maxIterations.value else 1
      ensures forall k :: 0 <= k < iterations ==> !stopping(k)
      ensures stopping(iterations) || (maxIterations.Some? && iterations > 0 && iterations >= maxIterations.value)
    {
      hide SinglePass, RunMerchants, M.RunOnce;
      iterations, exitCode := 0, 0;
      ghost var runs: nat -> Runs<M.Merchant> := k => Run(config, payments, envs(k));
      while !stopping(iterations)
        invariant Valid()
        invariant (worlds, exitCode) == Iterated(runs, old(worlds), merchants, acquired, iterations)
        invariant forall k :: 0 <= k < iterations ==> !stopping(k)
        invariant maxIterations.Some? ==> iterations == 0 || iterations < maxIterations.value
        invariant maxIterations.None? ==> iterations <= stop
        decreases if maxIterations.Some? then (if maxIterations.value >= 1 then maxIterations.value else 1) - iterations else stop - iterations
      {
        exitCode := RunSinglePass(envs(iterations), acquired(iterations));
        iterations := iterations + 1;
        if maxIterations.Some? && iterations >= maxIterations.value {
          break;
        }
      }
      PassesAreIsolated(runs, old(worlds), merchants, acquired, iterations);
    }
  }
}
