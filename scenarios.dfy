/**
 * The scenario walk shared by src/netero.ts and netero.ts: the scenario's
 * step names are resolved one at a time against `config.steps` and each
 * action runs to completion before the next name is looked up; the first
 * missing name or failing action ends the walk.
 */
module Scenarios {
  import opened Wrappers
  import opened Errors
  import opened JsString
  import opened Browser
  import opened Files
  import opened Actions

  /** Where a walk ended: the state, how many steps completed, and the error that stopped it. */
  datatype Walk = Walk(world: World, done: nat, error: Option<Error>)

  /**
   * `config.scenarios[name]` and its `=== undefined` test: the scenario the
   * configuration defines, `None` for a name inherited from
   * `Object.prototype` (a value that passes the test but has no steps), or
   * the "not found" error naming it.
   */
  function LookupScenario(cfg: Config, name: string): (r: Result<Option<Scenario>>)
    ensures r.Ok? <==> name in cfg.scenarios || name in PrototypeKeys
    ensures r.Ok? ==> (r.value.Some? <==> name in cfg.scenarios)
    ensures r.Ok? && r.value.Some? ==> r.value.value == cfg.scenarios[name]
    ensures r.Err? ==> r.error == ScenarioNotFound(name)
  {
    if name in cfg.scenarios then Ok(Some(cfg.scenarios[name]))
    else if name in PrototypeKeys then Ok(None)
    else Err(ScenarioNotFound(name))
  }

  /**
   * One loop iteration: resolve `step` and run its action. A name inherited
   * from `Object.prototype` resolves to a function or object that matches
   * none of the branches of `handleAction`, which then returns without
   * doing anything.
   */
  function RunStep(cfg: Config, env: Env, w: World, step: string): Outcome<World> {
    if step in cfg.steps then Exec(env, w, cfg.steps[step])
    else if step in PrototypeKeys then Outcome(w, None)
    else Outcome(w, Some(StepNotFound(step)))
  }

  /**
   * The walk over `names`. It completes every step exactly when it throws
   * nothing; otherwise it stopped at step number `done`.
   */
  function RunSteps(cfg: Config, env: Env, w: World, names: seq<string>): (r: Walk)
    ensures r.done <= |names|
    ensures r.error.None? <==> r.done == |names|
    decreases |names|
  {
    if names == [] then Walk(w, 0, None)
    else
      var prev := RunSteps(cfg, env, w, names[..|names| - 1]);
      if prev.error.Some? then prev
      else
        var o := RunStep(cfg, env, prev.world, names[|names| - 1]);
        Walk(o.state, if o.error.None? then prev.done + 1 else prev.done, o.error)
  }

  /** Continue a walk that ended as `r` with the steps `b`, unless it already failed. */
  function Resume(cfg: Config, env: Env, r: Walk, b: seq<string>): Walk {
    if r.error.Some? then r
    else
      var s := RunSteps(cfg, env, r.world, b);
      Walk(s.world, r.done + s.done, s.error)
  }

  /** Steps run in list order: walking `a + b` is walking `a`, then `b` from where `a` ended. */
  lemma {:induction false} RunStepsAppend(cfg: Config, env: Env, w: World, a: seq<string>, b: seq<string>)
    ensures RunSteps(cfg, env, w, a + b) == Resume(cfg, env, RunSteps(cfg, env, w, a), b)
    decreases |b|
  {
    if b == [] {
      assert a + b == a;
    } else {
      var n := |b| - 1;
      assert (a + b)[..|a| + n] == a + b[..n];
      assert (a + b)[|a| + n] == b[n];
      RunStepsAppend(cfg, env, w, a, b[..n]);
    }
  }

  /** Fail-fast: once a walk has failed, no later step runs. */
  lemma FailureEndsWalk(cfg: Config, env: Env, w: World, a: seq<string>, b: seq<string>)
    requires RunSteps(cfg, env, w, a).error.Some?
    ensures RunSteps(cfg, env, w, a + b) == RunSteps(cfg, env, w, a)
  {
    RunStepsAppend(cfg, env, w, a, b);
  }

  /**
   * A step name missing from `config.steps`, reached after the steps before it
   * succeeded, ends the walk with an error naming it; no later step runs.
   */
  lemma MissingStepStops(cfg: Config, env: Env, w: World, a: seq<string>, step: string, b: seq<string>)
    requires RunSteps(cfg, env, w, a).error.None?
    requires step !in cfg.steps && step !in PrototypeKeys
    ensures RunSteps(cfg, env, w, a + [step] + b)
         == Walk(RunSteps(cfg, env, w, a).world, |a|, Some(StepNotFound(step)))
    ensures Contains(Message(StepNotFound(step)), step)
  {
    assert (a + [step])[..|a|] == a;
    FailureEndsWalk(cfg, env, w, a + [step], b);
    LookupErrorsNameTheKey(step);
  }

  /**
   * A step whose action fails ends the walk with that action's error and the
   * state it left; no later step runs.
   */
  lemma FailingActionStops(cfg: Config, env: Env, w: World, a: seq<string>, step: string, b: seq<string>)
    requires RunSteps(cfg, env, w, a).error.None?
    requires step in cfg.steps
    requires Exec(env, RunSteps(cfg, env, w, a).world, cfg.steps[step]).error.Some?
    ensures var o := Exec(env, RunSteps(cfg, env, w, a).world, cfg.steps[step]);
      RunSteps(cfg, env, w, a + [step] + b) == Walk(o.state, |a|, o.error)
  {
    assert (a + [step])[..|a|] == a;
    FailureEndsWalk(cfg, env, w, a + [step], b);
  }

  /**
   * A name the configuration does not define but `Object.prototype` does
   * (say "toString") raises no error: the step leaves the state as it was,
   * and the walk ends exactly as if the name were not listed.
   */
  lemma InheritedStepDoesNothing(cfg: Config, env: Env, w: World, a: seq<string>, step: string, b: seq<string>)
    requires step !in cfg.steps && step in PrototypeKeys
    ensures var listed := RunSteps(cfg, env, w, a + [step] + b);
      var skipped := RunSteps(cfg, env, w, a + b);
      listed.world == skipped.world && listed.error == skipped.error
  {
    assert (a + [step])[..|a|] == a;
    RunStepsAppend(cfg, env, w, a + [step], b);
    RunStepsAppend(cfg, env, w, a, b);
  }

  /** A name listed twice runs its action twice, the second time on the state the first left. */
  lemma RepeatedStepRunsTwice(cfg: Config, env: Env, w: World, step: string)
    requires step in cfg.steps
    ensures var a := cfg.steps[step];
      var first := Exec(env, w, a);
      RunSteps(cfg, env, w, [step, step])
      == if first.error.Some? then Walk(first.state, 0, first.error)
         else var second := Exec(env, first.state, a);
              Walk(second.state, if second.error.None? then 2 else 1, second.error)
  {
    assert [step, step][..1] == [step];
    assert [step][..0] == [];
    assert RunSteps(cfg, env, w, [step]) == Walk(Exec(env, w, cfg.steps[step]).state,
      if Exec(env, w, cfg.steps[step]).error.None? then 1 else 0, Exec(env, w, cfg.steps[step]).error);
  }

  /** The two maps agree everywhere except possibly at `except`, and have the same keys. */
  predicate FilesAgree(a: map<string, string>, b: map<string, string>, except: string) {
    a.Keys == b.Keys && forall p :: p in a && p != except ==> a[p] == b[p]
  }

  /** An action writes no file but the counter, and creates none. */
  lemma ExecFilesFrame(env: Env, w: World, a: Action)
    ensures FilesAgree(Exec(env, w, a).state.files, w.files, CounterPath(env.state))
  {
  }

  /** A walk writes no file but the counter, and creates none. */
  lemma {:induction false} RunStepsFilesFrame(cfg: Config, env: Env, w: World, names: seq<string>)
    ensures FilesAgree(RunSteps(cfg, env, w, names).world.files, w.files, CounterPath(env.state))
    decreases |names|
  {
    if names != [] {
      var prefix := names[..|names| - 1];
      RunStepsFilesFrame(cfg, env, w, prefix);
      var prev := RunSteps(cfg, env, w, prefix);
      var step := names[|names| - 1];
      if prev.error.None? && step in cfg.steps {
        ExecFilesFrame(env, prev.world, cfg.steps[step]);
      }
    }
  }

  method WalkSteps(cfg: Config, env: Env, page: Page, disk: Disk, names: seq<string>)
    returns (done: nat, err: Option<Error>)
    modifies page, disk
    ensures Walk(World(page.State(), disk.files), done, err)
         == RunSteps(cfg, env, World(old(page.State()), old(disk.files)), names)
    ensures disk.jars == old(disk.jars)
  {
    ghost var w0 := World(page.State(), disk.files);
    done, err := 0, None;
    while done < |names|
      invariant done <= |names|
      invariant err.None?
      invariant Walk(World(page.State(), disk.files), done, err) == RunSteps(cfg, env, w0, names[..done])
      invariant disk.jars == old(disk.jars)
    {
      assert names[..done + 1][..done] == names[..done];
      var step := names[done];
      ghost var before := World(page.State(), disk.files);
      if step in cfg.steps {
        err := HandleAction(env, page, disk, cfg.steps[step]);
      } else if step !in PrototypeKeys {
        err := Some(StepNotFound(step));
      }
      assert Outcome(World(page.State(), disk.files), err) == RunStep(cfg, env, before, step);
      if err.Some? {
        assert RunSteps(cfg, env, w0, names[..done + 1]) == Walk(World(page.State(), disk.files), done, err);
        FailureEndsWalk(cfg, env, w0, names[..done + 1], names[done + 1..]);
        assert names[..done + 1] + names[done + 1..] == names;
        return;
      }
      done := done + 1;
    }
    assert names[..done] == names;
  }
}
