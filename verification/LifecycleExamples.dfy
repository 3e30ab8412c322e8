/**
  Runs in which a hook is repeated, passed over, or a foreign probe is served, all in a workspace
  whose one create hook is `OnCreate` and where nothing fails but the second lookup.
 */
module LifecycleExamples {
  import opened Wrappers
  import opened Lifecycle
  import opened LifecycleSteps
  import opened LifecycleRuns
  import opened LifecycleMarkers

  const PLAIN := Flags(false, false, false, false)
  const RECREATE := PLAIN.(recreate := true)
  const RECREATE_SKIP := RECREATE.(skip := true)

  const STAMP := ['t']

  const SKIP := PLAIN.(skip := true)

  /** An up of version "v" with these create hooks, in which `id` is the next container's id. */
  function AskFor(hooks: set<Hook>, name: string, flags: Flags, id: string, refindOk: bool, probe: Option<Env>): UpInput {
    UpInput(flags, Spec("h", false, hooks, false, false, false, map[]), "v", name,
            Outcomes(true, true, true, true, true, id, refindOk, true, _ => true, _ => STAMP, true, probe, true, true))
  }

  function Ask(name: string, flags: Flags, id: string, refindOk: bool, probe: Option<Env>): UpInput {
    AskFor({OnCreate}, name, flags, id, refindOk, probe)
  }

  /** Ids that can belong to two containers one after the other. */
  predicate Ids(name: string, a: string, b: string) {
    name != "" && a !in ["", name] && b !in ["", name, a]
  }

  /** Such an up succeeds once it gets to the hooks, and runs those that are not skipped or marked. */
  lemma AskedPost(p: Post, hooks: set<Hook>, name: string, flags: Flags, id: string, refindOk: bool, probe: Option<Env>)
    requires p.i == AskFor(hooks, name, flags, id, refindOk, probe)
    ensures HooksOk(p) && PostUp(p.w, p.key, p.c, p.i).ok
    ensures forall h :: RunsOk(p, h) <==> h in hooks && !flags.skip && !Marked(Begun(p), h)
  {
    assert Passes(Begun(p), p.i, |CREATE_HOOKS|);
    HooksRecord(p);
    forall h
      ensures RunsOk(p, h) <==> h in hooks && !flags.skip && !Marked(Begun(p), h)
    {
      assert Passes(Begun(p), p.i, Index(h) + 1);
    }
  }

  lemma Asked(name: string, w: World, flags: Flags, id: string, refindOk: bool, probe: Option<Env>)
    requires Known(name, w) && id !in w.used
    ensures
      var i := Ask(name, flags, id, refindOk, probe);
      var s := DoUp(i);
      && Allowed(name, w, s) && Up(w, i).ok
      && AtPostUp(w, s).Some?
      && var p := AtPostUp(w, s).value;
      && p.i == i && Moved(w, p.w) && AtContainer(name, p) && Next(w, s) == After(p)
      && p.c == (if w.container.Some? && !Recreating(i) then w.container.value.id else id)
      && p.w.container.Some? && p.w.container.value.id == p.c
      && p.key == (if refindOk then p.c else name)
      && p.w.used == w.used + (if w.container.Some? && !Recreating(i) then {} else {id})
      && HooksOk(p)
      && (forall h :: RunsOk(p, h) <==> h == OnCreate && !flags.skip && !Marked(Begun(p), OnCreate))
  {
    var i := Ask(name, flags, id, refindOk, probe);
    StepEffect(name, w, DoUp(i));
    AskedPost(AtPostUp(w, DoUp(i)).value, {OnCreate}, name, flags, id, refindOk, probe);
  }

  /** After the first up: the hook has run in `a` and is marked, under the id or under the name. */
  predicate FirstDone(name: string, a: string, key: string, env: Env, w: World) {
    && w.used == {"", name, a} && w.container.Some? && w.container.value.id == a
    && w.disk.containerID == key && Marked(w.disk, OnCreate)
    && w.disk.envProbe == Some(env) && w.disk.envProbeVersion == "v"
    && Successes(w.log, OnCreate, a) == 1 && Ran(OnCreate, a, true) in w.log
    && LastProbe(w.log) == Some(Probed(a, "v", Some(env)))
  }

  lemma FirstUp(name: string, a: string, found: bool, env: Env)
    requires name != "" && a !in ["", name] && env != map[]
    ensures
      var steps := [DoUp(Ask(name, PLAIN, a, found, Some(env)))];
      && Run(name, steps).Some?
      && FirstDone(name, a, if found then a else name, env, Run(name, steps).value)
  {
    var w := Start(name);
    var s := DoUp(Ask(name, PLAIN, a, found, Some(env)));
    Asked(name, w, PLAIN, a, found, Some(env));
    RunOneMore(name, [], s);
    assert [] + [s] == [s];
    var p := AtPostUp(w, s).value;
    PostUpHistory(p);
    PostUpRecord(p);
    PostUpProbe(p);
    assert {"", name} + {a} == {"", name, a};
  }

  /** A hook repeats: the second up finds its container but not the second time. */
  lemma FailedLookupRepeatsHook(name: string, a: string, b: string, env: Env)
    requires Ids(name, a, b) && env != map[]
    ensures
      var steps := [DoUp(Ask(name, PLAIN, a, true, Some(env))), DoUp(Ask(name, PLAIN, b, false, Some(env)))];
      && Run(name, steps).Some? && RepeatsAt(name, steps, 1, OnCreate, a)
      && Successes(Run(name, steps).value.log, OnCreate, a) == 2
  {
    var s1, s2 := DoUp(Ask(name, PLAIN, a, true, Some(env))), DoUp(Ask(name, PLAIN, b, false, Some(env)));
    FirstUp(name, a, true, env);
    RunSound(name, [s1]);
    var w := Run(name, [s1]).value;
    Asked(name, w, PLAIN, b, false, Some(env));
    TwoSteps(name, s1, s2);
    var p := AtPostUp(w, s2).value;
    PostUpHistory(p);
    RunsIff(p, OnCreate);
    assert RunsOk(p, OnCreate);
  }

  lemma TwoSteps(name: string, s1: Step, s2: Step)
    requires Run(name, [s1]).Some? && Allowed(name, Run(name, [s1]).value, s2)
    ensures Run(name, [s1, s2]) == Some(Next(Run(name, [s1]).value, s2))
    ensures At(name, [s1, s2], 1) == Run(name, [s1]).value
  {
    RunOneMore(name, [s1], s2);
    assert [s1] + [s2] == [s1, s2];
    assert [s1, s2][..1] == [s1];
  }

  /**
    A foreign probe: after two ups whose second lookups fail, the new container `b` is given the
    environment that was probed in `a`, and the hook has not run in it.
   */
  lemma FailedLookupServesForeignProbe(name: string, a: string, b: string, env: Env, own: Option<Env>)
    requires Ids(name, a, b) && env != map[]
    ensures
      var first := DoUp(Ask(name, PLAIN, a, false, Some(env)));
      var i := Ask(name, RECREATE, b, false, own);
      && Run(name, [first]).Some?
      && var w := Run(name, [first]).value;
      && Allowed(name, w, DoUp(i)) && ServesForeign(w, DoUp(i))
      && Up(w, i).ok && Up(w, i).env == env
      && Up(w, i).w.container.Some? && Up(w, i).w.container.value.id == b
      && Ran(OnCreate, b, true) !in Up(w, i).w.log
  {
    var first := DoUp(Ask(name, PLAIN, a, false, Some(env)));
    var i := Ask(name, RECREATE, b, false, own);
    FirstUp(name, a, false, env);
    RunSound(name, [first]);
    var w := Run(name, [first]).value;
    Asked(name, w, RECREATE, b, false, own);
    var p := AtPostUp(w, DoUp(i)).value;
    PostUpRecord(p);
    PostUpProbe(p);
    assert env + map[] == env;
    NewContainerHooks(name, w, i, OnCreate);
  }

  /**
    A hook passed over: a container that was made with `--skip-hooks` inherits the markers of the
    one it replaces, so that the next plain up returns nil although the hook never ran there.
   */
  lemma AdoptionRun(name: string, a: string, b: string, c: string, env: Env)
    requires Ids(name, a, b) && Ids(name, a, c) && c != b && env != map[]
    ensures
      var steps := [DoUp(Ask(name, PLAIN, a, true, Some(env))), DoUp(Ask(name, RECREATE_SKIP, b, true, Some(env)))];
      var i := Ask(name, PLAIN, c, true, Some(env));
      && Run(name, steps).Some? && SpoilsAt(name, steps, 1)
      && var w := Run(name, steps).value;
      && Allowed(name, w, DoUp(i)) && Up(w, i).ok
      && Up(w, i).w.container.Some? && Up(w, i).w.container.value.id == b
      && Ran(OnCreate, b, true) !in Up(w, i).w.log
  {
    var s1, s2 := DoUp(Ask(name, PLAIN, a, true, Some(env))), DoUp(Ask(name, RECREATE_SKIP, b, true, Some(env)));
    FirstUp(name, a, true, env);
    RunSound(name, [s1]);
    var w1 := Run(name, [s1]).value;
    Asked(name, w1, RECREATE_SKIP, b, true, Some(env));
    TwoSteps(name, s1, s2);
    var p := AtPostUp(w1, s2).value;
    PostUpHistory(p);
    PostUpRecord(p);
    var w2 := Next(w1, s2);
    RunSound(name, [s1, s2]);
    Asked(name, w2, PLAIN, c, true, Some(env));
    var i := Ask(name, PLAIN, c, true, Some(env));
    NilMeansHooksDone(name, w2, DoUp(i), OnCreate);
    PostUpRecord(AtPostUp(w2, DoUp(i)).value);
  }

  // ----- Two services on one record -----

  /** A compose up that finds `c` among the project's containers. */
  function AskCompose(hooks: set<Hook>, name: string, services: set<string>, c: string, probe: Option<Env>): Step {
    DoCompose(services, Some(c), {"", name} + services, true, true, AskFor(hooks, name, PLAIN, c, true, probe))
  }

  lemma AskedCompose(hooks: set<Hook>, name: string, w: World, services: set<string>, c: string, probe: Option<Env>)
    requires Known(name, w) && c in services && w.container.None?
    requires w.used == {"", name} + w.services && w.services <= services && "" !in services && name !in services
    ensures
      var s := AskCompose(hooks, name, services, c, probe);
      && Allowed(name, w, s) && AtPostUp(w, s).Some? && Result(w, s).ok && !FailsLookup(w, s)
      && var p := AtPostUp(w, s).value;
      && p.i == AskFor(hooks, name, PLAIN, c, true, probe) && p.c == c && p.key == c && p.w.log == w.log
      && p.w.disk == w.disk.(configHash := "h")
      && (forall h :: RunsOk(p, h) <==> h in hooks && (w.disk.containerID != c || !Marked(w.disk, h)))
      && var w' := Next(w, s);
      && w' == After(p) && w'.container.None? && w'.services == services && w'.used == {"", name} + services
      && w'.disk.containerID == c
      && (forall h :: Marked(w'.disk, h) <==> (w.disk.containerID == c && Marked(w.disk, h)) || h in hooks)
      && (forall h :: Successes(w'.log, h, c) == Successes(w.log, h, c) + One(RunsOk(p, h)))
      && (forall h, d :: d != c ==> Successes(w'.log, h, d) == Successes(w.log, h, d))
  {
    var s := AskCompose(hooks, name, services, c, probe);
    StepEffect(name, w, s);
    var p := AtPostUp(w, s).value;
    AskedPost(p, hooks, name, PLAIN, c, true, probe);
    PostUpHistory(p);
    PostUpRecord(p);
  }

  /** After ups for two services, the first one's container has run the hook and is not recorded. */
  predicate BothUp(name: string, a: string, b: string, w: World) {
    && w.container.None? && w.services == {a, b} && w.used == {"", name} + {a, b}
    && w.disk.containerID == b && Successes(w.log, OnCreate, a) == 1
  }

  lemma TwoServices(name: string, a: string, b: string, probe: Option<Env>)
    requires Ids(name, a, b)
    ensures
      var steps := [AskCompose({OnCreate}, name, {a}, a, probe), AskCompose({OnCreate}, name, {a, b}, b, probe)];
      && Run(name, steps).Some? && BothUp(name, a, b, Run(name, steps).value)
      && !FailsLookupAt(name, steps, 0) && !FailsLookupAt(name, steps, 1)
  {
    var s1, s2 := AskCompose({OnCreate}, name, {a}, a, probe), AskCompose({OnCreate}, name, {a, b}, b, probe);
    AskedCompose({OnCreate}, name, Start(name), {a}, a, probe);
    RunOneMore(name, [], s1);
    assert [] + [s1] == [s1];
    RunSound(name, [s1]);
    var w := Run(name, [s1]).value;
    AskedCompose({OnCreate}, name, w, {a, b}, b, probe);
    TwoSteps(name, s1, s2);
    AtStart(name, [s1, s2]);
  }

  /** One more step of a run. */
  lemma NextStep(name: string, steps: seq<Step>, s: Step)
    requires Run(name, steps).Some? && Allowed(name, Run(name, steps).value, s)
    ensures Run(name, steps + [s]) == Some(Next(Run(name, steps).value, s))
    ensures At(name, steps + [s], |steps|) == Run(name, steps).value
    ensures forall k: nat :: k < |steps| ==> At(name, steps + [s], k) == At(name, steps, k)
  {
    RunOneMore(name, steps, s);
    assert (steps + [s])[..|steps|] == steps;
    forall k: nat | k < |steps| ensures (steps + [s])[..k] == steps[..k] { }
  }

  /**
    A hook repeats although every lookup succeeds: ups for service a, for service b, and for service
    a again, whose container has been there all the time.
   */
  lemma ReturnRepeatsHook(name: string, a: string, b: string, probe: Option<Env>)
    requires Ids(name, a, b)
    ensures
      var back := AskCompose({OnCreate}, name, {a, b}, a, probe);
      var steps := [AskCompose({OnCreate}, name, {a}, a, probe), AskCompose({OnCreate}, name, {a, b}, b, probe)] + [back];
      && Run(name, steps).Some?
      && (forall k: nat :: k < 3 ==> !FailsLookupAt(name, steps, k))
      && LosesTrackAt(name, steps, 2, OnCreate, a) && RepeatsAt(name, steps, 2, OnCreate, a)
      && Successes(Run(name, steps).value.log, OnCreate, a) == 2
  {
    var back := AskCompose({OnCreate}, name, {a, b}, a, probe);
    var two := [AskCompose({OnCreate}, name, {a}, a, probe), AskCompose({OnCreate}, name, {a, b}, b, probe)];
    TwoServices(name, a, b, probe);
    RunSound(name, two);
    var w := Run(name, two).value;
    AskedCompose({OnCreate}, name, w, {a, b}, a, probe);
    NextStep(name, two, back);
    RunsIff(AtPostUp(w, back).value, OnCreate);
  }

  /**
    A hook repeats in the very container that is recorded: going back to a's container while the
    configuration has no hook forgets its marker.
   */
  lemma ForgottenMarkerRepeatsHook(name: string, a: string, b: string, probe: Option<Env>)
    requires Ids(name, a, b)
    ensures
      var two := [AskCompose({OnCreate}, name, {a}, a, probe), AskCompose({OnCreate}, name, {a, b}, b, probe)];
      var steps := two + [AskCompose({}, name, {a, b}, a, probe)] + [AskCompose({OnCreate}, name, {a, b}, a, probe)];
      && Run(name, steps).Some?
      && At(name, steps, 3).disk.containerID == a && !FailsLookupAt(name, steps, 3)
      && LosesTrackAt(name, steps, 2, OnCreate, a) && !RepeatsAt(name, steps, 2, OnCreate, a)
      && RepeatsAt(name, steps, 3, OnCreate, a)
      && Successes(Run(name, steps).value.log, OnCreate, a) == 2
  {
    var two := [AskCompose({OnCreate}, name, {a}, a, probe), AskCompose({OnCreate}, name, {a, b}, b, probe)];
    var s3, s4 := AskCompose({}, name, {a, b}, a, probe), AskCompose({OnCreate}, name, {a, b}, a, probe);
    TwoServices(name, a, b, probe);
    RunSound(name, two);
    var w := Run(name, two).value;
    AskedCompose({}, name, w, {a, b}, a, probe);
    NextStep(name, two, s3);
    RunSound(name, two + [s3]);
    var w' := Run(name, two + [s3]).value;
    AskedCompose({OnCreate}, name, w', {a, b}, a, probe);
    NextStep(name, two + [s3], s4);
    RunsIff(AtPostUp(w', s4).value, OnCreate);
  }

  // ----- A probe that is older than a hook -----

  /** After a first up with `--skip-hooks`: a probe is cached and no hook has run. */
  predicate Skipped(name: string, a: string, env: Env, w: World) {
    && w.used == {"", name} + {a} && w.container.Some? && w.container.value.id == a
    && w.disk.containerID == a && !Marked(w.disk, OnCreate)
    && w.disk.envProbe == Some(env) && w.disk.envProbeVersion == "v"
    && Ran(OnCreate, a, true) !in w.log
  }

  lemma SkippedFirst(name: string, a: string, env: Env)
    requires name != "" && a !in ["", name] && env != map[]
    ensures
      var first := DoUp(Ask(name, SKIP, a, true, Some(env)));
      Run(name, [first]).Some? && Skipped(name, a, env, Run(name, [first]).value)
  {
    var first := DoUp(Ask(name, SKIP, a, true, Some(env)));
    Asked(name, Start(name), SKIP, a, true, Some(env));
    RunOneMore(name, [], first);
    assert [] + [first] == [first];
    var p := AtPostUp(Start(name), first).value;
    PostUpHistory(p);
    PostUpRecord(p);
    PostUpProbe(p);
  }

  lemma SkippedSecond(name: string, a: string, b: string, env: Env, later: Option<Env>, w: World)
    requires Known(name, w) && Skipped(name, a, env, w) && Ids(name, a, b)
    ensures
      var i := Ask(name, PLAIN, b, true, later);
      && Allowed(name, w, DoUp(i)) && Up(w, i).ok && Up(w, i).env == env
      && Ran(OnCreate, a, true) in Up(w, i).w.log && HookSinceProbe(Up(w, i).w.log, a)
  {
    var s := DoUp(Ask(name, PLAIN, b, true, later));
    Asked(name, w, PLAIN, b, true, later);
    var q := AtPostUp(w, s).value;
    PostUpHistory(q);
    PostUpProbe(q);
    assert env + map[] == env;
    assert RunsOk(q, OnCreate);
  }

  /**
    The create hook runs before the probe, yet the probe does not see what it did: an up with
    `--skip-hooks` has cached one, which the plain up after it serves.
   */
  lemma SkippedHookUnseenByProbe(name: string, a: string, b: string, env: Env, later: Option<Env>)
    requires Ids(name, a, b) && env != map[]
    ensures
      var first := DoUp(Ask(name, SKIP, a, true, Some(env)));
      var i := Ask(name, PLAIN, b, true, later);
      && Run(name, [first]).Some?
      && var w := Run(name, [first]).value;
      && Allowed(name, w, DoUp(i)) && Up(w, i).ok && Up(w, i).env == env
      && Ran(OnCreate, a, true) !in w.log && Ran(OnCreate, a, true) in Up(w, i).w.log
      && HookSinceProbe(Up(w, i).w.log, a)
  {
    var first := DoUp(Ask(name, SKIP, a, true, Some(env)));
    SkippedFirst(name, a, env);
    RunSound(name, [first]);
    SkippedSecond(name, a, b, env, later, Run(name, [first]).value);
  }
}
