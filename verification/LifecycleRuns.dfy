/** What every run keeps, and exactly when a create hook succeeds twice or a foreign probe is served. */
module LifecycleRuns {
  import opened Wrappers
  import opened Lifecycle
  import opened LifecycleSteps

  // ----- Invariants of every run -----

  /** A cached probe is the last one that was taken, under its container's id or under the name. */
  ghost predicate CacheOfLast(name: string, w: World) {
    w.disk.envProbe.Some? ==>
      && LastProbe(w.log).Some?
      && LastProbe(w.log).value == Probed(LastProbe(w.log).value.cid, w.disk.envProbeVersion, w.disk.envProbe)
      && w.disk.containerID in [LastProbe(w.log).value.cid, name]
  }

  ghost predicate Sound(name: string, w: World) {
    Known(name, w) && CacheOfLast(name, w)
  }

  lemma MovedSound(name: string, w: World, w1: World)
    requires Sound(name, w) && Moved(w, w1)
    ensures Sound(name, w1)
  {
  }

  lemma PostUpKnown(name: string, p: Post)
    requires Known(name, p.w) && AtContainer(name, p) && Stamps(p.i)
    ensures Known(name, After(p))
  {
    PostUpHistory(p);
    PostUpRecord(p);
  }

  lemma PostUpCache(name: string, p: Post)
    requires Sound(name, p.w) && AtContainer(name, p) && Stamps(p.i)
    ensures CacheOfLast(name, After(p))
  {
    PostUpProbe(p);
    PostUpRecord(p);
  }

  lemma StepSound(name: string, w: World, s: Step)
    requires Sound(name, w) && Allowed(name, w, s)
    ensures Sound(name, Next(w, s))
  {
    StepEffect(name, w, s);
    if AtPostUp(w, s).Some? {
      var p := AtPostUp(w, s).value;
      MovedSound(name, w, p.w);
      PostUpKnown(name, p);
      PostUpCache(name, p);
    } else if !s.Purge? {
      MovedSound(name, w, Next(w, s));
    }
  }

  lemma {:induction false} RunSound(name: string, steps: seq<Step>)
    requires Run(name, steps).Some?
    ensures Sound(name, Run(name, steps).value)
  {
    if steps != [] {
      RunSound(name, steps[..|steps| - 1]);
      StepSound(name, Run(name, steps[..|steps| - 1]).value, steps[|steps| - 1]);
    }
  }

  // ----- Points of a run -----

  /** The world after `k` of the steps of a run. */
  ghost function At(name: string, steps: seq<Step>, k: nat): World {
    if k <= |steps| && Run(name, steps[..k]).Some? then Run(name, steps[..k]).value else Start(name)
  }

  lemma AtStart(name: string, steps: seq<Step>)
    ensures At(name, steps, 0) == Start(name)
  {
    assert steps[..0] == [];
  }

  lemma AtStep(name: string, steps: seq<Step>, k: nat)
    requires Run(name, steps).Some? && k < |steps|
    ensures Sound(name, At(name, steps, k)) && Allowed(name, At(name, steps, k), steps[k])
    ensures At(name, steps, k + 1) == Next(At(name, steps, k), steps[k])
  {
    PrefixRuns(name, steps, k);
    RunSound(name, steps[..k]);
  }

  // ----- Once per container -----

  /**
    How one step changes the number of a hook's successes in a container, whatever fails: not at
    all in another container; here a forced rerun starts again from zero, and a success is added
    exactly if the hook is configured, has no marker, and neither it nor a needed one before fails.
   */
  lemma StepSuccesses(name: string, w: World, s: Step, h: Hook, c: string)
    requires Known(name, w) && Allowed(name, w, s)
    ensures
      var was := Successes(w.log, h, c);
      Successes(Next(w, s).log, h, c) ==
      if AtPostUp(w, s).None? || AtPostUp(w, s).value.c != c then was
      else
        var p := AtPostUp(w, s).value;
        (if !p.i.flags.skip && p.i.flags.rerun then 0 else was) + One(RunsOk(p, h))
  {
    StepEffect(name, w, s);
    if AtPostUp(w, s).Some? {
      PostUpHistory(AtPostUp(w, s).value);
    }
  }

  /** The record does not say, for the identity that this up goes by, that the hook is done. */
  predicate Unrecorded(p: Post, h: Hook) {
    p.w.disk.containerID != p.key || !Marked(p.w.disk, h)
  }

  /** No configured hook up to `h` that the record does not cover is going to fail. */
  predicate NoneFails(p: Post, h: Hook) {
    forall g :: Index(g) <= Index(h) && g in p.i.spec.createHooks && Unrecorded(p, g) ==> p.i.out.hookOk(g)
  }

  /** An unforced up runs the hook in a container where it has already succeeded. */
  predicate Repeats(w: World, s: Step, h: Hook, c: string) {
    AtPostUp(w, s).Some? &&
    var p := AtPostUp(w, s).value;
    && p.c == c && !p.i.flags.skip && !p.i.flags.rerun
    && h in p.i.spec.createHooks && Unrecorded(p, h) && NoneFails(p, h)
    && Successes(w.log, h, c) > 0
  }

  /** Without a forced rerun, what runs is decided by the recorded identity and markers. */
  lemma RunsIff(p: Post, h: Hook)
    requires !p.i.flags.rerun
    ensures RunsOk(p, h) <==>
            !p.i.flags.skip && h in p.i.spec.createHooks && Unrecorded(p, h) && NoneFails(p, h)
  {
    forall g
      ensures Needs(Begun(p), p.i, g) <==> g in p.i.spec.createHooks && Unrecorded(p, g)
      ensures CREATE_HOOKS[Index(g)] == g
    {
    }
  }

  /** A forced rerun runs every configured hook, up to the first that fails, whatever is recorded. */
  lemma RerunRunsAll(p: Post, h: Hook)
    requires p.i.flags.rerun
    ensures RunsOk(p, h) <==>
            && !p.i.flags.skip && h in p.i.spec.createHooks
            && forall g :: Index(g) <= Index(h) && g in p.i.spec.createHooks ==> p.i.out.hookOk(g)
  {
    forall g
      ensures Needs(Begun(p), p.i, g) <==> g in p.i.spec.createHooks
      ensures CREATE_HOOKS[Index(g)] == g
    {
    }
  }

  lemma StepAtMost(name: string, w: World, s: Step, h: Hook, c: string)
    requires Known(name, w) && Allowed(name, w, s) && Successes(w.log, h, c) <= 1
    ensures Successes(Next(w, s).log, h, c) <= 1 <==> !Repeats(w, s, h, c)
  {
    StepSuccesses(name, w, s, h, c);
    if AtPostUp(w, s).Some? {
      var p := AtPostUp(w, s).value;
      StepEffect(name, w, s);
      if !p.i.flags.rerun {
        RunsIff(p, h);
      }
    }
  }

  ghost predicate RepeatsAt(name: string, steps: seq<Step>, k: nat, h: Hook, c: string) {
    k < |steps| && Repeats(At(name, steps, k), steps[k], h, c)
  }

  ghost predicate AtMostAt(name: string, steps: seq<Step>, k: nat, h: Hook, c: string) {
    Successes(At(name, steps, k).log, h, c) <= 1
  }

  lemma AtMostStep(name: string, steps: seq<Step>, k: nat, h: Hook, c: string)
    requires Run(name, steps).Some? && k < |steps| && AtMostAt(name, steps, k, h, c)
    ensures AtMostAt(name, steps, k + 1, h, c) <==> !RepeatsAt(name, steps, k, h, c)
  {
    AtStep(name, steps, k);
    StepAtMost(name, At(name, steps, k), steps[k], h, c);
  }

  /** What holds at first, and breaks exactly at bad steps, holds throughout iff no step is bad. */
  lemma {:induction false} ThroughoutIff(n: nat, good: nat -> bool, bad: nat -> bool)
    requires good(0) && forall k: nat :: k < n && good(k) ==> (good(k + 1) <==> !bad(k))
    ensures (forall k: nat :: k <= n ==> good(k)) <==> (forall k: nat :: k < n ==> !bad(k))
  {
    if n > 0 {
      ThroughoutIff(n - 1, good, bad);
      if forall k: nat :: k <= n - 1 ==> good(k) {
        assert good(n - 1);
        assert (forall k: nat :: k <= n ==> good(k)) <==> good(n);
      }
    }
  }

  /** Where in a run something is the case. */
  ghost function AtMostBy(name: string, steps: seq<Step>, h: Hook, c: string): nat -> bool {
    (k: nat) => AtMostAt(name, steps, k, h, c)
  }

  ghost function RepeatsBy(name: string, steps: seq<Step>, h: Hook, c: string): nat -> bool {
    (k: nat) => RepeatsAt(name, steps, k, h, c)
  }

  /**
    In a run, a create hook succeeds at most once in a container between forced reruns exactly when
    no unforced up works on the container after a success of the hook there while the record is for
    another identity or lacks its marker, the hook is configured, and none before it fails.
   */
  lemma AtMostOnceIff(name: string, steps: seq<Step>, n: nat, h: Hook, c: string)
    requires n <= |steps| && Run(name, steps).Some?
    ensures (forall k: nat :: k <= n ==> AtMostAt(name, steps, k, h, c)) <==>
            (forall k: nat :: k < n ==> !RepeatsAt(name, steps, k, h, c))
  {
    var good, bad := AtMostBy(name, steps, h, c), RepeatsBy(name, steps, h, c);
    AtStart(name, steps);
    forall k: nat | k < n && good(k)
      ensures good(k + 1) <==> !bad(k)
    {
      AtMostStep(name, steps, k, h, c);
    }
    ThroughoutIff(n, good, bad);
    assert forall k: nat :: good(k) == AtMostAt(name, steps, k, h, c);
    assert forall k: nat :: bad(k) == RepeatsAt(name, steps, k, h, c);
  }

  /** The second lookup of an up that gets to its hooks fails, so that they go by the name. */
  predicate FailsLookup(w: World, s: Step) {
    AtPostUp(w, s).Some? && AtPostUp(w, s).value.key != AtPostUp(w, s).value.c
  }

  ghost predicate FailsLookupAt(name: string, steps: seq<Step>, k: nat) {
    k < |steps| && FailsLookup(At(name, steps, k), steps[k])
  }

  /**
    How a hook comes to repeat: when an unforced up goes by another identity than the recorded one,
    every configured hook runs once more, up to the first one that fails, whatever it did before.
   */
  lemma UnrecordedRepeatsHooks(name: string, w: World, s: Step, h: Hook)
    requires Known(name, w) && Allowed(name, w, s) && AtPostUp(w, s).Some?
    requires AtPostUp(w, s).value.key != w.disk.containerID
    requires !AtPostUp(w, s).value.i.flags.skip && !AtPostUp(w, s).value.i.flags.rerun
    ensures
      var p := AtPostUp(w, s).value;
      var again := h in p.i.spec.createHooks
                   && forall g :: Index(g) <= Index(h) && g in p.i.spec.createHooks ==> p.i.out.hookOk(g);
      Successes(Next(w, s).log, h, p.c) == Successes(w.log, h, p.c) + One(again)
  {
    StepEffect(name, w, s);
    StepSuccesses(name, w, s, h, AtPostUp(w, s).value.c);
    RunsIff(AtPostUp(w, s).value, h);
  }

  /**
    The record loses track of the hook in `c`: an up works on `c` under the name, or under its id
    while another identity is the recorded one although the hook has succeeded in `c`.
   */
  predicate LosesTrack(w: World, s: Step, h: Hook, c: string) {
    AtPostUp(w, s).Some? && AtPostUp(w, s).value.c == c
    && (FailsLookup(w, s) || (w.disk.containerID != c && Successes(w.log, h, c) > 0))
  }

  /** At most one success, and if the record is the container's, it has the marker for it. */
  predicate OnTrack(w: World, h: Hook, c: string) {
    && Successes(w.log, h, c) <= 1
    && (w.disk.containerID == c && !Marked(w.disk, h) ==> Successes(w.log, h, c) == 0)
  }

  lemma PostUpOnTrack(name: string, w: World, s: Step, h: Hook, c: string)
    requires Known(name, w) && Allowed(name, w, s) && OnTrack(w, h, c) && c != name
    requires AtPostUp(w, s).Some? && !LosesTrack(w, s, h, c)
    ensures OnTrack(Next(w, s), h, c)
  {
    StepEffect(name, w, s);
    StepSuccesses(name, w, s, h, c);
    var p := AtPostUp(w, s).value;
    PostUpRecord(p);
    assert Marked(p.w.disk, h) == Marked(w.disk, h);
  }

  lemma StepOnTrack(name: string, w: World, s: Step, h: Hook, c: string)
    requires Known(name, w) && Allowed(name, w, s) && OnTrack(w, h, c)
    requires c !in ["", name] && !LosesTrack(w, s, h, c)
    ensures OnTrack(Next(w, s), h, c)
  {
    if AtPostUp(w, s).Some? {
      PostUpOnTrack(name, w, s, h, c);
    } else {
      StepEffect(name, w, s);
      assert !s.Purge? ==> Marked(Next(w, s).disk, h) == Marked(w.disk, h);
    }
  }

  ghost predicate LosesTrackAt(name: string, steps: seq<Step>, k: nat, h: Hook, c: string) {
    k < |steps| && LosesTrack(At(name, steps, k), steps[k], h, c)
  }

  lemma {:induction false} OnTrackAt(name: string, steps: seq<Step>, n: nat, h: Hook, c: string)
    requires Run(name, steps).Some? && n <= |steps| && c !in ["", name]
    requires forall k: nat :: k < n ==> !LosesTrackAt(name, steps, k, h, c)
    ensures OnTrack(At(name, steps, n), h, c)
  {
    if n == 0 {
      AtStart(name, steps);
    } else {
      OnTrackAt(name, steps, n - 1, h, c);
      AtStep(name, steps, n - 1);
      assert !LosesTrackAt(name, steps, n - 1, h, c);
      StepOnTrack(name, At(name, steps, n - 1), steps[n - 1], h, c);
    }
  }

  /**
    Over any sequence of ups with failing hooks, skipped hooks, reruns, and replaced or coexisting
    containers in which the record does not lose track of the hook in the container, the hook
    succeeds there at most once between reruns.
   */
  lemma AtMostOnce(name: string, steps: seq<Step>, h: Hook, c: string)
    requires Run(name, steps).Some?
    requires forall k: nat :: k < |steps| ==> !LosesTrackAt(name, steps, k, h, c)
    ensures Successes(Run(name, steps).value.log, h, c) <= 1
  {
    assert steps[..|steps|] == steps;
    if c in ["", name] {
      RunSound(name, steps);
      NoSuccesses(Run(name, steps).value.log, h, c);
    } else {
      OnTrackAt(name, steps, |steps|, h, c);
    }
  }

  // ----- The cached probe -----

  /** A cached probe was taken from the recorded container by the recorded version. */
  ghost predicate ProbeValid(w: World) {
    w.disk.envProbe.Some? ==>
      Probed(w.disk.containerID, w.disk.envProbeVersion, w.disk.envProbe) in w.log
  }

  /** In every reachable state a cached probe is the recorded container's, unless it goes by the name. */
  lemma CacheValidIff(name: string, steps: seq<Step>)
    requires Run(name, steps).Some?
    ensures
      var w := Run(name, steps).value;
      ProbeValid(w) <==> !(w.disk.envProbe.Some? && w.disk.containerID == name)
  {
    RunSound(name, steps);
  }

  /** `env` is `probe` with the remote environment taking precedence. */
  ghost predicate Overlays(env: Env, probe: Option<Env>, remoteEnv: Env) {
    && (forall k :: k in env <==> k in remoteEnv || (probe.Some? && k in probe.value))
    && (forall k :: k in env ==> env[k] == if k in remoteEnv then remoteEnv[k] else probe.value[k])
  }

  /** The second lookup fails and a fresh probe is kept under the name that another container gave. */
  predicate ServesForeign(w: World, s: Step) {
    && FailsLookup(w, s)
    && ProbeIsFresh(w.disk, AtPostUp(w, s).value.key, AtPostUp(w, s).value.i.version)
    && LastProbe(w.log).Some? && LastProbe(w.log).value.cid != AtPostUp(w, s).value.c
  }

  /**
    The session environment of a successful up overlays the remote environment on the last probe,
    which this devc version took, and took from the container that is up unless the second lookup
    fails while another container's probe is kept under the name.
   */
  lemma SessionEnvIsOwnIff(name: string, steps: seq<Step>, s: Step)
    requires Run(name, steps).Some? && Allowed(name, Run(name, steps).value, s)
    requires AtPostUp(Run(name, steps).value, s).Some? && Result(Run(name, steps).value, s).ok
    ensures
      var w := Run(name, steps).value;
      var p, r := AtPostUp(w, s).value, Result(w, s);
      && Exists(r.w, p.c) && LastProbe(r.w.log).Some?
      && LastProbe(r.w.log).value.version == p.i.version
      && Overlays(r.env, LastProbe(r.w.log).value.env, p.i.spec.remoteEnv)
      && (LastProbe(r.w.log).value.cid == p.c <==> !ServesForeign(w, s))
  {
    RunSound(name, steps);
    var w := Run(name, steps).value;
    StepEffect(name, w, s);
    var p := AtPostUp(w, s).value;
    MovedSound(name, w, p.w);
    PostUpProbe(p);
    PostUpRecord(p);
  }

  /**
    The probe is meant to see what the create hooks did. The one behind a successful up's
    environment is older than some success of a create hook in the container exactly when it comes
    from a fresh cache and this up has run a hook, or an earlier one had since the probe was taken.
   */
  lemma ProbePredatesHookIff(name: string, steps: seq<Step>, s: Step)
    requires Run(name, steps).Some? && Allowed(name, Run(name, steps).value, s)
    requires AtPostUp(Run(name, steps).value, s).Some? && Result(Run(name, steps).value, s).ok
    ensures
      var w := Run(name, steps).value;
      var p := AtPostUp(w, s).value;
      HookSinceProbe(Next(w, s).log, p.c) <==>
        && ProbeIsFresh(w.disk, p.key, p.i.version)
        && ((exists h :: RunsOk(p, h)) || HookSinceProbe(w.log, p.c))
  {
    RunSound(name, steps);
    var w := Run(name, steps).value;
    StepEffect(name, w, s);
    PostUpProbe(AtPostUp(w, s).value);
  }
}
