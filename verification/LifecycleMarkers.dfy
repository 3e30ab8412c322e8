/** When the hook markers can be trusted, and what a successful `up` leaves behind. */
module LifecycleMarkers {
  import opened Wrappers
  import opened Lifecycle
  import opened LifecycleSteps
  import opened LifecycleRuns

  // ----- Markers that stand for a success -----

  /** Every persisted marker belongs to a success on the recorded container. */
  ghost predicate MarkersValid(w: World) {
    forall h :: Marked(w.disk, h) ==> Ran(h, w.disk.containerID, true) in w.log
  }

  predicate AnyMarker(st: State) {
    exists h :: Marked(st, h)
  }

  /** Some marked hook has not succeeded in `c`. */
  predicate Unearned(w: World, c: string) {
    exists h :: Marked(w.disk, h) && Ran(h, c, true) !in w.log
  }

  /** The first configured create hook does not fail. */
  predicate FirstHookOk(i: UpInput) {
    exists h :: h in i.spec.createHooks && i.out.hookOk(h)
                && forall g :: Index(g) < Index(h) ==> g !in i.spec.createHooks
  }

  /**
    With `--skip-hooks`, the probe makes another identity the recorded one but keeps the markers,
    and some marked hook has not succeeded there; without, hooks that go by the name leave markers
    that belong to no container.
   */
  predicate SpoilsPost(p: Post) {
    if p.i.flags.skip then p.w.disk.containerID != p.key && Unearned(p.w, p.key)
    else p.key != p.c && FirstHookOk(p.i)
  }

  predicate Spoils(w: World, s: Step) {
    AtPostUp(w, s).Some? && SpoilsPost(AtPostUp(w, s).value)
  }

  /** Without markers, some hook succeeds exactly when the first configured one does. */
  lemma SomeHookRuns(p: Post)
    requires !p.i.flags.skip && !AnyMarker(Begun(p))
    ensures (exists h :: RunsOk(p, h)) <==> FirstHookOk(p.i)
  {
    assert forall h :: Needs(Begun(p), p.i, h) <==> h in p.i.spec.createHooks;
    if FirstHookOk(p.i) {
      var h :| h in p.i.spec.createHooks && p.i.out.hookOk(h)
               && forall g :: Index(g) < Index(h) ==> g !in p.i.spec.createHooks;
      forall k | 0 <= k < Index(h) + 1 && Needs(Begun(p), p.i, CREATE_HOOKS[k])
        ensures p.i.out.hookOk(CREATE_HOOKS[k])
      {
        assert Index(CREATE_HOOKS[k]) == k;
      }
      assert RunsOk(p, h);
    }
    if exists h :: RunsOk(p, h) {
      var h :| RunsOk(p, h);
      FirstConfigured(p, h);
    }
  }

  lemma {:induction false} FirstConfigured(p: Post, h: Hook)
    requires !AnyMarker(Begun(p)) && RunsOk(p, h)
    ensures FirstHookOk(p.i)
    decreases Index(h)
  {
    if g :| Index(g) < Index(h) && g in p.i.spec.createHooks {
      assert CREATE_HOOKS[Index(g)] == g && Needs(Begun(p), p.i, g);
      assert Passes(Begun(p), p.i, Index(g) + 1);
      FirstConfigured(p, g);
    } else {
      assert CREATE_HOOKS[Index(h)] == h;
    }
  }

  /** Hooks that go by a container's id leave markers of that container. */
  lemma PostUpMarkersById(p: Post)
    requires Stamps(p.i) && MarkersValid(p.w) && !p.i.flags.skip && p.key == p.c
    ensures MarkersValid(After(p))
  {
    PostUpHistory(p);
    PostUpRecord(p);
  }

  lemma PostUpMarkersByName(name: string, p: Post)
    requires Sound(name, p.w) && AtContainer(name, p) && Stamps(p.i)
    requires MarkersValid(p.w) && !p.i.flags.skip && p.key != p.c
    ensures MarkersValid(After(p)) <==> !FirstHookOk(p.i)
  {
    PostUpKnown(name, p);
    PostUpHistory(p);
    PostUpRecord(p);
    assert !AnyMarker(Begun(p));
    SomeHookRuns(p);
  }

  lemma PostUpMarkersSkipped(name: string, p: Post)
    requires Sound(name, p.w) && AtContainer(name, p) && Stamps(p.i)
    requires MarkersValid(p.w) && p.i.flags.skip
    ensures MarkersValid(After(p)) <==> !SpoilsPost(p)
  {
    PostUpKnown(name, p);
    PostUpHistory(p);
    PostUpRecord(p);
  }

  lemma StepMarkers(name: string, w: World, s: Step)
    requires Sound(name, w) && MarkersValid(w) && Allowed(name, w, s)
    ensures MarkersValid(Next(w, s)) <==> !Spoils(w, s)
  {
    StepEffect(name, w, s);
    if AtPostUp(w, s).Some? {
      var p := AtPostUp(w, s).value;
      MovedSound(name, w, p.w);
      MovedMarkers(w, p.w);
      if p.i.flags.skip {
        PostUpMarkersSkipped(name, p);
      } else if p.key == p.c {
        PostUpMarkersById(p);
      } else {
        PostUpMarkersByName(name, p);
      }
    } else if !s.Purge? {
      MovedMarkers(w, Next(w, s));
    }
  }

  lemma MovedMarkers(w: World, w1: World)
    requires Moved(w, w1)
    ensures forall h :: Marked(w1.disk, h) == Marked(w.disk, h)
    ensures MarkersValid(w1) <==> MarkersValid(w)
  {
  }

  // ----- Markers over runs -----

  ghost predicate ValidAt(name: string, steps: seq<Step>, k: nat) {
    MarkersValid(At(name, steps, k))
  }

  ghost predicate SpoilsAt(name: string, steps: seq<Step>, k: nat) {
    k < |steps| && Spoils(At(name, steps, k), steps[k])
  }

  lemma ValidStep(name: string, steps: seq<Step>, k: nat)
    requires Run(name, steps).Some? && k < |steps| && ValidAt(name, steps, k)
    ensures ValidAt(name, steps, k + 1) <==> !SpoilsAt(name, steps, k)
  {
    AtStep(name, steps, k);
    StepMarkers(name, At(name, steps, k), steps[k]);
  }

  ghost function ValidBy(name: string, steps: seq<Step>): nat -> bool {
    (k: nat) => ValidAt(name, steps, k)
  }

  ghost function SpoilsBy(name: string, steps: seq<Step>): nat -> bool {
    (k: nat) => SpoilsAt(name, steps, k)
  }

  /**
    In a run, every persisted marker always belongs to a success on the recorded container exactly
    when no `--skip-hooks` up changes the recorded identity to one where some marked hook has not
    succeeded, and no up whose second lookup fails gets its first create hook done.
   */
  lemma MarkersValidIff(name: string, steps: seq<Step>, n: nat)
    requires n <= |steps| && Run(name, steps).Some?
    ensures (forall k: nat :: k <= n ==> ValidAt(name, steps, k)) <==>
            (forall k: nat :: k < n ==> !SpoilsAt(name, steps, k))
  {
    var good, bad := ValidBy(name, steps), SpoilsBy(name, steps);
    AtStart(name, steps);
    forall k: nat | k < n && good(k)
      ensures good(k + 1) <==> !bad(k)
    {
      ValidStep(name, steps, k);
    }
    ThroughoutIff(n, good, bad);
    assert forall k: nat :: good(k) == ValidAt(name, steps, k);
    assert forall k: nat :: bad(k) == SpoilsAt(name, steps, k);
  }

  // ----- What a nil return means -----

  /** The hooks will be passed over for a marker that does not stand for a success in `c`. */
  ghost predicate Stale(w: World, key: string, c: string, i: UpInput, h: Hook) {
    && w.disk.containerID == key && !i.flags.rerun && Marked(w.disk, h)
    && Ran(h, c, true) !in w.log
  }

  lemma HookDone(p: Post, h: Hook)
    requires Stamps(p.i) && !p.i.flags.skip && HooksOk(p) && h in p.i.spec.createHooks
    ensures Ran(h, p.c, true) in After(p).log <==> !Stale(p.w, p.key, p.c, p.i, h)
  {
    PostUpHistory(p);
    assert RunsOk(p, h) <==> !Marked(Begun(p), h);
  }

  /**
    An up without `--skip-hooks` that returns nil has every configured create hook succeeded in
    the container that it brought up, exactly when none of their markers is stale.
   */
  lemma NilMeansHooksDone(name: string, w: World, s: Step, h: Hook)
    requires Sound(name, w) && Allowed(name, w, s) && AtPostUp(w, s).Some? && Result(w, s).ok
    requires !AtPostUp(w, s).value.i.flags.skip && h in AtPostUp(w, s).value.i.spec.createHooks
    ensures
      var p := AtPostUp(w, s).value;
      && Exists(Next(w, s), p.c)
      && (Ran(h, p.c, true) in Next(w, s).log <==> !Stale(w, p.key, p.c, p.i, h))
  {
    StepEffect(name, w, s);
    var p := AtPostUp(w, s).value;
    MovedMarkers(w, p.w);
    PostUpProbe(p);
    PostUpRecord(p);
    HookDone(p, h);
  }

  /** In a run in which no step spoils the markers, a nil return means that all hooks are done. */
  lemma NilMeansHooksDoneOnRuns(name: string, steps: seq<Step>, s: Step, h: Hook)
    requires Run(name, steps).Some? && forall k: nat :: k < |steps| ==> !SpoilsAt(name, steps, k)
    requires Allowed(name, Run(name, steps).value, s) && AtPostUp(Run(name, steps).value, s).Some?
    requires Result(Run(name, steps).value, s).ok
    requires !AtPostUp(Run(name, steps).value, s).value.i.flags.skip
    requires h in AtPostUp(Run(name, steps).value, s).value.i.spec.createHooks
    ensures Ran(h, AtPostUp(Run(name, steps).value, s).value.c, true) in Next(Run(name, steps).value, s).log
  {
    RunSound(name, steps);
    MarkersValidIff(name, steps, |steps|);
    assert ValidAt(name, steps, |steps|) && steps[..|steps|] == steps;
    StepEffect(name, Run(name, steps).value, s);
    NilMeansHooksDone(name, Run(name, steps).value, s, h);
  }

  /**
    After a successful `--skip-hooks` up, the next one that works on the same container passes over
    a marked hook and returns nil: the hook has run in the container only if it had before.
   */
  lemma AdoptionSkipsHook(name: string, w: World, s: Step, t: Step, h: Hook)
    requires Sound(name, w) && Allowed(name, w, s) && AtPostUp(w, s).Some? && Result(w, s).ok
    requires AtPostUp(w, s).value.i.flags.skip && !FailsLookup(w, s) && Marked(w.disk, h)
    requires Allowed(name, Next(w, s), t) && AtPostUp(Next(w, s), t).Some? && Result(Next(w, s), t).ok
    requires !FailsLookup(Next(w, s), t) && AtPostUp(Next(w, s), t).value.c == AtPostUp(w, s).value.c
    requires !AtPostUp(Next(w, s), t).value.i.flags.skip && !AtPostUp(Next(w, s), t).value.i.flags.rerun
    ensures
      var c := AtPostUp(w, s).value.c;
      Ran(h, c, true) in Next(Next(w, s), t).log <==> Ran(h, c, true) in w.log
  {
    StepEffect(name, w, s);
    var p := AtPostUp(w, s).value;
    MovedMarkers(w, p.w);
    PostUpHistory(p);
    PostUpRecord(p);
    StepSound(name, w, s);
    StepEffect(name, Next(w, s), t);
    var q := AtPostUp(Next(w, s), t).value;
    MovedMarkers(Next(w, s), q.w);
    PostUpHistory(q);
    assert !RunsOk(q, h);
  }

  // ----- What a successful up leaves -----

  /** The container exists with another configuration and replacing it was not asked for. */
  predicate Drifting(w: World, i: UpInput) {
    w.container.Some? && !Recreating(i) && w.container.value.hash != i.spec.hash
  }

  /**
    A successful up ends with the container running; replaces an existing one exactly when that
    was asked for; and leaves it with the specification's hash unless it took the drift path.
   */
  lemma UpLeaves(name: string, w: World, i: UpInput)
    requires Sound(name, w) && Allowed(name, w, DoUp(i)) && Up(w, i).ok
    ensures
      var r := Up(w, i).w;
      && r.container.Some? && r.container.value.running
      && (w.container.Some? ==> (r.container.value.id != w.container.value.id <==> Recreating(i)))
      && (r.container.value.hash == i.spec.hash <==> !Drifting(w, i))
      && r.disk.configHash == i.spec.hash
  {
    StepEffect(name, w, DoUp(i));
    PostUpRecord(AtPostUp(w, DoUp(i)).value);
  }

  /**
    After a successful up that made a new container, a configured create hook has run in it unless
    the second lookup failed and the name already carries the hook's marker.
   */
  lemma NewContainerHooks(name: string, w: World, i: UpInput, h: Hook)
    requires Sound(name, w) && Allowed(name, w, DoUp(i)) && Up(w, i).ok && !i.flags.skip
    requires w.container.None? || Recreating(i)
    requires h in i.spec.createHooks
    ensures
      var r := Up(w, i).w;
      && r.container.Some? && r.container.value.id !in w.used
      && (Ran(h, r.container.value.id, true) in r.log <==>
          !(!i.out.refindOk && w.disk.containerID == name && !i.flags.rerun && Marked(w.disk, h)))
  {
    StepEffect(name, w, DoUp(i));
    PostUpRecord(AtPostUp(w, DoUp(i)).value);
    NilMeansHooksDone(name, w, DoUp(i), h);
  }

  /** Whether or not it succeeds, an up removes the existing container only when asked to. */
  lemma UpRemovesOnlyIfAsked(name: string, w: World, i: UpInput)
    requires Known(name, w) && Allowed(name, w, DoUp(i)) && w.container.Some? && !Recreating(i)
    ensures
      var r := Up(w, i).w;
      r.container.Some? && r.container.value.id == w.container.value.id
  {
    StepEffect(name, w, DoUp(i));
    if AtPostUp(w, DoUp(i)).Some? {
      PostUpRecord(AtPostUp(w, DoUp(i)).value);
    }
  }
}
