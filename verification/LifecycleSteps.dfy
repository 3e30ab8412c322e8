/**
  Runs of `up`s, failures, outside changes and purges, and exactly what one step of them does to
  the record and to the history.
 */
module LifecycleSteps {
  import opened Wrappers
  import opened Lifecycle

  // ----- Steps -----

  datatype Step =
    | DoUp(i: UpInput)
    | DoCompose(services: set<string>, found: Option<string>, used: set<string>, composeOk: bool, covers: bool,
                i: UpInput)
      // stop, start, remove, replace by hand
    | Outside(container: Option<Container>, services: set<string>, used: set<string>)
      // down --purge: the container, or the project's services but for `left`; then the record
    | Purge(single: bool, left: set<string>)

  /**
    The runtime never hands an id out twice: what there is afterwards was there, in the same role,
    or is new.
   */
  predicate MayBecome(w: World, after: Option<Container>, services: set<string>, used: set<string>) {
    && w.used <= used && services <= used && services * w.used <= w.services
    && (after.Some? ==>
          && after.value.id in used && after.value.id !in services
          && (after.value.id !in w.used || (w.container.Some? && w.container.value.id == after.value.id)))
  }

  ghost predicate Stamps(i: UpInput) {
    forall h :: i.out.stamp(h) != ""
  }

  /** What the outside world is trusted with, in the workspace whose container is called `name`. */
  ghost predicate Allowed(name: string, w: World, s: Step) {
    match s
    case DoUp(i) => i.name == name && i.out.freshId !in w.used && Stamps(i)
    case DoCompose(services, found, used, _, _, i) =>
      MayBecome(w, w.container, services, used) && (found.Some? ==> found.value in services) && Stamps(i)
    case Outside(container, services, used) => MayBecome(w, container, services, used)
    case Purge(_, left) => left <= w.services
  }

  /** What a step leaves, and whether it reports success. */
  function Result(w: World, s: Step): Outcome {
    match s
    case DoUp(i) => Up(w, i)
    case DoCompose(services, found, used, composeOk, covers, i) =>
      UpCompose(w, services, found, used, composeOk, covers, i)
    case Outside(container, services, used) =>
      Outcome(w.(container := container, services := services, used := used), true, map[])
    case Purge(single, left) =>
      Outcome(if single then w.(container := None, disk := NO_STATE) else w.(services := left, disk := NO_STATE),
              true, map[])
  }

  function Next(w: World, s: Step): World {
    Result(w, s).w
  }

  /** Neither the empty id nor the name is ever a container's id. */
  function Start(name: string): World {
    World(None, {}, {"", name}, NO_STATE, [])
  }

  /** The world after some steps, or `None` if the outside world broke its promise. */
  ghost function Run(name: string, steps: seq<Step>): Option<World> {
    if steps == [] then Some(Start(name))
    else
      var before := Run(name, steps[..|steps| - 1]);
      if before.None? || !Allowed(name, before.value, steps[|steps| - 1]) then None
      else Some(Next(before.value, steps[|steps| - 1]))
  }

  lemma RunOneMore(name: string, steps: seq<Step>, s: Step)
    ensures
      var before := Run(name, steps);
      Run(name, steps + [s]) ==
      if before.None? || !Allowed(name, before.value, s) then None else Some(Next(before.value, s))
  {
    assert (steps + [s])[..|steps|] == steps;
  }

  lemma {:induction false} PrefixRuns(name: string, steps: seq<Step>, n: nat)
    requires n <= |steps| && Run(name, steps).Some?
    ensures Run(name, steps[..n]).Some?
    ensures n < |steps| ==> Allowed(name, Run(name, steps[..n]).value, steps[n])
                            && Run(name, steps[..n + 1]) == Some(Next(Run(name, steps[..n]).value, steps[n]))
    decreases |steps|
  {
    if n == |steps| {
      assert steps[..n] == steps;
    } else {
      var before := steps[..|steps| - 1];
      if n < |before| {
        PrefixRuns(name, before, n);
        assert before[..n] == steps[..n] && before[..n + 1] == steps[..n + 1];
      } else {
        assert steps[..n + 1] == steps;
      }
    }
  }

  // ----- Where a step reaches the hooks -----

  /** `postUp` is entered in `w` for container `c`, under the recorded identity `key`. */
  datatype Post = Post(w: World, key: string, c: string, i: UpInput)

  function AtPostUp(w: World, s: Step): Option<Post> {
    match s
    case DoUp(i) =>
      var (w1, ok) := BringUp(w, i);
      if (!i.flags.skip && i.spec.initialize && !i.out.initializeOk) || !i.out.findOk then None
      else if !ok || w1.container.None? then None
      else Some(Post(Persist(w1, i), Key(w1, i), w1.container.value.id, i))
    case DoCompose(services, found, used, composeOk, covers, i) =>
      if !i.flags.skip && i.spec.initialize && !i.out.initializeOk then None
      else if !composeOk || !covers || !i.out.refindOk || found.None? then None
      else Some(Post(Persist(w.(services := services, used := used), i), found.value, found.value, i))
    case Outside(_, _, _) => None
    case Purge(_, _) => None
  }

  /** Only the containers and the configuration's hash have changed. */
  predicate Moved(w: World, w1: World) {
    && MayBecome(w, w1.container, w1.services, w1.used)
    && w1.log == w.log && w1.disk == w.disk.(configHash := w1.disk.configHash)
  }

  predicate Exists(w: World, c: string) {
    c in w.services || (w.container.Some? && w.container.value.id == c)
  }

  predicate AtContainer(name: string, p: Post) {
    Exists(p.w, p.c) && (p.key == p.c || p.key == name)
  }

  /** Every id in the record or the history has been handed out, and is not the name. */
  ghost predicate Known(name: string, w: World) {
    && "" in w.used && name in w.used && w.disk.containerID in w.used
    && (forall c :: Exists(w, c) ==> c in w.used && c !in ["", name])
    && (w.container.Some? ==> w.container.value.id !in w.services)
    && (forall e :: e in w.log ==> e.cid in w.used && e.cid !in ["", name])
  }

  /** A step changes the containers only, purges, or changes the containers and goes through `postUp`. */
  lemma StepEffect(name: string, w: World, s: Step)
    requires Known(name, w) && Allowed(name, w, s)
    ensures AtPostUp(w, s).None? ==> s.Purge? || Moved(w, Next(w, s))
    ensures AtPostUp(w, s).Some? ==>
              var p := AtPostUp(w, s).value;
              && Moved(w, p.w) && AtContainer(name, p) && Stamps(p.i)
              && Result(w, s) == PostUp(p.w, p.key, p.c, p.i)
    ensures s.DoUp? && Up(w, s.i).ok ==> AtPostUp(w, s).Some?
  {
  }

  // ----- Which hooks succeed -----

  function Index(h: Hook): (n: nat)
    ensures n < |CREATE_HOOKS| && CREATE_HOOKS[n] == h
    ensures forall k :: 0 <= k < |CREATE_HOOKS| && CREATE_HOOKS[k] == h ==> k == n
  {
    match h
    case OnCreate => 0
    case UpdateContent => 1
    case PostCreate => 2
  }

  /** The hook is configured and has no marker. */
  predicate Needs(mem: State, i: UpInput, h: Hook) {
    h in i.spec.createHooks && !Marked(mem, h)
  }

  /** None of the first `n` hooks that are needed fails. */
  predicate Passes(mem: State, i: UpInput, n: nat)
    requires n <= |CREATE_HOOKS|
  {
    forall k :: 0 <= k < n && Needs(mem, i, CREATE_HOOKS[k]) ==> i.out.hookOk(CREATE_HOOKS[k])
  }

  /** The hook is needed, and neither it nor a needed one before it fails. */
  predicate Succeeds(mem: State, i: UpInput, h: Hook) {
    Needs(mem, i, h) && Passes(mem, i, Index(h) + 1)
  }

  predicate Did(mem: State, i: UpInput, n: nat, h: Hook) {
    Index(h) < n && Succeeds(mem, i, h)
  }

  /** The record and its copy on disk after `n` hooks, in closed form. */
  ghost predicate PartWay(p0: Progress, p: Progress, n: nat, i: UpInput)
    requires n <= |CREATE_HOOKS|
  {
    && (p.ok <==> Passes(p0.mem, i, n))
    && p.mem == p0.mem.(hooks := p.mem.hooks)
    && p.w == p0.w.(disk := p.w.disk, log := p.w.log)
    && (forall h :: Marked(p.mem, h) <==> Marked(p0.mem, h) || Did(p0.mem, i, n, h))
    && (if exists h :: Did(p0.mem, i, n, h) then p.w.disk == p.mem
        else p.w.disk == p0.w.disk && p.mem == p0.mem)
  }

  lemma OneMoreHook(mem: State, i: UpInput, n: nat)
    requires n < |CREATE_HOOKS|
    ensures
      var g := CREATE_HOOKS[n];
      && (Passes(mem, i, n + 1) <==> Passes(mem, i, n) && (Needs(mem, i, g) ==> i.out.hookOk(g)))
      && (forall h :: Did(mem, i, n + 1, h) <==> Did(mem, i, n, h) || (h == g && Succeeds(mem, i, g)))
      && !Did(mem, i, n, g)
      && (Succeeds(mem, i, g) <==> Passes(mem, i, n) && Needs(mem, i, g) && i.out.hookOk(g))
  {
    assert Index(CREATE_HOOKS[n]) == n;
    forall h
      ensures Did(mem, i, n + 1, h) <==> Did(mem, i, n, h) || (h == CREATE_HOOKS[n] && Succeeds(mem, i, h))
    {
      assert CREATE_HOOKS[Index(h)] == h;
    }
  }

  lemma OneHookPartWay(p0: Progress, p: Progress, n: nat, c: string, i: UpInput)
    requires n < |CREATE_HOOKS| && Stamps(i) && PartWay(p0, p, n, i)
    ensures PartWay(p0, OneHook(p, CREATE_HOOKS[n], c, i), n + 1, i)
  {
    OneMoreHook(p0.mem, i, n);
  }

  /** What the first `n` hooks do, for every hook, however they fail. */
  lemma {:induction false} HooksPartWay(p0: Progress, n: nat, c: string, i: UpInput)
    requires n <= |CREATE_HOOKS| && Stamps(i) && p0.ok
    ensures PartWay(p0, HooksUpTo(p0, n, c, i), n, i)
  {
    if n > 0 {
      HooksPartWay(p0, n - 1, c, i);
      OneHookPartWay(p0, HooksUpTo(p0, n - 1, c, i), n - 1, c, i);
    } else {
      assert forall h :: !Did(p0.mem, i, 0, h);
    }
  }

  // ----- The history -----

  /** How often hook `h` succeeded in container `c` since the last forced rerun there. */
  function Successes(log: seq<Event>, h: Hook, c: string): nat {
    if log == [] then 0
    else
      var e := log[|log| - 1];
      if e == Rerun(c) then 0
      else Successes(log[..|log| - 1], h, c) + if e == Ran(h, c, true) then 1 else 0
  }

  /** The last probe that was taken. */
  function LastProbe(log: seq<Event>): (e: Option<Event>)
    ensures e.Some? ==> e.value.Probed? && e.value in log
  {
    if log == [] then None
    else if log[|log| - 1].Probed? then Some(log[|log| - 1])
    else LastProbe(log[..|log| - 1])
  }

  /** A create hook has succeeded in `c` since the last probe, of whatever container, was taken. */
  function HookSinceProbe(log: seq<Event>, c: string): bool {
    log != [] &&
    var e := log[|log| - 1];
    !e.Probed? && ((e.Ran? && e.cid == c && e.ok) || HookSinceProbe(log[..|log| - 1], c))
  }

  lemma OneMoreEvent(log: seq<Event>, e: Event, h: Hook, c: string)
    ensures Successes(log + [e], h, c) ==
            if e == Rerun(c) then 0 else Successes(log, h, c) + if e == Ran(h, c, true) then 1 else 0
    ensures LastProbe(log + [e]) == if e.Probed? then Some(e) else LastProbe(log)
    ensures HookSinceProbe(log + [e], c) <==>
            !e.Probed? && ((e.Ran? && e.cid == c && e.ok) || HookSinceProbe(log, c))
  {
    assert (log + [e])[..|log|] == log;
  }

  lemma {:induction false} NoSuccesses(log: seq<Event>, h: Hook, c: string)
    requires Ran(h, c, true) !in log
    ensures Successes(log, h, c) == 0
  {
    if log != [] {
      NoSuccesses(log[..|log| - 1], h, c);
    }
  }

  function One(b: bool): nat {
    if b then 1 else 0
  }

  /** `log` is `log0` after hooks in container `c`, of which those in `did` succeeded. */
  ghost predicate Grown(log0: seq<Event>, log: seq<Event>, c: string, did: Hook -> bool) {
    && (forall h, d :: Successes(log, h, d) == Successes(log0, h, d) + One(d == c && did(h)))
    && (forall h, d :: Ran(h, d, true) in log <==> Ran(h, d, true) in log0 || (d == c && did(h)))
    && (forall e :: e in log ==> e in log0 || e.cid == c)
    && LastProbe(log) == LastProbe(log0)
    && (HookSinceProbe(log, c) <==> HookSinceProbe(log0, c) || exists h :: did(h))
  }

  lemma GrowMore(log0: seq<Event>, log: seq<Event>, c: string, did: Hook -> bool, g: Hook, ok: bool,
                 did': Hook -> bool)
    requires Grown(log0, log, c, did) && !did(g)
    requires forall h :: did'(h) == (did(h) || (h == g && ok))
    ensures Grown(log0, log + [Ran(g, c, ok)], c, did')
  {
    var e := Ran(g, c, ok);
    forall h, d
      ensures Successes(log + [e], h, d) == Successes(log0, h, d) + One(d == c && did'(h))
    {
      OneMoreEvent(log, e, h, d);
    }
    OneMoreEvent(log, e, g, c);
  }

  lemma GrowSame(log0: seq<Event>, log: seq<Event>, c: string, did: Hook -> bool, did': Hook -> bool)
    requires Grown(log0, log, c, did) && forall h :: did'(h) == did(h)
    ensures Grown(log0, log, c, did')
  {
    if h :| did(h) {
      assert did'(h);
    }
  }

  lemma OneHookLog(p0: Progress, p: Progress, n: nat, c: string, i: UpInput)
    requires n < |CREATE_HOOKS| && PartWay(p0, p, n, i)
    requires Grown(p0.w.log, p.w.log, c, h => Did(p0.mem, i, n, h))
    ensures Grown(p0.w.log, OneHook(p, CREATE_HOOKS[n], c, i).w.log, c, h => Did(p0.mem, i, n + 1, h))
  {
    var g := CREATE_HOOKS[n];
    OneMoreHook(p0.mem, i, n);
    if p.ok && Needs(p0.mem, i, g) {
      GrowMore(p0.w.log, p.w.log, c, h => Did(p0.mem, i, n, h), g, i.out.hookOk(g),
               h => Did(p0.mem, i, n + 1, h));
    } else {
      GrowSame(p0.w.log, p.w.log, c, h => Did(p0.mem, i, n, h), h => Did(p0.mem, i, n + 1, h));
    }
  }

  lemma {:induction false} HooksLog(p0: Progress, n: nat, c: string, i: UpInput)
    requires n <= |CREATE_HOOKS| && Stamps(i) && p0.ok
    ensures Grown(p0.w.log, HooksUpTo(p0, n, c, i).w.log, c, h => Did(p0.mem, i, n, h))
  {
    if n > 0 {
      HooksPartWay(p0, n - 1, c, i);
      HooksLog(p0, n - 1, c, i);
      OneHookLog(p0, HooksUpTo(p0, n - 1, c, i), n - 1, c, i);
    }
  }

  // ----- All of `postUp` -----

  /** The record that the hooks start from. */
  function Begun(p: Post): State {
    ForContainer(p.w.disk, p.key, p.i.flags.rerun)
  }

  /** The hook runs in this `postUp` and succeeds. */
  predicate RunsOk(p: Post, h: Hook) {
    !p.i.flags.skip && Succeeds(Begun(p), p.i, h)
  }

  /** The hooks let `postUp` go on to the probe. */
  predicate HooksOk(p: Post) {
    || p.i.flags.skip
    || (Passes(Begun(p), p.i, |CREATE_HOOKS|) && (p.i.spec.postStart ==> p.i.out.postStartOk))
  }

  /** The hooks save the record. */
  predicate Writes(p: Post) {
    !p.i.flags.skip && (HooksOk(p) || exists h :: RunsOk(p, h))
  }

  function AfterHooks(p: Post): World {
    LifecycleHooks(p.w, p.key, p.c, p.i).0
  }

  function After(p: Post): World {
    PostUp(p.w, p.key, p.c, p.i).w
  }

  /** The markers and the identity that the hooks leave on disk. */
  lemma HooksRecord(p: Post)
    requires Stamps(p.i)
    ensures
      var w1 := AfterHooks(p);
      && LifecycleHooks(p.w, p.key, p.c, p.i).1 == HooksOk(p)
      && w1 == p.w.(disk := w1.disk, log := w1.log)
      && w1.disk.configHash == p.w.disk.configHash
      && (if Writes(p) then
            && w1.disk.containerID == p.key
            && w1.disk == Begun(p).(hooks := w1.disk.hooks)
            && (forall h :: Marked(w1.disk, h) <==> Marked(Begun(p), h) || RunsOk(p, h))
          else w1.disk == p.w.disk)
  {
    if !p.i.flags.skip {
      var n := |CREATE_HOOKS|;
      var p0 := BeginHooks(p.w, p.key, p.c, p.i);
      HooksPartWay(p0, n, p.c, p.i);
      assert forall h :: Did(Begun(p), p.i, n, h) <==> RunsOk(p, h);
    }
  }

  /** Every hook's exact number of successes, and the last probe, after the hooks. */
  lemma HooksHistory(p: Post)
    requires Stamps(p.i)
    ensures
      var log := AfterHooks(p).log;
      && (forall h :: Successes(log, h, p.c) ==
                      (if !p.i.flags.skip && p.i.flags.rerun then 0 else Successes(p.w.log, h, p.c))
                      + One(RunsOk(p, h)))
      && (forall h, d :: d != p.c ==> Successes(log, h, d) == Successes(p.w.log, h, d))
      && (forall h, d :: Ran(h, d, true) in log <==> Ran(h, d, true) in p.w.log || (d == p.c && RunsOk(p, h)))
      && (forall e :: e in log ==> e in p.w.log || e.cid == p.c)
      && LastProbe(log) == LastProbe(p.w.log)
      && (HookSinceProbe(log, p.c) <==> HookSinceProbe(p.w.log, p.c) || exists h :: RunsOk(p, h))
  {
    if !p.i.flags.skip {
      var n := |CREATE_HOOKS|;
      var p0 := BeginHooks(p.w, p.key, p.c, p.i);
      forall h, d { OneMoreEvent(p.w.log, Rerun(p.c), h, d); }
      OneMoreEvent(p.w.log, Rerun(p.c), OnCreate, p.c);
      HooksLog(p0, n, p.c, p.i);
      assert forall h :: Did(Begun(p), p.i, n, h) <==> RunsOk(p, h);
    }
  }

  /** The probe adds one event at most, and none that counts. */
  lemma ProbeHistory(p: Post)
    requires Stamps(p.i)
    ensures
      var log1, log := AfterHooks(p).log, After(p).log;
      && (forall h, d :: Successes(log, h, d) == Successes(log1, h, d))
      && (forall h, d :: Ran(h, d, true) in log <==> Ran(h, d, true) in log1)
      && (forall e :: e in log ==> e in log1 || e.cid == p.c)
  {
    var log1 := AfterHooks(p).log;
    forall h, d { OneMoreEvent(log1, Probed(p.c, p.i.version, p.i.out.probe), h, d); }
  }

  /** What `postUp` adds to the history: exactly one success of every hook that runs in it. */
  lemma PostUpHistory(p: Post)
    requires Stamps(p.i)
    ensures
      var log := After(p).log;
      && (forall h :: Successes(log, h, p.c) ==
                      (if !p.i.flags.skip && p.i.flags.rerun then 0 else Successes(p.w.log, h, p.c))
                      + One(RunsOk(p, h)))
      && (forall h, d :: d != p.c ==> Successes(log, h, d) == Successes(p.w.log, h, d))
      && (forall h, d :: Ran(h, d, true) in log <==> Ran(h, d, true) in p.w.log || (d == p.c && RunsOk(p, h)))
      && (forall e :: e in log ==> e in p.w.log || e.cid == p.c)
  {
    HooksHistory(p);
    ProbeHistory(p);
  }

  /** The identity and the markers that `postUp` leaves on disk. */
  lemma PostUpRecord(p: Post)
    requires Stamps(p.i)
    ensures
      var w2 := After(p);
      && w2 == p.w.(disk := w2.disk, log := w2.log)
      && w2.disk.configHash == p.w.disk.configHash
      && (if HooksOk(p) || Writes(p) then w2.disk.containerID == p.key else w2.disk == p.w.disk)
      && (forall h :: Marked(w2.disk, h) <==>
                      if Writes(p) then Marked(Begun(p), h) || RunsOk(p, h) else Marked(p.w.disk, h))
  {
    HooksRecord(p);
    var w1 := AfterHooks(p);
    assert forall h :: Marked(After(p).disk, h) == Marked(w1.disk, h);
  }

  /** The environment that `postUp` uses, what it leaves in the cache, and the last probe then. */
  lemma PostUpProbe(p: Post)
    requires Stamps(p.i)
    ensures
      var w2 := After(p);
      var cached := ProbeIsFresh(p.w.disk, p.key, p.i.version);
      if HooksOk(p) then
        && PostUp(p.w, p.key, p.c, p.i).env
           == SessionEnv(if cached then p.w.disk.envProbe else p.i.out.probe, p.i.spec.remoteEnv)
        && LastProbe(w2.log)
           == (if cached then LastProbe(p.w.log) else Some(Probed(p.c, p.i.version, p.i.out.probe)))
        && (HookSinceProbe(w2.log, p.c) <==>
            cached && (HookSinceProbe(p.w.log, p.c) || exists h :: RunsOk(p, h)))
        && w2.disk.envProbe == (if cached then p.w.disk.envProbe else OnDisk(p.i.out.probe))
        && w2.disk.envProbeVersion == p.i.version
      else
        && !PostUp(p.w, p.key, p.c, p.i).ok
        && LastProbe(w2.log) == LastProbe(p.w.log)
        && (w2.disk == p.w.disk
            || (w2.disk.containerID == p.key && w2.disk.envProbe == Begun(p).envProbe
                && w2.disk.envProbeVersion == p.w.disk.envProbeVersion))
  {
    HooksRecord(p);
    HooksHistory(p);
    OneMoreEvent(AfterHooks(p).log, Probed(p.c, p.i.version, p.i.out.probe), OnCreate, p.c);
  }
}
