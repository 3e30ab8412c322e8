/** When an up returns nil, what its hooks do in which order, and what it leaves of the container. */
module LifecycleResults {
  import opened Wrappers
  import opened Lifecycle
  import opened LifecycleSteps

  /** The create hook is configured, and forced or not recorded as done for this identity. */
  predicate Due(disk: State, key: string, i: UpInput, h: Hook) {
    && h in i.spec.createHooks
    && (i.flags.rerun || disk.containerID != key || h !in disk.hooks || disk.hooks[h] == "")
  }

  lemma DueIsNeeded(disk: State, key: string, i: UpInput, h: Hook)
    ensures Due(disk, key, i, h) <==> Needs(ForContainer(disk, key, i.flags.rerun), i, h)
  {
  }

  // ----- Nil -----

  /** What must go well in and after the hooks. */
  predicate RestGoesWell(disk: State, key: string, i: UpInput) {
    && (i.flags.skip
        || ((forall h :: Due(disk, key, i, h) ==> i.out.hookOk(h))
            && (i.spec.postStart ==> i.out.postStartOk)))
    && i.out.provisionOk
    && (i.flags.skip || !i.spec.postAttach || i.out.postAttachOk)
  }

  lemma PostUpNilIff(w: World, key: string, cid: string, i: UpInput)
    requires Stamps(i)
    ensures PostUp(w, key, cid, i).ok <==> RestGoesWell(w.disk, key, i)
  {
    var p := Post(w, key, cid, i);
    HooksRecord(p);
    forall h
      ensures Due(w.disk, key, i, h) <==> Needs(Begun(p), i, h)
      ensures CREATE_HOOKS[Index(h)] == h
    {
      DueIsNeeded(w.disk, key, i, h);
    }
    assert Passes(Begun(p), i, |CREATE_HOOKS|) <==> forall h :: Due(w.disk, key, i, h) ==> i.out.hookOk(h);
  }

  /**
    An up of a single container returns nil exactly when initializeCommand is skipped, absent or
    succeeds, the first lookup succeeds, whatever removal, build, creation or start the case calls
    for succeeds, and so do the hooks that are due, provisioning and postAttachCommand.
   */
  lemma UpNilIff(w: World, i: UpInput)
    requires Stamps(i)
    ensures
      var kept := w.container.Some? && !i.flags.recreate && !i.flags.rebuild;
      var id := if kept then w.container.value.id else i.out.freshId;
      Up(w, i).ok <==>
        && (i.flags.skip || !i.spec.initialize || i.out.initializeOk)
        && i.out.findOk
        && (if kept then w.container.value.running || i.out.startOk
            else (w.container.Some? ==> i.out.removeOk) && (i.spec.built ==> i.out.buildOk) && i.out.createOk)
        && RestGoesWell(w.disk, if i.out.refindOk then id else i.name, i)
  {
    var w1 := BringUp(w, i).0;
    if w1.container.Some? {
      var w2 := Persist(w1, i);
      PostUpNilIff(w2, Key(w2, i), w2.container.value.id, i);
    }
  }

  /**
    A compose up returns nil exactly when initializeCommand is skipped, absent or succeeds, compose
    succeeds, and, if the workspace's own service was requested, it is looked up and found, and the
    hooks that are due, provisioning and postAttachCommand succeed.
   */
  lemma ComposeNilIff(w: World, after: set<string>, found: Option<string>, used: set<string>, composeOk: bool,
                      covers: bool, i: UpInput)
    requires Stamps(i)
    ensures UpCompose(w, after, found, used, composeOk, covers, i).ok <==>
              && (i.flags.skip || !i.spec.initialize || i.out.initializeOk)
              && composeOk
              && (covers ==> i.out.refindOk && found.Some? && RestGoesWell(w.disk, found.value, i))
  {
    if found.Some? {
      var w1 := Persist(w.(services := after, used := used), i);
      PostUpNilIff(w1, found.value, found.value, i);
    }
  }

  // ----- What is left, whether or not it goes well -----

  /** The container after an up: kept, started, gone for good, or new. */
  lemma UpContainer(w: World, i: UpInput)
    requires Stamps(i)
    ensures
      var r := Up(w, i).w;
      var begins := (i.flags.skip || !i.spec.initialize || i.out.initializeOk) && i.out.findOk;
      var kept := w.container.Some? && !i.flags.recreate && !i.flags.rebuild;
      var created := (i.spec.built ==> i.out.buildOk) && i.out.createOk;
      && r.container ==
         (if !begins then w.container
          else if kept then
            if w.container.value.running || !i.out.startOk then w.container
            else Some(Container(w.container.value.id, true, w.container.value.hash))
          else if w.container.Some? && !i.out.removeOk then w.container
          else if !created then None
          else Some(Container(i.out.freshId, true, i.spec.hash)))
      && r.services == w.services
  {
    var w1 := BringUp(w, i).0;
    if w1.container.Some? {
      var w2 := Persist(w1, i);
      PostUpRecord(Post(w2, Key(w2, i), w2.container.value.id, i));
    }
  }

  /** The configuration's hash is recorded as soon as there is a container to go by. */
  lemma HashRecorded(w: World, s: Step)
    requires AtPostUp(w, s).Some? && Stamps(AtPostUp(w, s).value.i)
    ensures Next(w, s).disk.configHash == AtPostUp(w, s).value.i.spec.hash
  {
    PostUpRecord(AtPostUp(w, s).value);
  }

  /** An empty probe is used but not kept; any other is kept as it is. */
  lemma ProbeKept(p: Post)
    requires Stamps(p.i) && HooksOk(p) && !ProbeIsFresh(p.w.disk, p.key, p.i.version)
    ensures After(p).disk.envProbe == if p.i.out.probe == Some(map[]) then None else p.i.out.probe
    ensures After(p).disk.envProbeVersion == p.i.version && After(p).disk.containerID == p.key
  {
    PostUpProbe(p);
    PostUpRecord(p);
  }

  // ----- The order of the hooks -----

  /** The run of a hook, if it comes to that. */
  function Attempt(c: string, i: UpInput, h: Hook, due: bool): seq<Event> {
    if due then [Ran(h, c, i.out.hookOk(h))] else []
  }

  /**
    What the hooks add to the history: the mark of a forced rerun, then onCreate, updateContent and
    postCreate in this order, each if it is due and nothing before it has failed.
   */
  lemma HooksInOrder(p: Post)
    requires !p.i.flags.skip
    ensures
      var due0 := Due(p.w.disk, p.key, p.i, OnCreate);
      var ok0 := due0 ==> p.i.out.hookOk(OnCreate);
      var due1 := ok0 && Due(p.w.disk, p.key, p.i, UpdateContent);
      var ok1 := ok0 && (due1 ==> p.i.out.hookOk(UpdateContent));
      var due2 := ok1 && Due(p.w.disk, p.key, p.i, PostCreate);
      AfterHooks(p).log ==
        p.w.log + (if p.i.flags.rerun then [Rerun(p.c)] else [])
        + Attempt(p.c, p.i, OnCreate, due0) + Attempt(p.c, p.i, UpdateContent, due1)
        + Attempt(p.c, p.i, PostCreate, due2)
  {
    var p0 := BeginHooks(p.w, p.key, p.c, p.i);
    var p1 := OneHook(p0, OnCreate, p.c, p.i);
    var p2 := OneHook(p1, UpdateContent, p.c, p.i);
    var p3 := OneHook(p2, PostCreate, p.c, p.i);
    assert HooksUpTo(p0, 1, p.c, p.i) == p1;
    assert HooksUpTo(p0, 2, p.c, p.i) == p2;
    assert HooksUpTo(p0, 3, p.c, p.i) == p3;
    forall h { DueIsNeeded(p.w.disk, p.key, p.i, h); }
    OneAttempt(p0, OnCreate, p.c, p.i);
    OneAttempt(p1, UpdateContent, p.c, p.i);
    OneAttempt(p2, PostCreate, p.c, p.i);
  }

  lemma OneAttempt(p: Progress, h: Hook, c: string, i: UpInput)
    ensures
      var q := OneHook(p, h, c, i);
      && q.w.log == p.w.log + Attempt(c, i, h, p.ok && Needs(p.mem, i, h))
      && (q.ok <==> p.ok && (Needs(p.mem, i, h) ==> i.out.hookOk(h)))
      && forall g :: g != h ==> (Marked(q.mem, g) <==> Marked(p.mem, g))
  {
  }
}
