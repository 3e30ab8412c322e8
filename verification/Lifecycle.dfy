/**
  Bringing a workspace up again and again (cmd/devc/up.go, hooks.go, session_env.go,
  container/reuse.go, state/state.go). A persisted record has three writers: the config
  bookkeeping, the create hooks and the environment probe.

  `World` is a workspace's containers, its record on disk, and the history of what was done to
  which container. The functions say what each step of `up` does to it; the class performs them.
 */
module Lifecycle {
  import opened Wrappers

  datatype Hook = OnCreate | UpdateContent | PostCreate

  const CREATE_HOOKS := [OnCreate, UpdateContent, PostCreate]

  type Env = map<string, string>

  /** The part of state.json that `up` decides by; hook markers are timestamps. */
  datatype State = State(containerID: string, configHash: string, hooks: map<Hook, string>,
                         envProbe: Option<Env>, envProbeVersion: string)

  const NO_STATE := State("", "", map[], None, "")

  datatype Container = Container(id: string, running: bool, hash: string)

  /** What was run in which container. `Rerun` opens a run forced by `--rerun-hooks`. */
  datatype Event = Ran(hook: Hook, cid: string, ok: bool)
                 | Rerun(cid: string)
                 | Probed(cid: string, version: string, env: Option<Env>)

  /**
    `container` is the one that bears the workspace's name, and `services` are the ids of its compose
    project's containers. A workspace can have both, and several services, on one record: its id
    depends on its name and folder only. `used` holds every container id seen so far.
   */
  datatype World = World(container: Option<Container>, services: set<string>, used: set<string>,
                         disk: State, log: seq<Event>)

  datatype Spec = Spec(hash: string, built: bool, createHooks: set<Hook>, postStart: bool,
                       postAttach: bool, initialize: bool, remoteEnv: Env)

  datatype Flags = Flags(recreate: bool, rebuild: bool, skip: bool, rerun: bool)

  /** How everything outside devc answers during one `up`. */
  datatype Outcomes = Outcomes(
    findOk: bool, startOk: bool, removeOk: bool, buildOk: bool, createOk: bool, freshId: string,
    refindOk: bool, initializeOk: bool, hookOk: Hook -> bool, stamp: Hook -> string,
    postStartOk: bool, probe: Option<Env>, provisionOk: bool, postAttachOk: bool)

  /** One `devc up`; `name` is the deterministic container name. */
  datatype UpInput = UpInput(flags: Flags, spec: Spec, version: string, name: string, out: Outcomes)

  /** The state after a command, whether it returned nil, and the session environment it resolved. */
  datatype Outcome = Outcome(w: World, ok: bool, env: Env)

  function Failed(w: World): Outcome {
    Outcome(w, false, map[])
  }

  // ----- Hooks -----

  predicate Marked(st: State, h: Hook) {
    h in st.hooks && st.hooks[h] != ""
  }

  /** The record that the hooks work on: another container or a rerun clears the markers. */
  function ForContainer(st: State, key: string, rerun: bool): State {
    if st.containerID != key then st.(hooks := map[], envProbe := None, containerID := key)
    else if rerun then st.(hooks := map[])
    else st
  }

  /** The create hooks part way: the record in memory, the world, and no failure so far. */
  datatype Progress = Progress(mem: State, w: World, ok: bool)

  function OneHook(p: Progress, h: Hook, cid: string, i: UpInput): Progress {
    if !p.ok || h !in i.spec.createHooks || Marked(p.mem, h) then p
    else
      var log := p.w.log + [Ran(h, cid, i.out.hookOk(h))];
      if !i.out.hookOk(h) then Progress(p.mem, p.w.(log := log), false)
      else
        var mem := p.mem.(hooks := p.mem.hooks[h := i.out.stamp(h)]);
        Progress(mem, p.w.(disk := mem, log := log), true)
  }

  function HooksUpTo(p: Progress, n: nat, cid: string, i: UpInput): Progress
    requires n <= |CREATE_HOOKS|
  {
    if n == 0 then p else OneHook(HooksUpTo(p, n - 1, cid, i), CREATE_HOOKS[n - 1], cid, i)
  }

  function BeginHooks(w: World, key: string, cid: string, i: UpInput): Progress {
    Progress(ForContainer(w.disk, key, i.flags.rerun),
             if i.flags.rerun then w.(log := w.log + [Rerun(cid)]) else w, true)
  }

  /** `key` is the recorded identity, `cid` the container that the hooks really run in. */
  function LifecycleHooks(w: World, key: string, cid: string, i: UpInput): (World, bool) {
    if i.flags.skip then (w, true)
    else
      var p := HooksUpTo(BeginHooks(w, key, cid, i), |CREATE_HOOKS|, cid, i);
      if !p.ok || (i.spec.postStart && !i.out.postStartOk) then (p.w, false)
      else (p.w.(disk := p.mem), true)
  }

  // ----- Environment probe -----

  predicate ProbeIsFresh(st: State, key: string, version: string) {
    st.envProbe.Some? && st.containerID == key && st.envProbeVersion == version
  }

  /** An empty probe is left out of the saved record, so that it reads back as none. */
  function OnDisk(probe: Option<Env>): Option<Env> {
    if probe == Some(map[]) then None else probe
  }

  function LoadOrRunProbe(w: World, key: string, cid: string, i: UpInput): (World, Option<Env>) {
    if ProbeIsFresh(w.disk, key, i.version) then (w, w.disk.envProbe)
    else
      (w.(disk := w.disk.(envProbe := OnDisk(i.out.probe), envProbeVersion := i.version, containerID := key),
          log := w.log + [Probed(cid, i.version, i.out.probe)]),
       i.out.probe)
  }

  function SessionEnv(probe: Option<Env>, remoteEnv: Env): Env {
    (if probe.Some? then probe.value else map[]) + remoteEnv
  }

  // ----- Up -----

  function PostUp(w: World, key: string, cid: string, i: UpInput): Outcome {
    var (w1, ok) := LifecycleHooks(w, key, cid, i);
    if !ok then Failed(w1)
    else
      var (w2, probe) := LoadOrRunProbe(w1, key, cid, i);
      Outcome(w2,
              i.out.provisionOk && (i.flags.skip || !i.spec.postAttach || i.out.postAttachOk),
              SessionEnv(probe, i.spec.remoteEnv))
  }

  datatype Action = ActionCreate | ActionStart | ActionAttach | ActionRecreate | ActionDrift

  function Decide(existing: Option<Container>, hash: string, allowRecreate: bool): Action {
    if existing.None? then ActionCreate
    else if existing.value.hash != hash then if allowRecreate then ActionRecreate else ActionDrift
    else if existing.value.running then ActionAttach
    else ActionStart
  }

  function CreateFresh(w: World, i: UpInput): (World, bool) {
    if (i.spec.built && !i.out.buildOk) || !i.out.createOk then (w, false)
    else
      (w.(container := Some(Container(i.out.freshId, true, i.spec.hash)), used := w.used + {i.out.freshId}),
       true)
  }

  function StartContainer(w: World, i: UpInput): (World, bool)
    requires w.container.Some?
  {
    if !i.out.startOk then (w, false)
    else (w.(container := Some(w.container.value.(running := true))), true)
  }

  function Recreating(i: UpInput): bool {
    i.flags.recreate || i.flags.rebuild
  }

  /** The container work of `upSingle`. */
  function BringUp(w: World, i: UpInput): (World, bool) {
    if w.container.None? then CreateFresh(w, i)
    else if Recreating(i) then
      if i.out.removeOk then CreateFresh(w.(container := None), i) else (w, false)
    else if w.container.value.running then (w, true)
    else StartContainer(w, i)
  }

  function Persist(w: World, i: UpInput): World {
    w.(disk := w.disk.(configHash := i.spec.hash))
  }

  /** The identity that the hooks and the probe go by: the name, when the second lookup fails. */
  function Key(w: World, i: UpInput): string
    requires w.container.Some?
  {
    if i.out.refindOk then w.container.value.id else i.name
  }

  function UpSingle(w: World, i: UpInput): Outcome {
    if !i.out.findOk then Failed(w)
    else
      var (w1, ok) := BringUp(w, i);
      if !ok || w1.container.None? then Failed(w1)
      else
        var w2 := Persist(w1, i);
        PostUp(w2, Key(w2, i), w2.container.value.id, i)
  }

  /** `devc up` on a single-container workspace. */
  function Up(w: World, i: UpInput): Outcome {
    if !i.flags.skip && i.spec.initialize && !i.out.initializeOk then Failed(w) else UpSingle(w, i)
  }

  /**
    `devc up` on a compose workspace. Compose itself decides what becomes of the project: `after`
    are the containers it leaves, of which `found` is the workspace service's, `used` the ids known
    then, and `covers` whether that service was among the requested ones.
   */
  function UpCompose(w: World, after: set<string>, found: Option<string>, used: set<string>, composeOk: bool,
                     covers: bool, i: UpInput): Outcome
  {
    if !i.flags.skip && i.spec.initialize && !i.out.initializeOk then Failed(w)
    else
      var w1 := w.(services := after, used := used);
      if !composeOk then Failed(w1)
      else if !covers then Outcome(w1, true, map[])
      else if !i.out.refindOk || found.None? then Failed(w1)
      else PostUp(Persist(w1, i), found.value, found.value, i)
  }

  // ----- The commands themselves -----

  class Devc {
    var container: Option<Container>
    var services: set<string>
    var used: set<string>
    var disk: State
    var log: seq<Event>

    function Value(): World
      reads this
    {
      World(container, services, used, disk, log)
    }

    constructor ()
      ensures Value() == World(None, {}, {""}, NO_STATE, [])
    {
      container, services, used, disk, log := None, {}, {""}, NO_STATE, [];
    }

    /** Markers are reset for another container, and progress is saved after each hook. */
    method RunLifecycleHooks(key: string, cid: string, i: UpInput) returns (ok: bool)
      modifies this
      ensures (Value(), ok) == LifecycleHooks(old(Value()), key, cid, i)
    {
      if i.flags.skip {
        return true;
      }
      var st := disk;
      if st.containerID != key || i.flags.rerun {
        st := st.(hooks := map[]);
        if st.containerID != key {
          st := st.(envProbe := None);
        }
      }
      st := st.(containerID := key);
      if i.flags.rerun {
        log := log + [Rerun(cid)];
      }
      ghost var p0 := BeginHooks(old(Value()), key, cid, i);
      assert Progress(st, Value(), true) == p0;
      for n := 0 to |CREATE_HOOKS|
        invariant Progress(st, Value(), true) == HooksUpTo(p0, n, cid, i)
      {
        var hook := CREATE_HOOKS[n];
        if hook in i.spec.createHooks && !Marked(st, hook) {
          log := log + [Ran(hook, cid, i.out.hookOk(hook))];
          if !i.out.hookOk(hook) {
            FailureStays(p0, n + 1, cid, i);
            return false;
          }
          st := st.(hooks := st.hooks[hook := i.out.stamp(hook)]);
          disk := st;
        }
      }
      if i.spec.postStart && !i.out.postStartOk {
        return false;
      }
      disk := st;
      return true;
    }

    method LoadProbe(key: string, cid: string, i: UpInput) returns (probe: Option<Env>)
      modifies this
      ensures (Value(), probe) == LoadOrRunProbe(old(Value()), key, cid, i)
    {
      if ProbeIsFresh(disk, key, i.version) {
        return disk.envProbe;
      }
      probe := i.out.probe;
      log := log + [Probed(cid, i.version, probe)];
      disk := disk.(envProbe := OnDisk(probe), envProbeVersion := i.version, containerID := key);
    }

    method RunPostUp(key: string, cid: string, i: UpInput) returns (ok: bool, env: Env)
      modifies this
      ensures Outcome(Value(), ok, env) == PostUp(old(Value()), key, cid, i)
    {
      env := map[];
      ok := RunLifecycleHooks(key, cid, i);
      if !ok {
        return;
      }
      var probe := LoadProbe(key, cid, i);
      env := SessionEnv(probe, i.spec.remoteEnv);
      ok := i.out.provisionOk && (i.flags.skip || !i.spec.postAttach || i.out.postAttachOk);
    }

    method Create(i: UpInput) returns (ok: bool)
      modifies this
      ensures (Value(), ok) == CreateFresh(old(Value()), i)
    {
      if i.spec.built && !i.out.buildOk {
        return false;
      }
      if !i.out.createOk {
        return false;
      }
      container := Some(Container(i.out.freshId, true, i.spec.hash));
      used := used + {i.out.freshId};
      return true;
    }

    method StartExisting(i: UpInput) returns (ok: bool)
      requires container.Some?
      modifies this
      ensures (Value(), ok) == StartContainer(old(Value()), i)
    {
      if !i.out.startOk {
        return false;
      }
      container := Some(container.value.(running := true));
      return true;
    }

    method RunBringUp(i: UpInput) returns (ok: bool)
      modifies this
      ensures (Value(), ok) == BringUp(old(Value()), i)
    {
      var existing := container;
      var recreate := i.flags.recreate || i.flags.rebuild;
      var action := Decide(existing, i.spec.hash, recreate);
      if recreate && existing.Some? {
        action := ActionRecreate;
      }
      match action {
        case ActionAttach =>
          ok := true;
        case ActionStart =>
          ok := StartExisting(i);
        case ActionDrift =>
          ok := true;
          if !existing.value.running {
            ok := StartExisting(i);
          }
        case ActionRecreate =>
          if !i.out.removeOk {
            return false;
          }
          container := None;
          ok := Create(i);
        case ActionCreate =>
          ok := Create(i);
      }
    }

    method RunUpSingle(i: UpInput) returns (ok: bool, env: Env)
      modifies this
      ensures Outcome(Value(), ok, env) == UpSingle(old(Value()), i)
    {
      env := map[];
      if !i.out.findOk {
        return false, env;
      }
      ok := RunBringUp(i);
      if !ok {
        return;
      }
      disk := disk.(configHash := i.spec.hash);
      var key := i.name;
      if i.out.refindOk {
        key := container.value.id;
      }
      ok, env := RunPostUp(key, container.value.id, i);
    }

    method RunUpCompose(after: set<string>, found: Option<string>, usedThen: set<string>, composeOk: bool,
                        covers: bool, i: UpInput)
      returns (ok: bool, env: Env)
      modifies this
      ensures Outcome(Value(), ok, env) == UpCompose(old(Value()), after, found, usedThen, composeOk, covers, i)
    {
      env := map[];
      if !i.flags.skip && i.spec.initialize && !i.out.initializeOk {
        return false, env;
      }
      services, used := after, usedThen;
      if !composeOk {
        return false, env;
      }
      if !covers {
        return true, env;
      }
      if !i.out.refindOk || found.None? {
        return false, env;
      }
      disk := disk.(configHash := i.spec.hash);
      ok, env := RunPostUp(found.value, found.value, i);
    }

    method RunUp(i: UpInput) returns (ok: bool, env: Env)
      modifies this
      ensures Outcome(Value(), ok, env) == Up(old(Value()), i)
    {
      if !i.flags.skip && i.spec.initialize && !i.out.initializeOk {
        return false, map[];
      }
      ok, env := RunUpSingle(i);
    }
  }

  /** Once a hook has failed, the later ones do not run. */
  lemma FailureStays(p: Progress, n: nat, cid: string, i: UpInput)
    requires n <= |CREATE_HOOKS| && !HooksUpTo(p, n, cid, i).ok
    ensures HooksUpTo(p, |CREATE_HOOKS|, cid, i) == HooksUpTo(p, n, cid, i)
    decreases |CREATE_HOOKS| - n
  {
    if n < |CREATE_HOOKS| {
      assert HooksUpTo(p, n + 1, cid, i) == HooksUpTo(p, n, cid, i);
      FailureStays(p, n + 1, cid, i);
    }
  }
}
