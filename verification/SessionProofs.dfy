/** What every interleaving of a session keeps. */
module SessionProofs {
  import opened Wrappers
  import opened Bytes
  import opened Wire
  import opened SessionRequests
  import opened Session

  // ----- The claimed slot -----

  function Claimed(c: CommandPc): Option<nat> {
    if c == NoCommand then None else Some(c.i)
  }

  predicate IsSpawn(inbox: seq<Incoming>, j: nat)
    requires j < |inbox|
  {
    inbox[j].action.Spawn?
  }

  /** The command goroutine never lets go of the slot it serves. */
  lemma CommandKeepsSlot(inbox: seq<Incoming>, s: Sys, a: CommandStep)
    requires CommandEnabled(inbox, s, a)
    ensures Claimed(CommandDo(inbox, s, a).command) == Claimed(s.command) && Claimed(s.command).Some?
  {
  }

  /** What a step of the command goroutine leaves alone. */
  lemma CommandFrame(inbox: seq<Incoming>, s: Sys, a: CommandStep)
    requires CommandEnabled(inbox, s, a)
    ensures
      var s' := CommandDo(inbox, s, a);
      && s' == s.(command := s'.command, applier := s'.applier, stopClosed := s'.stopClosed,
                  ptmxOpen := s'.ptmxOpen, replies := s'.replies, events := s'.events,
                  channel := s'.channel)
      && Claimed(s'.command) == Claimed(s.command) && Claimed(s.command).Some?
      && (s'.applier == s.applier || a == Launch)
  {
    CommandKeepsSlot(inbox, s, a);
  }

  /** What receiving a request does outside the parameters: it moves the loop or claims the slot. */
  lemma HandleFrame(inbox: seq<Incoming>, s: Sys, granted: bool)
    requires LoopEnabled(inbox, s, Handle(granted))
    ensures
      var s' := LoopDo(inbox, s, Handle(granted));
      && Stored(s') == s.next + 1
      && s' == s.(loop := s'.loop, next := s'.next, command := s'.command, started := s'.started,
                  params := s'.params)
      && !s'.loop.Send?
      && (if inbox[s.next].action.Spawn? && !s.started
          then s'.command == Begin(s.next, inbox[s.next].action.command)
          else s'.command == s.command && s'.next == s.next)
  {
  }

  /** What the other steps of the loop leave alone. */
  lemma LoopFrame(inbox: seq<Incoming>, s: Sys, a: LoopStep)
    requires LoopEnabled(inbox, s, a) && !a.Handle?
    ensures
      var s' := LoopDo(inbox, s, a);
      && Stored(s') == Stored(s)
      && s' == s.(loop := s'.loop, next := s'.next, slot := s'.slot, published := s'.published,
                  dropped := s'.dropped, replies := s'.replies, channel := s'.channel)
      && (a.Respond? || (s'.replies == s.replies && s'.next == s.next))
  {
  }

  /** What a step of the applier leaves alone. */
  lemma ApplierFrame(s: Sys, a: ApplierStep)
    requires ApplierEnabled(s, a)
    ensures
      var s' := ApplierDo(s, a);
      s' == s.(applier := s'.applier, slot := s'.slot, applied := s'.applied)
  {
  }

  /** The slot is claimed exactly once a spawning request was handled, and by the first one. */
  ghost predicate SlotInv(inbox: seq<Incoming>, s: Sys) {
    && s.next <= |inbox|
    && (s.loop in {Waiting, Ended} || s.next < |inbox|)
    && (s.started <==> Claimed(s.command).Some?)
    && (Claimed(s.command).Some? ==>
          Claimed(s.command).value < s.next && IsSpawn(inbox, Claimed(s.command).value))
    && (forall j :: 0 <= j < Stored(s) && IsSpawn(inbox, j) ==>
          Claimed(s.command).Some? && Claimed(s.command).value <= j)
    && (s.loop.Drain? || s.loop.Send? ==> !IsSpawn(inbox, s.next))
  }

  lemma SlotKeptHandle(inbox: seq<Incoming>, s: Sys, granted: bool)
    requires SlotInv(inbox, s) && LoopEnabled(inbox, s, Handle(granted))
    ensures SlotInv(inbox, LoopDo(inbox, s, Handle(granted)))
  {
    var s' := LoopDo(inbox, s, Handle(granted));
    forall j | 0 <= j < Stored(s') && IsSpawn(inbox, j)
      ensures Claimed(s'.command).Some? && Claimed(s'.command).value <= j
    {
      assert Stored(s) == s.next && (j < s.next || j == s.next);
    }
  }

  lemma SlotKept(inbox: seq<Incoming>, s: Sys, a: Step)
    requires SlotInv(inbox, s) && Enabled(inbox, s, a)
    ensures SlotInv(inbox, Do(inbox, s, a))
  {
    match a
    case OfLoop(l) =>
      if l.Handle? {
        SlotKeptHandle(inbox, s, l.granted);
      } else {
        var s' := LoopDo(inbox, s, l);
        assert s'.command == s.command && s'.started == s.started && Stored(s') == Stored(s);
      }
    case OfCommand(c) => CommandFrame(inbox, s, c);
    case OfApplier(p) => ApplierFrame(s, p);
  }

  // ----- Replies -----

  /** How many replies request `j` got. */
  function Replies(rs: seq<Reply>, j: nat): nat {
    if rs == [] then 0
    else Replies(rs[..|rs| - 1], j) + if rs[|rs| - 1].index == j then 1 else 0
  }

  lemma OneMoreReply(rs: seq<Reply>, r: Reply, j: nat)
    ensures Replies(rs + [r], j) == Replies(rs, j) + if r.index == j then 1 else 0
  {
    assert (rs + [r])[..|rs|] == rs;
  }

  /** The handler of request `j` has got past its reply. */
  predicate Answered(s: Sys, j: nat) {
    if Claimed(s.command) == Some(j)
    then s.command.Launching? || s.command.Running? || s.command.Stopping? || s.command.Exiting?
         || s.command.Closing? || s.command.Finished?
    else j < s.next
  }

  function Expected(inbox: seq<Incoming>, s: Sys, j: nat): nat
    requires j < |inbox|
  {
    if inbox[j].wantReply && Answered(s, j) then 1 else 0
  }

  ghost predicate ReplyInv(inbox: seq<Incoming>, s: Sys) {
    && (forall j :: 0 <= j < |inbox| ==> Replies(s.replies, j) == Expected(inbox, s, j))
    && (forall r :: r in s.replies ==> r.index < |inbox|)
  }

  lemma ReplyAdded(inbox: seq<Incoming>, s: Sys, i: nat, ok: bool)
    requires i < |inbox|
    ensures forall j: nat :: Replies(AddReply(inbox, s, i, ok).replies, j) ==
              Replies(s.replies, j) + if j == i && inbox[i].wantReply then 1 else 0
  {
    forall j: nat { OneMoreReply(s.replies, Reply(i, ok), j); }
  }

  /** A step that adds no reply and moves no handler past its reply. */
  lemma NoReplyStep(inbox: seq<Incoming>, s: Sys, s': Sys)
    requires ReplyInv(inbox, s) && s'.replies == s.replies
    requires forall j :: 0 <= j < |inbox| ==> (Answered(s', j) <==> Answered(s, j))
    ensures ReplyInv(inbox, s')
  {
  }

  /** A step that moves the handler of request `i` past its reply. */
  lemma ReplyStep(inbox: seq<Incoming>, s: Sys, s': Sys, i: nat, ok: bool)
    requires ReplyInv(inbox, s) && i < |inbox| && s'.replies == AddReply(inbox, s, i, ok).replies
    requires !Answered(s, i) && Answered(s', i)
    requires forall j :: 0 <= j < |inbox| && j != i ==> (Answered(s', j) <==> Answered(s, j))
    ensures ReplyInv(inbox, s')
  {
    ReplyAdded(inbox, s, i, ok);
  }

  lemma ReplyKeptLoop(inbox: seq<Incoming>, s: Sys, a: LoopStep)
    requires SlotInv(inbox, s) && ReplyInv(inbox, s) && LoopEnabled(inbox, s, a)
    ensures ReplyInv(inbox, LoopDo(inbox, s, a))
  {
    var s' := LoopDo(inbox, s, a);
    if a.Respond? {
      ReplyStep(inbox, s, s', s.next, s.loop.ok);
    } else if a.Handle? {
      HandleFrame(inbox, s, a.granted);
      NoReplyStep(inbox, s, s');
    } else {
      LoopFrame(inbox, s, a);
      NoReplyStep(inbox, s, s');
    }
  }

  lemma ReplyKeptCommand(inbox: seq<Incoming>, s: Sys, a: CommandStep)
    requires SlotInv(inbox, s) && ReplyInv(inbox, s) && CommandEnabled(inbox, s, a)
    ensures ReplyInv(inbox, CommandDo(inbox, s, a))
  {
    var s' := CommandDo(inbox, s, a);
    CommandFrame(inbox, s, a);
    if a.Reject? || a.Accept? {
      ReplyStep(inbox, s, s', s.command.i, a.Accept?);
    } else {
      NoReplyStep(inbox, s, s');
    }
  }

  lemma ReplyKept(inbox: seq<Incoming>, s: Sys, a: Step)
    requires SlotInv(inbox, s) && ReplyInv(inbox, s) && Enabled(inbox, s, a)
    ensures ReplyInv(inbox, Do(inbox, s, a))
  {
    match a
    case OfLoop(l) => ReplyKeptLoop(inbox, s, l);
    case OfCommand(c) => ReplyKeptCommand(inbox, s, c);
    case OfApplier(p) =>
      ApplierFrame(s, p);
      NoReplyStep(inbox, s, ApplierDo(s, p));
  }

  /** The answer that the loop gives to a request it handles itself; agent requests may go either way. */
  predicate LoopAnswers(action: Action, ok: bool) {
    match action
    case StorePty(_, _) => ok
    case StoreEnv(_, _) => ok
    case IgnoreEnv => ok
    case Resize(_) => !ok
    case ForwardAgent => true
    case Spawn(_) => !ok
    case Acknowledge => ok
    case Refuse => !ok
  }

  predicate Launched(events: seq<Event>) {
    events != [] && events[0].Started?
  }

  /** Every reply has the value that its request calls for. */
  ghost predicate AnswerInv(inbox: seq<Incoming>, s: Sys) {
    && (s.loop.Answer? && s.next < |inbox| ==> LoopAnswers(inbox[s.next].action, s.loop.ok))
    && ((s.loop.Drain? || s.loop.Send?) && s.next < |inbox| ==>
          LoopAnswers(inbox[s.next].action, s.loop.answer))
    && (forall r :: r in s.replies && r.index < |inbox| && Claimed(s.command) != Some(r.index) ==>
          LoopAnswers(inbox[r.index].action, r.ok))
    && (forall r :: r in s.replies && Claimed(s.command) == Some(r.index) && !r.ok ==>
          !Launched(s.events) && (s.command.Exiting? || s.command.Closing? || s.command.Finished?))
    && (s.command.Rejecting? ==> s.events == [])
    && (forall r :: r in s.replies ==> r.index < s.next)
  }

  // ----- Command events -----

  /** A command that started ended with `code`; one that did not start failed with 1 or 127. */
  ghost predicate Outcome(e: seq<Event>, code: nat) {
    || (e == [] && code in {1, 127})
    || (|e| == 2 && e[0].Started? && e[1] == Exited(code))
  }

  /** Exactly what the command goroutine has done on the channel in each of its states. */
  ghost predicate EventInv(s: Sys) {
    var c, e := s.command, s.events;
    match c
    case NoCommand => e == []
    case Begin(_, _) => e == []
    case Ready(_, _, _, _) => e == []
    case Rejecting(_, code) => e == [] && code in {1, 127}
    case Accepting(_, command, p, at) => e == if command == Sftp then [Started(command, p, at)] else []
    case Launching(_, _, _, _) => e == []
    case Running(_, _) => |e| == 1 && e[0].Started?
    case Stopping(_, code) => |e| == 2 && Outcome(e, code)
    case Exiting(_, code) => Outcome(e, code)
    case Closing(_, code) =>
      |e| >= 1 && e[|e| - 1] == ExitStatus(code) && Outcome(e[..|e| - 1], code)
    case Finished(_, code) =>
      |e| >= 2 && e[|e| - 1] == Close && e[|e| - 2] == ExitStatus(code) && Outcome(e[..|e| - 2], code)
  }

  /** Up to the acceptance nothing is sent; only a subsystem's process is started before it. */
  lemma EventKeptEarly(inbox: seq<Incoming>, s: Sys, a: CommandStep)
    requires EventInv(s) && CommandEnabled(inbox, s, a)
    requires s.command.Begin? || s.command.Ready? || s.command.Rejecting? || s.command.Accepting?
    ensures EventInv(CommandDo(inbox, s, a))
  {
    if a.SftpStarts? {
      assert CommandDo(inbox, s, a).events == [Started(s.command.command, s.command.params, s.command.at)];
    } else {
      assert CommandDo(inbox, s, a).events == s.events;
    }
  }

  lemma EventKeptLaunching(inbox: seq<Incoming>, s: Sys, a: CommandStep)
    requires EventInv(s) && CommandEnabled(inbox, s, a) && s.command.Launching?
    ensures EventInv(CommandDo(inbox, s, a))
  {
    if a.Launch? {
      assert CommandDo(inbox, s, a).events == [Started(s.command.command, s.command.params, s.command.at)];
    }
  }

  lemma EventKeptRunning(inbox: seq<Incoming>, s: Sys, status: nat)
    requires EventInv(s) && CommandEnabled(inbox, s, ProcessExits(status))
    ensures EventInv(CommandDo(inbox, s, ProcessExits(status)))
  {
    var s' := CommandDo(inbox, s, ProcessExits(status));
    assert |s'.events| == 2 && s'.events[0] == s.events[0] && s'.events[1] == Exited(status);
  }

  /** What the command's end adds to its events. */
  lemma OutcomeKept(e: seq<Event>, code: nat, tail: seq<Event>)
    requires Outcome(e, code)
    ensures Outcome((e + tail)[..|e + tail| - |tail|], code)
  {
    assert (e + tail)[..|e + tail| - |tail|] == e;
  }

  lemma ExitingToClosing(s: Sys, s': Sys)
    requires EventInv(s) && s.command.Exiting? && s'.command == Closing(s.command.i, s.command.code)
    requires s'.events == s.events + [ExitStatus(s.command.code)]
    ensures EventInv(s')
  {
    OutcomeKept(s.events, s.command.code, [ExitStatus(s.command.code)]);
  }

  lemma SendExitSteps(inbox: seq<Incoming>, s: Sys)
    requires CommandEnabled(inbox, s, SendExit)
    ensures
      var s' := CommandDo(inbox, s, SendExit);
      && s.command.Exiting? && s'.command == Closing(s.command.i, s.command.code)
      && s'.events == s.events + [ExitStatus(s.command.code)]
  {
  }

  lemma EventKeptSendExit(inbox: seq<Incoming>, s: Sys)
    requires EventInv(s) && CommandEnabled(inbox, s, SendExit)
    ensures EventInv(CommandDo(inbox, s, SendExit))
  {
    SendExitSteps(inbox, s);
    ExitingToClosing(s, CommandDo(inbox, s, SendExit));
  }

  lemma EventKeptClose(inbox: seq<Incoming>, s: Sys)
    requires EventInv(s) && CommandEnabled(inbox, s, CloseChannel)
    ensures EventInv(CommandDo(inbox, s, CloseChannel))
  {
    var e, e' := s.events, CommandDo(inbox, s, CloseChannel).events;
    assert e' == e + [Close];
    assert e'[..|e'| - 2] == e[..|e| - 1];
  }

  lemma EventKeptCommand(inbox: seq<Incoming>, s: Sys, a: CommandStep)
    requires EventInv(s) && CommandEnabled(inbox, s, a)
    ensures EventInv(CommandDo(inbox, s, a))
  {
    if a.SendExit? {
      EventKeptSendExit(inbox, s);
    } else if a.CloseChannel? {
      EventKeptClose(inbox, s);
    } else if s.command.Launching? {
      EventKeptLaunching(inbox, s, a);
    } else if a.ProcessExits? {
      EventKeptRunning(inbox, s, a.status);
    } else if !a.Join? {
      EventKeptEarly(inbox, s, a);
    }
  }

  lemma EventKept(inbox: seq<Incoming>, s: Sys, a: Step)
    requires SlotInv(inbox, s) && EventInv(s) && Enabled(inbox, s, a)
    ensures EventInv(Do(inbox, s, a))
  {
    match a
    case OfLoop(l) =>
      if l.Handle? {
        HandleFrame(inbox, s, l.granted);
      } else {
        LoopFrame(inbox, s, l);
      }
    case OfCommand(c) => EventKeptCommand(inbox, s, c);
    case OfApplier(p) => ApplierFrame(s, p);
  }

  lemma AnswerKeptHandle(inbox: seq<Incoming>, s: Sys, granted: bool)
    requires SlotInv(inbox, s) && AnswerInv(inbox, s) && LoopEnabled(inbox, s, Handle(granted))
    ensures AnswerInv(inbox, LoopDo(inbox, s, Handle(granted)))
  {
    HandleFrame(inbox, s, granted);
  }

  lemma AnswerKeptRespond(inbox: seq<Incoming>, s: Sys)
    requires SlotInv(inbox, s) && AnswerInv(inbox, s) && LoopEnabled(inbox, s, Respond)
    ensures AnswerInv(inbox, LoopDo(inbox, s, Respond))
  {
    var s' := LoopDo(inbox, s, Respond);
    LoopFrame(inbox, s, Respond);
    forall r | r in s'.replies
      ensures r in s.replies || r == Reply(s.next, s.loop.ok)
    {
    }
  }

  lemma AnswerKeptLoop(inbox: seq<Incoming>, s: Sys, a: LoopStep)
    requires SlotInv(inbox, s) && AnswerInv(inbox, s) && LoopEnabled(inbox, s, a)
    ensures AnswerInv(inbox, LoopDo(inbox, s, a))
  {
    if a.Respond? {
      AnswerKeptRespond(inbox, s);
    } else if a.Handle? {
      AnswerKeptHandle(inbox, s, a.granted);
    } else {
      LoopFrame(inbox, s, a);
    }
  }

  lemma AnswerKeptCommand(inbox: seq<Incoming>, s: Sys, a: CommandStep)
    requires SlotInv(inbox, s) && EventInv(s) && AnswerInv(inbox, s) && CommandEnabled(inbox, s, a)
    ensures AnswerInv(inbox, CommandDo(inbox, s, a))
  {
    var s' := CommandDo(inbox, s, a);
    CommandFrame(inbox, s, a);
    if a.Reject? || a.Accept? {
      assert s'.replies == s.replies || s'.replies == s.replies + [Reply(s.command.i, a.Accept?)];
    } else {
      assert s'.replies == s.replies;
    }
  }

  lemma AnswerKept(inbox: seq<Incoming>, s: Sys, a: Step)
    requires SlotInv(inbox, s) && EventInv(s) && AnswerInv(inbox, s) && Enabled(inbox, s, a)
    ensures AnswerInv(inbox, Do(inbox, s, a))
  {
    match a
    case OfLoop(l) => AnswerKeptLoop(inbox, s, l);
    case OfCommand(c) => AnswerKeptCommand(inbox, s, c);
    case OfApplier(p) => ApplierFrame(s, p);
  }

  // ----- Start parameters -----

  /** Captured parameters are the state after `at` requests, the command's own included. */
  ghost predicate Captured(inbox: seq<Incoming>, s: Sys, p: Params, at: nat) {
    && Claimed(s.command).Some? && Claimed(s.command).value < at <= |inbox|
    && p == StateAfter(inbox, at)
  }

  ghost predicate ParamsInv(inbox: seq<Incoming>, s: Sys) {
    && (Stored(s) <= |inbox| ==> s.params == StateAfter(inbox, Stored(s)))
    && (s.command.Ready? ==> Captured(inbox, s, s.command.params, s.command.at))
    && (s.command.Accepting? ==> Captured(inbox, s, s.command.params, s.command.at))
    && (s.command.Launching? ==> Captured(inbox, s, s.command.params, s.command.at))
    && (forall e :: e in s.events && e.Started? ==> Captured(inbox, s, e.params, e.at))
  }

  /** Handling a request stores it. */
  lemma HandleStores(inbox: seq<Incoming>, s: Sys, granted: bool)
    requires LoopEnabled(inbox, s, Handle(granted)) && s.params == StateAfter(inbox, s.next)
    ensures LoopDo(inbox, s, Handle(granted)).params == StateAfter(inbox, s.next + 1)
  {
  }

  lemma ParamsKeptHandle(inbox: seq<Incoming>, s: Sys, granted: bool)
    requires SlotInv(inbox, s) && ParamsInv(inbox, s) && LoopEnabled(inbox, s, Handle(granted))
    ensures ParamsInv(inbox, LoopDo(inbox, s, Handle(granted)))
  {
    HandleFrame(inbox, s, granted);
    HandleStores(inbox, s, granted);
  }

  lemma ParamsKeptLoop(inbox: seq<Incoming>, s: Sys, a: LoopStep)
    requires SlotInv(inbox, s) && ParamsInv(inbox, s) && LoopEnabled(inbox, s, a)
    ensures ParamsInv(inbox, LoopDo(inbox, s, a))
  {
    if a.Handle? {
      ParamsKeptHandle(inbox, s, a.granted);
    } else {
      LoopFrame(inbox, s, a);
    }
  }

  lemma ParamsKeptCommand(inbox: seq<Incoming>, s: Sys, a: CommandStep)
    requires SlotInv(inbox, s) && ParamsInv(inbox, s) && CommandEnabled(inbox, s, a)
    ensures ParamsInv(inbox, CommandDo(inbox, s, a))
  {
    var s' := CommandDo(inbox, s, a);
    CommandFrame(inbox, s, a);
    if a.SftpStarts? || a.Launch? {
      assert s'.events == s.events + [Started(s.command.command, s.command.params, s.command.at)];
    }
    forall e | e in s'.events && e.Started?
      ensures Captured(inbox, s', e.params, e.at)
    {
      assert e in s.events || e == Started(s.command.command, s.command.params, s.command.at);
    }
  }

  lemma ParamsKept(inbox: seq<Incoming>, s: Sys, a: Step)
    requires SlotInv(inbox, s) && ParamsInv(inbox, s) && Enabled(inbox, s, a)
    ensures ParamsInv(inbox, Do(inbox, s, a))
  {
    match a
    case OfLoop(l) => ParamsKeptLoop(inbox, s, l);
    case OfCommand(c) => ParamsKeptCommand(inbox, s, c);
    case OfApplier(p) => ApplierFrame(s, p);
  }

  // ----- The environment on the wire -----

  /** Request `k` is the last of the first `n` to store `v.name`, and stores `v.value`. */
  predicate LastStore(inbox: seq<Incoming>, n: nat, k: nat, v: EnvVar)
    requires n <= |inbox|
  {
    && k < n && inbox[k].action == StoreEnv(v.name, v.value)
    && forall j :: k < j < n ==> !(inbox[j].action.StoreEnv? && inbox[j].action.name == v.name)
  }

  lemma {:induction false} StateEnvIff(inbox: seq<Incoming>, n: nat, v: EnvVar)
    requires n <= |inbox|
    ensures v.name in StateAfter(inbox, n).env && StateAfter(inbox, n).env[v.name] == v.value <==>
            exists k :: LastStore(inbox, n, k, v)
  {
    if n > 0 {
      var m := n - 1;
      var a := inbox[m].action;
      if a.StoreEnv? && a.name == v.name {
        StoreHere(inbox, m, v);
      } else {
        StateEnvIff(inbox, m, v);
        StoreElsewhere(inbox, m, v);
        assert v.name in StateAfter(inbox, n).env <==> v.name in StateAfter(inbox, m).env;
      }
    }
  }

  /** The last request decides alone. */
  lemma StoreHere(inbox: seq<Incoming>, n: nat, v: EnvVar)
    requires n < |inbox| && inbox[n].action.StoreEnv? && inbox[n].action.name == v.name
    ensures var m := n + 1; (exists k :: LastStore(inbox, m, k, v)) <==> inbox[n].action.value == v.value
  {
    var m := n + 1;
    if inbox[n].action.value == v.value {
      assert LastStore(inbox, m, n, v);
    }
    if k: nat :| LastStore(inbox, m, k, v) {
      assert k == n;
    }
  }

  /** A request for something else does not matter. */
  lemma StoreElsewhere(inbox: seq<Incoming>, n: nat, v: EnvVar)
    requires n < |inbox| && !(inbox[n].action.StoreEnv? && inbox[n].action.name == v.name)
    ensures var m := n + 1; (exists k :: LastStore(inbox, m, k, v)) <==> exists k :: LastStore(inbox, n, k, v)
  {
    var m := n + 1;
    if k: nat :| LastStore(inbox, m, k, v) {
      assert LastStore(inbox, n, k, v);
    }
    if k: nat :| LastStore(inbox, n, k, v) {
      assert LastStore(inbox, m, k, v);
    }
  }

  // ----- The channel -----

  /** What the command goroutine has done to the channel. */
  function Own(channel: seq<ChannelAction>): seq<ChannelAction> {
    if channel == [] then []
    else
      var a := channel[|channel| - 1];
      Own(channel[..|channel| - 1]) + if a == LoopCloses then [] else [a]
  }

  lemma OneMoreAction(channel: seq<ChannelAction>, a: ChannelAction)
    ensures Own(channel + [a]) == Own(channel) + if a == LoopCloses then [] else [a]
  {
    assert (channel + [a])[..|channel|] == channel;
  }

  function Said(c: CommandPc): seq<ChannelAction> {
    match c
    case Closing(_, code) => [Status(code)]
    case Finished(_, code) => [Status(code), CommandCloses]
    case _ => []
  }

  /** The command's own actions are those its state calls for, and the loop closes once, at its end. */
  ghost predicate ChannelInv(s: Sys) {
    && Own(s.channel) == Said(s.command)
    && |s.channel| == |Own(s.channel)| + (if s.loop == Ended then 1 else 0)
    && (s.loop == Ended <==> LoopCloses in s.channel)
  }

  lemma ChannelSame(s: Sys, s': Sys)
    requires ChannelInv(s) && s'.channel == s.channel && Said(s'.command) == Said(s.command)
    requires s'.loop == Ended <==> s.loop == Ended
    ensures ChannelInv(s')
  {
  }

  lemma ChannelKept(inbox: seq<Incoming>, s: Sys, a: Step)
    requires ChannelInv(s) && SlotInv(inbox, s) && Enabled(inbox, s, a)
    ensures ChannelInv(Do(inbox, s, a))
  {
    match a
    case OfLoop(l) => ChannelKeptLoop(inbox, s, l);
    case OfCommand(c) => ChannelKeptCommand(inbox, s, c);
    case OfApplier(p) =>
      ApplierFrame(s, p);
      ChannelSame(s, ApplierDo(s, p));
  }

  lemma ChannelKeptEnd(inbox: seq<Incoming>, s: Sys)
    requires ChannelInv(s) && LoopEnabled(inbox, s, EndOfRequests)
    ensures ChannelInv(LoopDo(inbox, s, EndOfRequests))
  {
    OneMoreAction(s.channel, LoopCloses);
    assert (s.channel + [LoopCloses])[|s.channel|] == LoopCloses;
  }

  /** The loop leaves the channel and what the command said alone until its end. */
  lemma LoopChannelFrame(inbox: seq<Incoming>, s: Sys, a: LoopStep)
    requires SlotInv(inbox, s) && LoopEnabled(inbox, s, a) && !a.EndOfRequests?
    ensures
      var s' := LoopDo(inbox, s, a);
      s'.channel == s.channel && Said(s'.command) == Said(s.command) && s'.loop != Ended && s.loop != Ended
  {
    if a.Handle? {
      HandleFrame(inbox, s, a.granted);
    }
  }

  lemma ChannelKeptLoop(inbox: seq<Incoming>, s: Sys, a: LoopStep)
    requires ChannelInv(s) && SlotInv(inbox, s) && LoopEnabled(inbox, s, a)
    ensures ChannelInv(LoopDo(inbox, s, a))
  {
    if a.EndOfRequests? {
      ChannelKeptEnd(inbox, s);
    } else {
      LoopChannelFrame(inbox, s, a);
      ChannelSame(s, LoopDo(inbox, s, a));
    }
  }

  /** The command adds an action of its own. */
  lemma ChannelMore(s: Sys, s': Sys, a: ChannelAction)
    requires ChannelInv(s) && a != LoopCloses && s'.loop == s.loop
    requires s'.channel == s.channel + [a] && Said(s'.command) == Said(s.command) + [a]
    ensures ChannelInv(s')
  {
    OneMoreAction(s.channel, a);
    if s.loop == Ended {
      var i :| 0 <= i < |s.channel| && s.channel[i] == LoopCloses;
      assert s'.channel[i] == LoopCloses;
    }
  }

  lemma ChannelKeptExit(inbox: seq<Incoming>, s: Sys, a: CommandStep)
    requires ChannelInv(s) && CommandEnabled(inbox, s, a) && (a.SendExit? || a.CloseChannel?)
    ensures ChannelInv(CommandDo(inbox, s, a))
  {
    ChannelMore(s, CommandDo(inbox, s, a), if a.SendExit? then Status(s.command.code) else CommandCloses);
  }

  lemma ChannelKeptCommand(inbox: seq<Incoming>, s: Sys, a: CommandStep)
    requires ChannelInv(s) && CommandEnabled(inbox, s, a)
    ensures ChannelInv(CommandDo(inbox, s, a))
  {
    if a.SendExit? || a.CloseChannel? {
      ChannelKeptExit(inbox, s, a);
    } else {
      CommandFrame(inbox, s, a);
      SaidSame(inbox, s, a);
      ChannelSame(s, CommandDo(inbox, s, a));
    }
  }

  lemma SaidSame(inbox: seq<Incoming>, s: Sys, a: CommandStep)
    requires CommandEnabled(inbox, s, a) && !a.SendExit? && !a.CloseChannel?
    ensures
      var s' := CommandDo(inbox, s, a);
      && s'.channel == s.channel && Said(s.command) == [] == Said(s'.command)
      && !(s.command.Closing? || s.command.Finished?) && !(s'.command.Closing? || s'.command.Finished?)
  {
  }

  /** The exit status was sent while nobody had closed the channel. */
  predicate Delivered(channel: seq<ChannelAction>) {
    exists i :: 0 <= i < |channel| && channel[i].Status?
                && LoopCloses !in channel[..i] && CommandCloses !in channel[..i]
  }

  /** Step `k` sends the exit status, and the requests have not ended before. */
  predicate SendsInTime(steps: seq<Step>, k: nat)
    requires k < |steps|
  {
    steps[k] == OfCommand(SendExit) && OfLoop(EndOfRequests) !in steps[..k]
  }

  predicate SentInTime(steps: seq<Step>) {
    exists k: nat :: k < |steps| && SendsInTime(steps, k)
  }

  /** The history of the steps behind a state. */
  ghost predicate StepsInv(steps: seq<Step>, s: Sys) {
    && (OfLoop(EndOfRequests) in steps <==> s.loop == Ended)
    && (OfCommand(SendExit) in steps <==> s.command.Closing? || s.command.Finished?)
    && (Delivered(s.channel) <==> SentInTime(steps))
  }

  // ----- The size mailbox -----

  ghost predicate Ascending(ns: seq<nat>) {
    forall i, j :: 0 <= i < j < |ns| ==> ns[i] < ns[j]
  }

  /** Everything ever taken from the slot, in order. */
  function Taken(s: Sys): seq<nat> {
    s.applied + if s.applier.Holding? then [s.applier.number] else []
  }

  /**
    Sizes are taken in the order they were published, each at most once; the slot only ever
    holds the newest size; the send finds the slot empty; and a newest size that is not in the
    slot has been taken, unless the loop is between discarding and sending.
   */
  ghost predicate MailboxInv(s: Sys) {
    && s.dropped == 0
    && Ascending(Taken(s))
    && (forall n :: n in Taken(s) ==> n < |s.published|)
    && (s.slot.Some? ==> s.slot.value == |s.published| - 1 && s.slot.value !in Taken(s))
    && (s.loop.Send? ==> s.slot == None)
    && (s.slot == None && !s.loop.Send? && s.published != [] ==>
          Taken(s) != [] && Taken(s)[|Taken(s)| - 1] == |s.published| - 1)
  }

  lemma MailboxKeptPublish(inbox: seq<Incoming>, s: Sys)
    requires MailboxInv(s) && LoopEnabled(inbox, s, Publish)
    ensures MailboxInv(LoopDo(inbox, s, Publish))
  {
    var s' := LoopDo(inbox, s, Publish);
    assert Taken(s') == Taken(s);
    assert |s.published| !in Taken(s);
    assert s'.published == s.published + [s.loop.size];
  }

  lemma MailboxKeptDiscard(inbox: seq<Incoming>, s: Sys)
    requires MailboxInv(s) && LoopEnabled(inbox, s, Discard)
    ensures MailboxInv(LoopDo(inbox, s, Discard))
  {
    assert Taken(LoopDo(inbox, s, Discard)) == Taken(s);
  }

  /** A step that leaves the mailbox alone and does not leave the send. */
  lemma MailboxSame(s: Sys, s': Sys)
    requires MailboxInv(s)
    requires s'.dropped == s.dropped && s'.published == s.published && s'.slot == s.slot
    requires Taken(s') == Taken(s) && !s.loop.Send? && !s'.loop.Send?
    ensures MailboxInv(s')
  {
  }

  lemma MailboxKeptLoop(inbox: seq<Incoming>, s: Sys, a: LoopStep)
    requires MailboxInv(s) && LoopEnabled(inbox, s, a)
    ensures MailboxInv(LoopDo(inbox, s, a))
  {
    match a
    case Publish => MailboxKeptPublish(inbox, s);
    case Discard => MailboxKeptDiscard(inbox, s);
    case Handle(granted) =>
      HandleFrame(inbox, s, granted);
      MailboxSame(s, LoopDo(inbox, s, a));
    case Respond => MailboxSame(s, LoopDo(inbox, s, a));
    case EndOfRequests => MailboxSame(s, LoopDo(inbox, s, a));
  }

  lemma AscendingMore(ns: seq<nat>, n: nat)
    requires Ascending(ns) && forall i :: 0 <= i < |ns| ==> ns[i] < n
    ensures Ascending(ns + [n])
  {
  }

  lemma MailboxKeptTake(s: Sys)
    requires MailboxInv(s) && ApplierEnabled(s, Take)
    ensures MailboxInv(ApplierDo(s, Take))
  {
    var s' := ApplierDo(s, Take);
    TakenBelow(s);
    AscendingMore(Taken(s), s.slot.value);
    assert Taken(s') == Taken(s) + [s.slot.value];
  }

  lemma MailboxKeptApplier(s: Sys, a: ApplierStep)
    requires MailboxInv(s) && ApplierEnabled(s, a)
    ensures MailboxInv(ApplierDo(s, a))
  {
    if a.Take? {
      MailboxKeptTake(s);
    } else {
      assert Taken(ApplierDo(s, a)) == Taken(s);
    }
  }

  lemma MailboxKept(inbox: seq<Incoming>, s: Sys, a: Step)
    requires MailboxInv(s) && PtyInv(s) && Enabled(inbox, s, a)
    ensures MailboxInv(Do(inbox, s, a))
  {
    match a
    case OfLoop(l) => MailboxKeptLoop(inbox, s, l);
    case OfApplier(p) => MailboxKeptApplier(s, p);
    case OfCommand(c) =>
      CommandFrame(inbox, s, c);
      assert Taken(CommandDo(inbox, s, c)) == Taken(s);
  }

  lemma TakenBelow(s: Sys)
    requires MailboxInv(s) && s.slot.Some?
    ensures forall i :: 0 <= i < |Taken(s)| ==> Taken(s)[i] < s.slot.value
  {
    forall i | 0 <= i < |Taken(s)|
      ensures Taken(s)[i] < s.slot.value
    {
      assert Taken(s)[i] in Taken(s);
    }
  }

  // ----- The pty -----

  /** States before the process runs on a pty. */
  predicate BeforeRun(c: CommandPc) {
    c.NoCommand? || c.Begin? || c.Ready? || c.Rejecting? || c.Accepting? || c.Launching?
  }

  /** The applier lives only while the pty is open: it is joined before the pty is closed. */
  ghost predicate PtyInv(s: Sys) {
    && (s.applier in {NoApplier, Stopped} || s.ptmxOpen)
    && (s.ptmxOpen ==> (s.command.Running? && s.command.pty) || s.command.Stopping?)
    && (s.command.Stopping? ==> s.stopClosed && s.ptmxOpen && s.applier != NoApplier)
    && (s.stopClosed ==> !BeforeRun(s.command) && !s.command.Running?)
    && (BeforeRun(s.command) ==> s.applier == NoApplier)
    && (s.command.Running? && s.command.pty ==> s.ptmxOpen && s.applier !in {NoApplier, Stopped})
  }

  lemma PtyKeptLoop(inbox: seq<Incoming>, s: Sys, a: LoopStep)
    requires PtyInv(s) && SlotInv(inbox, s) && LoopEnabled(inbox, s, a)
    ensures PtyInv(LoopDo(inbox, s, a))
  {
    if a.Handle? {
      HandleFrame(inbox, s, a.granted);
    } else {
      LoopFrame(inbox, s, a);
    }
  }

  lemma PtyKept(inbox: seq<Incoming>, s: Sys, a: Step)
    requires PtyInv(s) && SlotInv(inbox, s) && Enabled(inbox, s, a)
    ensures PtyInv(Do(inbox, s, a))
  {
    match a
    case OfLoop(l) => PtyKeptLoop(inbox, s, l);
    case OfCommand(_) =>
    case OfApplier(_) =>
  }

  // ----- Every run -----

  ghost predicate Inv(inbox: seq<Incoming>, s: Sys) {
    && SlotInv(inbox, s) && ReplyInv(inbox, s) && EventInv(s) && AnswerInv(inbox, s)
    && ParamsInv(inbox, s) && MailboxInv(s) && PtyInv(s) && ChannelInv(s)
  }

  lemma {:induction false} RunInv(inbox: seq<Incoming>, steps: seq<Step>)
    requires Run(inbox, steps).Some?
    ensures Inv(inbox, Run(inbox, steps).value)
  {
    if steps != [] {
      var before, a := steps[..|steps| - 1], steps[|steps| - 1];
      RunInv(inbox, before);
      var s := Run(inbox, before).value;
      SlotKept(inbox, s, a);
      ReplyKept(inbox, s, a);
      EventKept(inbox, s, a);
      AnswerKept(inbox, s, a);
      ParamsKept(inbox, s, a);
      MailboxKept(inbox, s, a);
      PtyKept(inbox, s, a);
      ChannelKept(inbox, s, a);
    }
  }

  /** Taking one more step other than `SendExit` sends nothing in time that was not already. */
  lemma SameSends(steps: seq<Step>, a: Step)
    ensures SentInTime(steps + [a]) <==>
            SentInTime(steps) || (a == OfCommand(SendExit) && OfLoop(EndOfRequests) !in steps)
  {
    var all := steps + [a];
    forall k: nat | k <= |steps| ensures all[..k] == steps[..k] { }
    assert all[..|steps|] == steps;
    assert forall k: nat :: k < |steps| && SendsInTime(steps, k) ==> SendsInTime(all, k);
    if a == OfCommand(SendExit) && OfLoop(EndOfRequests) !in steps {
      assert SendsInTime(all, |steps|);
    }
    assert forall k: nat :: k < |steps| && SendsInTime(all, k) ==> SendsInTime(steps, k);
  }

  /** More on the channel changes nothing once something is. */
  lemma SameDelivery(channel: seq<ChannelAction>, a: ChannelAction)
    ensures Delivered(channel + [a]) <==> Delivered(channel) || (channel == [] && a.Status?)
  {
    var all := channel + [a];
    DeliveredFirst(channel);
    DeliveredFirst(all);
  }

  lemma DeliveredFirst(channel: seq<ChannelAction>)
    ensures Delivered(channel) <==> channel != [] && channel[0].Status?
  {
    if Delivered(channel) {
      var i :| 0 <= i < |channel| && channel[i].Status?
               && LoopCloses !in channel[..i] && CommandCloses !in channel[..i];
      assert i == 0 || channel[..i][0] == channel[0];
    } else if channel != [] {
      assert channel[..0] == [];
    }
  }

  lemma StepsKeptCommand(inbox: seq<Incoming>, steps: seq<Step>, s: Sys, a: CommandStep)
    requires StepsInv(steps, s) && ChannelInv(s) && CommandEnabled(inbox, s, a)
    ensures StepsInv(steps + [OfCommand(a)], CommandDo(inbox, s, a))
  {
    SameSends(steps, OfCommand(a));
    if a.SendExit? {
      SameDelivery(s.channel, Status(s.command.code));
      assert s.channel == [] <==> s.loop != Ended;
    } else if a.CloseChannel? {
      SameDelivery(s.channel, CommandCloses);
    } else {
      CommandFrame(inbox, s, a);
      SaidSame(inbox, s, a);
    }
  }

  lemma StepsKeptLoop(inbox: seq<Incoming>, steps: seq<Step>, s: Sys, a: LoopStep)
    requires StepsInv(steps, s) && SlotInv(inbox, s) && LoopEnabled(inbox, s, a)
    ensures StepsInv(steps + [OfLoop(a)], LoopDo(inbox, s, a))
  {
    SameSends(steps, OfLoop(a));
    if a.EndOfRequests? {
      SameDelivery(s.channel, LoopCloses);
    } else if a.Handle? {
      HandleFrame(inbox, s, a.granted);
    }
  }

  lemma StepsKept(inbox: seq<Incoming>, steps: seq<Step>, s: Sys, a: Step)
    requires StepsInv(steps, s) && SlotInv(inbox, s) && ChannelInv(s) && Enabled(inbox, s, a)
    ensures StepsInv(steps + [a], Do(inbox, s, a))
  {
    match a
    case OfLoop(l) => StepsKeptLoop(inbox, steps, s, l);
    case OfCommand(c) => StepsKeptCommand(inbox, steps, s, c);
    case OfApplier(p) =>
      ApplierFrame(s, p);
      SameSends(steps, a);
  }

  lemma RunChannel(inbox: seq<Incoming>, steps: seq<Step>)
    requires Run(inbox, steps).Some?
    ensures SlotInv(inbox, Run(inbox, steps).value) && ChannelInv(Run(inbox, steps).value)
  {
    RunInv(inbox, steps);
  }

  lemma RunEvents(inbox: seq<Incoming>, steps: seq<Step>)
    requires Run(inbox, steps).Some?
    ensures EventInv(Run(inbox, steps).value)
  {
    RunInv(inbox, steps);
  }

  lemma LastStepKept(inbox: seq<Incoming>, steps: seq<Step>, s: Sys)
    requires steps != [] && StepsInv(steps[..|steps| - 1], s) && SlotInv(inbox, s) && ChannelInv(s)
    requires Enabled(inbox, s, steps[|steps| - 1])
    ensures StepsInv(steps, Do(inbox, s, steps[|steps| - 1]))
  {
    assert steps[..|steps| - 1] + [steps[|steps| - 1]] == steps;
    StepsKept(inbox, steps[..|steps| - 1], s, steps[|steps| - 1]);
  }

  lemma {:induction false} RunSteps(inbox: seq<Incoming>, steps: seq<Step>)
    requires Run(inbox, steps).Some?
    ensures StepsInv(steps, Run(inbox, steps).value)
  {
    if steps != [] {
      RunSteps(inbox, steps[..|steps| - 1]);
      RunChannel(inbox, steps[..|steps| - 1]);
      LastStepKept(inbox, steps, Run(inbox, steps[..|steps| - 1]).value);
    }
  }

  // ----- The theorems -----

  /**
    One run of the command goroutine: either the command never starts, and the exit status is 1 or
    127, or it starts once and the exit status is its own. The close comes last.
   */
  ghost predicate Orderly(events: seq<Event>) {
    || (exists code :: code in {1, 127} && events <= [ExitStatus(code), Close])
    || (exists command, p, at, code :: events <= [Started(command, p, at), Exited(code), ExitStatus(code), Close])
  }

  lemma OutcomeOrderly(e: seq<Event>, code: nat, tail: seq<Event>)
    requires Outcome(e, code) && tail <= [ExitStatus(code), Close]
    ensures Orderly(e + tail)
  {
    if e == [] {
      assert e + tail <= [ExitStatus(code), Close];
    } else {
      var all := [Started(e[0].command, e[0].params, e[0].at), Exited(code), ExitStatus(code), Close];
      assert e == all[..2];
      assert e + tail <= all;
    }
  }

  lemma EventsOrderly(s: Sys)
    requires EventInv(s)
    ensures Orderly(s.events)
    ensures s.command.Finished? ==>
              |s.events| >= 2 && s.events[|s.events| - 2..] == [ExitStatus(s.command.code), Close]
  {
    var e := s.events;
    match s.command
    case Stopping(_, code) => OutcomeOrderly(e, code, []); assert e + [] == e;
    case Exiting(_, code) => OutcomeOrderly(e, code, []); assert e + [] == e;
    case Closing(_, code) =>
      OutcomeOrderly(e[..|e| - 1], code, [ExitStatus(code)]);
      assert e[..|e| - 1] + [ExitStatus(code)] == e;
    case Finished(_, code) =>
      OutcomeOrderly(e[..|e| - 2], code, [ExitStatus(code), Close]);
      assert e[..|e| - 2] + [ExitStatus(code), Close] == e;
    case _ => NotOutcomeOrderly(e);
  }

  lemma NotOutcomeOrderly(e: seq<Event>)
    requires e == [] || (|e| == 1 && e[0].Started?)
    ensures Orderly(e)
  {
    if e == [] {
      assert e <= [ExitStatus(1), Close];
    } else {
      assert e <= [Started(e[0].command, e[0].params, e[0].at), Exited(0), ExitStatus(0), Close];
    }
  }

  /**
    Under every interleaving a session starts at most one command, and a claimed slot yields one
    exit status, that of the command if it started, followed by one close: all of it once the
    goroutine has finished. On the shared channel these are its only actions.
   */
  lemma OneCommand(inbox: seq<Incoming>, steps: seq<Step>)
    requires Run(inbox, steps).Some?
    ensures
      var s := Run(inbox, steps).value;
      && Orderly(s.events)
      && (s.command == NoCommand ==> s.events == [])
      && (s.command.Finished? ==>
            |s.events| >= 2 && s.events[|s.events| - 2..] == [ExitStatus(s.command.code), Close])
      && (s.command.Finished? ==> Own(s.channel) == [Status(s.command.code), CommandCloses])
  {
    RunEvents(inbox, steps);
    RunChannel(inbox, steps);
    EventsOrderly(Run(inbox, steps).value);
  }

  /**
    Under every interleaving, the exit status is sent on a channel that nobody has closed exactly
    when it is sent before the request loop ends, whose deferred close is the other one.
   */
  lemma ExitStatusDelivered(inbox: seq<Incoming>, steps: seq<Step>)
    requires Run(inbox, steps).Some?
    ensures Delivered(Run(inbox, steps).value.channel) <==> SentInTime(steps)
  {
    RunSteps(inbox, steps);
  }

  lemma RunOneMore(inbox: seq<Incoming>, steps: seq<Step>, a: Step)
    requires Run(inbox, steps).Some? && Enabled(inbox, Run(inbox, steps).value, a)
    ensures Run(inbox, steps + [a]) == Some(Do(inbox, Run(inbox, steps).value, a))
  {
    assert (steps + [a])[..|steps|] == steps;
  }

  lemma RunThree(inbox: seq<Incoming>, steps: seq<Step>, a: Step, b: Step, c: Step)
    requires Run(inbox, steps).Some? && Enabled(inbox, Run(inbox, steps).value, a)
    requires Enabled(inbox, Do(inbox, Run(inbox, steps).value, a), b)
    requires Enabled(inbox, Do(inbox, Do(inbox, Run(inbox, steps).value, a), b), c)
    ensures Run(inbox, steps + [a, b, c]) ==
            Some(Do(inbox, Do(inbox, Do(inbox, Run(inbox, steps).value, a), b), c))
  {
    RunOneMore(inbox, steps, a);
    RunOneMore(inbox, steps + [a], b);
    RunOneMore(inbox, steps + [a] + [b], c);
    assert steps + [a] + [b] + [c] == steps + [a, b, c];
  }

  /** A client that asks for sftp and hangs up while the command is being started. */
  function HangUp(granted: bool): seq<Step> {
    [OfLoop(Handle(granted)), OfLoop(EndOfRequests)]
    + [OfCommand(FailEarly(127)), OfCommand(Reject), OfCommand(SendExit)]
  }

  lemma HungUp(inbox: seq<Incoming>, granted: bool)
    requires inbox == [Incoming(Spawn(Sftp), true)]
    ensures
      var steps := [OfLoop(Handle(granted)), OfLoop(EndOfRequests)];
      Run(inbox, steps) == Some(Init().(loop := Ended, next := 1, command := Begin(0, Sftp), started := true,
                                        channel := [LoopCloses]))
  {
    var a, b := OfLoop(Handle(granted)), OfLoop(EndOfRequests);
    RunOneMore(inbox, [], a);
    assert [] + [a] == [a];
    RunOneMore(inbox, [a], b);
    assert [a] + [b] == [a, b];
    assert [] + [LoopCloses] == [LoopCloses];
  }

  /** An exit status that is lost: the client ends its requests while the command is being started. */
  lemma ExitStatusLost(granted: bool)
    ensures
      var end := Run([Incoming(Spawn(Sftp), true)], HangUp(granted));
      && end.Some? && ExitStatus(127) in end.value.events && !Delivered(end.value.channel)
  {
    var inbox := [Incoming(Spawn(Sftp), true)];
    HungUp(inbox, granted);
    RunThree(inbox, [OfLoop(Handle(granted)), OfLoop(EndOfRequests)],
             OfCommand(FailEarly(127)), OfCommand(Reject), OfCommand(SendExit));
    var s := Run(inbox, HangUp(granted)).value;
    DeliveredFirst(s.channel);
    assert s.channel == [LoopCloses] + [Status(127)];
    assert s.events == [] + [ExitStatus(127)];
  }

  /**
    Under every interleaving a request that wants a reply has exactly one once its handler is past
    it, one that wants none has none, and no reply comes early.
   */
  lemma OneReply(inbox: seq<Incoming>, steps: seq<Step>, j: nat)
    requires Run(inbox, steps).Some? && j < |inbox|
    ensures
      var s := Run(inbox, steps).value;
      Replies(s.replies, j) == if inbox[j].wantReply && Answered(s, j) then 1 else 0
  {
    RunInv(inbox, steps);
  }

  /**
    Every reply has the value its request calls for: a second shell, exec or subsystem is refused,
    and a claimed request that is refused never started anything.
   */
  lemma ReplyValues(inbox: seq<Incoming>, steps: seq<Step>, r: Reply)
    requires Run(inbox, steps).Some? && r in Run(inbox, steps).value.replies
    ensures
      var s := Run(inbox, steps).value;
      && r.index < |inbox|
      && (if Claimed(s.command) == Some(r.index)
          then IsSpawn(inbox, r.index) && (forall k :: 0 <= k < r.index ==> !IsSpawn(inbox, k))
               && (!r.ok ==> !Launched(s.events))
          else LoopAnswers(inbox[r.index].action, r.ok))
  {
    RunInv(inbox, steps);
  }

  /**
    The parameters a command starts with are the pty and environment state after some prefix of
    the channel's requests, and that prefix contains the command's request and all before it.
   */
  lemma StartParameters(inbox: seq<Incoming>, steps: seq<Step>, e: Event)
    requires Run(inbox, steps).Some? && e in Run(inbox, steps).value.events && e.Started?
    ensures
      var s := Run(inbox, steps).value;
      && Claimed(s.command).Some?
      && Claimed(s.command).value < e.at <= |inbox|
      && e.params == StateAfter(inbox, e.at)
  {
    RunInv(inbox, steps);
  }

  /**
    The environment that a command starts with, in terms of the requests on the wire: a variable
    has a value exactly when the last env request for it before the snapshot encodes that value.
   */
  lemma StartEnvironment(requests: seq<Request>, steps: seq<Step>, e: Event, v: EnvVar)
    requires Run(Inbox(requests), steps).Some?
    requires e in Run(Inbox(requests), steps).value.events && e.Started?
    ensures e.at <= |requests|
    ensures v.name in e.params.env && e.params.env[v.name] == v.value <==>
            exists k :: 0 <= k < e.at && SetsEnv(requests[k], v)
                        && forall j :: k < j < e.at ==> !SetsName(requests[j], v.name)
  {
    var inbox := Inbox(requests);
    StartParameters(inbox, steps, e);
    StateEnvIff(inbox, e.at, v);
    forall k | 0 <= k < e.at
      ensures inbox[k].action == StoreEnv(v.name, v.value) <==> SetsEnv(requests[k], v)
    {
      DecodeEnvIff(requests[k], v);
    }
    forall k: nat | k < e.at
      ensures LastStore(inbox, e.at, k, v) <==>
              SetsEnv(requests[k], v) && forall j :: k < j < e.at ==> !SetsName(requests[j], v.name)
    {
      assert forall j :: k < j < e.at ==> inbox[j].action == Decode(requests[j]);
    }
  }

  /** The sizes that the terminal was set to. */
  function AppliedSizes(s: Sys): seq<Size>
    requires forall i :: 0 <= i < |s.applied| ==> s.applied[i] < |s.published|
  {
    seq(|s.applied|, i requires 0 <= i < |s.applied| => Winsize(s.published[s.applied[i]]))
  }

  /** What the mailbox invariant says about the applied sizes. */
  ghost predicate InOrder(s: Sys) {
    && s.dropped == 0
    && Ascending(s.applied)
    && (forall i :: 0 <= i < |s.applied| ==> s.applied[i] < |s.published|)
    && (s.slot == None && !s.loop.Send? && !s.applier.Holding? && s.published != [] ==>
          && s.applied != []
          && var last, asked := AppliedSizes(s)[|s.applied| - 1], s.published[|s.published| - 1];
          && last == Winsize(asked)
          && (last == asked <==> asked.cols < 0x1_0000 && asked.rows < 0x1_0000))
  }

  lemma MailboxInOrder(s: Sys)
    requires MailboxInv(s)
    ensures InOrder(s)
  {
    var t := Taken(s);
    assert s.applied == t[..|s.applied|];
    forall i | 0 <= i < |s.applied|
      ensures s.applied[i] < |s.published|
    {
      assert s.applied[i] == t[i] && t[i] in t;
    }
  }

  /**
    The applied sizes are an in-order subsequence of the published ones, in 16 bits each; the send
    never finds the slot full; and when the slot is empty and neither side is at work, the last
    applied size is the last published one, the very one that was asked for if it fits 16 bits.
   */
  lemma Mailbox(inbox: seq<Incoming>, steps: seq<Step>)
    requires Run(inbox, steps).Some?
    ensures InOrder(Run(inbox, steps).value)
  {
    RunInv(inbox, steps);
    MailboxInOrder(Run(inbox, steps).value);
  }

  /** A size is never applied to a pty that is closed or not yet open. */
  lemma NoLateSetSize(inbox: seq<Incoming>, steps: seq<Step>)
    requires Run(inbox, steps).Some? && ApplierEnabled(Run(inbox, steps).value, SetSize)
    ensures Run(inbox, steps).value.ptmxOpen
  {
    RunInv(inbox, steps);
  }

  /** A step of the command goroutine or of the applier that is possible in `s`. */
  function NextStep(s: Sys): Step
    requires Claimed(s.command).Some? && !s.command.Finished?
  {
    match s.command
    case Begin(_, _) => OfCommand(Snapshot)
    case Ready(_, command, _, _) => OfCommand(if command == Sftp then SftpStarts else Build)
    case Rejecting(_, _) => OfCommand(Reject)
    case Accepting(_, _, _, _) => OfCommand(Accept)
    case Launching(_, _, _, _) => OfCommand(Launch)
    case Running(_, _) => OfCommand(ProcessExits(0))
    case Stopping(_, _) =>
      if s.applier == Stopped then OfCommand(Join)
      else OfApplier(if s.applier.Holding? then SetSize else Stop)
    case Exiting(_, _) => OfCommand(SendExit)
    case Closing(_, _) => OfCommand(CloseChannel)
  }

  lemma NextStepEnabled(inbox: seq<Incoming>, s: Sys)
    requires SlotInv(inbox, s) && PtyInv(s) && Claimed(s.command).Some? && !s.command.Finished?
    ensures Enabled(inbox, s, NextStep(s))
  {
  }

  /** A claimed command never waits for the request loop: it or its applier can always go on. */
  lemma CommandProgress(inbox: seq<Incoming>, steps: seq<Step>)
    requires Run(inbox, steps).Some?
    requires Claimed(Run(inbox, steps).value.command).Some? && !Run(inbox, steps).value.command.Finished?
    ensures Enabled(inbox, Run(inbox, steps).value, NextStep(Run(inbox, steps).value))
    ensures !NextStep(Run(inbox, steps).value).OfLoop?
  {
    RunInv(inbox, steps);
    NextStepEnabled(inbox, Run(inbox, steps).value);
  }

  // ----- Termination -----

  /** What is left for the request loop; the surplus of a request pays for its size's way to the terminal. */
  function LoopRank(inbox: seq<Incoming>, s: Sys): nat
    requires SlotInv(inbox, s)
  {
    var rest := |inbox| - s.next;
    match s.loop
    case Waiting => 8 * rest + 1
    case Drain(_, _) => 8 * rest
    case Send(_, _) => 8 * rest - 1
    case Answer(_) => 8 * rest - 4
    case Ended => 0
  }

  function CommandRank(c: CommandPc): nat {
    match c
    case NoCommand => 20
    case Begin(_, _) => 18
    case Ready(_, _, _, _) => 16
    case Accepting(_, _, _, _) => 14
    case Launching(_, _, _, _) => 12
    case Rejecting(_, _) => 10
    case Running(_, _) => 8
    case Stopping(_, _) => 6
    case Exiting(_, _) => 4
    case Closing(_, _) => 2
    case Finished(_, _) => 0
  }

  function ApplierRank(s: Sys): nat {
    (if s.slot.Some? then 2 else 0)
    + match s.applier
      case Selecting => 1
      case Holding(_) => 2
      case NoApplier | Stopped => 0
  }

  /** Every step of every thread lowers this. */
  function Rank(inbox: seq<Incoming>, s: Sys): nat
    requires SlotInv(inbox, s)
  {
    LoopRank(inbox, s) + CommandRank(s.command) + ApplierRank(s)
  }

  lemma LoopLowersRank(inbox: seq<Incoming>, s: Sys, a: LoopStep)
    requires SlotInv(inbox, s) && LoopEnabled(inbox, s, a) && SlotInv(inbox, LoopDo(inbox, s, a))
    ensures Rank(inbox, LoopDo(inbox, s, a)) < Rank(inbox, s)
  {
    if a.Handle? {
      HandleFrame(inbox, s, a.granted);
    } else {
      LoopFrame(inbox, s, a);
    }
  }

  lemma CommandLowersRank(inbox: seq<Incoming>, s: Sys, a: CommandStep)
    requires SlotInv(inbox, s) && CommandEnabled(inbox, s, a) && SlotInv(inbox, CommandDo(inbox, s, a))
    requires s.command.Launching? ==> s.applier == NoApplier
    ensures Rank(inbox, CommandDo(inbox, s, a)) < Rank(inbox, s)
  {
    CommandFrame(inbox, s, a);
    CommandStepLowers(inbox, s, a);
  }

  lemma CommandStepLowers(inbox: seq<Incoming>, s: Sys, a: CommandStep)
    requires CommandEnabled(inbox, s, a)
    ensures CommandRank(CommandDo(inbox, s, a).command) + 2 <= CommandRank(s.command)
  {
  }

  lemma StepLowersRank(inbox: seq<Incoming>, s: Sys, a: Step)
    requires SlotInv(inbox, s) && PtyInv(s) && Enabled(inbox, s, a)
    ensures SlotInv(inbox, Do(inbox, s, a)) && Rank(inbox, Do(inbox, s, a)) < Rank(inbox, s)
  {
    SlotKept(inbox, s, a);
    match a
    case OfLoop(l) => LoopLowersRank(inbox, s, l);
    case OfCommand(c) => CommandLowersRank(inbox, s, c);
    case OfApplier(p) => ApplierFrame(s, p);
  }

  lemma RunRanked(inbox: seq<Incoming>, steps: seq<Step>)
    requires Run(inbox, steps).Some?
    ensures SlotInv(inbox, Run(inbox, steps).value) && PtyInv(Run(inbox, steps).value)
  {
    RunInv(inbox, steps);
  }

  /** No schedule of the three threads goes on for longer than the requests allow. */
  lemma {:induction false} RunsBounded(inbox: seq<Incoming>, steps: seq<Step>)
    requires Run(inbox, steps).Some?
    ensures SlotInv(inbox, Run(inbox, steps).value)
    ensures |steps| + Rank(inbox, Run(inbox, steps).value) <= 8 * |inbox| + 21
  {
    RunRanked(inbox, steps);
    if steps != [] {
      var before := steps[..|steps| - 1];
      RunsBounded(inbox, before);
      RunRanked(inbox, before);
      StepLowersRank(inbox, Run(inbox, before).value, steps[|steps| - 1]);
    }
  }

  /** The slot is claimed after these steps. */
  function ClaimedBy(inbox: seq<Incoming>): seq<Step> -> bool {
    steps => Run(inbox, steps).Some? && Claimed(Run(inbox, steps).value.command).Some?
  }

  function FinishedBy(inbox: seq<Incoming>): seq<Step> -> bool {
    steps => Run(inbox, steps).Some? && Run(inbox, steps).value.command.Finished?
  }

  function OwnStep(inbox: seq<Incoming>): seq<Step> -> Step {
    steps =>
      if ClaimedBy(inbox)(steps) && !FinishedBy(inbox)(steps) then NextStep(Run(inbox, steps).value)
      else OfCommand(Snapshot)
  }

  /** The command or its applier takes one more step. */
  lemma OwnStepTaken(inbox: seq<Incoming>, steps: seq<Step>)
    requires ClaimedBy(inbox)(steps) && !FinishedBy(inbox)(steps)
    ensures !OwnStep(inbox)(steps).OfLoop? && ClaimedBy(inbox)(steps + [OwnStep(inbox)(steps)])
  {
    var a := OwnStep(inbox)(steps);
    CommandProgress(inbox, steps);
    RunOneMore(inbox, steps, a);
    KeepsClaim(inbox, Run(inbox, steps).value, a);
  }

  /** What can always go on until it is done, and not for ever, gets done. */
  lemma {:induction false} ReachesEnd(going: seq<Step> -> bool, done: seq<Step> -> bool, next: seq<Step> -> Step,
                                      bound: nat, steps: seq<Step>)
    returns (more: seq<Step>)
    requires going(steps) && forall t :: going(t) ==> |t| <= bound
    requires forall t :: going(t) && !done(t) ==> !next(t).OfLoop? && going(t + [next(t)])
    ensures forall a :: a in more ==> !a.OfLoop?
    ensures done(steps + more)
    decreases bound - |steps|
  {
    if done(steps) {
      more := [];
      assert steps + more == steps;
    } else {
      var rest := ReachesEnd(going, done, next, bound, steps + [next(steps)]);
      more := [next(steps)] + rest;
      assert steps + more == steps + [next(steps)] + rest;
    }
  }

  /**
    A claimed slot reaches its end: from any point of any run, steps of the command and of its
    applier alone lead there, and every schedule that keeps taking enabled ones gets there, because
    one is always enabled and no schedule is endless.
   */
  lemma CommandFinishes(inbox: seq<Incoming>, steps: seq<Step>) returns (more: seq<Step>)
    requires Run(inbox, steps).Some? && Claimed(Run(inbox, steps).value.command).Some?
    ensures forall a :: a in more ==> !a.OfLoop?
    ensures Run(inbox, steps + more).Some? && Run(inbox, steps + more).value.command.Finished?
  {
    forall t | ClaimedBy(inbox)(t)
      ensures |t| <= 8 * |inbox| + 21
    {
      RunsBounded(inbox, t);
    }
    forall t | ClaimedBy(inbox)(t) && !FinishedBy(inbox)(t)
      ensures !OwnStep(inbox)(t).OfLoop? && ClaimedBy(inbox)(t + [OwnStep(inbox)(t)])
    {
      OwnStepTaken(inbox, t);
    }
    more := ReachesEnd(ClaimedBy(inbox), FinishedBy(inbox), OwnStep(inbox), 8 * |inbox| + 21, steps);
    assert FinishedBy(inbox)(steps + more);
  }

  lemma KeepsClaim(inbox: seq<Incoming>, s: Sys, a: Step)
    requires Enabled(inbox, s, a) && Claimed(s.command).Some? && !a.OfLoop?
    ensures Claimed(Do(inbox, s, a).command).Some?
  {
    match a
    case OfCommand(c) => CommandKeepsSlot(inbox, s, c);
    case OfApplier(p) => ApplierFrame(s, p);
  }
}
