/** What the request loop of a session makes of a channel request (agent/session.go). */
module SessionRequests {
  import opened Bytes
  import opened Wire

  type Payload = b: seq<byte> | |b| < U32

  /** Only the fields that the loop looks at. Request types are strings on the wire. */
  datatype Request = Request(kind: string, payload: Payload, wantReply: bool)

  datatype Size = Size(cols: uint32, rows: uint32)

  /** What the terminal is set to: columns and rows in 16 bits each. */
  function Winsize(size: Size): Size {
    Size(size.cols % 0x1_0000, size.rows % 0x1_0000)
  }

  datatype Command = Shell | Exec(line: seq<byte>) | Sftp

  /** What handling a request amounts to, once its payload is parsed. */
  datatype Action = StorePty(term: seq<byte>, size: Size)
                  | StoreEnv(name: seq<byte>, value: seq<byte>)
                  | IgnoreEnv          // malformed, but answered like a good one
                  | Resize(size: Size)
                  | ForwardAgent
                  | Spawn(command: Command)
                  | Acknowledge
                  | Refuse

  const SFTP: seq<byte> := [0x73, 0x66, 0x74, 0x70]

  function Decode(r: Request): Action {
    if r.kind == "pty-req" then
      var p := ParsePtyReq(r.payload);
      if p.Parsed? then StorePty(p.value.term, Size(p.value.cols, p.value.rows)) else Refuse
    else if r.kind == "env" then
      var v := ParseEnv(r.payload);
      if v.Parsed? then StoreEnv(v.value.name, v.value.value) else IgnoreEnv
    else if r.kind == "window-change" then
      var w := ParseWindowChange(r.payload);
      if w.Parsed? then Resize(Size(w.value.cols, w.value.rows)) else Refuse
    else if r.kind == "auth-agent-req@openssh.com" then ForwardAgent
    else if r.kind == "shell" then Spawn(Shell)
    else if r.kind == "exec" then Spawn(Exec(ExecPayload(r.payload)))
    else if r.kind == "signal" then Acknowledge
    else if r.kind == "subsystem" && SubsystemName(r.payload) == SFTP then Spawn(Sftp)
    else Refuse
  }

  /** A pty-req that encodes these fields sets exactly this terminal and size. */
  lemma DecodePty(p: Pty, modes: seq<byte>, wantReply: bool)
    requires |p.term| < U32 && |modes| < U32 && |EncodePty(p) + PutString(modes)| < U32
    ensures Decode(Request("pty-req", EncodePty(p) + PutString(modes), wantReply)) ==
            StorePty(p.term, Size(p.cols, p.rows))
  {
    PtyRoundTrip(p, modes);
  }

  /** The request is an env request whose payload starts with the encoding of `v`. */
  predicate SetsEnv(r: Request, v: EnvVar) {
    r.kind == "env" && |v.name| < U32 && |v.value| < U32 && EncodeEnv(v) <= r.payload
  }

  predicate SetsName(r: Request, name: seq<byte>) {
    Decode(r).StoreEnv? && Decode(r).name == name
  }

  /** On the wire, exactly these requests store a variable. */
  lemma DecodeEnvIff(r: Request, v: EnvVar)
    ensures Decode(r) == StoreEnv(v.name, v.value) <==> SetsEnv(r, v)
  {
    EnvIff(r.payload, v);
    if r.kind == "env" && ParseEnv(r.payload).Parsed? {
      assert ParseEnv(r.payload).value == v <==> Decode(r) == StoreEnv(v.name, v.value);
    }
  }
}

/**
  A session as three threads: the request loop, the goroutine that the claimed command runs on,
  and the goroutine that applies terminal sizes. A step is what one thread does between two
  points where another can run. Answers, command events and sizes are kept as histories.
 */
module Session {
  import opened Wrappers
  import opened Bytes
  import opened SessionRequests

  datatype Incoming = Incoming(action: Action, wantReply: bool)

  function Decoded(r: Request): Incoming {
    Incoming(Decode(r), r.wantReply)
  }

  function Inbox(requests: seq<Request>): seq<Incoming> {
    seq(|requests|, i requires 0 <= i < |requests| => Decoded(requests[i]))
  }

  /** The pty and environment requests that a command starts with. */
  datatype Params = Params(pty: bool, term: seq<byte>, env: map<seq<byte>, seq<byte>>)

  const NO_PARAMS := Params(false, [], map[])

  datatype LoopPc =
    | Waiting                            // about to receive request `next`
    | Drain(size: Size, answer: bool)    // resize: before discarding an unread size
    | Send(size: Size, answer: bool)     // resize: before the send
    | Answer(ok: bool)
    | Ended                              // no more requests; the deferred close is done

  /** Each command state names the request it serves. `at` is how many requests had been stored. */
  datatype CommandPc =
    | NoCommand
    | Begin(i: nat, command: Command)
    | Ready(i: nat, command: Command, params: Params, at: nat)
    | Rejecting(i: nat, code: nat)
    | Accepting(i: nat, command: Command, params: Params, at: nat)
    | Launching(i: nat, command: Command, params: Params, at: nat)
    | Running(i: nat, pty: bool)
    | Stopping(i: nat, code: nat)
    | Exiting(i: nat, code: nat)
    | Closing(i: nat, code: nat)
    | Finished(i: nat, code: nat)

  datatype ApplierPc = NoApplier | Selecting | Holding(number: nat) | Stopped

  datatype Reply = Reply(index: nat, ok: bool)
  datatype Event = Started(command: Command, params: Params, at: nat) | Exited(status: nat)
                 | ExitStatus(code: nat) | Close

  /** What the threads do to the shared channel, in the order in which they do it. */
  datatype ChannelAction = Status(code: nat) | CommandCloses | LoopCloses

  /** `slot` holds the number of a published size, so that `published[slot]` is its value. */
  datatype Sys = Sys(
    loop: LoopPc, next: nat, command: CommandPc, applier: ApplierPc,
    started: bool, params: Params, slot: Option<nat>, stopClosed: bool, ptmxOpen: bool,
    replies: seq<Reply>, events: seq<Event>, channel: seq<ChannelAction>,
    published: seq<Size>, applied: seq<nat>, dropped: nat)

  function Init(): Sys {
    Sys(Waiting, 0, NoCommand, NoApplier, false, NO_PARAMS, None, false, false, [], [], [], [], [], 0)
  }

  // ----- Steps of the request loop -----

  datatype LoopStep = Handle(granted: bool) | Discard | Publish | Respond | EndOfRequests

  predicate LoopEnabled(inbox: seq<Incoming>, s: Sys, a: LoopStep) {
    match a
    case Handle(_) => s.loop == Waiting && s.next < |inbox|
    case Discard => s.loop.Drain?
    case Publish => s.loop.Send?
    case Respond => s.loop.Answer? && s.next < |inbox|
    case EndOfRequests => s.loop == Waiting
  }

  /** Receiving a request and the part of its handler before anything another thread can see. */
  function HandleRequest(s: Sys, action: Action, granted: bool): Sys {
    match action
    case StorePty(term, size) =>
      s.(params := s.params.(pty := true, term := term), loop := Drain(size, true))
    case StoreEnv(name, value) =>
      s.(params := s.params.(env := s.params.env[name := value]), loop := Answer(true))
    case IgnoreEnv => s.(loop := Answer(true))
    case Resize(size) => s.(loop := Drain(size, false))
    case ForwardAgent => s.(loop := Answer(granted))
    case Spawn(command) =>
      if s.started then s.(loop := Answer(false))
      else s.(started := true, command := Begin(s.next, command), next := s.next + 1)
    case Acknowledge => s.(loop := Answer(true))
    case Refuse => s.(loop := Answer(false))
  }

  function AddReply(inbox: seq<Incoming>, s: Sys, i: nat, ok: bool): Sys
    requires i < |inbox|
  {
    if inbox[i].wantReply then s.(replies := s.replies + [Reply(i, ok)]) else s
  }

  function LoopDo(inbox: seq<Incoming>, s: Sys, a: LoopStep): Sys
    requires LoopEnabled(inbox, s, a)
  {
    match a
    case Handle(granted) =>
      var action := inbox[s.next].action;
      HandleRequest(s, action, granted)
    case Discard => s.(slot := None, loop := Send(s.loop.size, s.loop.answer))
    case Publish =>
      var s' := s.(published := s.published + [s.loop.size], loop := Answer(s.loop.answer));
      if s.slot == None then s'.(slot := Some(|s.published|)) else s'.(dropped := s.dropped + 1)
    case Respond => AddReply(inbox, s, s.next, s.loop.ok).(next := s.next + 1, loop := Waiting)
    case EndOfRequests => s.(loop := Ended, channel := s.channel + [LoopCloses])
  }

  // ----- Steps of the command goroutine -----

  datatype CommandStep =
    | FailEarly(failure: nat)   // sftp: no executable (127) or no user (1)
    | Snapshot
    | BuildFails                // shell and exec: no user
    | Build
    | SftpFails(failure: nat)   // sftp: no pipe (1) or no process (127)
    | SftpStarts
    | Reject
    | Accept
    | LaunchFails(failure: nat) // no pty or pipe (1) or no process (127)
    | Launch
    | ProcessExits(status: nat)
    | Join
    | SendExit
    | CloseChannel

  predicate CommandEnabled(inbox: seq<Incoming>, s: Sys, a: CommandStep) {
    var c := s.command;
    match a
    case FailEarly(f) => c.Begin? && c.command == Sftp && f in {1, 127}
    case Snapshot => c.Begin?
    case BuildFails => c.Ready? && c.command != Sftp
    case Build => c.Ready? && c.command != Sftp
    case SftpFails(f) => c.Ready? && c.command == Sftp && f in {1, 127}
    case SftpStarts => c.Ready? && c.command == Sftp
    case Reject => c.Rejecting? && c.i < |inbox|
    case Accept => c.Accepting? && c.i < |inbox|
    case LaunchFails(f) => c.Launching? && f in (if c.params.pty then {1} else {1, 127})
    case Launch => c.Launching?
    case ProcessExits(_) => c.Running?
    case Join => c.Stopping? && s.applier == Stopped
    case SendExit => c.Exiting?
    case CloseChannel => c.Closing?
  }

  function CommandDo(inbox: seq<Incoming>, s: Sys, a: CommandStep): Sys
    requires CommandEnabled(inbox, s, a)
  {
    var c := s.command;
    match a
    case FailEarly(f) => s.(command := Rejecting(c.i, f))
    case Snapshot => s.(command := Ready(c.i, c.command, s.params, Stored(s)))
    case BuildFails => s.(command := Rejecting(c.i, 1))
    case Build => s.(command := Accepting(c.i, c.command, c.params, c.at))
    case SftpFails(f) => s.(command := Rejecting(c.i, f))
    case SftpStarts =>
      s.(command := Accepting(c.i, c.command, c.params, c.at),
         events := s.events + [Started(c.command, c.params, c.at)])
    case Reject => AddReply(inbox, s, c.i, false).(command := Exiting(c.i, c.code))
    case Accept =>
      AddReply(inbox, s, c.i, true).(command :=
        if c.command == Sftp then Running(c.i, false) else Launching(c.i, c.command, c.params, c.at))
    case LaunchFails(f) => s.(command := Exiting(c.i, f))
    case Launch =>
      var s' := s.(command := Running(c.i, c.params.pty),
                   events := s.events + [Started(c.command, c.params, c.at)]);
      if c.params.pty then s'.(ptmxOpen := true, applier := Selecting) else s'
    case ProcessExits(status) =>
      var s' := s.(events := s.events + [Exited(status)]);
      if c.pty then s'.(command := Stopping(c.i, status), stopClosed := true)
      else s'.(command := Exiting(c.i, status))
    case Join => s.(command := Exiting(c.i, c.code), ptmxOpen := false)
    case SendExit =>
      s.(command := Closing(c.i, c.code), events := s.events + [ExitStatus(c.code)],
         channel := s.channel + [Status(c.code)])
    case CloseChannel =>
      s.(command := Finished(c.i, c.code), events := s.events + [Close],
         channel := s.channel + [CommandCloses])
  }

  // ----- Steps of the applier -----

  datatype ApplierStep = Take | SetSize | Stop

  predicate ApplierEnabled(s: Sys, a: ApplierStep) {
    match a
    case Take => s.applier == Selecting && s.slot.Some?
    case SetSize => s.applier.Holding?
    case Stop => s.applier == Selecting && s.stopClosed
  }

  function ApplierDo(s: Sys, a: ApplierStep): Sys
    requires ApplierEnabled(s, a)
  {
    match a
    case Take => s.(applier := Holding(s.slot.value), slot := None)
    case SetSize => s.(applied := s.applied + [s.applier.number], applier := Selecting)
    case Stop => s.(applier := Stopped)
  }

  // ----- Runs -----

  datatype Step = OfLoop(l: LoopStep) | OfCommand(c: CommandStep) | OfApplier(a: ApplierStep)

  predicate Enabled(inbox: seq<Incoming>, s: Sys, a: Step) {
    match a
    case OfLoop(l) => LoopEnabled(inbox, s, l)
    case OfCommand(c) => CommandEnabled(inbox, s, c)
    case OfApplier(p) => ApplierEnabled(s, p)
  }

  function Do(inbox: seq<Incoming>, s: Sys, a: Step): Sys
    requires Enabled(inbox, s, a)
  {
    match a
    case OfLoop(l) => LoopDo(inbox, s, l)
    case OfCommand(c) => CommandDo(inbox, s, c)
    case OfApplier(p) => ApplierDo(s, p)
  }

  /** The state after an interleaving, or `None` if some step of it was not possible. */
  function Run(inbox: seq<Incoming>, steps: seq<Step>): Option<Sys> {
    if steps == [] then Some(Init())
    else
      var before := Run(inbox, steps[..|steps| - 1]);
      if before.None? || !Enabled(inbox, before.value, steps[|steps| - 1]) then None
      else Some(Do(inbox, before.value, steps[|steps| - 1]))
  }

  // ----- The state of the requests -----

  /** The pty and environment state after the first `k` requests. */
  function StateAfter(inbox: seq<Incoming>, k: nat): Params
    requires k <= |inbox|
  {
    if k == 0 then NO_PARAMS
    else
      var p := StateAfter(inbox, k - 1);
      match inbox[k - 1].action
      case StorePty(term, _) => p.(pty := true, term := term)
      case StoreEnv(name, value) => p.(env := p.env[name := value])
      case _ => p
  }

  /** How many requests have had their effect: the one being handled counts. */
  function Stored(s: Sys): nat {
    s.next + if s.loop in {Waiting, Ended} then 0 else 1
  }
}
