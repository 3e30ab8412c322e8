/** What the requests on the wire make of a session. */
module SessionWire {
  import opened Wrappers
  import opened Bytes
  import opened Wire
  import opened SessionRequests
  import opened Session
  import opened SessionProofs

  // ----- Requests -----

  /** The request asks for a terminal of this name and size. */
  ghost predicate AsksPty(r: Request, term: seq<byte>, size: Size) {
    && r.kind == "pty-req" && |term| < U32
    && exists width, height ::
         PutU32(|term|) + term + PutU32(size.cols) + PutU32(size.rows) + PutU32(width) + PutU32(height)
         <= r.payload
  }

  /** The request reports a new size. */
  ghost predicate AsksResize(r: Request, size: Size) {
    && r.kind == "window-change"
    && exists width, height ::
         PutU32(size.cols) + PutU32(size.rows) + PutU32(width) + PutU32(height) <= r.payload
  }

  lemma DecodePtyIff(r: Request, term: seq<byte>, size: Size)
    ensures Decode(r) == StorePty(term, size) <==> AsksPty(r, term, size)
  {
    if r.kind == "pty-req" && Decode(r) == StorePty(term, size) {
      var p := ParsePtyReq(r.payload).value;
      PtyIff(r.payload, p);
      PtyLayout(p);
    }
    if AsksPty(r, term, size) {
      var width, height :|
        PutU32(|term|) + term + PutU32(size.cols) + PutU32(size.rows) + PutU32(width) + PutU32(height)
        <= r.payload;
      var p := Pty(term, width, height, size.cols, size.rows);
      PtyLayout(p);
      PtyIff(r.payload, p);
    }
  }

  lemma DecodeResizeIff(r: Request, size: Size)
    ensures Decode(r) == Resize(size) <==> AsksResize(r, size)
  {
    if r.kind == "window-change" && Decode(r) == Resize(size) {
      var w := ParseWindowChange(r.payload).value;
      WindowChangeIff(r.payload, w);
      WindowChangeLayout(w);
    }
    if AsksResize(r, size) {
      var width, height :|
        PutU32(size.cols) + PutU32(size.rows) + PutU32(width) + PutU32(height) <= r.payload;
      var w := WindowChange(size.cols, size.rows, width, height);
      WindowChangeLayout(w);
      WindowChangeIff(r.payload, w);
    }
  }

  /** The request starts this command. */
  ghost predicate Asks(r: Request, command: Command) {
    match command
    case Shell => r.kind == "shell"
    case Exec(line) => r.kind == "exec" && (StartsWith(r.payload, line) || (line == [] && NoString(r.payload)))
    case Sftp => r.kind == "subsystem" && StartsWith(r.payload, [0x73, 0x66, 0x74, 0x70])
  }

  lemma DecodeShellIff(r: Request)
    ensures Decode(r) == Spawn(Shell) <==> r.kind == "shell"
  {
  }

  lemma DecodeExecIff(r: Request, line: seq<byte>)
    ensures Decode(r) == Spawn(Exec(line)) <==> r.kind == "exec" && ExecPayload(r.payload) == line
  {
  }

  lemma DecodeSftpIff(r: Request)
    ensures Decode(r) == Spawn(Sftp) <==> r.kind == "subsystem" && SubsystemName(r.payload) == SFTP
  {
  }

  lemma DecodeSpawnIff(r: Request, command: Command)
    ensures Decode(r) == Spawn(command) <==> Asks(r, command)
  {
    match command
    case Shell => DecodeShellIff(r);
    case Exec(line) =>
      DecodeExecIff(r, line);
      ExecIff(r.payload, line);
    case Sftp =>
      DecodeSftpIff(r);
      ExecIff(r.payload, [0x73, 0x66, 0x74, 0x70]);
  }

  /**
    What the request loop answers by itself is yes to env and signal and to a terminal that parses,
    and no to a size, an unknown kind or subsystem, and a second command; the agent has its own say.
   */
  lemma LoopAnswersIff(r: Request, ok: bool)
    requires LoopAnswers(Decode(r), ok) && r.kind != "auth-agent-req@openssh.com"
    ensures ok <==> r.kind == "env" || r.kind == "signal" || exists term, size :: AsksPty(r, term, size)
  {
    if Decode(r).StorePty? {
      DecodePtyIff(r, Decode(r).term, Decode(r).size);
    }
    forall term, size
      ensures AsksPty(r, term, size) ==> Decode(r).StorePty?
    {
      DecodePtyIff(r, term, size);
    }
  }

  /** The reply to an agent request is what the server's agent support says. */
  lemma AgentAnswer(inbox: seq<Incoming>, s: Sys, granted: bool)
    requires LoopEnabled(inbox, s, Handle(granted)) && inbox[s.next].action == ForwardAgent
    ensures LoopDo(inbox, s, Handle(granted)).loop == Answer(granted)
  {
  }

  // ----- Published sizes -----

  /** The size that a request carries. */
  function SizeOf(action: Action): Option<Size> {
    match action
    case StorePty(_, size) => Some(size)
    case Resize(size) => Some(size)
    case _ => None
  }

  /** The sizes that the first `k` requests carry, in order. */
  function Sizes(inbox: seq<Incoming>, k: nat): seq<Size>
    requires k <= |inbox|
  {
    if k == 0 then []
    else
      var size := SizeOf(inbox[k - 1].action);
      Sizes(inbox, k - 1) + if size.Some? then [size.value] else []
  }

  /** How many requests are past the point where they publish. */
  function Past(s: Sys): nat {
    s.next + if s.loop.Answer? then 1 else 0
  }

  /** The sizes published are those of the requests that are past it. */
  ghost predicate PublishedInv(inbox: seq<Incoming>, s: Sys) {
    && Past(s) <= |inbox| && s.published == Sizes(inbox, Past(s))
    && (s.loop.Drain? || s.loop.Send? ==>
          s.next < |inbox| && Sizes(inbox, s.next + 1) == Sizes(inbox, s.next) + [s.loop.size])
  }

  /** A request with a size is about to publish it; any other is past that point. */
  lemma HandleSizes(inbox: seq<Incoming>, s: Sys, granted: bool)
    requires LoopEnabled(inbox, s, Handle(granted))
    ensures
      var s' := LoopDo(inbox, s, Handle(granted));
      && s'.published == s.published
      && (if SizeOf(inbox[s.next].action).Some?
          then s'.loop.Drain? && s'.loop.size == SizeOf(inbox[s.next].action).value && s'.next == s.next
          else !s'.loop.Drain? && !s'.loop.Send? && Past(s') == s.next + 1)
  {
  }

  lemma PublishedKeptHandle(inbox: seq<Incoming>, s: Sys, granted: bool)
    requires PublishedInv(inbox, s) && LoopEnabled(inbox, s, Handle(granted))
    ensures PublishedInv(inbox, LoopDo(inbox, s, Handle(granted)))
  {
    HandleSizes(inbox, s, granted);
  }

  lemma PublishedKeptLoop(inbox: seq<Incoming>, s: Sys, a: LoopStep)
    requires PublishedInv(inbox, s) && SlotInv(inbox, s) && LoopEnabled(inbox, s, a)
    ensures PublishedInv(inbox, LoopDo(inbox, s, a))
  {
    if a.Handle? {
      PublishedKeptHandle(inbox, s, a.granted);
    } else {
      LoopFrame(inbox, s, a);
    }
  }

  lemma PublishedKept(inbox: seq<Incoming>, s: Sys, a: Step)
    requires PublishedInv(inbox, s) && SlotInv(inbox, s) && Enabled(inbox, s, a)
    ensures PublishedInv(inbox, Do(inbox, s, a))
  {
    match a
    case OfLoop(l) => PublishedKeptLoop(inbox, s, l);
    case OfCommand(c) => CommandFrame(inbox, s, c);
    case OfApplier(p) => ApplierFrame(s, p);
  }

  /**
    On every run the published sizes are those of the pty and resize requests that are past their
    publication, in order; the one in hand is not among them while it is being published.
   */
  lemma {:induction false} PublishedAre(inbox: seq<Incoming>, steps: seq<Step>)
    requires Run(inbox, steps).Some?
    ensures PublishedInv(inbox, Run(inbox, steps).value)
  {
    if steps != [] {
      var before := steps[..|steps| - 1];
      PublishedAre(inbox, before);
      RunChannel(inbox, before);
      PublishedKept(inbox, Run(inbox, before).value, steps[|steps| - 1]);
    }
  }

  /** The request carries this size. */
  ghost predicate Carries(r: Request, size: Size) {
    AsksResize(r, size) || exists term :: AsksPty(r, term, size)
  }

  /** Request `k` is the last of the first `n` to carry a size, and carries this one. */
  ghost predicate LastSize(requests: seq<Request>, n: nat, k: nat, size: Size)
    requires n <= |requests|
  {
    && k < n && Carries(requests[k], size)
    && forall j, other :: k < j < n ==> !Carries(requests[j], other)
  }

  lemma CarriesIff(r: Request, size: Size)
    ensures Carries(r, size) <==> SizeOf(Decode(r)) == Some(size)
  {
    DecodeResizeIff(r, size);
    if Decode(r).StorePty? {
      DecodePtyIff(r, Decode(r).term, size);
    }
    if term :| AsksPty(r, term, size) {
      DecodePtyIff(r, term, size);
    }
  }

  /** The last request that carries a size gives the last one. */
  lemma {:induction false} LastOfSizes(inbox: seq<Incoming>, n: nat, k: nat, size: Size)
    requires k < n <= |inbox| && SizeOf(inbox[k].action) == Some(size)
    requires forall j :: k < j < n ==> SizeOf(inbox[j].action) == None
    ensures Sizes(inbox, n) != [] && Sizes(inbox, n)[|Sizes(inbox, n)| - 1] == size
  {
    if k < n - 1 {
      LastOfSizes(inbox, n - 1, k, size);
    }
  }

  lemma {:induction false} NoSizes(inbox: seq<Incoming>, n: nat)
    requires n <= |inbox| && forall j :: 0 <= j < n ==> SizeOf(inbox[j].action) == None
    ensures Sizes(inbox, n) == []
  {
    if n > 0 {
      NoSizes(inbox, n - 1);
    }
  }

  /** No request on the wire carries a size if none is stored. */
  lemma CarriesOnInbox(requests: seq<Request>, j: nat)
    requires j < |requests|
    ensures SizeOf(Inbox(requests)[j].action) == None <==> forall size :: !Carries(requests[j], size)
  {
    forall size { CarriesIff(requests[j], size); }
    var carried := SizeOf(Decode(requests[j]));
    assert carried.Some? ==> Carries(requests[j], carried.value);
  }

  /** On the wire: no size is published unless a request that is past its publication carries one. */
  lemma NothingPublished(requests: seq<Request>, steps: seq<Step>, s: Sys)
    requires Run(Inbox(requests), steps) == Some(s) && Past(s) <= |requests|
    requires forall j, size :: 0 <= j < Past(s) ==> !Carries(requests[j], size)
    ensures s.published == []
  {
    PublishedAre(Inbox(requests), steps);
    forall j | 0 <= j < Past(s)
      ensures SizeOf(Inbox(requests)[j].action) == None
    {
      CarriesOnInbox(requests, j);
    }
    NoSizes(Inbox(requests), Past(s));
  }

  lemma LastPublished(requests: seq<Request>, steps: seq<Step>, s: Sys, k: nat, size: Size)
    requires Run(Inbox(requests), steps) == Some(s) && Past(s) <= |requests|
    requires LastSize(requests, Past(s), k, size)
    ensures s.published != [] && s.published[|s.published| - 1] == size
  {
    var inbox := Inbox(requests);
    PublishedAre(inbox, steps);
    CarriesIff(requests[k], size);
    forall j | k < j < Past(s)
      ensures SizeOf(inbox[j].action) == None
    {
      CarriesOnInbox(requests, j);
    }
    LastOfSizes(inbox, Past(s), k, size);
  }

  /** The slot is empty and neither side is at work. */
  predicate Resting(s: Sys) {
    s.slot == None && !s.loop.Send? && !s.applier.Holding?
  }

  /** The terminal was last set to this size. */
  predicate SetTo(s: Sys, size: Size) {
    && s.applied != [] && s.applied[|s.applied| - 1] < |s.published|
    && Winsize(s.published[s.applied[|s.applied| - 1]]) == size
  }

  /** What the mailbox leaves at rest. */
  lemma AtRest(s: Sys)
    requires InOrder(s) && Resting(s) && s.published != []
    ensures
      var asked := s.published[|s.published| - 1];
      SetTo(s, Size(asked.cols % 0x1_0000, asked.rows % 0x1_0000))
  {
    assert AppliedSizes(s)[|s.applied| - 1] == Winsize(s.published[|s.published| - 1]);
  }

  /** The state after a run, and the number of requests past their publication. */
  lemma PastRequests(requests: seq<Request>, steps: seq<Step>)
    requires Run(Inbox(requests), steps).Some?
    ensures Past(Run(Inbox(requests), steps).value) <= |requests|
  {
    PublishedAre(Inbox(requests), steps);
  }

  /**
    When the slot is empty and neither side is at work, the terminal was last set to the size of the
    last pty or window-change request that carries one, in 16 bits.
   */
  lemma TerminalSize(requests: seq<Request>, steps: seq<Step>, s: Sys, k: nat, size: Size)
    requires Run(Inbox(requests), steps) == Some(s) && Resting(s) && Past(s) <= |requests|
    requires LastSize(requests, Past(s), k, size)
    ensures SetTo(s, Size(size.cols % 0x1_0000, size.rows % 0x1_0000))
  {
    LastPublished(requests, steps, s, k, size);
    Mailbox(Inbox(requests), steps);
    AtRest(s);
  }

  // ----- The terminal -----

  lemma {:induction false} TermStored(inbox: seq<Incoming>, n: nat, k: nat)
    requires k < n <= |inbox| && inbox[k].action.StorePty?
    requires forall j :: k < j < n ==> !inbox[j].action.StorePty?
    ensures StateAfter(inbox, n).pty && StateAfter(inbox, n).term == inbox[k].action.term
  {
    if k < n - 1 {
      TermStored(inbox, n - 1, k);
    }
  }

  lemma {:induction false} NoTermStored(inbox: seq<Incoming>, n: nat)
    requires n <= |inbox| && forall j :: 0 <= j < n ==> !inbox[j].action.StorePty?
    ensures !StateAfter(inbox, n).pty && StateAfter(inbox, n).term == []
  {
    if n > 0 {
      NoTermStored(inbox, n - 1);
    }
  }

  /** The request asks for some terminal. */
  ghost predicate AsksSomePty(r: Request) {
    exists term, size :: AsksPty(r, term, size)
  }

  lemma AsksSomePtyIff(r: Request)
    ensures AsksSomePty(r) <==> Decode(r).StorePty?
  {
    if Decode(r).StorePty? {
      DecodePtyIff(r, Decode(r).term, Decode(r).size);
    }
    if AsksSomePty(r) {
      var term, size :| AsksPty(r, term, size);
      DecodePtyIff(r, term, size);
    }
  }

  /** A command starts on a terminal of the kind that the last pty-req before its snapshot names. */
  lemma StartTerminal(requests: seq<Request>, steps: seq<Step>, e: Event, k: nat, term: seq<byte>, size: Size)
    requires Run(Inbox(requests), steps).Some?
    requires e in Run(Inbox(requests), steps).value.events && e.Started? && e.at <= |requests|
    requires k < e.at && AsksPty(requests[k], term, size)
    requires forall j :: k < j < e.at ==> !AsksSomePty(requests[j])
    ensures e.params.pty && e.params.term == term
  {
    StartParameters(Inbox(requests), steps, e);
    DecodePtyIff(requests[k], term, size);
    forall j | k < j < e.at
      ensures !Inbox(requests)[j].action.StorePty?
    {
      AsksSomePtyIff(requests[j]);
    }
    TermStored(Inbox(requests), e.at, k);
  }

  /** Without such a request it starts on none. */
  lemma StartWithoutTerminal(requests: seq<Request>, steps: seq<Step>, e: Event)
    requires Run(Inbox(requests), steps).Some?
    requires e in Run(Inbox(requests), steps).value.events && e.Started? && e.at <= |requests|
    requires forall j :: 0 <= j < e.at ==> !AsksSomePty(requests[j])
    ensures !e.params.pty && e.params.term == []
  {
    StartParameters(Inbox(requests), steps, e);
    forall j | 0 <= j < e.at
      ensures !Inbox(requests)[j].action.StorePty?
    {
      AsksSomePtyIff(requests[j]);
    }
    NoTermStored(Inbox(requests), e.at);
  }

  // ----- The command -----

  /** The command in the goroutine's hands, if it still holds it. */
  function Held(c: CommandPc): Option<Command> {
    match c
    case Begin(_, command) => Some(command)
    case Ready(_, command, _, _) => Some(command)
    case Accepting(_, command, _, _) => Some(command)
    case Launching(_, command, _, _) => Some(command)
    case _ => None
  }

  ghost predicate CommandInv(inbox: seq<Incoming>, s: Sys) {
    && (Held(s.command).Some? ==>
          s.command.i < |inbox| && inbox[s.command.i].action == Spawn(Held(s.command).value))
    && (s.command.Launching? ==> s.command.command != Sftp)
    && (forall e :: e in s.events && e.Started? ==>
          s.command != NoCommand && s.command.i < |inbox| && inbox[s.command.i].action == Spawn(e.command))
    && (s.command.Running? && s.events != [] && s.events[0].Started? ==>
          (s.command.pty <==> s.events[0].params.pty && s.events[0].command != Sftp))
  }

  lemma CommandKeptCommand(inbox: seq<Incoming>, s: Sys, a: CommandStep)
    requires CommandInv(inbox, s) && EventInv(s) && CommandEnabled(inbox, s, a)
    ensures CommandInv(inbox, CommandDo(inbox, s, a))
  {
    var s' := CommandDo(inbox, s, a);
    CommandFrame(inbox, s, a);
    if a.SftpStarts? || a.Launch? {
      assert s'.events == s.events + [Started(s.command.command, s.command.params, s.command.at)];
    }
    forall e | e in s'.events && e.Started?
      ensures e in s.events || (Held(s.command) == Some(e.command))
    {
    }
  }

  lemma CommandKeptHandle(inbox: seq<Incoming>, s: Sys, granted: bool)
    requires CommandInv(inbox, s) && EventInv(s) && SlotInv(inbox, s) && LoopEnabled(inbox, s, Handle(granted))
    ensures CommandInv(inbox, LoopDo(inbox, s, Handle(granted)))
  {
    HandleFrame(inbox, s, granted);
  }

  lemma CommandKept(inbox: seq<Incoming>, s: Sys, a: Step)
    requires CommandInv(inbox, s) && EventInv(s) && SlotInv(inbox, s) && Enabled(inbox, s, a)
    ensures CommandInv(inbox, Do(inbox, s, a))
  {
    match a
    case OfLoop(l) =>
      if l.Handle? {
        CommandKeptHandle(inbox, s, l.granted);
      } else {
        LoopFrame(inbox, s, l);
      }
    case OfCommand(c) => CommandKeptCommand(inbox, s, c);
    case OfApplier(p) => ApplierFrame(s, p);
  }

  lemma {:induction false} RunCommand(inbox: seq<Incoming>, steps: seq<Step>)
    requires Run(inbox, steps).Some?
    ensures CommandInv(inbox, Run(inbox, steps).value)
  {
    if steps != [] {
      var before := steps[..|steps| - 1];
      RunCommand(inbox, before);
      RunEvents(inbox, before);
      RunChannel(inbox, before);
      CommandKept(inbox, Run(inbox, before).value, steps[|steps| - 1]);
    }
  }

  /** The command that starts is the one that the first request for any command asks for. */
  lemma StartedCommand(requests: seq<Request>, steps: seq<Step>, e: Event)
    requires Run(Inbox(requests), steps).Some?
    requires e in Run(Inbox(requests), steps).value.events && e.Started?
    ensures exists i :: 0 <= i < |requests| && Asks(requests[i], e.command)
                        && forall j, other :: 0 <= j < i ==> !Asks(requests[j], other)
  {
    var inbox := Inbox(requests);
    RunCommand(inbox, steps);
    RunChannel(inbox, steps);
    var i := Run(inbox, steps).value.command.i;
    DecodeSpawnIff(requests[i], e.command);
    forall j, other | 0 <= j < i
      ensures !Asks(requests[j], other)
    {
      DecodeSpawnIff(requests[j], other);
      assert !IsSpawn(inbox, j);
    }
  }

  lemma TerminalOf(inbox: seq<Incoming>, s: Sys)
    requires CommandInv(inbox, s) && EventInv(s) && PtyInv(s) && s.command.Running?
    ensures |s.events| == 1 && s.events[0].Started?
    ensures s.ptmxOpen <==> s.events[0].params.pty && s.events[0].command != Sftp
    ensures s.ptmxOpen <==> s.applier.Selecting? || s.applier.Holding?
  {
  }

  lemma RunPty(inbox: seq<Incoming>, steps: seq<Step>)
    requires Run(inbox, steps).Some?
    ensures PtyInv(Run(inbox, steps).value)
  {
    RunInv(inbox, steps);
  }

  /**
    While the command runs, it has a terminal that sizes are applied to exactly when it is a shell
    or a command line that started with one.
   */
  lemma RunningTerminal(inbox: seq<Incoming>, steps: seq<Step>)
    requires Run(inbox, steps).Some? && Run(inbox, steps).value.command.Running?
    ensures
      var s := Run(inbox, steps).value;
      && |s.events| == 1 && s.events[0].Started?
      && (s.ptmxOpen <==> s.events[0].params.pty && s.events[0].command != Sftp)
      && (s.ptmxOpen <==> s.applier.Selecting? || s.applier.Holding?)
  {
    RunCommand(inbox, steps);
    RunEvents(inbox, steps);
    RunPty(inbox, steps);
    TerminalOf(inbox, Run(inbox, steps).value);
  }

  // ----- The reply to the command -----

  predicate Undecided(c: CommandPc) {
    c.NoCommand? || c.Begin? || c.Ready? || c.Rejecting? || c.Accepting?
  }

  /** The claimed request is answered by the acceptance or the rejection, and as these say. */
  ghost predicate DecisionInv(steps: seq<Step>, s: Sys) {
    && (Undecided(s.command) ==> OfCommand(Accept) !in steps)
    && (forall r :: r in s.replies ==> r.index < s.next)
    && (forall r :: r in s.replies && Claimed(s.command) == Some(r.index) ==>
          !Undecided(s.command) && (r.ok <==> OfCommand(Accept) in steps))
  }

  lemma DecisionKeptCommand(inbox: seq<Incoming>, steps: seq<Step>, s: Sys, a: CommandStep)
    requires DecisionInv(steps, s) && SlotInv(inbox, s) && CommandEnabled(inbox, s, a)
    ensures DecisionInv(steps + [OfCommand(a)], CommandDo(inbox, s, a))
  {
    CommandFrame(inbox, s, a);
    var s' := CommandDo(inbox, s, a);
    if a.Reject? || a.Accept? {
      assert s'.replies == s.replies || s'.replies == s.replies + [Reply(s.command.i, a.Accept?)];
    } else {
      assert s'.replies == s.replies;
    }
  }

  lemma DecisionKeptLoop(inbox: seq<Incoming>, steps: seq<Step>, s: Sys, a: LoopStep)
    requires DecisionInv(steps, s) && SlotInv(inbox, s) && LoopEnabled(inbox, s, a)
    ensures DecisionInv(steps + [OfLoop(a)], LoopDo(inbox, s, a))
  {
    if a.Handle? {
      HandleFrame(inbox, s, a.granted);
    } else {
      LoopFrame(inbox, s, a);
      if a.Respond? {
        var s' := LoopDo(inbox, s, a);
        assert s'.replies == s.replies || s'.replies == s.replies + [Reply(s.next, s.loop.ok)];
      }
    }
  }

  lemma LastDecisionKept(inbox: seq<Incoming>, steps: seq<Step>, s: Sys)
    requires steps != [] && DecisionInv(steps[..|steps| - 1], s) && SlotInv(inbox, s)
    requires Enabled(inbox, s, steps[|steps| - 1])
    ensures DecisionInv(steps, Do(inbox, s, steps[|steps| - 1]))
  {
    var before, a := steps[..|steps| - 1], steps[|steps| - 1];
    assert before + [a] == steps;
    match a
    case OfLoop(l) => DecisionKeptLoop(inbox, before, s, l);
    case OfCommand(c) => DecisionKeptCommand(inbox, before, s, c);
    case OfApplier(p) => ApplierFrame(s, p);
  }

  lemma {:induction false} RunDecision(inbox: seq<Incoming>, steps: seq<Step>)
    requires Run(inbox, steps).Some?
    ensures DecisionInv(steps, Run(inbox, steps).value)
  {
    if steps != [] {
      var before := steps[..|steps| - 1];
      RunDecision(inbox, before);
      RunChannel(inbox, before);
      LastDecisionKept(inbox, steps, Run(inbox, before).value);
    }
  }

  /** The reply to the command's request says yes exactly when the command was accepted. */
  lemma CommandReply(inbox: seq<Incoming>, steps: seq<Step>, r: Reply)
    requires Run(inbox, steps).Some? && r in Run(inbox, steps).value.replies
    requires Claimed(Run(inbox, steps).value.command) == Some(r.index)
    ensures r.ok <==> OfCommand(Accept) in steps
  {
    RunDecision(inbox, steps);
  }

  // ----- How a command fails to start -----

  /**
    Without an executable of its own to run, sftp ends with 127, without a user with 1, without a
    pipe with 1, without a process with 127; a shell or command line without a user or a terminal or
    a pipe ends with 1, and without a process with 127, unless it is on a terminal.
   */
  lemma FailureCodes(inbox: seq<Incoming>, s: Sys, f: nat)
    ensures CommandEnabled(inbox, s, FailEarly(f)) <==>
              s.command.Begin? && s.command.command == Sftp && (f == 1 || f == 127)
    ensures CommandEnabled(inbox, s, SftpFails(f)) <==>
              s.command.Ready? && s.command.command == Sftp && (f == 1 || f == 127)
    ensures CommandEnabled(inbox, s, BuildFails) <==> s.command.Ready? && s.command.command != Sftp
    ensures CommandEnabled(inbox, s, LaunchFails(f)) <==>
              s.command.Launching? && (f == 1 || (f == 127 && !s.command.params.pty))
    ensures s.command.Ready? && s.command.command != Sftp ==>
              CommandDo(inbox, s, BuildFails).command == Rejecting(s.command.i, 1)
  {
  }
}
