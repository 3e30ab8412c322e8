/**
  Remote port forwards (agent/forward.go; sections 7.1 and 7.2 of RFC 4254): a table from
  "addr:port" keys to listeners, and the set of listeners that the operating system has open.
 */
module Forwards {
  import opened Wrappers

  // ----- Keys -----

  function Decimal(n: nat): (s: string)
    ensures s != "" && forall c :: c in s ==> '0' <= c <= '9'
  {
    var last := ['0' + (n % 10) as char];
    if n < 10 then last else Decimal(n / 10) + last
  }

  /** `net.JoinHostPort`: a host with a colon is bracketed. */
  function JoinHostPort(host: string, port: string): string {
    if ':' in host then ['['] + host + [']', ':'] + port else host + [':'] + port
  }

  function ForwardKey(addr: string, port: nat): string {
    JoinHostPort(addr, Decimal(port))
  }

  lemma {:induction false} DecimalInjective(a: nat, b: nat)
    requires Decimal(a) == Decimal(b)
    ensures a == b
  {
    var s, t := Decimal(a), Decimal(b);
    assert s[|s| - 1] == '0' + (a % 10) as char;
    assert t[|t| - 1] == '0' + (b % 10) as char;
    assert a >= 10 ==> |s| == |Decimal(a / 10)| + 1;
    assert b >= 10 ==> |t| == |Decimal(b / 10)| + 1;
    if a >= 10 && b >= 10 {
      assert s[..|s| - 1] == Decimal(a / 10);
      assert t[..|t| - 1] == Decimal(b / 10);
      DecimalInjective(a / 10, b / 10);
    }
  }

  lemma ColonInTail(x: string, d: string, y: string, e: string)
    requires x + [':'] + d == y + [':'] + e && |x| < |y|
    ensures ':' in d
  {
    assert (x + [':'] + d)[|y|] == d[|y| - |x| - 1];
    assert (y + [':'] + e)[|y|] == ':';
  }

  /** A string is split at its last colon in one way only. */
  lemma LastColon(x: string, d: string, y: string, e: string)
    requires x + [':'] + d == y + [':'] + e
    requires ':' !in d && ':' !in e
    ensures x == y && d == e
  {
    var s, t := x + [':'] + d, y + [':'] + e;
    if |x| < |y| {
      ColonInTail(x, d, y, e);
    } else if |y| < |x| {
      ColonInTail(y, e, x, d);
    } else {
      assert s[..|x|] == x && t[..|y|] == y;
      assert s[|x| + 1..] == d && t[|y| + 1..] == e;
    }
  }

  /** The host part of a key. */
  function HostPart(addr: string): string {
    if ':' in addr then ['['] + addr + [']'] else addr
  }

  lemma KeyParts(addr: string, port: nat)
    ensures ForwardKey(addr, port) == HostPart(addr) + [':'] + Decimal(port)
    ensures ':' !in Decimal(port)
  {
  }

  lemma HostColon(a: string)
    ensures ':' in HostPart(a) <==> ':' in a
  {
    if ':' in a {
      var i :| 0 <= i < |a| && a[i] == ':';
      assert HostPart(a)[i + 1] == ':';
    }
  }

  lemma HostInjective(a: string, b: string)
    requires HostPart(a) == HostPart(b)
    ensures a == b
  {
    var s, t := HostPart(a), HostPart(b);
    HostColon(a);
    HostColon(b);
    if ':' in a && ':' in b {
      assert s[1..|s| - 1] == a && t[1..|t| - 1] == b;
    }
  }

  /** Distinct forwards have distinct keys. */
  lemma ForwardKeyInjective(a: string, p: nat, b: string, q: nat)
    requires ForwardKey(a, p) == ForwardKey(b, q)
    ensures a == b && p == q
  {
    KeyParts(a, p);
    KeyParts(b, q);
    LastColon(HostPart(a), Decimal(p), HostPart(b), Decimal(q));
    HostInjective(a, b);
    DecimalInjective(p, q);
  }

  // ----- Requests on values -----

  datatype Listener = Listener(addr: string, port: nat)

  /** A decoded tcpip-forward or cancel-tcpip-forward payload. */
  datatype Forward = Forward(addr: string, port: nat)

  datatype Table = Table(ln: map<string, Listener>, open: set<Listener>)

  /** What the client is told: a port only when it asked for port 0. */
  datatype Answer = Silent | Refused | Granted(port: Option<nat>)

  /**
    What listening may yield: a refusal, or a bound port that is the requested one when a port
    was requested and that is not already open at this address.
   */
  predicate MayBind(open: set<Listener>, f: Forward, bound: Option<nat>) {
    bound.Some? ==>
      && bound.value != 0
      && (f.port != 0 ==> bound.value == f.port)
      && Listener(f.addr, bound.value) !in open
  }

  function Listen(t: Table, f: Forward, port: nat): Table {
    t.(open := t.open + {Listener(f.addr, port)})
  }

  function Register(t: Table, l: Listener): Table {
    t.(ln := t.ln[ForwardKey(l.addr, l.port) := l])
  }

  function Unregister(t: Table, f: Forward): Table {
    t.(ln := t.ln - {ForwardKey(f.addr, f.port)})
  }

  function CloseListener(t: Table, l: Listener): Table {
    t.(open := t.open - {l})
  }

  /** A tcpip-forward request from start to end; `None` is a payload that does not decode. */
  function Started(t: Table, request: Option<Forward>, bound: Option<nat>): Table {
    if request.None? || bound.None? then t
    else Register(Listen(t, request.value, bound.value), Listener(request.value.addr, bound.value))
  }

  function Cancelled(t: Table, request: Option<Forward>): Table {
    if request.None? then t
    else
      var key := ForwardKey(request.value.addr, request.value.port);
      var t' := Unregister(t, request.value);
      if key in t.ln then CloseListener(t', t.ln[key]) else t'
  }

  // ----- The object -----

  class RemoteForwards {
    var ln: map<string, Listener>
    var open: set<Listener>  // the operating system's view

    function State(): Table
      reads this
    {
      Table(ln, open)
    }

    constructor ()
      ensures State() == Table(map[], {})
    {
      ln, open := map[], {};
    }

    /** `bound` is what the operating system does with the listen call. */
    method Start(request: Option<Forward>, wantReply: bool, bound: Option<nat>) returns (answer: Answer)
      requires request.Some? ==> MayBind(open, request.value, bound)
      modifies this
      ensures State() == Started(old(State()), request, bound)
      ensures answer ==
              if !wantReply then Silent
              else if request.None? || bound.None? then Refused
              else Granted(if request.value.port == 0 then bound else None)
    {
      if request.None? || bound.None? {
        return if wantReply then Refused else Silent;
      }
      var f := request.value;
      var l := Listener(f.addr, bound.value);
      open := open + {l};
      answer := Silent;
      if wantReply {
        answer := Granted(None);
        if f.port == 0 {
          answer := Granted(Some(l.port));
        }
      }
      ln := ln[ForwardKey(f.addr, l.port) := l];
    }

    method Cancel(request: Option<Forward>, wantReply: bool) returns (answer: Answer)
      modifies this
      ensures State() == Cancelled(old(State()), request)
      ensures answer == if !wantReply then Silent else if request.None? then Refused else Granted(None)
    {
      if request.None? {
        return if wantReply then Refused else Silent;
      }
      var key := ForwardKey(request.value.addr, request.value.port);
      var found := if key in ln then Some(ln[key]) else None;
      ln := ln - {key};
      if found.Some? {
        open := open - {found.value};
      }
      return if wantReply then Granted(None) else Silent;
    }

    /** Every listener of the table is closed and forgotten. */
    method CloseAll()
      modifies this
      ensures State() == Table(map[], old(open) - old(ln.Values))
    {
      ghost var ln0, open0 := ln, open;
      while ln != map[]
        invariant ln.Keys <= ln0.Keys && forall k :: k in ln ==> ln[k] == ln0[k]
        invariant open == open0 - (set k | k in ln0 && k !in ln :: ln0[k])
        decreases |ln|
      {
        var key :| key in ln;
        open := open - {ln[key]};
        ghost var before := ln;
        ln := ln - {key};
        assert ln.Keys == before.Keys - {key};
        assert |ln.Keys| < |before.Keys|;
      }
      assert (set k | k in ln0 && k !in ln :: ln0[k]) == ln0.Values;
    }
  }

  // ----- Requests one after the other -----

  /** Every entry is keyed by its own address and bound port. */
  ghost predicate Keyed(t: Table) {
    forall k :: k in t.ln ==> k == ForwardKey(t.ln[k].addr, t.ln[k].port)
  }

  /** The open listeners are exactly the table's values. */
  ghost predicate Consistent(t: Table) {
    Keyed(t) && t.open == t.ln.Values
  }

  lemma RegisterKeeps(t: Table, l: Listener)
    requires Keyed(t) && l !in t.ln.Values
    ensures Keyed(Register(t, l)) && Register(t, l).ln.Values == t.ln.Values + {l}
  {
    var k := ForwardKey(l.addr, l.port);
    assert forall j :: j in t.ln ==> t.ln[j] in t.ln.Values;
    if k in t.ln {
      ForwardKeyInjective(l.addr, l.port, t.ln[k].addr, t.ln[k].port);
    }
    var ln' := Register(t, l).ln;
    assert ln'[k] == l;
    forall x
      ensures x in ln'.Values <==> x in t.ln.Values + {l}
    {
      if x in t.ln.Values {
        var j :| j in t.ln && t.ln[j] == x;
        assert ln'[j] == x;
      }
      if x in ln'.Values {
        var j :| j in ln' && ln'[j] == x;
        assert j == k || t.ln[j] == x;
      }
    }
  }

  /** Dropping the key of a forward drops exactly that listener. */
  lemma UnregisterKeeps(t: Table, f: Forward)
    requires Keyed(t)
    ensures Keyed(Unregister(t, f))
    ensures Unregister(t, f).ln.Values == t.ln.Values - {Listener(f.addr, f.port)}
    ensures ForwardKey(f.addr, f.port) in t.ln ==>
              t.ln[ForwardKey(f.addr, f.port)] == Listener(f.addr, f.port)
    ensures ForwardKey(f.addr, f.port) in t.ln <==> Listener(f.addr, f.port) in t.ln.Values
  {
    var k := ForwardKey(f.addr, f.port);
    var l := Listener(f.addr, f.port);
    if k in t.ln {
      ForwardKeyInjective(f.addr, f.port, t.ln[k].addr, t.ln[k].port);
    }
    var ln' := Unregister(t, f).ln;
    forall x
      ensures x in ln'.Values <==> x in t.ln.Values && x != l
    {
      if x in t.ln.Values && x != l {
        var j :| j in t.ln && t.ln[j] == x;
        assert j != k;
        assert ln'[j] == x;
      }
      if x in ln'.Values {
        var j :| j in ln' && ln'[j] == x;
        assert t.ln[j] == x;
      }
    }
  }

  datatype Request = Start(request: Option<Forward>, bound: Option<nat>) | Cancel(request: Option<Forward>)

  /** The table after some requests, or `None` if the system calls could not go that way. */
  function Served(requests: seq<Request>): Option<Table> {
    if requests == [] then Some(Table(map[], {}))
    else
      var before, r := Served(requests[..|requests| - 1]), requests[|requests| - 1];
      if before.None? then None
      else
        match r
        case Start(request, bound) =>
          if request.Some? && !MayBind(before.value.open, request.value, bound) then None
          else Some(Started(before.value, request, bound))
        case Cancel(request) => Some(Cancelled(before.value, request))
  }

  /** However requests follow each other, the open listeners are exactly the table's values. */
  lemma {:induction false} AlwaysConsistent(requests: seq<Request>)
    requires Served(requests).Some?
    ensures Consistent(Served(requests).value)
  {
    if requests != [] {
      var before, r := requests[..|requests| - 1], requests[|requests| - 1];
      AlwaysConsistent(before);
      var t := Served(before).value;
      match r {
        case Start(request, bound) =>
          if request.Some? && bound.Some? {
            var l := Listener(request.value.addr, bound.value);
            RegisterKeeps(Listen(t, request.value, bound.value), l);
          }
        case Cancel(request) =>
          if request.Some? {
            CancelExact(t, request.value);
          }
      }
    }
  }

  /** A cancel closes exactly the listener it names and leaves every other one open. */
  lemma CancelExact(t: Table, f: Forward)
    requires Consistent(t)
    ensures Consistent(Cancelled(t, Some(f)))
    ensures Cancelled(t, Some(f)).open == t.open - {Listener(f.addr, f.port)}
  {
    UnregisterKeeps(t, f);
  }

  /** A start that can listen opens exactly the listener it was asked for, and registers it. */
  lemma StartExact(t: Table, f: Forward, port: nat)
    requires Consistent(t) && MayBind(t.open, f, Some(port))
    ensures
      var t' := Started(t, Some(f), Some(port));
      && Consistent(t')
      && t'.open == t.open + {Listener(f.addr, port)} && Listener(f.addr, port) !in t.open
      && t'.ln.Values == t.ln.Values + {Listener(f.addr, port)}
  {
    RegisterKeeps(Listen(t, f, port), Listener(f.addr, port));
  }

  /** What changes nothing: a payload that does not decode, and a listen call that fails. */
  lemma NothingStarted(t: Table, request: Option<Forward>, bound: Option<nat>)
    ensures Started(t, None, bound) == t && Started(t, request, None) == t && Cancelled(t, None) == t
  {
  }

  /** Request `k` has bound this listener, and no later one cancels it. */
  predicate OpenedBy(requests: seq<Request>, k: nat, l: Listener)
    requires k < |requests|
  {
    && requests[k].Start? && requests[k].request.Some? && requests[k].bound.Some?
    && l == Listener(requests[k].request.value.addr, requests[k].bound.value)
    && forall j :: k < j < |requests| ==> requests[j] != Cancel(Some(Forward(l.addr, l.port)))
  }

  lemma OpenedEarlier(requests: seq<Request>, l: Listener)
    requires requests != []
    ensures
      var before, r := requests[..|requests| - 1], requests[|requests| - 1];
      (exists k :: 0 <= k < |requests| && OpenedBy(requests, k, l)) <==>
        || OpenedBy(requests, |requests| - 1, l)
        || ((exists k :: 0 <= k < |before| && OpenedBy(before, k, l))
            && r != Cancel(Some(Forward(l.addr, l.port))))
  {
    var before := requests[..|requests| - 1];
    assert forall j :: 0 <= j < |before| ==> before[j] == requests[j];
    if k :| 0 <= k < |requests| && OpenedBy(requests, k, l) {
      assert k < |before| ==> OpenedBy(before, k, l);
    }
    if requests[|requests| - 1] != Cancel(Some(Forward(l.addr, l.port))) {
      if k :| 0 <= k < |before| && OpenedBy(before, k, l) {
        assert OpenedBy(requests, k, l);
      }
    }
  }

  /** A listener is open exactly when some start has bound it and no later cancel names it. */
  lemma {:induction false} OpenIff(requests: seq<Request>, l: Listener)
    requires Served(requests).Some?
    ensures l in Served(requests).value.open <==> exists k :: 0 <= k < |requests| && OpenedBy(requests, k, l)
  {
    if requests != [] {
      var before, r := requests[..|requests| - 1], requests[|requests| - 1];
      OpenIff(before, l);
      OpenedEarlier(requests, l);
      AlwaysConsistent(before);
      var t := Served(before).value;
      if r.Start? && r.request.Some? && r.bound.Some? {
        StartExact(t, r.request.value, r.bound.value);
      } else if r.Cancel? && r.request.Some? {
        CancelExact(t, r.request.value);
      }
    }
  }

  /**
    The port that a grant reports, or the requested one if none is reported, is the one to cancel:
    doing so right after the start undoes it, also for a port-0 request.
   */
  lemma CancelUndoesStart(t: Table, f: Forward, bound: nat)
    requires Consistent(t) && MayBind(t.open, f, Some(bound))
    ensures
      var reported := if f.port == 0 then bound else f.port;
      && reported == bound
      && Cancelled(Started(t, Some(f), Some(bound)), Some(Forward(f.addr, reported))) == t
  {
    var l := Listener(f.addr, bound);
    var key := ForwardKey(f.addr, bound);
    assert forall k :: k in t.ln ==> t.ln[k] in t.ln.Values;
    if key in t.ln {
      ForwardKeyInjective(f.addr, bound, t.ln[key].addr, t.ln[key].port);
    }
    assert t.ln[key := l] - {key} == t.ln;
    assert t.open + {l} - {l} == t.open;
  }

  // ----- Teardown against requests in progress -----

  /**
    What the request goroutine is doing when it does not hold the table's lock: nothing, about to
    act on a request it has received, about to register a listener it has opened, or about to
    close one it has unregistered.
   */
  datatype Thread = Idle | Received(r: Request) | Opened(l: Listener) | Dropped(l: Listener)

  /** `pending` are the requests that are queued for the goroutine, with what listening will yield. */
  datatype Conn = Conn(t: Table, thread: Thread, pending: seq<Request>)

  datatype Step = Arrive(r: Request) | Receive | Act | Insert | Shut | TearDown

  predicate Enabled(c: Conn, a: Step) {
    match a
    case Arrive(_) => true
    case Receive => c.thread == Idle && c.pending != []
    case Act =>
      && c.thread.Received?
      && (c.thread.r.Start? && c.thread.r.request.Some? ==>
            MayBind(c.t.open, c.thread.r.request.value, c.thread.r.bound))
    case Insert => c.thread.Opened?
    case Shut => c.thread.Dropped?
    case TearDown => true
  }

  /** The listener that a request binds, if it binds one. */
  function Binds(r: Request): Option<Listener> {
    if r.Start? && r.request.Some? && r.bound.Some?
    then Some(Listener(r.request.value.addr, r.bound.value)) else None
  }

  /** The listener that a request cancels, if it is a cancel that decodes. */
  function Names(r: Request): Option<Listener> {
    if r.Cancel? && r.request.Some? then Some(Listener(r.request.value.addr, r.request.value.port)) else None
  }

  /** The listen call of a start, or the table part of a cancel. */
  function ActOn(c: Conn, r: Request): Conn {
    match r
    case Start(request, bound) =>
      if request.None? || bound.None? then c.(thread := Idle)
      else c.(t := Listen(c.t, request.value, bound.value),
              thread := Opened(Listener(request.value.addr, bound.value)))
    case Cancel(request) =>
      if request.None? then c.(thread := Idle)
      else
        var key := ForwardKey(request.value.addr, request.value.port);
        c.(t := Unregister(c.t, request.value), thread := if key in c.t.ln then Dropped(c.t.ln[key]) else Idle)
  }

  function Do(c: Conn, a: Step): Conn
    requires Enabled(c, a)
  {
    match a
    case Arrive(r) => c.(pending := c.pending + [r])
    case Receive => c.(thread := Received(c.pending[0]), pending := c.pending[1..])
    case Act => ActOn(c, c.thread.r)
    case Insert => c.(t := Register(c.t, c.thread.l), thread := Idle)
    case Shut => c.(t := CloseListener(c.t, c.thread.l), thread := Idle)
    case TearDown => c.(t := Table(map[], c.t.open - c.t.ln.Values))
  }

  /**
    When nothing comes between, the steps of the request goroutine amount to serving the request:
    a start listens and registers, a cancel unregisters and closes.
   */
  lemma StepsServe(c: Conn)
    requires c.thread.Received? && Enabled(c, Act)
    ensures
      var d := Do(c, Act);
      var end := if d.thread.Opened? then Do(d, Insert) else if d.thread.Dropped? then Do(d, Shut) else d;
      && end.thread == Idle && end.pending == c.pending
      && end.t == match c.thread.r
                  case Start(request, bound) => Started(c.t, request, bound)
                  case Cancel(request) => Cancelled(c.t, request)
  {
  }

  function InFlight(c: Conn): set<Listener> {
    if c.thread.Opened? || c.thread.Dropped? then {c.thread.l} else {}
  }

  /** Open listeners are the table's values and the one in the request goroutine's hands. */
  ghost predicate Accounted(c: Conn) {
    && Keyed(c.t)
    && c.t.open == c.t.ln.Values + InFlight(c)
    && c.t.ln.Values !! InFlight(c)
  }

  lemma AccountedKept(c: Conn, a: Step)
    requires Accounted(c) && Enabled(c, a)
    ensures Accounted(Do(c, a))
  {
    match a
    case Arrive(_) =>
    case Receive =>
    case Act =>
      if c.thread.r.Cancel? && c.thread.r.request.Some? {
        UnregisterKeeps(c.t, c.thread.r.request.value);
      }
    case Insert => RegisterKeeps(c.t, c.thread.l);
    case Shut =>
    case TearDown =>
  }

  /** The state of a connection after an interleaving of requests and teardown. */
  function Run(steps: seq<Step>): Option<Conn> {
    if steps == [] then Some(Conn(Table(map[], {}), Idle, []))
    else
      var before := Run(steps[..|steps| - 1]);
      if before.None? || !Enabled(before.value, steps[|steps| - 1]) then None
      else Some(Do(before.value, steps[|steps| - 1]))
  }

  lemma {:induction false} AlwaysAccounted(steps: seq<Step>)
    requires Run(steps).Some?
    ensures Accounted(Run(steps).value)
  {
    if steps != [] {
      AlwaysAccounted(steps[..|steps| - 1]);
      AccountedKept(Run(steps[..|steps| - 1]).value, steps[|steps| - 1]);
    }
  }

  /** How far the goroutine still is from being idle. */
  function Rank(thread: Thread): nat {
    match thread
    case Idle => 0
    case Received(_) => 2
    case Opened(_) => 1
    case Dropped(_) => 1
  }

  /** The request goroutine's own next step. */
  function OwnStep(c: Conn): Step {
    match c.thread
    case Idle => Receive
    case Received(_) => Act
    case Opened(_) => Insert
    case Dropped(_) => Shut
  }

  /** The goroutine runs on until it has served everything, or `None` if a listen outcome is impossible. */
  function Drain(c: Conn): Option<Conn>
    decreases 3 * |c.pending| + Rank(c.thread)
  {
    if c.thread == Idle && c.pending == [] then Some(c)
    else if !Enabled(c, OwnStep(c)) then None
    else Drain(Do(c, OwnStep(c)))
  }

  /** The requests that have not yet touched the table or the operating system. */
  function Rest(c: Conn): seq<Request> {
    (if c.thread.Received? then [c.thread.r] else []) + c.pending
  }

  /** The listeners that stay open if nothing more is served. */
  function Standing(c: Conn): set<Listener> {
    c.t.ln.Values + if c.thread.Opened? then {c.thread.l} else {}
  }

  /** What is open after serving `rs` one after the other, when `open` was open before. */
  function Survivors(open: set<Listener>, rs: seq<Request>): set<Listener>
    decreases rs
  {
    if rs == [] then open
    else if Binds(rs[0]).Some? then Survivors(open + {Binds(rs[0]).value}, rs[1..])
    else if Names(rs[0]).Some? then Survivors(open - {Names(rs[0]).value}, rs[1..])
    else Survivors(open, rs[1..])
  }

  lemma ReceiveSurvivors(c: Conn)
    requires Enabled(c, Receive)
    ensures Rest(Do(c, Receive)) == Rest(c) && Standing(Do(c, Receive)) == Standing(c)
  {
  }

  lemma ActSurvivors(c: Conn)
    requires Accounted(c) && Enabled(c, Act)
    ensures Survivors(Standing(Do(c, Act)), Rest(Do(c, Act))) == Survivors(Standing(c), Rest(c))
  {
    var r, d := c.thread.r, Do(c, Act);
    assert Rest(c)[0] == r && Rest(c)[1..] == c.pending == Rest(d);
    if r.Cancel? && r.request.Some? {
      UnregisterKeeps(c.t, r.request.value);
      assert Standing(d) == Standing(c) - {Names(r).value};
    } else if Binds(r).Some? {
      assert Standing(d) == Standing(c) + {Binds(r).value};
    } else {
      assert Standing(d) == Standing(c);
    }
  }

  lemma OwnStepSurvivors(c: Conn)
    requires Accounted(c) && Enabled(c, OwnStep(c))
    ensures Survivors(Standing(Do(c, OwnStep(c))), Rest(Do(c, OwnStep(c)))) == Survivors(Standing(c), Rest(c))
  {
    match c.thread
    case Idle => ReceiveSurvivors(c);
    case Received(_) => ActSurvivors(c);
    case Opened(l) =>
      RegisterKeeps(c.t, l);
      assert Standing(Do(c, Insert)) == Standing(c) && Rest(Do(c, Insert)) == Rest(c);
    case Dropped(_) =>
      assert Standing(Do(c, Shut)) == Standing(c) && Rest(Do(c, Shut)) == Rest(c);
  }

  /** Running on leaves open exactly the survivors of what was standing. */
  lemma {:induction false} DrainSurvivors(c: Conn)
    requires Accounted(c) && Drain(c).Some?
    ensures Drain(c).value.t.open == Survivors(Standing(c), Rest(c))
    decreases 3 * |c.pending| + Rank(c.thread)
  {
    if !(c.thread == Idle && c.pending == []) {
      AccountedKept(c, OwnStep(c));
      OwnStepSurvivors(c);
      DrainSurvivors(Do(c, OwnStep(c)));
    }
  }

  /** No request from number `k` on cancels `l`. */
  predicate Uncancelled(rs: seq<Request>, k: nat, l: Listener)
    requires k <= |rs|
  {
    forall j :: k <= j < |rs| ==> Names(rs[j]) != Some(l)
  }

  /** `l` is bound by request number `k` and not cancelled afterwards. */
  predicate LeftBy(rs: seq<Request>, k: nat, l: Listener)
    requires k < |rs|
  {
    Binds(rs[k]) == Some(l) && Uncancelled(rs, k + 1, l)
  }

  /** The survivors are what was open or is bound on the way, and not cancelled afterwards. */
  lemma {:induction false} SurvivorsAre(open: set<Listener>, rs: seq<Request>, l: Listener)
    ensures l in Survivors(open, rs) <==>
            (l in open && Uncancelled(rs, 0, l)) || exists k :: 0 <= k < |rs| && LeftBy(rs, k, l)
    decreases rs
  {
    if rs != [] {
      var open' := if Binds(rs[0]).Some? then open + {Binds(rs[0]).value}
                   else if Names(rs[0]).Some? then open - {Names(rs[0]).value}
                   else open;
      SurvivorsAre(open', rs[1..], l);
      TailLeft(rs, l);
    }
  }

  lemma TailLeft(rs: seq<Request>, l: Listener)
    requires rs != []
    ensures Uncancelled(rs, 1, l) <==> Uncancelled(rs[1..], 0, l)
    ensures Uncancelled(rs, 0, l) <==> Names(rs[0]) != Some(l) && Uncancelled(rs[1..], 0, l)
    ensures (exists k :: 0 <= k < |rs| && LeftBy(rs, k, l)) <==>
            LeftBy(rs, 0, l) || exists k :: 0 <= k < |rs[1..]| && LeftBy(rs[1..], k, l)
  {
    forall j | 0 <= j < |rs[1..]|
      ensures rs[1..][j] == rs[j + 1]
      ensures Uncancelled(rs[1..], j + 1, l) <==> Uncancelled(rs, j + 2, l)
      ensures LeftBy(rs[1..], j, l) <==> LeftBy(rs, j + 1, l)
    {
      UncancelledShift(rs, j + 1, l);
    }
    UncancelledShift(rs, 0, l);
    if exists k :: 0 <= k < |rs| && LeftBy(rs, k, l) {
      var k :| 0 <= k < |rs| && LeftBy(rs, k, l);
      assert k == 0 || LeftBy(rs[1..], k - 1, l);
    }
  }

  lemma UncancelledShift(rs: seq<Request>, j: nat, l: Listener)
    requires j < |rs|
    ensures Uncancelled(rs[1..], j, l) <==> Uncancelled(rs, j + 1, l)
  {
    if Uncancelled(rs, j + 1, l) {
      forall i | j <= i < |rs[1..]| ensures Names(rs[1..][i]) != Some(l) {
        assert rs[1..][i] == rs[i + 1];
      }
    }
    if Uncancelled(rs[1..], j, l) {
      forall i | j + 1 <= i < |rs| ensures Names(rs[i]) != Some(l) {
        assert rs[1..][i - 1] == rs[i];
      }
    }
  }

  /** The teardown at the end of the connection, after which nothing arrives, and what is still to be served. */
  function Drained(c: Conn): Option<Conn> {
    Drain(Do(c, TearDown))
  }

  /**
    After any interleaving, what stays open once a torn-down connection has drained is the
    listener that was opened but not yet registered at teardown, and every one bound by a request
    still to be served then, unless a later request cancels it.
   */
  lemma TearDownLeaves(steps: seq<Step>, l: Listener)
    requires Run(steps).Some? && Drained(Run(steps).value).Some?
    ensures
      var c := Run(steps).value;
      l in Drained(c).value.t.open <==>
        || (c.thread == Opened(l) && Uncancelled(Rest(c), 0, l))
        || exists k :: 0 <= k < |Rest(c)| && LeftBy(Rest(c), k, l)
  {
    var c := Run(steps).value;
    var d := Do(c, TearDown);
    AlwaysAccounted(steps);
    AccountedKept(c, TearDown);
    DrainSurvivors(d);
    assert Rest(d) == Rest(c);
    assert Standing(d) == if c.thread.Opened? then {c.thread.l} else {};
    SurvivorsAre(Standing(d), Rest(d), l);
  }

  /** A start that is still to be served binds a listener that nothing later cancels. */
  predicate LeavesOne(rs: seq<Request>, k: nat)
    requires k < |rs|
  {
    Binds(rs[k]).Some? && Uncancelled(rs, k + 1, Binds(rs[k]).value)
  }

  /**
    Nothing leaks exactly when, at teardown, the goroutine holds no opened listener and has no
    start to serve that binds, except for listeners that a later pending request cancels.
   */
  lemma TearDownLeaksIff(steps: seq<Step>)
    requires Run(steps).Some? && Drained(Run(steps).value).Some?
    ensures
      var c := Run(steps).value;
      Drained(c).value.t.open == {} <==>
        && (c.thread.Opened? ==> !Uncancelled(Rest(c), 0, c.thread.l))
        && (forall k :: 0 <= k < |Rest(c)| ==> !LeavesOne(Rest(c), k))
  {
    var c := Run(steps).value;
    var open := Drained(c).value.t.open;
    if c.thread.Opened? {
      TearDownLeaves(steps, c.thread.l);
    }
    forall k | 0 <= k < |Rest(c)| && LeavesOne(Rest(c), k)
      ensures Binds(Rest(c)[k]).value in open
    {
      TearDownLeaves(steps, Binds(Rest(c)[k]).value);
      assert LeftBy(Rest(c), k, Binds(Rest(c)[k]).value);
    }
    if open != {} {
      var l :| l in open;
      TearDownLeaves(steps, l);
      if exists k :: 0 <= k < |Rest(c)| && LeftBy(Rest(c), k, l) {
        var k :| 0 <= k < |Rest(c)| && LeftBy(Rest(c), k, l);
        assert LeavesOne(Rest(c), k);
      }
    }
  }

  lemma RunOneMore(steps: seq<Step>, a: Step)
    requires Run(steps).Some? && Enabled(Run(steps).value, a)
    ensures Run(steps + [a]) == Some(Do(Run(steps).value, a))
  {
    assert (steps + [a])[..|steps|] == steps;
  }

  /** The goroutine is idle at teardown, and a start that is queued behind it leaks its listener. */
  lemma QueuedStartLeaks(f: Forward, port: nat)
    requires port != 0 && (f.port == 0 || f.port == port)
    ensures
      var r := Start(Some(f), Some(port));
      && Run([Arrive(r)]).Some? && Run([Arrive(r)]).value.thread == Idle
      && Drained(Run([Arrive(r)]).value).Some?
      && Drained(Run([Arrive(r)]).value).value.t.open == {Listener(f.addr, port)}
  {
    var r := Start(Some(f), Some(port));
    RunOneMore([], Arrive(r));
    assert [] + [Arrive(r)] == [Arrive(r)];
    var c := Run([Arrive(r)]).value;
    var d := Do(c, TearDown);
    assert d == Conn(Table(map[], {}), Idle, [r]);
    DrainOneStart(r);
  }

  /** An idle goroutine with a bindable start in its queue opens and registers a listener. */
  lemma DrainOneStart(r: Request)
    requires r.Start? && Binds(r).Some? && MayBind({}, r.request.value, r.bound)
    ensures
      var end := Drain(Conn(Table(map[], {}), Idle, [r]));
      end.Some? && end.value.t.open == {Binds(r).value}
  {
    var d := Conn(Table(map[], {}), Idle, [r]);
    var d1 := Do(d, Receive);
    var d2 := Do(d1, Act);
    var d3 := Do(d2, Insert);
    assert Drain(d3) == Some(d3);
    assert Drain(d2) == Drain(d3);
    assert Drain(d1) == Drain(d2);
    assert Drain(d) == Drain(d1);
  }

  /** Teardown between the listen call and the registration leaks, too. */
  lemma OpenedStartLeaks(f: Forward, port: nat)
    requires port != 0 && (f.port == 0 || f.port == port)
    ensures
      var r := Start(Some(f), Some(port));
      var steps := [Arrive(r), Receive, Act];
      && Run(steps).Some? && Run(steps).value.thread == Opened(Listener(f.addr, port))
      && Drained(Run(steps).value).Some?
      && Drained(Run(steps).value).value.t.open == {Listener(f.addr, port)}
  {
    var r := Start(Some(f), Some(port));
    var l := Listener(f.addr, port);
    RunOneMore([], Arrive(r));
    assert [] + [Arrive(r)] == [Arrive(r)];
    RunOneMore([Arrive(r)], Receive);
    assert [Arrive(r)] + [Receive] == [Arrive(r), Receive];
    RunOneMore([Arrive(r), Receive], Act);
    assert [Arrive(r), Receive] + [Act] == [Arrive(r), Receive, Act];
    var d := Conn(Table(map[], {l}), Opened(l), []);
    assert Run([Arrive(r), Receive, Act]).value == d;
    assert Do(d, TearDown) == d;
    var d1 := Do(d, Insert);
    assert Drain(d) == Drain(d1) == Some(d1);
  }
}
