/**
  SSH payload parsers (agent/session.go, agent/forward.go): string encoding of section 5 of
  RFC 4251, and the requests of sections 6.2, 6.4, 6.5, 6.7 and 7.2 of RFC 4254. The uint32
  arithmetic of the code is written out, so that wrap-around and truncation are visible.
 */
module Wire {
  import opened Bytes

  const U32 := 0x1_0000_0000

  type uint32 = n: int | 0 <= n < U32

  /** `Crash` is a slice expression out of range. */
  datatype Parsed<+T> = Parsed(value: T) | Malformed | Crash

  function GetU32(b: seq<byte>): uint32
    requires |b| >= 4
  {
    b[0] as int * 0x100_0000 + b[1] as int * 0x1_0000 + b[2] as int * 0x100 + b[3] as int
  }

  function PutU32(n: uint32): (b: seq<byte>)
    ensures |b| == 4
  {
    [(n / 0x100_0000) as byte, (n / 0x1_0000 % 0x100) as byte, (n / 0x100 % 0x100) as byte,
     (n % 0x100) as byte]
  }

  function PutString(s: seq<byte>): seq<byte>
    requires |s| < U32
  {
    PutU32(|s|) + s
  }

  /** A length-prefixed string and what follows it. */
  function ReadStringRest(b: seq<byte>): Parsed<(seq<byte>, seq<byte>)> {
    if |b| < 4 then Malformed
    else
      var n := GetU32(b);
      if (|b| - 4) % U32 < n then Malformed
      else
        var end := (4 + n) % U32;
        if end < 4 || end > |b| then Crash else Parsed((b[4..end], b[end..]))
  }

  lemma ValueOf(n: uint32)
    ensures n == (n / 0x100_0000) * 0x100_0000 + (n / 0x1_0000 % 0x100) * 0x1_0000
                 + (n / 0x100 % 0x100) * 0x100 + n % 0x100
  {
    assert n / 0x1_0000 / 0x100 == n / 0x100_0000;
    assert n / 0x100 / 0x100 == n / 0x1_0000;
  }

  /** A big-endian word is determined by its four bytes, and determines them. */
  lemma U32Iff(b: seq<byte>, n: uint32)
    requires |b| >= 4
    ensures GetU32(b) == n <==> PutU32(n) <= b
  {
    if GetU32(b) == n {
      BytesOf(b[0] as int, b[1] as int, b[2] as int, b[3] as int, n);
    }
    if PutU32(n) <= b {
      var p := PutU32(n);
      assert b[0] == p[0] && b[1] == p[1] && b[2] == p[2] && b[3] == p[3];
      ValueOf(n);
    }
  }

  lemma BytesOf(b0: int, b1: int, b2: int, b3: int, n: int)
    requires 0 <= b0 < 256 && 0 <= b1 < 256 && 0 <= b2 < 256 && 0 <= b3 < 256
    requires n == b0 * 0x100_0000 + b1 * 0x1_0000 + b2 * 0x100 + b3
    ensures n / 0x100_0000 == b0
    ensures n / 0x1_0000 % 0x100 == b1
    ensures n / 0x100 % 0x100 == b2
    ensures n % 0x100 == b3
  {
    assert n / 0x1_0000 == b0 * 0x100 + b1;
    assert n / 0x100 == b0 * 0x1_0000 + b1 * 0x100 + b2;
  }

  /** Prefixes of concatenations, one part at a time. */
  lemma PrefixSplit(x: seq<byte>, y: seq<byte>, b: seq<byte>)
    ensures x + y <= b <==> x <= b && y <= b[|x|..]
  {
    if x + y <= b {
      assert x == (x + y)[..|x|] == b[..|x|];
      assert y == (x + y)[|x|..] == b[|x|..][..|y|];
    }
    if x <= b && y <= b[|x|..] {
      assert b == x + b[|x|..];
      assert b[..|x| + |y|] == x + y;
    }
  }

  /** Reading crashes exactly on a wrapped end offset, which takes four gigabytes of payload. */
  lemma CrashIff(b: seq<byte>)
    ensures ReadStringRest(b).Crash? <==>
            |b| >= 4 && GetU32(b) >= U32 - 4 && (|b| - 4) % U32 >= GetU32(b)
    ensures |b| < U32 ==> !ReadStringRest(b).Crash?
  {
  }

  /** On any payload below four gigabytes, reading a string inverts encoding one. */
  lemma ReadIff(b: seq<byte>, s: seq<byte>)
    requires |b| < U32
    ensures !ReadStringRest(b).Crash?
    ensures ReadStringRest(b).Parsed? && ReadStringRest(b).value.0 == s <==>
            |s| < U32 && PutString(s) <= b
    ensures ReadStringRest(b).Parsed? ==>
            ReadStringRest(b).value.1 == b[4 + |ReadStringRest(b).value.0|..]
  {
    if |s| < U32 {
      PrefixSplit(PutU32(|s|), s, b);
      if |b| >= 4 {
        U32Iff(b, |s|);
      }
    }
  }

  // ----- Four-field blocks -----

  datatype Quad = Quad(a: uint32, b: uint32, c: uint32, d: uint32)

  function GetQuad(b: seq<byte>): Quad
    requires |b| >= 16
  {
    Quad(GetU32(b), GetU32(b[4..]), GetU32(b[8..]), GetU32(b[12..]))
  }

  function PutQuad(q: Quad): (b: seq<byte>)
    ensures |b| == 16
  {
    PutU32(q.a) + (PutU32(q.b) + (PutU32(q.c) + PutU32(q.d)))
  }

  lemma QuadIff(b: seq<byte>, q: Quad)
    requires |b| >= 16
    ensures GetQuad(b) == q <==> PutQuad(q) <= b
  {
    U32Iff(b, q.a);
    U32Iff(b[4..], q.b);
    U32Iff(b[8..], q.c);
    U32Iff(b[12..], q.d);
    PrefixSplit(PutU32(q.a), PutU32(q.b) + (PutU32(q.c) + PutU32(q.d)), b);
    PrefixSplit(PutU32(q.b), PutU32(q.c) + PutU32(q.d), b[4..]);
    assert b[4..][4..] == b[8..];
    PrefixSplit(PutU32(q.c), PutU32(q.d), b[8..]);
    assert b[8..][4..] == b[12..];
  }

  // ----- Requests -----

  datatype Pty = Pty(term: seq<byte>, width: uint32, height: uint32, cols: uint32, rows: uint32)

  /** The wire order is columns, rows, width, height; the parser returns them by meaning. */
  function ParsePtyReq(payload: seq<byte>): Parsed<Pty> {
    match ReadStringRest(payload)
    case Malformed => Malformed
    case Crash => Crash
    case Parsed((term, rest)) =>
      if |rest| < 16 then Malformed
      else var q := GetQuad(rest); Parsed(Pty(term, q.c, q.d, q.a, q.b))
  }

  /** The fields of a pty-req up to the terminal modes, which the agent ignores. */
  function EncodePty(p: Pty): seq<byte>
    requires |p.term| < U32
  {
    PutString(p.term) + PutQuad(Quad(p.cols, p.rows, p.width, p.height))
  }

  datatype WindowChange = WindowChange(cols: uint32, rows: uint32, width: uint32, height: uint32)

  function ParseWindowChange(payload: seq<byte>): Parsed<WindowChange> {
    if |payload| < 16 then Malformed
    else var q := GetQuad(payload); Parsed(WindowChange(q.a, q.b, q.c, q.d))
  }

  function EncodeWindowChange(w: WindowChange): seq<byte> {
    PutQuad(Quad(w.cols, w.rows, w.width, w.height))
  }

  datatype EnvVar = EnvVar(name: seq<byte>, value: seq<byte>)

  function ParseEnv(payload: seq<byte>): Parsed<EnvVar> {
    match ReadStringRest(payload)
    case Malformed => Malformed
    case Crash => Crash
    case Parsed((name, rest)) =>
      match ReadStringRest(rest)
      case Malformed => Malformed
      case Crash => Crash
      case Parsed((value, _)) => Parsed(EnvVar(name, value))
  }

  function EncodeEnv(v: EnvVar): seq<byte>
    requires |v.name| < U32 && |v.value| < U32
  {
    PutString(v.name) + PutString(v.value)
  }

  datatype DirectTCPIP = DirectTCPIP(host: seq<byte>, port: uint32, originHost: seq<byte>, originPort: uint32)

  /** A length-prefixed string followed by a uint32. */
  function ReadEndpoint(b: seq<byte>): Parsed<(seq<byte>, uint32, seq<byte>)> {
    match ReadStringRest(b)
    case Malformed => Malformed
    case Crash => Crash
    case Parsed((host, rest)) =>
      if |rest| < 4 then Malformed else Parsed((host, GetU32(rest), rest[4..]))
  }

  function ParseDirectTCPIP(data: seq<byte>): Parsed<DirectTCPIP> {
    match ReadEndpoint(data)
    case Malformed => Malformed
    case Crash => Crash
    case Parsed((host, port, rest)) =>
      match ReadEndpoint(rest)
      case Malformed => Malformed
      case Crash => Crash
      case Parsed((origin, originPort, _)) => Parsed(DirectTCPIP(host, port, origin, originPort))
  }

  function PutEndpoint(host: seq<byte>, port: uint32): seq<byte>
    requires |host| < U32
  {
    PutString(host) + PutU32(port)
  }

  function EncodeDirectTCPIP(d: DirectTCPIP): seq<byte>
    requires |d.host| < U32 && |d.originHost| < U32
  {
    PutEndpoint(d.host, d.port) + PutEndpoint(d.originHost, d.originPort)
  }

  /** The command of an exec request; an unreadable payload is the empty command. */
  function ExecPayload(payload: seq<byte>): seq<byte> {
    match ReadStringRest(payload)
    case Parsed((s, _)) => s
    case _ => []
  }

  function SubsystemName(payload: seq<byte>): seq<byte> {
    match ReadStringRest(payload)
    case Parsed((s, _)) => s
    case _ => []
  }

  // ----- Parsing is the inverse of encoding -----

  /**
    Below four gigabytes a pty-req parses to `p` exactly when the payload starts with the
    encoding of `p`; the parser never indexes out of range.
   */
  lemma PtyIff(b: seq<byte>, p: Pty)
    requires |b| < U32
    ensures !ParsePtyReq(b).Crash?
    ensures ParsePtyReq(b) == Parsed(p) <==> |p.term| < U32 && EncodePty(p) <= b
  {
    var q := Quad(p.cols, p.rows, p.width, p.height);
    ReadIff(b, p.term);
    if |p.term| < U32 {
      PrefixSplit(PutString(p.term), PutQuad(q), b);
      if PutString(p.term) <= b && |b[4 + |p.term|..]| >= 16 {
        QuadIff(b[4 + |p.term|..], q);
      }
    }
  }

  lemma WindowChangeIff(b: seq<byte>, w: WindowChange)
    ensures !ParseWindowChange(b).Crash?
    ensures ParseWindowChange(b) == Parsed(w) <==> EncodeWindowChange(w) <= b
  {
    if |b| >= 16 {
      QuadIff(b, Quad(w.cols, w.rows, w.width, w.height));
    }
  }

  lemma EnvIff(b: seq<byte>, v: EnvVar)
    requires |b| < U32
    ensures !ParseEnv(b).Crash?
    ensures ParseEnv(b) == Parsed(v) <==> |v.name| < U32 && |v.value| < U32 && EncodeEnv(v) <= b
  {
    ReadIff(b, v.name);
    if ReadStringRest(b).Parsed? {
      ReadIff(ReadStringRest(b).value.1, v.value);
    }
    if |v.name| < U32 && |v.value| < U32 {
      PrefixSplit(PutString(v.name), PutString(v.value), b);
    }
  }

  lemma EndpointIff(b: seq<byte>, host: seq<byte>, port: uint32)
    requires |b| < U32
    ensures !ReadEndpoint(b).Crash?
    ensures ReadEndpoint(b).Parsed? && ReadEndpoint(b).value.0 == host && ReadEndpoint(b).value.1 == port <==>
            |host| < U32 && PutEndpoint(host, port) <= b
    ensures ReadEndpoint(b).Parsed? ==>
            ReadEndpoint(b).value.2 == b[8 + |ReadEndpoint(b).value.0|..]
  {
    ReadIff(b, host);
    if ReadStringRest(b).Parsed? {
      var rest := ReadStringRest(b).value.1;
      if |rest| >= 4 {
        U32Iff(rest, port);
      }
    }
    if |host| < U32 {
      PrefixSplit(PutString(host), PutU32(port), b);
    }
  }

  lemma DirectIff(b: seq<byte>, d: DirectTCPIP)
    requires |b| < U32
    ensures !ParseDirectTCPIP(b).Crash?
    ensures ParseDirectTCPIP(b) == Parsed(d) <==>
            |d.host| < U32 && |d.originHost| < U32 && EncodeDirectTCPIP(d) <= b
  {
    EndpointIff(b, d.host, d.port);
    if ReadEndpoint(b).Parsed? {
      EndpointIff(ReadEndpoint(b).value.2, d.originHost, d.originPort);
    }
    if |d.host| < U32 && |d.originHost| < U32 {
      PrefixSplit(PutEndpoint(d.host, d.port), PutEndpoint(d.originHost, d.originPort), b);
    }
  }

  /** The RFC encoding of a pty-req, terminal modes included, parses to its fields. */
  lemma PtyRoundTrip(p: Pty, modes: seq<byte>)
    requires |p.term| < U32 && |modes| < U32
    requires |EncodePty(p) + PutString(modes)| < U32
    ensures ParsePtyReq(EncodePty(p) + PutString(modes)) == Parsed(p)
  {
    PtyIff(EncodePty(p) + PutString(modes), p);
  }

  /** An exec payload that encodes a command yields that command. */
  lemma ExecRoundTrip(command: seq<byte>, rest: seq<byte>)
    requires |command| < U32 && |PutString(command) + rest| < U32
    ensures ExecPayload(PutString(command) + rest) == command
    ensures SubsystemName(PutString(command) + rest) == command
  {
    ReadIff(PutString(command) + rest, command);
  }

  // ----- What the encodings look like -----

  /** A uint32 is four bytes, the most significant one first. */
  lemma BigEndian(b: seq<byte>)
    requires |b| >= 4
    ensures GetU32(b) == ((b[0] as int * 256 + b[1] as int) * 256 + b[2] as int) * 256 + b[3] as int
  {
  }

  /** A string is its length and its bytes. */
  lemma StringLayout(s: seq<byte>)
    requires |s| < U32
    ensures PutString(s) == PutU32(|s|) + s
  {
  }

  /** Section 6.2 of RFC 4254: terminal, columns, rows, width and height in pixels. */
  lemma PtyLayout(p: Pty)
    requires |p.term| < U32
    ensures EncodePty(p) ==
            PutU32(|p.term|) + p.term + PutU32(p.cols) + PutU32(p.rows) + PutU32(p.width) + PutU32(p.height)
  {
  }

  /** Section 6.7: columns, rows, width and height in pixels. */
  lemma WindowChangeLayout(w: WindowChange)
    ensures EncodeWindowChange(w) == PutU32(w.cols) + PutU32(w.rows) + PutU32(w.width) + PutU32(w.height)
  {
  }

  /** Section 6.4: name and value. */
  lemma EnvLayout(v: EnvVar)
    requires |v.name| < U32 && |v.value| < U32
    ensures EncodeEnv(v) == PutU32(|v.name|) + v.name + PutU32(|v.value|) + v.value
  {
  }

  /** Section 7.2: host and port to connect to, originator's address and port. */
  lemma DirectLayout(d: DirectTCPIP)
    requires |d.host| < U32 && |d.originHost| < U32
    ensures EncodeDirectTCPIP(d) ==
            PutU32(|d.host|) + d.host + PutU32(d.port)
            + PutU32(|d.originHost|) + d.originHost + PutU32(d.originPort)
  {
  }

  /** The payload starts with this string. */
  predicate StartsWith(b: seq<byte>, s: seq<byte>) {
    |s| < U32 && PutU32(|s|) + s <= b
  }

  /** The payload is cut short: it starts with no string. */
  ghost predicate NoString(b: seq<byte>) {
    forall s :: !StartsWith(b, s)
  }

  /** An exec or subsystem payload is its string, or the empty one if it is cut short. */
  lemma ExecIff(b: seq<byte>, command: seq<byte>)
    requires |b| < U32
    ensures ExecPayload(b) == SubsystemName(b)
    ensures ExecPayload(b) == command <==> StartsWith(b, command) || (command == [] && NoString(b))
  {
    ReadIff(b, command);
    ReadIff(b, ExecPayload(b));
    if ReadStringRest(b).Parsed? {
      assert StartsWith(b, ReadStringRest(b).value.0);
    } else {
      forall s
        ensures !StartsWith(b, s)
      {
        ReadIff(b, s);
      }
    }
  }
}
