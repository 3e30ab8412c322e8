/** The one-pass scanner of jsonc/strip.go, proved against the two-stage specification. */
module JsoncStrip {
  import opened Bytes
  import opened JsoncLexer

  datatype ScanState = Normal | InStr | InLine | InBlk

  /** The modes in which the scanner can be about to read a byte. */
  function Reading(state: ScanState): Mode {
    match state
    case Normal => Code
    case InStr => Str
    case InLine => Line
    case InBlk => Block
  }

  /** A byte of the stage-one text that the scanner has to treat as blank. */
  ghost predicate Blank(s: seq<byte>, k: int)
    requires 0 <= k < |s|
  {
    IsSpace(BlankComments(s)[k])
  }

  /** Everything strictly between two offsets is blank or comment. */
  ghost predicate BlankBetween(s: seq<byte>, a: int, b: int)
    requires -1 <= a && b <= |s|
  {
    forall k :: a < k < b ==> Blank(s, k)
  }

  /** A comma with only blanks up to a significant byte is decided by that byte alone. */
  lemma CommaDecided(s: seq<byte>, comma: nat, j: nat)
    requires comma < j <= |s|
    requires BlankBetween(s, comma, j)
    requires j < |s| ==> !Blank(s, j)
    requires s[comma] == COMMA && ModeAt(s, comma) == Code
    ensures IsTrailing(BlankComments(s), comma) <==> j < |s| && IsCloser(BlankComments(s)[j])
  {
    BlankCommentsModes(s, comma);
    var n := NextSignificant(BlankComments(s), comma + 1);
    assert n < j ==> Blank(s, n);
    assert j < n ==> Blank(s, j);
  }

  /** A byte that is not a code comma survives stage two. */
  lemma OnlyCommasChange(s: seq<byte>, k: nat)
    requires k < |s|
    requires !(s[k] == COMMA && ModeAt(s, k) == Code)
    ensures Stripped(s)[k] == BlankComments(s)[k]
  {
    BlankCommentsModes(s, k);
  }

  /**
    What the scanner has written when it is about to read byte `i`: the final text everywhere
    except at a comma whose fate is still open.
   */
  ghost predicate Progress(s: seq<byte>, out: seq<byte>, i: int, pending: int)
  {
    && |out| == |s| && 0 <= i <= |s| && -1 <= pending < i
    && (forall k :: 0 <= k < i && k != pending ==> out[k] == Stripped(s)[k])
    && (forall k :: i <= k < |s| ==> out[k] == s[k])
    && (pending >= 0 ==>
          && out[pending] == s[pending] == COMMA && ModeAt(s, pending) == Code
          && BlankBetween(s, pending, i))
  }

  lemma Begin(s: seq<byte>)
    ensures Progress(s, s, 0, -1)
  {
  }

  /** Consuming a comment byte, which the scanner has blanked. */
  lemma ConsumeComment(s: seq<byte>, out: seq<byte>, i: nat, pending: int)
    requires i < |s| && Progress(s, out, i, pending) && IsComment(s, i)
    ensures Progress(s, out[i := SPACE], i + 1, pending)
  {
    OnlyCommasChange(s, i);
  }

  /** Consuming a byte that the scanner leaves alone for good. */
  lemma ConsumeKept(s: seq<byte>, out: seq<byte>, i: nat, pending: int)
    requires i < |s| && Progress(s, out, i, pending) && !IsComment(s, i)
    requires !(s[i] == COMMA && ModeAt(s, i) == Code)
    requires pending >= 0 ==> IsSpace(s[i])
    ensures Progress(s, out, i + 1, pending)
  {
    OnlyCommasChange(s, i);
  }

  lemma ConsumeComma(s: seq<byte>, out: seq<byte>, i: nat)
    requires i < |s| && Progress(s, out, i, -1)
    requires s[i] == COMMA && ModeAt(s, i) == Code
    ensures Progress(s, out, i + 1, i)
  {
  }

  /** A significant byte `i` that settles the comma before it. */
  lemma Settle(s: seq<byte>, out: seq<byte>, i: nat, pending: int)
    requires i < |s| && Progress(s, out, i, pending)
    requires ModeAt(s, i) == Code && !IsComment(s, i) && !IsSpace(s[i])
    ensures
      var fixed := if pending >= 0 && IsCloser(s[i]) then out[pending := SPACE] else out;
      Progress(s, fixed, i, -1)
  {
    if pending >= 0 {
      CommaDecided(s, pending, i);
    }
  }

  /** With no byte left, an open comma stays. */
  lemma Finish(s: seq<byte>, out: seq<byte>, pending: int)
    requires Progress(s, out, |s|, pending)
    ensures out == Stripped(s)
  {
    if pending >= 0 {
      CommaDecided(s, pending, |s|);
      BlankCommentsModes(s, pending);
    }
  }

  /** The scanner's local variables, apart from the output buffer. */
  datatype Scan = Scan(i: nat, state: ScanState, pendingComma: int,
                       lastSignificant: int, lastSignificantByte: byte)

  /**
    The loop invariant: the scanner's state is the lexical mode (after a final backslash it has
    skipped past the end), its output is in progress, and its redundant trackers agree with the
    pending comma.
   */
  ghost predicate Scanning(s: seq<byte>, out: seq<byte>, v: Scan)
  {
    && v.i <= |s| + 1
    && (v.i == |s| + 1 ==> v.state == InStr && ModeAt(s, |s|) == Escaped)
    && (v.i <= |s| ==> ModeAt(s, v.i) == Reading(v.state) && Progress(s, out, v.i, v.pendingComma))
    && (v.state == InStr ==> v.pendingComma < 0)
    && (v.pendingComma >= 0 ==>
          v.lastSignificant == v.pendingComma && v.lastSignificantByte == COMMA)
  }

  /** Blank one comment byte. */
  method BlankAt(src: seq<byte>, out: array<byte>, i: nat, ghost pending: int)
    requires i < |src| && Progress(src, out[..], i, pending) && IsComment(src, i)
    modifies out
    ensures Progress(src, out[..], i + 1, pending)
  {
    ConsumeComment(src, out[..], i, pending);
    ghost var text := out[..];
    out[i] := SPACE;
    assert out[..] == text[i := SPACE];
  }

  /** A byte inside a string literal; an escaped byte is skipped with its backslash. */
  method ReadString(src: seq<byte>, out: array<byte>, v: Scan) returns (v': Scan)
    requires v.i < |src| && v.state == InStr && Scanning(src, out[..], v)
    ensures Scanning(src, out[..], v') && v'.i > v.i
  {
    var c := src[v.i];
    ConsumeKept(src, out[..], v.i, v.pendingComma);
    if c == BACKSLASH {
      if v.i + 1 < |src| {
        ConsumeKept(src, out[..], v.i + 1, v.pendingComma);
      }
      v' := v.(i := v.i + 2);
    } else if c == QUOTE {
      v' := v.(i := v.i + 1, state := Normal, lastSignificant := v.i, lastSignificantByte := c);
    } else {
      v' := v.(i := v.i + 1);
    }
  }

  method ReadLine(src: seq<byte>, out: array<byte>, v: Scan) returns (v': Scan)
    requires v.i < |src| && v.state == InLine && Scanning(src, out[..], v)
    modifies out
    ensures Scanning(src, out[..], v') && v'.i > v.i
  {
    if src[v.i] == LF {
      ConsumeKept(src, out[..], v.i, v.pendingComma);
      v' := v.(i := v.i + 1, state := Normal);
    } else {
      BlankAt(src, out, v.i, v.pendingComma);
      v' := v.(i := v.i + 1);
    }
  }

  method ReadBlock(src: seq<byte>, out: array<byte>, v: Scan) returns (v': Scan)
    requires v.i < |src| && v.state == InBlk && Scanning(src, out[..], v)
    modifies out
    ensures Scanning(src, out[..], v') && v'.i > v.i
  {
    BlankAt(src, out, v.i, v.pendingComma);
    if src[v.i] == STAR && v.i + 1 < |src| && src[v.i + 1] == SLASH {
      BlankAt(src, out, v.i + 1, v.pendingComma);
      v' := v.(i := v.i + 2, state := Normal);
    } else {
      v' := v.(i := v.i + 1);
    }
  }

  /** The two bytes that open a comment. */
  method ReadOpener(src: seq<byte>, out: array<byte>, v: Scan) returns (v': Scan)
    requires v.i + 1 < |src| && v.state == Normal && Scanning(src, out[..], v)
    requires src[v.i] == SLASH && (src[v.i + 1] == SLASH || src[v.i + 1] == STAR)
    modifies out
    ensures Scanning(src, out[..], v') && v'.i > v.i
  {
    BlankAt(src, out, v.i, v.pendingComma);
    BlankAt(src, out, v.i + 1, v.pendingComma);
    v' := v.(i := v.i + 2, state := if src[v.i + 1] == SLASH then InLine else InBlk);
  }

  /** A closer blanks the comma that waits for it; any other significant byte keeps it. */
  method SettlePending(src: seq<byte>, out: array<byte>, v: Scan)
    requires v.i < |src| && Scanning(src, out[..], v)
    requires ModeAt(src, v.i) == Code && !IsComment(src, v.i) && !IsSpace(src[v.i])
    modifies out
    ensures Progress(src, out[..], v.i, -1)
  {
    Settle(src, out[..], v.i, v.pendingComma);
    if IsCloser(src[v.i]) {
      if v.pendingComma >= 0 && v.lastSignificantByte == COMMA && v.lastSignificant == v.pendingComma {
        ghost var text := out[..];
        out[v.pendingComma] := SPACE;
        assert out[..] == text[v.pendingComma := SPACE];
      }
    }
  }

  /** A significant code byte other than a comma. */
  method ReadSignificant(src: seq<byte>, out: array<byte>, v: Scan) returns (v': Scan)
    requires v.i < |src| && v.state == Normal && Scanning(src, out[..], v)
    requires !IsComment(src, v.i) && !IsSpace(src[v.i]) && src[v.i] != COMMA
    modifies out
    ensures Scanning(src, out[..], v') && v'.i > v.i
  {
    var c := src[v.i];
    SettlePending(src, out, v);
    ConsumeKept(src, out[..], v.i, -1);
    v' := Scan(v.i + 1, if c == QUOTE then InStr else Normal, -1, v.i, c);
  }

  /** A code byte that opens no comment. */
  method ReadCode(src: seq<byte>, out: array<byte>, v: Scan) returns (v': Scan)
    requires v.i < |src| && v.state == Normal && Scanning(src, out[..], v)
    requires !IsComment(src, v.i)
    modifies out
    ensures Scanning(src, out[..], v') && v'.i > v.i
  {
    var c := src[v.i];
    if IsSpace(c) {
      ConsumeKept(src, out[..], v.i, v.pendingComma);
      v' := v.(i := v.i + 1);
    } else if c == COMMA {
      Settle(src, out[..], v.i, v.pendingComma);
      ConsumeComma(src, out[..], v.i);
      v' := v.(i := v.i + 1, pendingComma := v.i, lastSignificant := v.i, lastSignificantByte := c);
    } else {
      v' := ReadSignificant(src, out, v);
    }
  }

  method ReadNormal(src: seq<byte>, out: array<byte>, v: Scan) returns (v': Scan)
    requires v.i < |src| && v.state == Normal && Scanning(src, out[..], v)
    modifies out
    ensures Scanning(src, out[..], v') && v'.i > v.i
  {
    if src[v.i] == SLASH && v.i + 1 < |src| && (src[v.i + 1] == SLASH || src[v.i + 1] == STAR) {
      v' := ReadOpener(src, out, v);
    } else {
      v' := ReadCode(src, out, v);
    }
  }

  /**
    `Strip` blanks in place a copy of its input. The result is the specification's, for every
    input: the same errors, and otherwise the same bytes. An error is an unclosed string or block
    comment; otherwise comments and trailing commas have become blanks and all else has stayed.
   */
  method Strip(src: seq<byte>) returns (r: StripResult)
    ensures r == StripSpec(src)
    ensures StripMeans(src, r)
  {
    SpecMeans(src);
    var out := new byte[|src|](i requires 0 <= i < |src| => src[i]);
    assert out[..] == src;
    Begin(src);
    var v := Scan(0, Normal, -1, -1, 0);
    while v.i < |src|
      invariant Scanning(src, out[..], v)
      decreases |src| + 1 - v.i
    {
      match v.state {
        case InStr => v := ReadString(src, out, v);
        case InLine => v := ReadLine(src, out, v);
        case InBlk => v := ReadBlock(src, out, v);
        case Normal => v := ReadNormal(src, out, v);
      }
    }
    match v.state {
      case InStr => return Err(UnterminatedString);
      case InBlk => return Err(UnterminatedBlock);
      case _ =>
        Finish(src, out[..], v.pendingComma);
        return Ok(out[..]);
    }
  }
}
