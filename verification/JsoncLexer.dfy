/**
  The lexical structure of JSONC, and the two-stage meaning of stripping it.

  `ModeAt(s, i)` is the lexical mode in which byte `i` of `s` is read; it visits every byte
  exactly once, so it has none of the index skipping of the scanner in jsonc/strip.go.
  Stage one blanks comments; stage two, which only looks at the comment-free text that stage
  one produced, blanks trailing commas.
 */
module JsoncLexer {
  import opened Bytes

  const TAB: byte := 0x09
  const LF: byte := 0x0A
  const CR: byte := 0x0D
  const SPACE: byte := 0x20
  const QUOTE: byte := 0x22
  const STAR: byte := 0x2A
  const COMMA: byte := 0x2C
  const SLASH: byte := 0x2F
  const BACKSLASH: byte := 0x5C
  const RBRACKET: byte := 0x5D
  const RBRACE: byte := 0x7D

  /**
    Modes of a byte. `Escaped` is the byte after a backslash inside a string; `LineOpen` and
    `BlockOpen` are the second byte of a comment opener; `BlockEnd` is the slash that closes a
    block comment.
   */
  datatype Mode = Code | Str | Escaped | LineOpen | Line | BlockOpen | Block | BlockEnd

  predicate StartsPair(s: seq<byte>, i: nat, a: byte, b: byte)
    requires i < |s|
  {
    s[i] == a && i + 1 < |s| && s[i + 1] == b
  }

  /** The mode of the byte after byte `i`, when byte `i` is read in mode `m`. */
  function Next(s: seq<byte>, i: nat, m: Mode): Mode
    requires i < |s|
  {
    match m
    case Code =>
      if StartsPair(s, i, SLASH, SLASH) then LineOpen
      else if StartsPair(s, i, SLASH, STAR) then BlockOpen
      else if s[i] == QUOTE then Str
      else Code
    case Str => if s[i] == BACKSLASH then Escaped else if s[i] == QUOTE then Code else Str
    case Escaped => Str
    case LineOpen => Line
    case Line => if s[i] == LF then Code else Line
    case BlockOpen => Block
    case Block => if StartsPair(s, i, STAR, SLASH) then BlockEnd else Block
    case BlockEnd => Code
  }

  function ModeAt(s: seq<byte>, i: nat): Mode
    requires i <= |s|
  {
    if i == 0 then Code else Next(s, i - 1, ModeAt(s, i - 1))
  }

  /** Lexing ends inside a string literal or a block comment. */
  predicate EndsInString(s: seq<byte>) {
    ModeAt(s, |s|) in {Str, Escaped}
  }

  predicate EndsInBlock(s: seq<byte>) {
    ModeAt(s, |s|) in {BlockOpen, Block, BlockEnd}
  }

  /** Byte `i` belongs to a block comment, its delimiters included. */
  predicate InBlock(s: seq<byte>, i: nat)
    requires i < |s|
  {
    || ModeAt(s, i) in {BlockOpen, Block, BlockEnd}
    || (ModeAt(s, i) == Code && Next(s, i, Code) == BlockOpen)
  }

  /** Byte `i` belongs to a comment; the newline that ends a line comment does not. */
  predicate IsComment(s: seq<byte>, i: nat)
    requires i < |s|
  {
    || InBlock(s, i)
    || ModeAt(s, i) == LineOpen
    || (ModeAt(s, i) == Line && s[i] != LF)
    || (ModeAt(s, i) == Code && Next(s, i, Code) == LineOpen)
  }

  /** Byte `i` belongs to a string literal, its quotes included. */
  predicate InString(s: seq<byte>, i: nat)
    requires i < |s|
  {
    ModeAt(s, i) in {Str, Escaped} || (ModeAt(s, i) == Code && s[i] == QUOTE)
  }

  predicate CommentFree(s: seq<byte>) {
    forall i :: 0 <= i < |s| ==> !IsComment(s, i)
  }

  predicate IsSpace(c: byte) {
    c == SPACE || c == TAB || c == CR || c == LF
  }

  predicate IsCloser(c: byte) {
    c == RBRACE || c == RBRACKET
  }

  /** Index of the first non-blank byte at or after `i`, or the length when there is none. */
  function NextSignificant(t: seq<byte>, i: nat): (j: nat)
    requires i <= |t|
    ensures i <= j <= |t|
    ensures forall k :: i <= k < j ==> IsSpace(t[k])
    ensures j < |t| ==> !IsSpace(t[j])
    decreases |t| - i
  {
    if i == |t| || !IsSpace(t[i]) then i else NextSignificant(t, i + 1)
  }

  /** Byte `i` is a comma outside strings. */
  predicate IsComma(t: seq<byte>, i: nat)
    requires i < |t|
  {
    t[i] == COMMA && ModeAt(t, i) == Code
  }

  /** Byte `i` is a comma outside strings whose next significant byte closes an object or array. */
  predicate IsTrailing(t: seq<byte>, i: nat)
    requires i < |t|
  {
    && IsComma(t, i)
    && var j := NextSignificant(t, i + 1); j < |t| && IsCloser(t[j])
  }

  /** Stage one: blank every comment byte. */
  function BlankComments(s: seq<byte>): (t: seq<byte>)
    ensures |t| == |s|
  {
    seq(|s|, i requires 0 <= i < |s| => if IsComment(s, i) then SPACE else s[i])
  }

  /** Stage two: blank every trailing comma of a comment-free text. */
  function BlankTrailing(t: seq<byte>): (u: seq<byte>)
    ensures |u| == |t|
  {
    seq(|t|, i requires 0 <= i < |t| => if IsTrailing(t, i) then SPACE else t[i])
  }

  function Stripped(s: seq<byte>): (u: seq<byte>)
    ensures |u| == |s|
  {
    BlankTrailing(BlankComments(s))
  }

  datatype StripError = UnterminatedString | UnterminatedBlock
  datatype StripResult = Ok(text: seq<byte>) | Err(error: StripError)

  /** What stripping must return: an error exactly for an unclosed literal or block comment. */
  function StripSpec(s: seq<byte>): StripResult {
    if EndsInString(s) then Err(UnterminatedString)
    else if EndsInBlock(s) then Err(UnterminatedBlock)
    else Ok(Stripped(s))
  }

  // ----- How the stages look to a lexer -----

  /** The mode that a comment-free copy of the text shows where the original shows `m`. */
  function Erased(m: Mode): Mode {
    if m in {Str, Escaped} then m else Code
  }

  /** Stage one keeps every string mode and turns every comment mode into plain code. */
  lemma {:induction false} BlankCommentsModes(s: seq<byte>, i: nat)
    requires i <= |s|
    ensures ModeAt(BlankComments(s), i) == Erased(ModeAt(s, i))
  {
    if i > 0 {
      BlankCommentsModes(s, i - 1);
    }
  }

  /** Two texts that differ only by code commas turned into blanks have the same modes. */
  lemma {:induction false} CommaBlanksModes(t: seq<byte>, u: seq<byte>, i: nat)
    requires |t| == |u| && i <= |t|
    requires forall k :: 0 <= k < |t| ==> u[k] == t[k] || (IsComma(t, k) && u[k] == SPACE)
    ensures ModeAt(u, i) == ModeAt(t, i)
  {
    if i > 0 {
      CommaBlanksModes(t, u, i - 1);
      if u[i - 1] != t[i - 1] {
        assert IsComma(t, i - 1);
      }
      if i < |t| && u[i] != t[i] {
        assert IsComma(t, i);
      }
    }
  }

  lemma BlankTrailingModes(t: seq<byte>, i: nat)
    requires i <= |t|
    ensures ModeAt(BlankTrailing(t), i) == ModeAt(t, i)
  {
    CommaBlanksModes(t, BlankTrailing(t), i);
  }

  lemma BlankCommentsLeavesNone(s: seq<byte>)
    ensures CommentFree(BlankComments(s))
  {
    var t := BlankComments(s);
    forall i | 0 <= i < |t|
      ensures !IsComment(t, i)
    {
      BlankCommentsModes(s, i);
    }
  }

  // ----- The modes are the lexical grammar -----

  /** Text starts as code, and a byte of code that opens nothing is followed by code. */
  lemma CodeByte(s: seq<byte>, i: nat)
    requires i < |s| && ModeAt(s, i) == Code
    ensures ModeAt(s, 0) == Code
    ensures s[i] != 0x22 && !(s[i] == 0x2F && i + 1 < |s| && s[i + 1] in {0x2F, 0x2A}) ==>
              ModeAt(s, i + 1) == Code && !IsComment(s, i) && !InString(s, i)
    ensures s[i] == 0x22 ==> ModeAt(s, i + 1) == Str && !IsComment(s, i) && InString(s, i)
  {
  }

  /** A string goes on up to a quote; a backslash takes the next byte with it. */
  lemma StringByte(s: seq<byte>, i: nat)
    requires i < |s| && ModeAt(s, i) == Str
    ensures InString(s, i) && !IsComment(s, i)
    ensures s[i] == 0x22 ==> ModeAt(s, i + 1) == Code
    ensures s[i] == 0x5C ==>
              ModeAt(s, i + 1) == Escaped
              && (i + 1 < |s| ==>
                    ModeAt(s, i + 2) == Str && InString(s, i + 1) && !IsComment(s, i + 1))
    ensures s[i] !in {0x22, 0x5C} ==> ModeAt(s, i + 1) == Str
  {
  }

  /** The star and the slash, or whichever two bytes, stand at `i`. */
  predicate PairAt(s: seq<byte>, i: int, a: byte, b: byte) {
    0 <= i && i + 1 < |s| && s[i] == a && s[i + 1] == b
  }

  /**
    A block comment opened at `i` runs to the first star-slash at or after `i + 2`; without one
    it runs to the end of the text, unclosed.
   */
  lemma {:induction false} BlockExtent(s: seq<byte>, i: nat, e: nat)
    requires i + 2 <= e <= |s|
    requires ModeAt(s, i) == Code && PairAt(s, i, 0x2F, 0x2A)
    requires forall k :: i + 2 <= k < e ==> !PairAt(s, k, 0x2A, 0x2F)
    ensures ModeAt(s, e) == Block
    ensures PairAt(s, e, 0x2A, 0x2F) ==> ModeAt(s, e + 2) == Code && InBlock(s, e) && InBlock(s, e + 1)
    ensures forall k :: i <= k < e ==> InBlock(s, k) && !InString(s, k)
  {
    if i + 2 < e {
      BlockExtent(s, i, e - 1);
    } else {
      assert ModeAt(s, i + 1) == BlockOpen;
    }
    if PairAt(s, e, 0x2A, 0x2F) {
      assert ModeAt(s, e + 1) == BlockEnd;
    }
  }

  /** A line comment opened at `i` runs up to the first newline, or to the end of the text. */
  lemma {:induction false} LineExtent(s: seq<byte>, i: nat, e: nat)
    requires i + 2 <= e <= |s|
    requires ModeAt(s, i) == Code && PairAt(s, i, 0x2F, 0x2F)
    requires forall k :: i + 2 <= k < e ==> s[k] != 0x0A
    ensures ModeAt(s, e) == Line
    ensures e < |s| && s[e] == 0x0A ==> ModeAt(s, e + 1) == Code && !IsComment(s, e) && !InString(s, e)
    ensures forall k :: i <= k < e ==> IsComment(s, k) && !InString(s, k) && !InBlock(s, k)
  {
    if i + 2 < e {
      LineExtent(s, i, e - 1);
    } else {
      assert ModeAt(s, i + 1) == LineOpen;
    }
  }

  /** Length of a string body: it stops at the first quote that no backslash escapes. */
  function BodyEnd(s: seq<byte>, i: nat): (e: nat)
    requires i <= |s|
    ensures i <= e <= |s|
    ensures e < |s| ==> s[e] == 0x22
    decreases |s| - i
  {
    if i >= |s| || s[i] == QUOTE then i
    else if s[i] == BACKSLASH then if i + 2 <= |s| then BodyEnd(s, i + 2) else |s|
    else BodyEnd(s, i + 1)
  }

  /** A string whose body starts at `i` is a literal up to its closing quote, or unterminated. */
  lemma {:induction false} StringExtent(s: seq<byte>, i: nat)
    requires i <= |s| && ModeAt(s, i) == Str
    ensures BodyEnd(s, i) < |s| ==> ModeAt(s, BodyEnd(s, i) + 1) == Code
    ensures BodyEnd(s, i) == |s| ==> EndsInString(s)
    ensures forall k :: i <= k < BodyEnd(s, i) ==> InString(s, k)
    decreases |s| - i
  {
    if i < |s| && s[i] != QUOTE {
      if s[i] != BACKSLASH {
        StringExtent(s, i + 1);
      } else {
        assert ModeAt(s, i + 1) == Escaped;
        if i + 2 <= |s| {
          StringExtent(s, i + 2);
        }
      }
    }
  }

  // ----- What stripping does to each byte -----

  /** Byte `j` is the closing brace or bracket that follows `i` over white space and comments only. */
  predicate ClosesAfter(s: seq<byte>, i: nat, j: nat)
    requires i < j < |s|
  {
    && ModeAt(s, j) == Code && s[j] in {0x7D, 0x5D}
    && forall k :: i < k < j ==> IsComment(s, k) || s[k] in {0x20, 0x09, 0x0A, 0x0D}
  }

  /** The next significant byte is the one behind white space and comments. */
  lemma NextSignificantOver(s: seq<byte>, i: nat, j: nat)
    requires i < j < |s| && ModeAt(s, j) == Code && s[j] in {0x7D, 0x5D}
    requires forall k :: i < k < j ==> IsComment(s, k) || s[k] in {0x20, 0x09, 0x0A, 0x0D}
    ensures NextSignificant(BlankComments(s), i + 1) == j && IsCloser(BlankComments(s)[j])
  {
    var t := BlankComments(s);
    var n := NextSignificant(t, i + 1);
    assert t[j] == s[j];
    assert forall k :: i < k < j ==> IsSpace(t[k]);
  }

  /**
    A comma of the code is blanked exactly when the next byte that is neither white space nor in a
    comment closes an object or an array.
   */
  lemma CommaBlankedIff(s: seq<byte>, i: nat)
    requires i < |s| && s[i] == 0x2C && ModeAt(s, i) == Code
    ensures Stripped(s)[i] == 0x20 <==> exists j :: i < j < |s| && ClosesAfter(s, i, j)
    ensures Stripped(s)[i] in {0x20, 0x2C}
  {
    var t := BlankComments(s);
    BlankCommentsModes(s, i);
    if j :| i < j < |s| && ClosesAfter(s, i, j) {
      NextSignificantOver(s, i, j);
    }
    if IsTrailing(t, i) {
      var j := NextSignificant(t, i + 1);
      assert t[j] == s[j] && !IsComment(s, j);
      forall k | i < k < j
        ensures IsComment(s, k) || s[k] in {0x20, 0x09, 0x0A, 0x0D}
      {
        assert IsSpace(t[k]);
      }
      CloserIsCode(s, i, j);
      assert ClosesAfter(s, i, j);
    }
  }

  /** Over white space and comments, code is followed by code or a comment. */
  lemma {:induction false} CloserIsCode(s: seq<byte>, i: nat, j: nat)
    requires i < j < |s| && s[i] == 0x2C && ModeAt(s, i) == Code && !IsComment(s, j)
    requires forall k :: i < k < j ==> IsComment(s, k) || s[k] in {0x20, 0x09, 0x0A, 0x0D}
    ensures ModeAt(s, j) == Code || (ModeAt(s, j) == Line && s[j] == 0x0A)
    decreases j
  {
    if j > i + 1 {
      if IsComment(s, j - 1) {
        assert ModeAt(s, j) == Next(s, j - 1, ModeAt(s, j - 1));
      } else {
        CloserIsCode(s, i, j - 1);
      }
    }
  }

  /** Every other byte is kept, unless it is in a comment and blanked. */
  lemma OtherBytes(s: seq<byte>, i: nat)
    requires i < |s| && !(s[i] == 0x2C && ModeAt(s, i) == Code)
    ensures Stripped(s)[i] == if IsComment(s, i) then 0x20 else s[i]
  {
    BlankCommentsModes(s, i);
  }

  /** What is written for byte `i`: comments and trailing commas become blanks, all else stays. */
  ghost predicate ByteStripped(s: seq<byte>, i: nat, b: byte)
    requires i < |s|
  {
    if IsComment(s, i) then b == 0x20
    else if s[i] == 0x2C && ModeAt(s, i) == Code then
      b == if exists j :: i < j < |s| && ClosesAfter(s, i, j) then 0x20 else 0x2C
    else b == s[i]
  }

  lemma StrippedBytes(s: seq<byte>)
    ensures forall i :: 0 <= i < |s| ==> ByteStripped(s, i, Stripped(s)[i])
  {
    forall i | 0 <= i < |s|
      ensures ByteStripped(s, i, Stripped(s)[i])
    {
      if s[i] == 0x2C && ModeAt(s, i) == Code {
        CodeByte(s, i);
        CommaBlankedIff(s, i);
      } else {
        OtherBytes(s, i);
      }
    }
  }

  /** Text that ends in a string or in a block comment, as its last byte is left. */
  lemma EndModes(s: seq<byte>)
    ensures ModeAt(s, |s|) in {Code, Str, Escaped, Line, Block}
  {
    if |s| > 0 {
      assert ModeAt(s, |s|) == Next(s, |s| - 1, ModeAt(s, |s| - 1));
      if |s| > 1 {
        assert ModeAt(s, |s| - 1) == Next(s, |s| - 2, ModeAt(s, |s| - 2));
      }
    }
  }

  /**
    What a result says: an error is an unclosed string or block comment; otherwise comments and
    trailing commas have become blanks and all else has stayed.
   */
  ghost predicate StripMeans(s: seq<byte>, r: StripResult) {
    && (r == Err(UnterminatedString) <==> ModeAt(s, |s|) in {Str, Escaped})
    && (r == Err(UnterminatedBlock) <==> ModeAt(s, |s|) == Block)
    && (r.Ok? ==> |r.text| == |s| && forall i :: 0 <= i < |s| ==> ByteStripped(s, i, r.text[i]))
  }

  lemma SpecMeans(s: seq<byte>)
    ensures StripMeans(s, StripSpec(s))
  {
    StrippedBytes(s);
    EndModes(s);
  }
}
