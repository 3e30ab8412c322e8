/** What holds of stripped text: strings kept, no comments left, when stripping again changes nothing. */
module JsoncProps {
  import opened Bytes
  import opened JsoncLexer

  /**
    Re-lexing stripped text finds no comment, the same string literals at the same offsets with
    the same bytes, and ends closed exactly when the source does.
   */
  lemma Relex(s: seq<byte>)
    ensures CommentFree(Stripped(s))
    ensures forall i :: 0 <= i < |s| ==> (InString(Stripped(s), i) <==> InString(s, i))
    ensures forall i :: 0 <= i < |s| && InString(s, i) ==> Stripped(s)[i] == s[i]
    ensures EndsInString(Stripped(s)) <==> EndsInString(s)
    ensures !EndsInBlock(Stripped(s))
  {
    var t := BlankComments(s);
    var u := Stripped(s);
    BlankCommentsModes(s, |s|);
    BlankTrailingModes(t, |s|);
    forall i | 0 <= i < |s|
      ensures !IsComment(u, i)
      ensures InString(u, i) <==> InString(s, i)
      ensures InString(s, i) ==> u[i] == s[i]
    {
      RelexByte(s, i);
    }
  }

  lemma RelexByte(s: seq<byte>, i: nat)
    requires i < |s|
    ensures !IsComment(Stripped(s), i)
    ensures InString(Stripped(s), i) <==> InString(s, i)
    ensures InString(s, i) ==> Stripped(s)[i] == s[i]
  {
    var t := BlankComments(s);
    BlankCommentsModes(s, i);
    BlankTrailingModes(t, i);
    BlankCommentsLeavesNone(s);
    assert !IsComment(t, i);
    assert !IsComment(s, i) && InString(s, i) ==> t[i] == s[i];
  }

  /** A comma that waits, over blanks and comments only, for a comma that is trailing. */
  ghost predicate StackedCommas(t: seq<byte>, i: nat, j: nat)
    requires i < j < |t|
  {
    IsComma(t, i) && IsTrailing(t, j) && NextSignificant(t, i + 1) == j
  }

  ghost predicate HasStackedCommas(s: seq<byte>)
  {
    var t := BlankComments(s);
    exists i, j :: 0 <= i < j < |t| && StackedCommas(t, i, j)
  }

  /** Comment-free text is unchanged by stage one. */
  lemma CommentFreeUnchanged(u: seq<byte>)
    requires CommentFree(u)
    ensures BlankComments(u) == u
  {
  }

  /** The first byte that ends a run of blanks is the next significant one. */
  lemma {:induction false} NextSignificantIs(t: seq<byte>, i: nat, j: nat)
    requires i <= j <= |t|
    requires forall k :: i <= k < j ==> IsSpace(t[k])
    requires j < |t| ==> !IsSpace(t[j])
    ensures NextSignificant(t, i) == j
    decreases j - i
  {
    if i < j {
      NextSignificantIs(t, i + 1, j);
    }
  }

  /** A stacked comma is not trailing in `t`, and is trailing once its successor is blanked. */
  lemma StackedBecomesTrailing(t: seq<byte>, i: nat, j: nat)
    requires i < j < |t| && StackedCommas(t, i, j)
    ensures BlankTrailing(t)[i] == COMMA && IsTrailing(BlankTrailing(t), i)
  {
    var u := BlankTrailing(t);
    assert t[j] == COMMA;
    var c := NextSignificant(t, j + 1);
    forall k | i < k < c
      ensures IsSpace(u[k])
    {
      assert k == j || IsSpace(t[k]);
    }
    assert u[c] == t[c];
    NextSignificantIs(u, i + 1, c);
    BlankTrailingModes(t, i);
  }

  /** A comma that only the second pass blanks had a trailing comma as its successor. */
  lemma NewTrailingWasStacked(t: seq<byte>, i: nat)
    requires i < |t| && IsTrailing(BlankTrailing(t), i)
    ensures var j := NextSignificant(t, i + 1); i < j < |t| && StackedCommas(t, i, j)
  {
    var u := BlankTrailing(t);
    BlankTrailingModes(t, i);
    assert u[i] == COMMA == t[i];
    var j := NextSignificant(t, i + 1);
    var c := NextSignificant(u, i + 1);
    if j < c {
      assert IsSpace(u[j]) && !IsSpace(t[j]);
      assert IsTrailing(t, j);
    } else if j == c {
      assert u[c] == t[c];
      assert IsTrailing(t, i);
    }
  }

  /** Stripping stripped text again changes nothing exactly when no stacked comma was left. */
  lemma StripIdempotentIff(s: seq<byte>)
    ensures Stripped(Stripped(s)) == Stripped(s) <==> !HasStackedCommas(s)
  {
    var t := BlankComments(s);
    var u := Stripped(s);
    Relex(s);
    CommentFreeUnchanged(u);
    if HasStackedCommas(s) {
      var i, j :| 0 <= i < j < |t| && StackedCommas(t, i, j);
      StackedBecomesTrailing(t, i, j);
      assert Stripped(u)[i] != u[i];
    }
    if Stripped(u) != u {
      var i :| 0 <= i < |u| && Stripped(u)[i] != u[i];
      NewTrailingWasStacked(t, i);
    }
  }

  /** The smallest failure: `,,]` loses one comma per pass. */
  lemma StackedCommaExample()
    ensures Stripped([0x2C, 0x2C, 0x5D]) == [0x2C, 0x20, 0x5D]
    ensures Stripped([0x2C, 0x20, 0x5D]) == [0x20, 0x20, 0x5D]
  {
    var s := [COMMA, COMMA, RBRACKET];
    assert ModeAt(s, 0) == Code && ModeAt(s, 1) == Code && ModeAt(s, 2) == Code;
    assert BlankComments(s) == s;
    assert NextSignificant(s, 1) == 1 && NextSignificant(s, 2) == 2;
    var u := [COMMA, SPACE, RBRACKET];
    assert ModeAt(u, 0) == Code && ModeAt(u, 1) == Code && ModeAt(u, 2) == Code;
    assert BlankComments(u) == u;
    assert NextSignificant(u, 1) == NextSignificant(u, 2) == 2;
  }
}

/** The line and column that a JSON syntax error reports, computed on stripped text. */
module JsoncPosition {
  import opened Bytes
  import opened JsoncLexer

  /** How many bytes of the prefix of length `n` satisfy being a newline. */
  function Newlines(s: seq<byte>, n: nat): nat
    requires n <= |s|
  {
    if n == 0 then 0 else Newlines(s, n - 1) + if s[n - 1] == LF then 1 else 0
  }

  /** How many newlines of the prefix of length `n` lie inside block comments. */
  function BlockNewlines(s: seq<byte>, n: nat): nat
    requires n <= |s|
  {
    if n == 0 then 0
    else BlockNewlines(s, n - 1) + if s[n - 1] == LF && InBlock(s, n - 1) then 1 else 0
  }

  /** Start of the line that offset `n` is on. */
  function LineStart(s: seq<byte>, n: nat): (b: nat)
    requires n <= |s|
    ensures b <= n
    ensures b > 0 ==> s[b - 1] == LF
    ensures forall k :: b <= k < n ==> s[k] != LF
  {
    if n == 0 || s[n - 1] == LF then n else LineStart(s, n - 1)
  }

  /** The offset at which counting stops: a decoder offset past the end is cut to the length. */
  function Cut(s: seq<byte>, offset: int): (n: nat)
    ensures n <= |s|
  {
    if offset < 0 then 0 else if offset > |s| then |s| else offset
  }

  /** The line that offset `n` is on starts at `b`. */
  predicate StartsLine(s: seq<byte>, b: int, n: nat)
    requires n <= |s|
  {
    0 <= b <= n && (b > 0 ==> s[b - 1] == 0x0A) && forall k :: b <= k < n ==> s[k] != 0x0A
  }

  /** The newlines of a prefix, counted as the offsets that hold one. */
  lemma {:induction false} NewlinesCounted(s: seq<byte>, n: nat)
    requires n <= |s|
    ensures Newlines(s, n) == |set k | 0 <= k < n && s[k] == 0x0A|
  {
    if n > 0 {
      NewlinesCounted(s, n - 1);
      var before, now := set k | 0 <= k < n - 1 && s[k] == 0x0A, set k | 0 <= k < n && s[k] == 0x0A;
      assert now == if s[n - 1] == 0x0A then before + {n - 1} else before;
    }
  }

  /**
    The loop of `decorateJSONError`: one more than the newlines before the offset, and one more than
    the bytes since the last of them. An offset past the end counts as the end.
   */
  method LineAndColumn(src: seq<byte>, offset: int) returns (line: nat, col: nat)
    ensures line == 1 + Newlines(src, Cut(src, offset))
    ensures col == 1 + Cut(src, offset) - LineStart(src, Cut(src, offset))
    ensures 0 <= offset <= |src| ==>
              && line == 1 + (|set k | 0 <= k < offset && src[k] == 0x0A|)
              && StartsLine(src, offset - (col - 1), offset)
    ensures offset > |src| ==> Cut(src, offset) == |src|
    ensures offset < 0 ==> line == 1 && col == 1
  {
    NewlinesCounted(src, Cut(src, offset));
    line, col := 1, 1;
    var i := 0;
    while i < offset && i < |src|
      invariant 0 <= i <= |src| && (i > 0 ==> i <= offset)
      invariant line == 1 + Newlines(src, i)
      invariant col == 1 + i - LineStart(src, i)
    {
      if src[i] == LF {
        line := line + 1;
        col := 1;
      } else {
        col := col + 1;
      }
      i := i + 1;
    }
  }

  /** A newline survives stripping unless a block comment holds it, and none appears. */
  lemma NewlineKept(s: seq<byte>, i: nat)
    requires i < |s|
    ensures Stripped(s)[i] == LF <==> s[i] == LF && !InBlock(s, i)
  {
    var t := BlankComments(s);
    assert t[i] == LF <==> s[i] == LF && !IsComment(s, i);
    if s[i] == LF && IsComment(s, i) {
      assert InBlock(s, i) by { NewlineInLineComment(s, i); }
    }
  }

  lemma NewlineInLineComment(s: seq<byte>, i: nat)
    requires i < |s| && s[i] == LF && IsComment(s, i)
    ensures InBlock(s, i)
  {
    if ModeAt(s, i) == LineOpen {
      assert ModeAt(s, i) == Next(s, i - 1, ModeAt(s, i - 1));
    }
  }

  /** The reported line is short by exactly the block-comment newlines before the offset. */
  lemma {:induction false} LineShortfall(s: seq<byte>, n: nat)
    requires n <= |s|
    ensures Newlines(Stripped(s), n) + BlockNewlines(s, n) == Newlines(s, n)
  {
    if n > 0 {
      LineShortfall(s, n - 1);
      NewlineKept(s, n - 1);
    }
  }

  /** Line starts in a text and in one that lacks the newlines that are held. */
  lemma {:induction false} LineStartAgainst(s: seq<byte>, u: seq<byte>, held: nat -> bool, n: nat)
    requires |u| == |s| && n <= |s|
    requires forall i: nat :: i < |s| ==> (u[i] == LF <==> s[i] == LF && !held(i))
    ensures LineStart(u, n) <= LineStart(s, n)
    ensures LineStart(u, n) == LineStart(s, n) <==> (LineStart(s, n) > 0 ==> !held(LineStart(s, n) - 1))
  {
    if n > 0 && s[n - 1] != LF {
      LineStartAgainst(s, u, held, n - 1);
    }
  }

  /**
    The reported column is right exactly when the offset's line does not start after a
    block-comment newline; it is never too small.
   */
  lemma {:induction false} ColumnExactIff(s: seq<byte>, n: nat)
    requires n <= |s|
    ensures LineStart(Stripped(s), n) <= LineStart(s, n)
    ensures LineStart(Stripped(s), n) == LineStart(s, n) <==>
            (LineStart(s, n) > 0 ==> !InBlock(s, LineStart(s, n) - 1))
  {
    var held := (i: nat) => i < |s| && InBlock(s, i);
    var u := Stripped(s);
    forall i: nat | i < |s|
      ensures u[i] == LF <==> s[i] == LF && !held(i)
    {
      NewlineKept(s, i);
    }
    LineStartAgainst(s, u, held, n);
  }

  lemma {:induction false} NoBlockNewlines(s: seq<byte>, n: nat)
    requires n <= |s|
    requires forall i :: 0 <= i < n && s[i] == LF ==> !InBlock(s, i)
    ensures BlockNewlines(s, n) == 0
  {
    if n > 0 {
      NoBlockNewlines(s, n - 1);
    }
  }

  /** Line and column agree at every offset. */
  ghost predicate PositionsAgree(s: seq<byte>) {
    forall n: nat :: n <= |s| ==>
      && Newlines(Stripped(s), n) == Newlines(s, n)
      && LineStart(Stripped(s), n) == LineStart(s, n)
  }

  ghost predicate BlockCommentsOnOneLine(s: seq<byte>) {
    forall i :: 0 <= i < |s| && s[i] == LF ==> !InBlock(s, i)
  }

  lemma OneLineAgrees(s: seq<byte>, n: nat)
    requires BlockCommentsOnOneLine(s) && n <= |s|
    ensures Newlines(Stripped(s), n) == Newlines(s, n)
    ensures LineStart(Stripped(s), n) == LineStart(s, n)
  {
    LineShortfall(s, n);
    NoBlockNewlines(s, n);
    ColumnExactIff(s, n);
  }

  lemma BlockNewlineDisagrees(s: seq<byte>, i: nat)
    requires i < |s| && s[i] == LF && InBlock(s, i)
    ensures Newlines(Stripped(s), i + 1) < Newlines(s, i + 1)
  {
    LineShortfall(s, i + 1);
  }

  /**
    Every reported position is the source position exactly when no block comment holds a newline.
   */
  lemma PositionExactIff(s: seq<byte>)
    ensures PositionsAgree(s) <==> BlockCommentsOnOneLine(s)
  {
    if BlockCommentsOnOneLine(s) {
      forall n: nat | n <= |s| {
        OneLineAgrees(s, n);
      }
    } else {
      var i :| 0 <= i < |s| && s[i] == LF && InBlock(s, i);
      BlockNewlineDisagrees(s, i);
    }
  }

  /** A block comment that is one newline: behind it the reported line is short by one. */
  lemma BlockNewlineExample()
    ensures
      var s := [SLASH, STAR, LF, STAR, SLASH];
      && Stripped(s) == [SPACE, SPACE, SPACE, SPACE, SPACE]
      && Newlines(s, 5) == 1 && Newlines(Stripped(s), 5) == 0
      && LineStart(s, 5) == 3 && LineStart(Stripped(s), 5) == 0
  {
    var s := [SLASH, STAR, LF, STAR, SLASH];
    assert ModeAt(s, 0) == Code && ModeAt(s, 1) == BlockOpen && ModeAt(s, 2) == Block;
    assert ModeAt(s, 3) == Block && ModeAt(s, 4) == BlockEnd;
    assert forall i :: 0 <= i < 5 ==> InBlock(s, i);
    var u := [SPACE, SPACE, SPACE, SPACE, SPACE];
    assert BlankComments(s) == u;
    assert Stripped(s) == u;
    NoNewlines(s, 2);
    assert Newlines(s, 3) == 1 && LineStart(s, 3) == 3;
    assert Newlines(s, 4) == 1 && LineStart(s, 4) == 3;
    NoNewlines(u, 5);
  }

  lemma {:induction false} NoNewlines(s: seq<byte>, n: nat)
    requires n <= |s| && forall i :: 0 <= i < n ==> s[i] != LF
    ensures Newlines(s, n) == 0 && LineStart(s, n) == 0
  {
    if n > 0 {
      NoNewlines(s, n - 1);
    }
  }
}
