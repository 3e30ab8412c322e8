/**
  The ProxyCommand line (sshconf/render.go) and how a POSIX shell splits it into words: sections
  2.2.1 (backslash), 2.2.2 (single quotes) and 2.3 (token recognition) of the POSIX.1-2017 Shell
  Command Language.
 */
module ShellWords {
  import opened Wrappers

  // ----- Splitting -----

  datatype Mode = Plain | Single

  /**
    Unquoted characters that end a word, start an expansion, a pattern, a comment or a
    double-quoted string, or are operators. Text with one of them is not a plain list of words.
   */
  predicate Special(c: char) {
    c in {'|', '&', ';', '<', '>', '(', ')', '$', '`', '\"', '*', '?', '[', ']', '#', '~', '!',
          '{', '}', '%', '^', '\n', '\r'}
  }

  function Grow(word: Option<string>, c: char): Option<string> {
    match word
    case None => Some([c])
    case Some(w) => Some(w + [c])
  }

  function EndWord(word: Option<string>, rest: Option<seq<string>>): Option<seq<string>> {
    if rest.None? || word.None? then rest else Some([word.value] + rest.value)
  }

  /**
    The words of `s` when `word` is the word read so far, if one has begun. `None` means that a
    quote is left open, or that the shell would do more than split.
   */
  function Words(s: string, mode: Mode, word: Option<string>): Option<seq<string>>
    decreases |s|
  {
    if s == "" then
      if mode == Single then None else EndWord(word, Some([]))
    else if mode == Single then
      if s[0] == '\'' then Words(s[1..], Plain, word) else Words(s[1..], Single, Grow(word, s[0]))
    else if s[0] == ' ' || s[0] == '\t' then EndWord(word, Words(s[1..], Plain, None))
    else if s[0] == '\'' then
      Words(s[1..], Single, Some(if word.Some? then word.value else []))
    else if s[0] == '\\' then
      if |s| == 1 then None
      else if s[1] == '\n' then Words(s[2..], Plain, word)  // line continuation
      else Words(s[2..], Plain, Grow(word, s[1]))
    else if Special(s[0]) then None
    else Words(s[1..], Plain, Grow(word, s[0]))
  }

  function Split(s: string): Option<seq<string>> {
    Words(s, Plain, None)
  }

  // ----- Quoting -----

  predicate NeedsQuote(c: char) {
    !( || 'a' <= c <= 'z' || 'A' <= c <= 'Z' || '0' <= c <= '9'
       || c in {'-', '_', '.', '/', '@', ':', ',', '='})
  }

  predicate Safe(s: string) {
    forall c :: c in s ==> !NeedsQuote(c)
  }

  /** One character inside single quotes: a quote is closed, escaped and reopened. */
  function EscapeChar(c: char): string {
    if c == '\'' then ['\'', '\\', '\'', '\''] else [c]
  }

  function EscapeQuotes(s: string): string {
    if s == "" then ""
    else EscapeChar(s[0]) + EscapeQuotes(s[1..])
  }

  function MaybeQuote(s: string): string {
    if s == "" then ['\'', '\'']
    else if Safe(s) then s
    else ['\''] + EscapeQuotes(s) + ['\'']
  }

  /** `strings.Join` with a blank. */
  function Join(parts: seq<string>): string {
    if |parts| == 0 then ""
    else if |parts| == 1 then parts[0]
    else parts[0] + [' '] + Join(parts[1..])
  }

  function QuoteAll(args: seq<string>): seq<string> {
    seq(|args|, i requires 0 <= i < |args| => MaybeQuote(args[i]))
  }

  // ----- Round trip -----

  /** A safe character is not special: outside quotes it just grows the word. */
  lemma SafeChar(c: char, tail: string, word: Option<string>)
    requires !NeedsQuote(c)
    ensures Words([c] + tail, Plain, word) == Words(tail, Plain, Grow(word, c))
  {
    assert ([c] + tail)[1..] == tail;
  }

  lemma {:induction false} SafeWord(s: string, rest: string, w: string)
    requires Safe(s)
    ensures Words(s + rest, Plain, Some(w)) == Words(rest, Plain, Some(w + s))
  {
    if s == "" {
      assert s + rest == rest && w + s == w;
    } else {
      assert s + rest == [s[0]] + (s[1..] + rest);
      assert w + [s[0]] + s[1..] == w + s;
      SafeChar(s[0], s[1..] + rest, Some(w));
      SafeWord(s[1..], rest, w + [s[0]]);
    }
  }

  /** Inside quotes, the escaped form of a character adds that character to the word. */
  lemma EscapedChar(c: char, tail: string, w: string)
    ensures Words(EscapeChar(c) + tail, Single, Some(w)) == Words(tail, Single, Some(w + [c]))
  {
    var t := EscapeChar(c) + tail;
    if c == '\'' {
      assert t[1..][2..] == t[3..];
      assert t[3..][1..] == tail;
      assert Words(t, Single, Some(w)) == Words(t[1..], Plain, Some(w));
      assert Words(t[1..], Plain, Some(w)) == Words(t[3..], Plain, Some(w + [c]));
    } else {
      assert t[1..] == tail;
    }
  }

  /** Inside quotes, the closing quote ends the quoted part. */
  lemma ClosingQuote(rest: string, w: string)
    ensures Words(['\''] + rest, Single, Some(w)) == Words(rest, Plain, Some(w))
  {
    assert (['\''] + rest)[1..] == rest;
  }

  /** Inside quotes, the escaped form of `s` up to the closing quote reads as `s`. */
  lemma {:induction false} EscapedWord(s: string, rest: string, w: string)
    ensures Words(EscapeQuotes(s) + (['\''] + rest), Single, Some(w)) == Words(rest, Plain, Some(w + s))
  {
    if s == "" {
      assert EscapeQuotes(s) + (['\''] + rest) == ['\''] + rest;
      ClosingQuote(rest, w);
      assert w + s == w;
    } else {
      var tail := EscapeQuotes(s[1..]) + (['\''] + rest);
      EscapedChar(s[0], tail, w);
      EscapedWord(s[1..], rest, w + [s[0]]);
      assert w + [s[0]] + s[1..] == w + s;
      EscapeQuotesCons(s, ['\''] + rest);
    }
  }

  lemma EscapeQuotesCons(s: string, rest: string)
    requires s != ""
    ensures EscapeQuotes(s) + rest == EscapeChar(s[0]) + (EscapeQuotes(s[1..]) + rest)
  {
  }

  lemma BareWord(s: string, rest: string)
    requires s != "" && Safe(s)
    ensures Words(s + rest, Plain, None) == Words(rest, Plain, Some(s))
  {
    assert s + rest == [s[0]] + (s[1..] + rest);
    SafeChar(s[0], s[1..] + rest, None);
    SafeWord(s[1..], rest, [s[0]]);
    assert [s[0]] + s[1..] == s;
  }

  lemma WrappedWord(s: string, rest: string)
    ensures Words(['\''] + EscapeQuotes(s) + ['\''] + rest, Plain, None) == Words(rest, Plain, Some(s))
  {
    var t := ['\''] + EscapeQuotes(s) + ['\''] + rest;
    assert t[1..] == EscapeQuotes(s) + (['\''] + rest);
    EscapedWord(s, rest, []);
    assert [] + s == s;
  }

  lemma QuotedWord(s: string, rest: string)
    ensures Words(MaybeQuote(s) + rest, Plain, None) == Words(rest, Plain, Some(s))
  {
    if s != "" && Safe(s) {
      BareWord(s, rest);
    } else {
      assert MaybeQuote(s) == ['\''] + EscapeQuotes(s) + ['\''];
      WrappedWord(s, rest);
    }
  }

  /** A quoted argument followed by a blank and more words. */
  lemma FirstWord(a: string, tail: string)
    ensures Words(MaybeQuote(a) + [' '] + tail, Plain, None) == EndWord(Some(a), Words(tail, Plain, None))
  {
    QuotedWord(a, [' '] + tail);
    assert MaybeQuote(a) + [' '] + tail == MaybeQuote(a) + ([' '] + tail);
    assert ([' '] + tail)[1..] == tail;
  }

  lemma LastWord(a: string)
    ensures Words(MaybeQuote(a), Plain, None) == Some([a])
  {
    QuotedWord(a, []);
    assert MaybeQuote(a) + [] == MaybeQuote(a);
    assert [a] + [] == [a];
  }

  /**
    Splitting the joined, quoted arguments returns exactly the arguments, whatever they contain:
    empty ones, blanks, quotes and shell metacharacters included.
   */
  lemma {:induction false} SplitJoin(args: seq<string>)
    ensures Split(Join(QuoteAll(args))) == Some(args)
  {
    if |args| == 0 {
      assert args == [] && QuoteAll(args) == [];
    } else if |args| == 1 {
      LastWord(args[0]);
      assert args == [args[0]];
    } else {
      SplitJoin(args[1..]);
      assert QuoteAll(args)[1..] == QuoteAll(args[1..]);
      FirstWord(args[0], Join(QuoteAll(args[1..])));
      assert args == [args[0]] + args[1..];
    }
  }

  /** An argument is left bare exactly when it is not empty and has safe characters only. */
  lemma BareIffSafe(s: string)
    ensures MaybeQuote(s) == s <==> s != "" && Safe(s)
    ensures Safe(s) <==>
            forall c :: c in s ==>
              || 'a' <= c <= 'z' || 'A' <= c <= 'Z' || '0' <= c <= '9'
              || c == '-' || c == '_' || c == '.' || c == '/' || c == '@' || c == ':' || c == ',' || c == '='
  {
    if s != "" && !Safe(s) {
      EscapeGrows(s);
    }
  }

  lemma {:induction false} EscapeGrows(s: string)
    ensures |EscapeQuotes(s)| >= |s|
  {
    if s != "" {
      EscapeGrows(s[1..]);
    }
  }

  /** Unquoted, the shell would do more than split at these. */
  lemma SpecialRejected(c: char, rest: string)
    requires c in ['|', '&', ';', '<', '>', '(', ')', '$', '`', '\"', '*', '?', '[', ']', '#', '~', '!',
                   '{', '}', '%', '^', '\n', '\r']
    ensures Split([c] + rest) == None
  {
  }

  /** Blanks separate, a backslash before a newline is nothing, and quotes must be closed. */
  lemma PlainRules(rest: string, word: Option<string>, inside: string)
    requires '\'' !in inside
    ensures forall c :: c in {' ', '\t'} ==> Split([c] + rest) == Split(rest)
    ensures Words(['\\', '\n'] + rest, Plain, word) == Words(rest, Plain, word)
    ensures Split(['\\']) == None && Split(['\''] + inside) == None
  {
    forall c: char ensures ([c] + rest)[1..] == rest { }
    assert (['\\', '\n'] + rest)[2..] == rest;
    assert (['\''] + inside)[1..] == inside;
    OpenQuote(inside, Some([]));
  }

  lemma {:induction false} OpenQuote(inside: string, word: Option<string>)
    requires '\'' !in inside
    ensures Words(inside, Single, word) == None
  {
    if inside != "" {
      OpenQuote(inside[1..], Grow(word, inside[0]));
    }
  }

  // ----- A splitter that knows no quoting -----

  predicate Blank(c: char) {
    c in {' ', '\t', '\n', '\r'}
  }

  /** A word that blanks alone can delimit. */
  predicate Solid(w: string) {
    w != "" && forall c :: c in w ==> !Blank(c)
  }

  /** The maximal runs of characters that are not blank, when `word` has just been read. */
  function Fields(s: string, word: string): seq<string>
    decreases |s|
  {
    if s == "" then if word == "" then [] else [word]
    else if !Blank(s[0]) then Fields(s[1..], word + [s[0]])
    else if word == "" then Fields(s[1..], "")
    else [word] + Fields(s[1..], "")
  }

  lemma {:induction false} FieldsSolid(s: string, word: string)
    requires word == "" || Solid(word)
    ensures forall w :: w in Fields(s, word) ==> Solid(w)
    decreases |s|
  {
    if s != "" {
      FieldsSolid(s[1..], if Blank(s[0]) then "" else word + [s[0]]);
    }
  }

  lemma {:induction false} FieldsWord(q: string, word: string, rest: string)
    requires forall c :: c in q ==> !Blank(c)
    ensures Fields(q + rest, word) == Fields(rest, word + q)
  {
    if q == "" {
      assert q + rest == rest && word + q == word;
    } else {
      assert (q + rest)[1..] == q[1..] + rest;
      FieldsWord(q[1..], word + [q[0]], rest);
      assert word + [q[0]] + q[1..] == word + q;
    }
  }

  lemma {:induction false} FieldsJoin(qs: seq<string>)
    requires forall q :: q in qs ==> Solid(q)
    ensures Fields(Join(qs), "") == qs
  {
    assert |qs| > 0 ==> qs[0] in qs;
    if |qs| == 1 {
      FieldsWord(qs[0], "", "");
      assert qs[0] + "" == qs[0] == "" + qs[0];
    } else if |qs| > 1 {
      var tail := Join(qs[1..]);
      assert forall q :: q in qs[1..] ==> q in qs;
      FieldsJoin(qs[1..]);
      FieldsWord(qs[0], "", [' '] + tail);
      assert qs[0] + [' '] + tail == qs[0] + ([' '] + tail);
      assert "" + qs[0] == qs[0] && ([' '] + tail)[1..] == tail;
    }
  }

  lemma {:induction false} EscapeSolid(s: string)
    requires forall c :: c in s ==> !Blank(c)
    ensures forall c :: c in EscapeQuotes(s) ==> !Blank(c)
  {
    if s != "" {
      EscapeSolid(s[1..]);
    }
  }

  lemma QuotedSolid(s: string)
    requires Solid(s)
    ensures Solid(MaybeQuote(s))
  {
    EscapeSolid(s);
  }

  /** Words written without quoting that need none. */
  predicate AllBare(words: seq<string>) {
    forall w :: w in words ==> w != "" && Safe(w)
  }

  /**
    A splitter that only looks for blanks recovers the arguments from the joined line exactly when
    none of them is empty or has a character outside the safe set.
   */
  lemma NaiveSplitIff(args: seq<string>)
    ensures Fields(Join(QuoteAll(args)), "") == args <==> AllBare(args)
  {
    var qs := QuoteAll(args);
    forall a { BareIffSafe(a); }
    if AllBare(args) {
      assert forall i :: 0 <= i < |args| ==> args[i] in args && qs[i] == args[i];
      assert qs == args;
      FieldsJoin(args);
    }
    if Fields(Join(qs), "") == args {
      FieldsSolid(Join(qs), "");
      forall i | 0 <= i < |args|
        ensures Solid(qs[i])
      {
        assert args[i] in args;
        QuotedSolid(args[i]);
      }
      FieldsJoin(qs);
      assert forall i :: 0 <= i < |args| ==> qs[i] == MaybeQuote(args[i]);
    }
  }

  // ----- The ProxyCommand -----

  datatype Params = Params(devcBin: string, configPath: string, runtimePath: string,
                           forwardAgent: bool, workspaceName: string)

  function ConfigOption(p: Params): seq<string> {
    if p.configPath != "" then ["--config", p.configPath] else []
  }

  function RuntimeOption(p: Params): seq<string> {
    if p.runtimePath != "" then ["--runtime", p.runtimePath] else []
  }

  function AgentOption(p: Params): seq<string> {
    if p.forwardAgent then ["--forward-agent"] else []
  }

  /** The arguments that the line has to hand to `devc`. */
  function Arguments(p: Params): seq<string> {
    [p.devcBin] + ["ssh", "--stdio", "--start"] + ConfigOption(p) + RuntimeOption(p) + AgentOption(p)
    + [p.workspaceName]
  }

  lemma AppendBare(args: seq<string>, words: seq<string>)
    requires AllBare(words)
    ensures QuoteAll(args) + words == QuoteAll(args + words)
  {
    forall i | 0 <= i < |words|
      ensures MaybeQuote(words[i]) == words[i]
    {
      assert words[i] in words;
    }
  }

  lemma AppendQuoted(args: seq<string>, a: string)
    ensures QuoteAll(args) + [MaybeQuote(a)] == QuoteAll(args + [a])
  {
  }

  lemma FlagsAreBare()
    ensures AllBare(["ssh", "--stdio", "--start"])
    ensures AllBare(["--config"]) && AllBare(["--runtime"]) && AllBare(["--forward-agent"])
  {
  }

  /** A shell splits the generated line into exactly the intended arguments. */
  method ProxyCommand(p: Params) returns (line: string)
    ensures Split(line) ==
            Some([p.devcBin, "ssh", "--stdio", "--start"]
                 + (if p.configPath != "" then ["--config", p.configPath] else [])
                 + (if p.runtimePath != "" then ["--runtime", p.runtimePath] else [])
                 + (if p.forwardAgent then ["--forward-agent"] else [])
                 + [p.workspaceName])
  {
    FlagsAreBare();
    ghost var args := [p.devcBin] + ["ssh", "--stdio", "--start"];
    AppendBare([p.devcBin], ["ssh", "--stdio", "--start"]);
    var parts := [MaybeQuote(p.devcBin)] + ["ssh", "--stdio", "--start"];
    assert QuoteAll([p.devcBin]) == [MaybeQuote(p.devcBin)];
    if p.configPath != "" {
      parts, args := AppendOption(parts, args, "--config", p.configPath);
    }
    assert args == [p.devcBin] + ["ssh", "--stdio", "--start"] + ConfigOption(p);
    if p.runtimePath != "" {
      parts, args := AppendOption(parts, args, "--runtime", p.runtimePath);
    }
    assert args == [p.devcBin] + ["ssh", "--stdio", "--start"] + ConfigOption(p) + RuntimeOption(p);
    if p.forwardAgent {
      AppendBare(args, ["--forward-agent"]);
      parts, args := parts + ["--forward-agent"], args + ["--forward-agent"];
    }
    assert args == [p.devcBin] + ["ssh", "--stdio", "--start"] + ConfigOption(p) + RuntimeOption(p) + AgentOption(p);
    AppendQuoted(args, p.workspaceName);
    parts, args := parts + [MaybeQuote(p.workspaceName)], args + [p.workspaceName];
    SplitJoin(args);
    assert [p.devcBin] + ["ssh", "--stdio", "--start"] == [p.devcBin, "ssh", "--stdio", "--start"];
    line := Join(parts);
  }

  method AppendOption(parts: seq<string>, ghost args: seq<string>, flag: string, value: string)
    returns (parts': seq<string>, ghost args': seq<string>)
    requires parts == QuoteAll(args) && AllBare([flag])
    ensures args' == args + [flag, value] && parts' == QuoteAll(args')
  {
    AppendBare(args, [flag]);
    AppendQuoted(args + [flag], value);
    parts' := parts + [flag] + [MaybeQuote(value)];
    args' := args + [flag] + [value];
  }
}
