/** `${...}` references: finding them, resolving them, and one expansion pass over a string. */
module Expansion {
  import opened Text

  /** Index of the first `${` in `s`, or its length. */
  function OpenAt(s: string): (o: nat)
    ensures o <= |s|
    ensures o < |s| ==> o + 1 < |s| && s[o] == '$' && s[o + 1] == '{'
  {
    if |s| < 2 then |s|
    else if s[0] == '$' && s[1] == '{' then 0
    else 1 + OpenAt(s[1..])
  }

  /** There is no `${` before it. */
  lemma {:induction false} OpenAtFirst(s: string)
    ensures forall k :: 0 <= k < OpenAt(s) && k + 1 < |s| ==> !(s[k] == '$' && s[k + 1] == '{')
  {
    if |s| >= 2 && !(s[0] == '$' && s[1] == '{') {
      OpenAtFirst(s[1..]);
      forall k | 0 < k < OpenAt(s) && k + 1 < |s|
        ensures !(s[k] == '$' && s[k + 1] == '{')
      {
        assert s[1..][k - 1] == s[k] && s[1..][k] == s[k + 1];
      }
    }
  }

  /** The text holds no `${`. */
  predicate NoOpen(s: string) {
    forall k :: 0 <= k && k + 1 < |s| ==> !(s[k] == '$' && s[k + 1] == '{')
  }

  lemma NoOpenIff(s: string)
    ensures NoOpen(s) <==> OpenAt(s) == |s|
  {
    OpenAtFirst(s);
  }

  /** Index of the first `}` in `s`, or its length. */
  function CloseAt(s: string): (c: nat)
    ensures c <= |s|
    ensures c < |s| ==> s[c] == '}'
    ensures forall k :: 0 <= k < c ==> s[k] != '}'
  {
    if s == "" || s[0] == '}' then 0 else 1 + CloseAt(s[1..])
  }

  /** A closed reference: the text before it, its body, and the text after it. */
  datatype Match = NoMatch | Match(before: string, body: string, after: string)

  /** The reference that the `${` at `o` opens, if anything closes it. */
  function MatchFrom(s: string, o: nat): (m: Match)
    requires o + 2 <= |s|
    ensures m.Match? ==> |m.after| < |s| && '}' !in m.body
  {
    var tail := s[o + 2..];
    var c := CloseAt(tail);
    if c == |tail| then NoMatch else Match(s[..o], tail[..c], tail[c + 1..])
  }

  /**
    The leftmost match of `\$\{[^}]*\}`. Only the first `${` matters: if nothing closes it,
    nothing closes a later one either.
   */
  function FirstMatch(s: string): (m: Match)
    ensures m.Match? ==> |m.after| < |s| && '}' !in m.body
  {
    if OpenAt(s) == |s| then NoMatch else MatchFrom(s, OpenAt(s))
  }

  /** The text of a reference. */
  function Ref(body: string): string {
    ['$', '{'] + body + ['}']
  }

  lemma Assoc(a: string, b: string, c: string)
    ensures a + b + c == a + (b + c)
  {
  }

  /** Text that starts with a reference of body length `c`, cut after it. */
  lemma CutRef(t: string, c: nat)
    requires c + 2 < |t| && t[0] == '$' && t[1] == '{' && t[c + 2] == '}'
    ensures t == Ref(t[2..][..c]) + t[2..][c + 1..]
  {
    var r := Ref(t[2..][..c]);
    assert |r| == c + 3;
    assert r == t[..c + 3];
    assert t[2..][c + 1..] == t[c + 3..];
  }

  lemma MatchFromParts(s: string, o: nat)
    requires o + 2 <= |s| && s[o] == '$' && s[o + 1] == '{' && MatchFrom(s, o).Match?
    ensures var m := MatchFrom(s, o); s == m.before + Ref(m.body) + m.after
  {
    var t := s[o..];
    var m := MatchFrom(s, o);
    assert t[2..] == s[o + 2..];
    CutRef(t, |m.body|);
    assert t == Ref(m.body) + m.after;
    Assoc(m.before, Ref(m.body), m.after);
    assert s == s[..o] + t;
  }

  lemma MatchParts(s: string)
    requires FirstMatch(s).Match?
    ensures var m := FirstMatch(s); s == m.before + Ref(m.body) + m.after
  {
    MatchFromParts(s, OpenAt(s));
  }

  /** The bodies of all closed references of `s`, left to right and without overlap. */
  function Refs(s: string): seq<string>
    decreases |s|
  {
    var m := FirstMatch(s);
    if m.NoMatch? then [] else [m.body] + Refs(m.after)
  }

  const DEFERRED := "containerEnv:"
  const LOCAL_ENV := "localEnv:"

  /** Every closed reference of `s` is one that is resolved later, inside the container. */
  predicate OnlyDeferred(s: string) {
    forall body :: body in Refs(s) ==> DEFERRED <= body
  }

  datatype Context = Context(localFolder: string, containerFolder: string, id: string,
                             env: map<string, string>)

  datatype Resolved = Text(text: string) | Deferred | Unknown

  function TrimSlashes(p: string): (q: string)
    ensures forall c :: c in q ==> c in p
  {
    if p == "" || p[|p| - 1] != '/' then p else TrimSlashes(p[..|p| - 1])
  }

  function AfterLastSlash(p: string): (q: string)
    ensures forall c :: c in q ==> c in p
    ensures p != "" && p[|p| - 1] != '/' ==> q != ""
  {
    if p == "" || p[|p| - 1] == '/' then "" else AfterLastSlash(p[..|p| - 1]) + [p[|p| - 1]]
  }

  /** `filepath.Base` on a slash-separated path. */
  function Base(p: string): string {
    if p == "" then "."
    else
      var q := TrimSlashes(p);
      if q == "" then "/" else AfterLastSlash(q)
  }

  /** `NAME` or `NAME:default`. */
  function EnvName(ref: string): string {
    ref[..IndexOf(ref, ':')]
  }

  predicate HasDefault(ref: string) {
    IndexOf(ref, ':') < |ref|
  }

  function EnvDefault(ref: string): string
    requires HasDefault(ref)
  {
    ref[IndexOf(ref, ':') + 1..]
  }

  function ResolveEnv(env: map<string, string>, ref: string): string {
    if EnvName(ref) in env then env[EnvName(ref)]
    else if HasDefault(ref) then EnvDefault(ref)
    else ""
  }

  /** The kinds of reference body that have a meaning. */
  datatype Variable = LocalFolder | LocalBase | ContainerFolder | ContainerBase | DevcontainerId
                    | LocalEnv(ref: string) | ContainerEnv | NoVariable

  function Classify(body: string): Variable {
    if body == "localWorkspaceFolder" then LocalFolder
    else if body == "localWorkspaceFolderBasename" then LocalBase
    else if body == "containerWorkspaceFolder" then ContainerFolder
    else if body == "containerWorkspaceFolderBasename" then ContainerBase
    else if body == "devcontainerId" then DevcontainerId
    else if LOCAL_ENV <= body then LocalEnv(body[|LOCAL_ENV|..])
    else if DEFERRED <= body then ContainerEnv
    else NoVariable
  }

  function ResolveVar(ctx: Context, variable: Variable): Resolved {
    match variable
    case LocalFolder => Text(ctx.localFolder)
    case LocalBase => Text(Base(ctx.localFolder))
    case ContainerFolder => Text(ctx.containerFolder)
    case ContainerBase => Text(Base(ctx.containerFolder))
    case DevcontainerId => Text(ctx.id)
    case LocalEnv(ref) => Text(ResolveEnv(ctx.env, ref))
    case ContainerEnv => Deferred
    case NoVariable => Unknown
  }

  /** The outcome of one pass: the new text, or the last unknown variable it met. */
  datatype Expanded = Done(text: string) | Failed(unknown: string)

  /** One pass over `s`, for any way of resolving a reference body. */
  function ExpandWith(resolve: string -> Resolved, s: string): Expanded
    decreases |s|
  {
    var m := FirstMatch(s);
    if m.NoMatch? then Done(s)
    else
      var rest := ExpandWith(resolve, m.after);
      if rest.Failed? then rest
      else
        match resolve(m.body)
        case Unknown => Failed(m.body)
        case Text(text) => Done(m.before + text + rest.text)
        case Deferred => Done(m.before + Ref(m.body) + rest.text)
  }

  function Resolver(ctx: Context): string -> Resolved {
    body => ResolveVar(ctx, Classify(body))
  }

  function Expand(ctx: Context, s: string): Expanded {
    ExpandWith(Resolver(ctx), s)
  }

  /** What a pass leaves in a string: on failure the string stays as it was. */
  function Left(ctx: Context, s: string): string {
    if Expand(ctx, s).Done? then Expand(ctx, s).text else s
  }

  // ----- What the pieces mean -----

  /** The base name of a path is its last element, whatever slashes follow it. */
  lemma {:induction false} BaseOfPath(dir: string, name: string, slashes: string)
    requires name != "" && '/' !in name && forall k :: 0 <= k < |slashes| ==> slashes[k] == '/'
    ensures Base(dir + ['/'] + name + slashes) == name
  {
    var p := dir + ['/'] + name;
    TrimOnlySlashes(p, slashes);
    LastElement(dir, name);
  }

  lemma {:induction false} TrimOnlySlashes(p: string, slashes: string)
    requires p != "" && p[|p| - 1] != '/' && forall k :: 0 <= k < |slashes| ==> slashes[k] == '/'
    ensures TrimSlashes(p + slashes) == p
  {
    var t := p + slashes;
    if slashes == "" {
      assert t == p;
    } else {
      assert t[|t| - 1] == slashes[|slashes| - 1];
      assert t[..|t| - 1] == p + slashes[..|slashes| - 1];
      TrimOnlySlashes(p, slashes[..|slashes| - 1]);
    }
  }

  lemma {:induction false} LastElement(dir: string, name: string)
    requires '/' !in name
    ensures AfterLastSlash(dir + ['/'] + name) == name
  {
    var t := dir + ['/'] + name;
    if name != "" {
      assert t[..|t| - 1] == dir + ['/'] + name[..|name| - 1];
      assert t[|t| - 1] == name[|name| - 1];
      LastElement(dir, name[..|name| - 1]);
    }
  }

  /** A set variable wins over its default; an unset one takes the default, colons included. */
  lemma EnvReference(env: map<string, string>, name: string, def: string)
    requires ':' !in name
    ensures ResolveEnv(env, name + [':'] + def) == if name in env then env[name] else def
  {
    var ref := name + [':'] + def;
    ColonAt(name, def);
    assert ref[..|name|] == name && ref[|name| + 1..] == def;
  }

  lemma {:induction false} ColonAt(name: string, def: string)
    requires ':' !in name
    ensures IndexOf(name + [':'] + def, ':') == |name|
  {
    var ref := name + [':'] + def;
    if name != "" {
      assert ref[1..] == name[1..] + [':'] + def;
      ColonAt(name[1..], def);
    }
  }

  /** The base name of a path that is empty, only slashes, or a single element. */
  lemma {:induction false} BaseOfOthers(name: string, slashes: string)
    requires name != "" && '/' !in name && forall k :: 0 <= k < |slashes| ==> slashes[k] == '/'
    ensures Base("") == "."
    ensures slashes != "" ==> Base(slashes) == "/"
    ensures Base(name + slashes) == name
  {
    if slashes != "" {
      OnlySlashes(slashes);
    }
    TrimOnlySlashes(name, slashes);
    NoSlash(name);
  }

  lemma {:induction false} OnlySlashes(slashes: string)
    requires forall k :: 0 <= k < |slashes| ==> slashes[k] == '/'
    ensures TrimSlashes(slashes) == ""
  {
    if slashes != "" {
      OnlySlashes(slashes[..|slashes| - 1]);
    }
  }

  lemma {:induction false} NoSlash(name: string)
    requires '/' !in name
    ensures AfterLastSlash(name) == name
  {
    if name != "" {
      NoSlash(name[..|name| - 1]);
      assert name == name[..|name| - 1] + [name[|name| - 1]];
    }
  }

  // ----- Strings that no pass alters -----

  /** A resolver that defers exactly the container environment. */
  ghost predicate Defers(resolve: string -> Resolved) {
    forall body :: resolve(body).Deferred? <==> DEFERRED <= body
  }

  /** Where each name parts from the deferred prefix. */
  lemma NamesPart()
    ensures DEFERRED[0] == 'c' && DEFERRED[9] == 'E' && LOCAL_ENV[0] == 'l'
    ensures ("localWorkspaceFolder")[0] == 'l' && ("localWorkspaceFolderBasename")[0] == 'l'
    ensures ("containerWorkspaceFolder")[9] == 'W' && ("containerWorkspaceFolderBasename")[9] == 'W'
    ensures ("devcontainerId")[0] == 'd'
  {
  }

  /** No named variable looks deferred: each differs from the prefix within ten characters. */
  lemma DeferredClassified(body: string)
    ensures Classify(body) == ContainerEnv <==> DEFERRED <= body
  {
    if DEFERRED <= body {
      NamesPart();
      assert body[0] == DEFERRED[0] && body[9] == DEFERRED[9];
    }
  }

  lemma ContextDefers(ctx: Context)
    ensures Defers(Resolver(ctx))
  {
    forall body: string
      ensures Resolver(ctx)(body).Deferred? <==> DEFERRED <= body
    {
      DeferredClassified(body);
    }
  }

  lemma RefsCons(s: string)
    requires FirstMatch(s).Match?
    ensures forall body :: body in Refs(s) <==> body == FirstMatch(s).body || body in Refs(FirstMatch(s).after)
  {
  }

  /** A string with no closed reference, or only deferred ones, is never altered. */
  lemma {:induction false} DeferredUnaltered(resolve: string -> Resolved, s: string)
    requires Defers(resolve) && OnlyDeferred(s)
    ensures ExpandWith(resolve, s) == Done(s)
    decreases |s|
  {
    var m := FirstMatch(s);
    if m.Match? {
      RefsCons(s);
      assert m.body in Refs(s);
      DeferredUnaltered(resolve, m.after);
      MatchParts(s);
    }
  }

  lemma OnlyDeferredFixed(ctx: Context, s: string)
    requires OnlyDeferred(s)
    ensures Expand(ctx, s) == Done(s)
  {
    ContextDefers(ctx);
    DeferredUnaltered(Resolver(ctx), s);
  }

  /** A pass fails exactly when some closed reference names an unknown variable. */
  lemma {:induction false} FailsIffUnknown(resolve: string -> Resolved, s: string)
    ensures ExpandWith(resolve, s).Failed? <==> exists body :: body in Refs(s) && resolve(body).Unknown?
    decreases |s|
  {
    var m := FirstMatch(s);
    if m.Match? {
      RefsCons(s);
      FailsIffUnknown(resolve, m.after);
    }
  }

  // ----- When one pass is enough -----

  /** Text that cannot take part in forming a reference: it neither joins its neighbours nor opens one. */
  predicate Clean(text: string) {
    text != "" && '$' !in text && !StartsWithBrace(text)
  }

  predicate StartsWithBrace(text: string) {
    text != "" && text[0] == '{'
  }

  /** Every replacement that a pass over `s` inserts is clean. */
  predicate CleanReplacements(resolve: string -> Resolved, s: string) {
    forall body :: body in Refs(s) && resolve(body).Text? ==> Clean(resolve(body).text)
  }

  /** Text with no `${` in it, followed by text that cannot complete one. */
  predicate Apart(a: string, b: string) {
    OpenAt(a) == |a| && !(a != "" && a[|a| - 1] == '$' && b != "" && b[0] == '{')
  }

  lemma {:induction false} OpenAtApart(a: string, b: string)
    requires Apart(a, b)
    ensures OpenAt(a + b) == |a| + OpenAt(b)
  {
    if a == "" {
      assert a + b == b;
    } else {
      assert (a + b)[1..] == a[1..] + b;
      if |a| > 1 {
        assert Apart(a[1..], b);
      }
      OpenAtApart(a[1..], b);
      if |a + b| < 2 {
        assert a + b == a;
      }
    }
  }

  /** A match is looked for where the first `${` is. */
  lemma FirstMatchIs(s: string, o: nat)
    requires OpenAt(s) == o
    ensures FirstMatch(s) == if o == |s| then NoMatch else MatchFrom(s, o)
  {
  }

  /** Literal text in front does not change which reference comes first. */
  lemma FirstMatchApart(a: string, b: string)
    requires Apart(a, b)
    ensures Shifted(a, FirstMatch(b), FirstMatch(a + b))
  {
    OpenAtApart(a, b);
    if OpenAt(b) < |b| {
      MatchFromShifted(a, b, OpenAt(b));
    }
    FirstMatchShifted(a, b, a + b, OpenAt(b));
  }

  /** `n` is the match `m` with `a` in front. */
  predicate Shifted(a: string, m: Match, n: Match) {
    match m
    case NoMatch => n == NoMatch
    case Match(before, body, after) => n == Match(a + before, body, after)
  }

  lemma FirstMatchShifted(a: string, b: string, s: string, o: nat)
    requires OpenAt(b) == o && OpenAt(s) == |a| + o && |s| == |a| + |b|
    requires o < |b| ==> Shifted(a, MatchFrom(b, o), MatchFrom(s, |a| + o))
    ensures Shifted(a, FirstMatch(b), FirstMatch(s))
  {
    FirstMatchIs(b, o);
    FirstMatchIs(s, |a| + o);
  }

  lemma MatchFromShifted(a: string, b: string, o: nat)
    requires o + 2 <= |b|
    ensures Shifted(a, MatchFrom(b, o), MatchFrom(a + b, |a| + o))
  {
    assert (a + b)[|a| + o + 2..] == b[o + 2..];
    assert (a + b)[..|a| + o] == a + b[..o];
  }

  lemma RefsApart(a: string, b: string)
    requires Apart(a, b)
    ensures Refs(a + b) == Refs(b)
  {
    FirstMatchApart(a, b);
  }

  lemma {:induction false} CloseAtBody(body: string, rest: string)
    requires '}' !in body
    ensures CloseAt(body + ['}'] + rest) == |body|
  {
    var t := body + ['}'] + rest;
    if body != "" {
      assert t[1..] == body[1..] + ['}'] + rest;
      CloseAtBody(body[1..], rest);
    }
  }

  /** A reference in front is found first and whole. */
  lemma FirstMatchRef(body: string, rest: string)
    requires '}' !in body
    ensures FirstMatch(Ref(body) + rest) == Match([], body, rest)
  {
    var s := Ref(body) + rest;
    assert s[0] == '$' && s[1] == '{';
    var tail := body + ['}'] + rest;
    assert s[2..] == tail;
    CloseAtBody(body, rest);
    assert tail[..|body|] == body;
    assert tail[|body| + 1..] == rest;
  }

  lemma RefsOfRef(body: string, rest: string)
    requires '}' !in body
    ensures Refs(Ref(body) + rest) == [body] + Refs(rest)
  {
    FirstMatchRef(body, rest);
  }

  /**
    A pass replaces the first reference in place, keeps it if it is deferred, or fails on it, and
    goes on behind it; the inserted text is not looked at again.
   */
  lemma ExpandFirst(resolve: string -> Resolved, before: string, body: string, after: string)
    requires NoOpen(before) && '}' !in body
    ensures
      var rest := ExpandWith(resolve, after);
      ExpandWith(resolve, before + (['$', '{'] + body + ['}'] + after)) ==
      if rest.Failed? then rest
      else
        match resolve(body)
        case Text(text) => Done(before + text + rest.text)
        case Deferred => Done(before + (['$', '{'] + body + ['}']) + rest.text)
        case Unknown => Failed(body)
  {
    assert Ref(body) == ['$', '{'] + body + ['}'];
    NoOpenIff(before);
    FirstMatchRef(body, after);
    assert (Ref(body) + after)[0] == '$';
    FirstMatchApart(before, Ref(body) + after);
    assert before + [] == before;
  }

  /** Text without a reference is left alone, and so is one that is never closed. */
  lemma ExpandNone(resolve: string -> Resolved, before: string, tail: string)
    requires NoOpen(before)
    ensures ExpandWith(resolve, before) == Done(before)
    ensures '}' !in tail ==> ExpandWith(resolve, before + (['$', '{'] + tail)) == Done(before + (['$', '{'] + tail))
  {
    NoOpenIff(before);
    if '}' !in tail {
      NeverClosed(tail);
      FirstMatchApart(before, ['$', '{'] + tail);
    }
  }

  lemma NeverClosed(tail: string)
    requires '}' !in tail
    ensures FirstMatch(['$', '{'] + tail) == NoMatch
  {
    var s := ['$', '{'] + tail;
    assert s[0] == '$' && s[1] == '{' && s[2..] == tail;
    assert CloseAt(tail) == |tail|;
  }

  lemma {:induction false} OpenAtNone(a: string)
    requires '$' !in a
    ensures OpenAt(a) == |a|
  {
    if |a| >= 2 {
      OpenAtNone(a[1..]);
    }
  }

  /** Text before the first `${` contains none. */
  lemma {:induction false} BeforeOpen(s: string)
    ensures OpenAt(s[..OpenAt(s)]) == OpenAt(s)
  {
    var o := OpenAt(s);
    if o == |s| {
      assert s[..o] == s;
    } else if o >= 2 {
      BeforeOpen(s[1..]);
      assert s[..o][1..] == s[1..][..o - 1];
    }
  }

  /** The two shapes a piece of expanded text can have, in front of deferred-only text. */
  lemma TextThenDeferred(before: string, text: string, rest: string)
    requires OpenAt(before) == |before| && Clean(text) && OnlyDeferred(rest)
    ensures OnlyDeferred(before + text + rest)
  {
    OpenAtNone(text);
    OpenAtApart(before, text);
    RefsApart(before + text, rest);
  }

  lemma RefsBefore(before: string, body: string, rest: string)
    requires OpenAt(before) == |before|
    ensures Refs(before + (Ref(body) + rest)) == Refs(Ref(body) + rest)
  {
    assert (Ref(body) + rest)[0] == '$';
    RefsApart(before, Ref(body) + rest);
  }

  lemma RefThenDeferred(before: string, body: string, rest: string)
    requires OpenAt(before) == |before| && '}' !in body && DEFERRED <= body && OnlyDeferred(rest)
    ensures OnlyDeferred(before + Ref(body) + rest)
  {
    RefsOfRef(body, rest);
    RefsBefore(before, body, rest);
    Assoc(before, Ref(body), rest);
    var refs := Refs(before + Ref(body) + rest);
    assert refs == [body] + Refs(rest);
    forall b | b in refs
      ensures DEFERRED <= b
    {
      assert b == body || b in Refs(rest);
    }
  }

  /** After a pass that inserts only clean text, every closed reference left is deferred. */
  lemma {:induction false} OnePassLeavesDeferred(resolve: string -> Resolved, s: string)
    requires Defers(resolve) && CleanReplacements(resolve, s)
    requires ExpandWith(resolve, s).Done?
    ensures OnlyDeferred(ExpandWith(resolve, s).text)
    decreases |s|
  {
    var m := FirstMatch(s);
    if m.Match? {
      RefsCons(s);
      OnePassLeavesDeferred(resolve, m.after);
      BeforeOpen(s);
      var rest := ExpandWith(resolve, m.after).text;
      match resolve(m.body) {
        case Text(text) => TextThenDeferred(m.before, text, rest);
        case Deferred => RefThenDeferred(m.before, m.body, rest);
      }
    } else {
      assert Refs(s) == [];
    }
  }

  /** The base name of a folder with no dollar sign is clean unless it starts with a brace. */
  lemma BaseClean(p: string)
    requires '$' !in p
    ensures Clean(Base(p)) <==> !StartsWithBrace(Base(p))
  {
    var q := TrimSlashes(p);
    if q != "" {
      assert q[|q| - 1] != '/' by { TrimmedEnd(p); }
    }
  }

  lemma {:induction false} TrimmedEnd(p: string)
    ensures var q := TrimSlashes(p); q != "" ==> q[|q| - 1] != '/'
  {
    if p != "" && p[|p| - 1] == '/' {
      TrimmedEnd(p[..|p| - 1]);
    }
  }

  /** What a variable takes its text from is clean. */
  predicate CleanSource(ctx: Context, variable: Variable) {
    match variable
    case LocalFolder => Clean(ctx.localFolder)
    case LocalBase => '$' !in ctx.localFolder && !StartsWithBrace(Base(ctx.localFolder))
    case ContainerFolder => Clean(ctx.containerFolder)
    case ContainerBase => '$' !in ctx.containerFolder && !StartsWithBrace(Base(ctx.containerFolder))
    case DevcontainerId => Clean(ctx.id)
    case LocalEnv(ref) =>
      if EnvName(ref) in ctx.env then Clean(ctx.env[EnvName(ref)])
      else HasDefault(ref) && Clean(EnvDefault(ref))
    case ContainerEnv | NoVariable => true
  }

  lemma CleanVariable(ctx: Context, variable: Variable)
    requires CleanSource(ctx, variable)
    ensures ResolveVar(ctx, variable).Text? ==> Clean(ResolveVar(ctx, variable).text)
  {
    if variable.LocalBase? {
      BaseClean(ctx.localFolder);
    } else if variable.ContainerBase? {
      BaseClean(ctx.containerFolder);
    }
  }

  /** Only what the string refers to needs to be clean. */
  lemma CleanInputs(ctx: Context, s: string)
    requires forall body :: body in Refs(s) ==> CleanSource(ctx, Classify(body))
    ensures CleanReplacements(Resolver(ctx), s)
  {
    forall body | body in Refs(s) && Resolver(ctx)(body).Text?
      ensures Clean(Resolver(ctx)(body).text)
    {
      CleanVariable(ctx, Classify(body));
    }
  }

  /**
    When the replacements that occur in a string are clean, one pass reaches the fixed point, and
    the closed references it leaves are all deferred.
   */
  lemma ExpandIdempotent(ctx: Context, s: string)
    requires CleanReplacements(Resolver(ctx), s)
    ensures Left(ctx, Left(ctx, s)) == Left(ctx, s)
    ensures Expand(ctx, s).Done? ==> OnlyDeferred(Left(ctx, s))
  {
    if Expand(ctx, s).Done? {
      ContextDefers(ctx);
      OnePassLeavesDeferred(Resolver(ctx), s);
      OnlyDeferredFixed(ctx, Left(ctx, s));
    }
  }

  lemma RefAlone(x: string)
    requires '}' !in x
    ensures Refs(Ref(x)) == [x]
  {
    RefsOfRef(x, []);
    assert Ref(x) + [] == Ref(x);
    assert Refs([]) == [];
  }

  lemma ReferenceAfterDollar(u: string, tail: string)
    requires '}' !in u
    ensures FirstMatch(['$'] + (Ref(u) + tail)) == Match(['$'], u, tail)
  {
    FirstMatchRef(u, tail);
    assert (Ref(u) + tail)[0] == '$';
    FirstMatchApart(['$'], Ref(u) + tail);
    assert ['$'] + [] == ['$'];
  }

  /** Text in braces with no dollar sign. */
  function Braced(x: string): string {
    ['{'] + x + ['}']
  }

  lemma BracedUnaltered(resolve: string -> Resolved, x: string)
    requires '$' !in x
    ensures ExpandWith(resolve, Braced(x)) == Done(Braced(x))
  {
    OpenAtNone(Braced(x));
  }

  lemma DollarBraced(x: string)
    ensures ['$'] + [] + Braced(x) == Ref(x)
  {
  }

  /**
    Why the replacements must not be empty: the pass over `$`, an empty replacement and `{x}`
    yields a new reference, which the next pass resolves.
   */
  lemma EmptyReplacementFormsReference(resolve: string -> Resolved, u: string, x: string)
    requires resolve(u) == Text([]) && '}' !in u && '$' !in x && '}' !in x
    ensures ExpandWith(resolve, ['$'] + (Ref(u) + Braced(x))) == Done(Ref(x))
    ensures Refs(Ref(x)) == [x]
  {
    ReferenceAfterDollar(u, Braced(x));
    BracedUnaltered(resolve, x);
    DollarBraced(x);
    RefAlone(x);
  }

  /** An unset variable without a default is such an empty replacement. */
  lemma UnsetIsEmpty(ctx: Context, body: string)
    requires Classify(body).LocalEnv?
    requires ':' !in Classify(body).ref && Classify(body).ref !in ctx.env
    ensures Resolver(ctx)(body) == Text([])
  {
    var ref := Classify(body).ref;
    assert IndexOf(ref, ':') == |ref|;
    assert ref[..|ref|] == ref;
  }

  // ----- What each reference means -----

  /** The outcome of a string that is one reference. */
  lemma ReferenceAlone(ctx: Context, body: string)
    requires '}' !in body
    ensures Expand(ctx, ['$', '{'] + body + ['}']) ==
            match Resolver(ctx)(body)
            case Text(text) => Done(text)
            case Deferred => Done(['$', '{'] + body + ['}'])
            case Unknown => Failed(body)
  {
    ExpandFirst(Resolver(ctx), [], body, []);
    var r := ['$', '{'] + body + ['}'];
    assert [] + (r + []) == r;
    assert Expand(ctx, []) == Done([]);
    assert forall t: string {:trigger [] + t} :: [] + t + [] == t;
  }

  lemma NameLengths()
    ensures |"localWorkspaceFolder"| == 20 && |"localWorkspaceFolderBasename"| == 28
    ensures |"containerWorkspaceFolder"| == 24 && |"devcontainerId"| == 14
  {
  }

  lemma LocalFolderVariable(ctx: Context)
    ensures Resolver(ctx)("localWorkspaceFolder") == Text(ctx.localFolder)
  {
  }

  lemma LocalBaseVariable(ctx: Context)
    ensures Resolver(ctx)("localWorkspaceFolderBasename") == Text(Base(ctx.localFolder))
  {
    NameLengths();
    assert |"localWorkspaceFolderBasename"| == 28;
  }

  lemma ContainerFolderVariable(ctx: Context)
    ensures Resolver(ctx)("containerWorkspaceFolder") == Text(ctx.containerFolder)
  {
    NameLengths();
    assert |"containerWorkspaceFolder"| == 24;
  }

  lemma ContainerBaseVariable(ctx: Context)
    ensures Resolver(ctx)("containerWorkspaceFolderBasename") == Text(Base(ctx.containerFolder))
  {
    NameLengths();
    assert |"containerWorkspaceFolderBasename"| == 32;
  }

  lemma DevcontainerIdVariable(ctx: Context)
    ensures Resolver(ctx)("devcontainerId") == Text(ctx.id)
  {
  }

  /** Each named variable stands for its value. */
  lemma LocalFolderReference(ctx: Context)
    ensures Expand(ctx, ['$', '{'] + "localWorkspaceFolder" + ['}']) == Done(ctx.localFolder)
  {
    LocalFolderVariable(ctx);
    ReferenceAlone(ctx, "localWorkspaceFolder");
  }

  lemma ContainerFolderReference(ctx: Context)
    ensures Expand(ctx, ['$', '{'] + "containerWorkspaceFolder" + ['}']) == Done(ctx.containerFolder)
  {
    ContainerFolderVariable(ctx);
    ReferenceAlone(ctx, "containerWorkspaceFolder");
  }

  lemma DevcontainerIdReference(ctx: Context)
    ensures Expand(ctx, ['$', '{'] + "devcontainerId" + ['}']) == Done(ctx.id)
  {
    DevcontainerIdVariable(ctx);
    ReferenceAlone(ctx, "devcontainerId");
  }

  /** The base-name variables stand for the last element of a folder. */
  lemma LocalBaseReference(ctx: Context, dir: string, name: string, slashes: string)
    requires name != "" && '/' !in name && forall k :: 0 <= k < |slashes| ==> slashes[k] == '/'
    requires ctx.localFolder == dir + ['/'] + name + slashes
    ensures Expand(ctx, ['$', '{'] + "localWorkspaceFolderBasename" + ['}']) == Done(name)
  {
    LocalBaseVariable(ctx);
    BaseOfPath(dir, name, slashes);
    ReferenceAlone(ctx, "localWorkspaceFolderBasename");
  }

  lemma ContainerBaseReference(ctx: Context, dir: string, name: string, slashes: string)
    requires name != "" && '/' !in name && forall k :: 0 <= k < |slashes| ==> slashes[k] == '/'
    requires ctx.containerFolder == dir + ['/'] + name + slashes
    ensures Expand(ctx, ['$', '{'] + "containerWorkspaceFolderBasename" + ['}']) == Done(name)
  {
    ContainerBaseVariable(ctx);
    BaseOfPath(dir, name, slashes);
    ReferenceAlone(ctx, "containerWorkspaceFolderBasename");
  }

  lemma EnvClassified(name: string)
    ensures Classify("localEnv:" + name) == LocalEnv(name)
  {
    var body := "localEnv:" + name;
    assert body[5] == 'E';
    assert body[|LOCAL_ENV|..] == name;
    assert ("localWorkspaceFolder")[5] == 'W' && ("localWorkspaceFolderBasename")[5] == 'W';
    assert body[0] == 'l';
    assert ("containerWorkspaceFolder")[0] == 'c' && ("containerWorkspaceFolderBasename")[0] == 'c';
    assert ("devcontainerId")[0] == 'd';
  }

  /** A variable of the host stands for its value, its default, or the empty text. */
  lemma EnvReferenceAlone(ctx: Context, name: string)
    requires ':' !in name && '}' !in name
    ensures Expand(ctx, ['$', '{'] + ("localEnv:" + name) + ['}']) ==
            Done(if name in ctx.env then ctx.env[name] else "")
  {
    EnvClassified(name);
    assert IndexOf(name, ':') == |name| && name[..|name|] == name;
    NoBrace(name);
    ReferenceAlone(ctx, "localEnv:" + name);
  }

  lemma NoBrace(ref: string)
    requires '}' !in ref
    ensures '}' !in "localEnv:" + ref
  {
    assert LOCAL_ENV == ['l', 'o', 'c', 'a', 'l', 'E', 'n', 'v', ':'];
  }

  lemma EnvReferenceDefault(ctx: Context, name: string, def: string)
    requires ':' !in name && '}' !in name && '}' !in def
    ensures Expand(ctx, ['$', '{'] + ("localEnv:" + (name + [':'] + def)) + ['}']) ==
            Done(if name in ctx.env then ctx.env[name] else def)
  {
    var ref := name + [':'] + def;
    EnvClassified(ref);
    EnvReference(ctx.env, name, def);
    NoBrace(ref);
    ReferenceAlone(ctx, "localEnv:" + ref);
  }

  /** Bodies that have a meaning. */
  predicate Meaningful(body: string) {
    || body == "localWorkspaceFolder" || body == "localWorkspaceFolderBasename"
    || body == "containerWorkspaceFolder" || body == "containerWorkspaceFolderBasename"
    || body == "devcontainerId" || "localEnv:" <= body || "containerEnv:" <= body
  }

  lemma ClassifiedIff(body: string)
    ensures Classify(body) != NoVariable <==> Meaningful(body)
  {
  }

  /** Container variables are left in place. */
  lemma DeferredReference(ctx: Context, body: string)
    requires '}' !in body && "containerEnv:" <= body
    ensures Expand(ctx, ['$', '{'] + body + ['}']) == Done(['$', '{'] + body + ['}'])
  {
    ReferenceAlone(ctx, body);
    DeferredClassified(body);
  }

  /** A reference fails exactly when its body has no meaning. */
  lemma UnknownReference(ctx: Context, body: string)
    requires '}' !in body
    ensures Expand(ctx, ['$', '{'] + body + ['}']).Failed? <==> !Meaningful(body)
  {
    ReferenceAlone(ctx, body);
    ClassifiedIff(body);
  }

  /** One reference of another kind fails the whole string. */
  lemma UnknownFails(ctx: Context, before: string, body: string, after: string)
    requires NoOpen(before) && '}' !in body && !Meaningful(body)
    ensures Expand(ctx, before + (['$', '{'] + body + ['}'] + after)).Failed?
  {
    ClassifiedIff(body);
    ExpandFirst(Resolver(ctx), before, body, after);
  }
}
