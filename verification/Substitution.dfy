/**
  Substitution over a whole configuration in up to three passes (config/subst.go). The workspace
  folder is expanded first, because it is also one of the values that the others refer to.
 */
module Substitution {
  import opened Wrappers
  import opened Expansion
  import opened StringTree

  /** One expansion pass as a step over strings. */
  function Expander(ctx: Context): Step {
    s => ExpandOption(ctx, s)
  }

  function ExpandOption(ctx: Context, s: string): Option<string> {
    match Expand(ctx, s)
    case Done(text) => Some(text)
    case Failed(_) => None
  }

  function Residual(): string -> bool {
    s => OnlyDeferred(s)
  }

  /** Deferred-only strings are kept by every context. */
  lemma ExpanderKeeps(ctx: Context)
    ensures Keeps(Expander(ctx), Residual())
  {
    forall s: string | OnlyDeferred(s)
      ensures Expander(ctx)(s) == Some(s)
    {
      OnlyDeferredFixed(ctx, s);
    }
  }

  /** The configuration: the workspace folder, which feeds the context, and everything else. */
  datatype Raw = Raw(workspaceFolder: string, rest: Tree)

  function AsTree(raw: Raw): Tree {
    Node([Leaf(raw.workspaceFolder), raw.rest])
  }

  const PASSES := 3

  // ----- Always running every pass -----

  /** How a pass rewrites the container folder that a context carries. */
  type FolderStep = Context -> Option<string>

  function FolderExpander(): FolderStep {
    (ctx: Context) => ExpandOption(ctx, ctx.containerFolder)
  }

  /** `n` passes over the container folder, each seeing the folder the previous one left. */
  function FolderPasses(step: FolderStep, ctx: Context, n: nat): Option<Context>
    decreases n
  {
    if n == 0 then Some(ctx)
    else if step(ctx).None? then None
    else FolderPasses(step, ctx.(containerFolder := step(ctx).value), n - 1)
  }

  /** The context after the first loop: its container folder is expanded. */
  function Settled(raw: Raw, ctx: Context): Option<Context> {
    FolderPasses(FolderExpander(), ctx.(containerFolder := raw.workspaceFolder), PASSES)
  }

  /** The passes over the whole configuration, once the context is settled. */
  function ConfigPasses(ctx: Context, rest: Tree): Option<Tree> {
    Passes(Expander(ctx), AsTree(Raw(ctx.containerFolder, rest)), PASSES)
  }

  /** Substitution without any early exit. */
  function SubstituteFully(raw: Raw, ctx: Context): Option<Tree> {
    var folder := Settled(raw, ctx);
    if folder.None? then None
    else
      var t := ConfigPasses(folder.value, raw.rest);
      if t.Some? && Every(t.value, Residual()) then t else None
  }

  lemma {:induction false} FolderFixed(step: FolderStep, ctx: Context, n: nat)
    requires step(ctx) == Some(ctx.containerFolder)
    ensures FolderPasses(step, ctx, n) == Some(ctx)
  {
    if n > 0 {
      assert ctx.(containerFolder := ctx.containerFolder) == ctx;
      FolderFixed(step, ctx, n - 1);
    }
  }

  /** The first loop of `Substitute`. */
  method ExpandFolder(step: FolderStep, ctx0: Context) returns (r: Option<Context>)
    ensures r == FolderPasses(step, ctx0, PASSES)
  {
    var ctx := ctx0;
    var pass := 0;
    while pass < PASSES
      invariant 0 <= pass <= PASSES
      invariant FolderPasses(step, ctx, PASSES - pass) == FolderPasses(step, ctx0, PASSES)
    {
      var next := step(ctx);
      if next.None? {
        return None;
      }
      if next.value == ctx.containerFolder {
        FolderFixed(step, ctx, PASSES - pass);
        break;
      }
      ctx := ctx.(containerFolder := next.value);
      pass := pass + 1;
    }
    return Some(ctx);
  }

  /** The second loop of `Substitute`. */
  method ExpandTree(step: Step, t0: Tree) returns (r: Option<Tree>)
    ensures r == Passes(step, t0, PASSES)
  {
    var t := t0;
    var pass := 0;
    while pass < PASSES
      invariant 0 <= pass <= PASSES
      invariant Passes(step, t, PASSES - pass) == Passes(step, t0, PASSES)
    {
      var next, changed := SubstituteValue(t, step);
      if next.None? {
        return None;
      }
      if !changed {
        PassesFixed(step, t, PASSES - pass);
        break;
      }
      t := next.value;
      pass := pass + 1;
    }
    return Some(t);
  }

  /**
    `Substitute` leaves each loop as soon as a pass changes nothing. The tree and the success or
    failure are those of always running all three passes.
   */
  method Substitute(raw: Raw, localFolder: string, id: string, env: map<string, string>)
    returns (r: Option<Tree>)
    ensures r == SubstituteFully(raw, Context(localFolder, "", id, env))
  {
    var folder := ExpandFolder(FolderExpander(), Context(localFolder, raw.workspaceFolder, id, env));
    if folder.None? {
      return None;
    }
    var ctx := folder.value;
    r := ExpandTree(Expander(ctx), AsTree(Raw(ctx.containerFolder, raw.rest)));
    if r.Some? && !Every(r.value, Residual()) {
      r := None;
    }
  }

  // ----- What substitution means -----

  /**
    A successful substitution rewrites every string of the configuration, whatever map holds it,
    by the same three-fold iterate of one expansion pass.
   */
  lemma SubstituteIterates(raw: Raw, ctx: Context)
    requires SubstituteFully(raw, ctx).Some?
    ensures
      var final := Settled(raw, ctx);
      && final.Some?
      && var step := Expander(final.value);
         SubstituteFully(raw, ctx).value ==
         AsTree(Raw(Iterate(step, 3, final.value.containerFolder), Rewrite(raw.rest, Iterated(step, 3))))
  {
    var final := Settled(raw, ctx).value;
    var t := AsTree(Raw(final.containerFolder, raw.rest));
    PassesIterate(Expander(final), t, PASSES);
    RewritePair(final.containerFolder, raw.rest, Iterated(Expander(final), PASSES));
  }

  lemma RewritePair(folder: string, rest: Tree, f: string -> string)
    ensures Rewrite(AsTree(Raw(folder, rest)), f) == AsTree(Raw(f(folder), Rewrite(rest, f)))
  {
  }

  /** A configuration whose closed references are all deferred is its own substitution. */
  lemma DeferredConfigUnaltered(raw: Raw, ctx: Context)
    requires Every(AsTree(raw), Residual())
    ensures SubstituteFully(raw, ctx) == Some(AsTree(raw))
  {
    var folder := ctx.(containerFolder := raw.workspaceFolder);
    ExpanderKeeps(folder);
    assert Leaf(raw.workspaceFolder) in AsTree(raw).children;
    assert Every(Leaf(raw.workspaceFolder), Residual());
    FolderFixed(FolderExpander(), folder, PASSES);
    KeptUnaltered(Expander(folder), AsTree(raw), Residual(), PASSES);
  }

  /** A substituted configuration is unchanged by substituting it again in any context. */
  lemma SubstituteStable(raw: Raw, ctx: Context, again: Context)
    requires SubstituteFully(raw, ctx).Some?
    ensures exists out: Raw ::
              && SubstituteFully(raw, ctx) == Some(AsTree(out))
              && SubstituteFully(out, again) == Some(AsTree(out))
  {
    SubstituteIterates(raw, ctx);
    var t := SubstituteFully(raw, ctx).value;
    var out := Raw(t.children[0].text, t.children[1]);
    assert AsTree(out) == t;
    DeferredConfigUnaltered(out, again);
  }

  /** Strings with only deferred references, or none, are never altered by any number of passes. */
  lemma DeferredStringUnaltered(ctx: Context, s: string, n: nat)
    requires OnlyDeferred(s)
    ensures Iterate(Expander(ctx), n, s) == s
  {
    OnlyDeferredFixed(ctx, s);
    KeptString(Expander(ctx), s, n);
  }

  /**
    The substitution succeeds exactly when the folder settles and, string by string, three passes
    are accepted and leave deferred references only.
   */
  lemma SubstituteSucceedsIff(raw: Raw, ctx: Context)
    ensures SubstituteFully(raw, ctx).Some? <==>
            var final := Settled(raw, ctx);
            && final.Some?
            && var ends := Ends(Expander(final.value), 3, Residual());
               ends(final.value.containerFolder) && Every(raw.rest, ends)
  {
    if Settled(raw, ctx).Some? {
      var final := Settled(raw, ctx).value;
      var t := AsTree(Raw(final.containerFolder, raw.rest));
      PassesEndIff(Expander(final), t, PASSES, Residual());
      EveryPair(final.containerFolder, raw.rest, Ends(Expander(final), PASSES, Residual()));
    }
  }

  /** Strings in which every replacement is clean. */
  function CleanIn(ctx: Context): string -> bool {
    s => CleanReplacements(Resolver(ctx), s)
  }

  /** One pass over clean strings is all of the passes over a tree. */
  lemma CleanPasses(ctx: Context, t: Tree, n: nat)
    requires n > 0 && Every(t, CleanIn(ctx))
    ensures Passes(Expander(ctx), t, n) ==
            if Every(t, Accepts(Expander(ctx))) then Some(Rewrite(t, After(Expander(ctx)))) else None
    ensures Every(t, Accepts(Expander(ctx))) ==> Every(Rewrite(t, After(Expander(ctx))), Residual())
  {
    var step := Expander(ctx);
    if Every(t, Accepts(step)) {
      var clean := (s: string) => CleanIn(ctx)(s) && Accepts(step)(s);
      EveryBoth(t, CleanIn(ctx), Accepts(step));
      EverySame(t, clean, s => CleanIn(ctx)(s) && Accepts(step)(s));
      forall s: string | clean(s)
        ensures Residual()(After(step)(s)) && Accepts(step)(s)
      {
        ExpandIdempotent(ctx, s);
      }
      ExpanderKeeps(ctx);
      OnePass(step, t, clean, Residual(), n);
    }
  }

  /** The context in which the workspace folder itself is expanded, and the one after one pass. */
  function FolderContext(raw: Raw, ctx: Context): Context {
    ctx.(containerFolder := raw.workspaceFolder)
  }

  function OnceExpanded(raw: Raw, ctx: Context): Context {
    ctx.(containerFolder := Left(FolderContext(raw, ctx), raw.workspaceFolder))
  }

  /** A folder whose replacements are clean settles in one pass. */
  lemma CleanFolder(raw: Raw, ctx: Context)
    requires CleanReplacements(Resolver(FolderContext(raw, ctx)), raw.workspaceFolder)
    ensures
      var ok := Expand(FolderContext(raw, ctx), raw.workspaceFolder).Done?;
      && Settled(raw, ctx) == (if ok then Some(OnceExpanded(raw, ctx)) else None)
      && (ok ==> OnlyDeferred(OnceExpanded(raw, ctx).containerFolder))
  {
    var c0, c1 := FolderContext(raw, ctx), OnceExpanded(raw, ctx);
    ExpandIdempotent(c0, raw.workspaceFolder);
    if Expand(c0, raw.workspaceFolder).Done? {
      OnlyDeferredFixed(c1, c1.containerFolder);
      assert c0.(containerFolder := c1.containerFolder) == c1;
      FolderFixed(FolderExpander(), c1, PASSES - 1);
    }
  }

  lemma DeferredIsClean(ctx: Context, s: string)
    requires OnlyDeferred(s)
    ensures CleanReplacements(Resolver(ctx), s)
  {
    ContextDefers(ctx);
  }

  /**
    When the replacements that occur are clean, the whole substitution is one pass over the folder
    and one over every other string: it fails exactly when one of those does, the other passes
    change nothing, and the residual check passes.
   */
  lemma CleanNeedsOnePass(raw: Raw, ctx: Context)
    requires CleanReplacements(Resolver(FolderContext(raw, ctx)), raw.workspaceFolder)
    requires Expand(FolderContext(raw, ctx), raw.workspaceFolder).Done? ==>
               Every(raw.rest, CleanIn(OnceExpanded(raw, ctx)))
    ensures
      var c1 := OnceExpanded(raw, ctx);
      SubstituteFully(raw, ctx) ==
      if Expand(FolderContext(raw, ctx), raw.workspaceFolder).Done? && Every(raw.rest, Accepts(Expander(c1)))
      then Some(AsTree(Raw(c1.containerFolder, Rewrite(raw.rest, After(Expander(c1))))))
      else None
  {
    var c1 := OnceExpanded(raw, ctx);
    CleanFolder(raw, ctx);
    if Settled(raw, ctx).Some? {
      var t := AsTree(Raw(c1.containerFolder, raw.rest));
      DeferredIsClean(c1, c1.containerFolder);
      OnlyDeferredFixed(c1, c1.containerFolder);
      EveryPair(c1.containerFolder, raw.rest, CleanIn(c1));
      EveryPair(c1.containerFolder, raw.rest, Accepts(Expander(c1)));
      CleanPasses(c1, t, PASSES);
      RewritePair(c1.containerFolder, raw.rest, After(Expander(c1)));
    }
  }

  lemma EveryPair(folder: string, rest: Tree, p: string -> bool)
    ensures Every(AsTree(Raw(folder, rest)), p) <==> p(folder) && Every(rest, p)
  {
    var t := AsTree(Raw(folder, rest));
    assert Leaf(folder) in t.children && rest in t.children;
    assert Every(Leaf(folder), p) == p(folder);
  }

  // ----- What becomes of a reference in a configuration -----

  /** The folder that the other strings see is the third in a chain of passes, each in its own context. */
  lemma SettledIff(raw: Raw, ctx: Context, final: Context)
    ensures Settled(raw, ctx) == Some(final) <==>
            exists f1: string, f2: string ::
              && Expand(ctx.(containerFolder := raw.workspaceFolder), raw.workspaceFolder) == Done(f1)
              && Expand(ctx.(containerFolder := f1), f1) == Done(f2)
              && Expand(ctx.(containerFolder := f2), f2) == Done(final.containerFolder)
              && final == ctx.(containerFolder := final.containerFolder)
  {
    var step := FolderExpander();
    var c0 := ctx.(containerFolder := raw.workspaceFolder);
    if step(c0).Some? {
      var c1 := c0.(containerFolder := step(c0).value);
      assert c1 == ctx.(containerFolder := step(c0).value);
      assert FolderPasses(step, c0, 3) == FolderPasses(step, c1, 2);
      if step(c1).Some? {
        var c2 := c1.(containerFolder := step(c1).value);
        assert c2 == ctx.(containerFolder := step(c1).value);
        assert FolderPasses(step, c1, 2) == FolderPasses(step, c2, 1);
        if step(c2).Some? {
          assert FolderPasses(step, c2, 1) == Some(c2.(containerFolder := step(c2).value));
        }
      }
    }
  }

  /** A string that one pass turns into text without further references ends as that text. */
  lemma SubstitutedAt(raw: Raw, ctx: Context, path: seq<Key>, s: string, v: string)
    requires SubstituteFully(raw, ctx).Some? && Follow(raw.rest, path) == Some(s)
    requires Expand(Settled(raw, ctx).value, s) == Done(v) && OnlyDeferred(v)
    ensures Follow(SubstituteFully(raw, ctx).value, [Child(1)] + path) == Some(v)
  {
    var final := Settled(raw, ctx).value;
    var step := Expander(final);
    SubstituteIterates(raw, ctx);
    FollowRewritten(raw.rest, Iterated(step, 3), path);
    assert After(step)(s) == v;
    DeferredStringUnaltered(final, v, 2);
    assert Iterate(step, 3, s) == Iterate(step, 2, v);
    assert ([Child(1)] + path)[1..] == path;
  }

  lemma NoOpenNoRefs(s: string)
    requires NoOpen(s)
    ensures OnlyDeferred(s)
  {
    NoOpenIff(s);
    assert Refs(s) == [];
  }

  /** Wherever a configuration refers to the host folder, it gets the host folder. */
  lemma LocalFolderSubstituted(raw: Raw, ctx: Context, path: seq<Key>)
    requires SubstituteFully(raw, ctx).Some? && NoOpen(ctx.localFolder)
    requires Follow(raw.rest, path) == Some(['$', '{'] + "localWorkspaceFolder" + ['}'])
    ensures Follow(SubstituteFully(raw, ctx).value, [Child(1)] + path) == Some(ctx.localFolder)
  {
    var final := Settled(raw, ctx).value;
    SettledIff(raw, ctx, final);
    LocalFolderReference(final);
    NoOpenNoRefs(ctx.localFolder);
    SubstitutedAt(raw, ctx, path, ['$', '{'] + "localWorkspaceFolder" + ['}'], ctx.localFolder);
  }

  /** Wherever it refers to the container's folder, it gets the expanded workspace folder. */
  lemma ContainerFolderSubstituted(raw: Raw, ctx: Context, path: seq<Key>)
    requires SubstituteFully(raw, ctx).Some? && NoOpen(Settled(raw, ctx).value.containerFolder)
    requires Follow(raw.rest, path) == Some(['$', '{'] + "containerWorkspaceFolder" + ['}'])
    ensures Follow(SubstituteFully(raw, ctx).value, [Child(1)] + path)
            == Some(Settled(raw, ctx).value.containerFolder)
            == Follow(SubstituteFully(raw, ctx).value, [Child(0)])
  {
    var final := Settled(raw, ctx).value;
    ContainerFolderReference(final);
    NoOpenNoRefs(final.containerFolder);
    SubstitutedAt(raw, ctx, path, ['$', '{'] + "containerWorkspaceFolder" + ['}'], final.containerFolder);
    SubstituteIterates(raw, ctx);
    DeferredStringUnaltered(final, final.containerFolder, 3);
  }

  lemma FirstPassAccepts(step: Step, q: string -> bool, s: string)
    requires Ends(step, 3, q)(s)
    ensures step(s).Some?
  {
    assert AcceptsThrough(step, 3)(s);
  }

  lemma RejectedAt(raw: Raw, ctx: Context, path: seq<Key>, s: string)
    requires Follow(raw.rest, path) == Some(s)
    requires Settled(raw, ctx).Some? ==> Expander(Settled(raw, ctx).value)(s).None?
    ensures SubstituteFully(raw, ctx).None?
  {
    SubstituteSucceedsIff(raw, ctx);
    if Settled(raw, ctx).Some? {
      var step := Expander(Settled(raw, ctx).value);
      if Every(raw.rest, Ends(step, 3, Residual())) {
        EveryFollows(raw.rest, Ends(step, 3, Residual()), path);
        FirstPassAccepts(step, Residual(), s);
      }
    }
  }

  /** One unknown variable anywhere in a configuration fails its substitution. */
  lemma UnknownRejected(raw: Raw, ctx: Context, path: seq<Key>, before: string, body: string, after: string)
    requires Follow(raw.rest, path) == Some(before + (['$', '{'] + body + ['}'] + after))
    requires NoOpen(before) && '}' !in body && !Meaningful(body)
    ensures SubstituteFully(raw, ctx).None?
  {
    if Settled(raw, ctx).Some? {
      UnknownFails(Settled(raw, ctx).value, before, body, after);
    }
    RejectedAt(raw, ctx, path, before + (['$', '{'] + body + ['}'] + after));
  }
}
