/** Trees of strings, lists, records and maps, and passes that rewrite every string of one. */
module StringTree {
  import opened Wrappers

  /** `Opaque` stands for the fields that hold no string; a nil pointer is one of them. */
  datatype Tree = Leaf(text: string)
                | Opaque
                | Node(children: seq<Tree>)
                | Dict(entries: map<string, Tree>)

  /** Every string of the tree satisfies `p`. */
  predicate Every(t: Tree, p: string -> bool) {
    match t
    case Leaf(text) => p(text)
    case Opaque => true
    case Node(children) => forall c :: c in children ==> Every(c, p)
    case Dict(entries) => forall k :: k in entries ==> Every(entries[k], p)
  }

  /** The tree with every string rewritten by `f`. */
  function Rewrite(t: Tree, f: string -> string): Tree {
    match t
    case Leaf(text) => Leaf(f(text))
    case Opaque => t
    case Node(children) =>
      Node(seq(|children|, i requires 0 <= i < |children| => Rewrite(children[i], f)))
    case Dict(entries) => Dict(map k | k in entries :: Rewrite(entries[k], f))
  }

  /** What one pass does to a string; `None` is an error. */
  type Step = string -> Option<string>

  function Accepts(step: Step): string -> bool {
    s => step(s).Some?
  }

  /** The string a pass leaves: on an error the string stays as it was. */
  function After(step: Step): string -> string {
    s => if step(s).Some? then step(s).value else s
  }

  /** What one pass must return: a failure, or the rewritten tree and whether it differs. */
  ghost predicate PassResult(t: Tree, step: Step, r: Option<Tree>, changed: bool) {
    && (r.Some? <==> Every(t, Accepts(step)))
    && (r.Some? ==> r.value == Rewrite(t, After(step)) && (changed <==> r.value != t))
  }

  /**
    One pass over a tree. Map entries are visited in an arbitrary order; the outcome does not
    depend on it: it fails exactly when the step rejects some string, and otherwise every string
    has been rewritten.
   */
  method SubstituteValue(t: Tree, step: Step) returns (r: Option<Tree>, changed: bool)
    ensures PassResult(t, step, r, changed)
    decreases t, 1
  {
    match t {
      case Leaf(text) =>
        var out := step(text);
        if out.None? {
          return None, false;
        }
        return Some(Leaf(out.value)), out.value != text;
      case Opaque =>
        return Some(t), false;
      case Node(_) =>
        r, changed := SubstituteList(t, step);
      case Dict(_) =>
        r, changed := SubstituteMap(t, step);
    }
  }

  /** A subtree that a pass has rewritten. */
  ghost predicate Rewritten(t: Tree, u: Tree, step: Step) {
    Every(t, Accepts(step)) && u == Rewrite(t, After(step))
  }

  lemma ListRewritten(children: seq<Tree>, done: seq<Tree>, step: Step)
    requires |done| == |children|
    requires forall k :: 0 <= k < |children| ==> Rewritten(children[k], done[k], step)
    ensures Rewritten(Node(children), Node(done), step)
  {
  }

  lemma MapRewritten(entries: map<string, Tree>, out: map<string, Tree>, step: Step)
    requires out.Keys == entries.Keys
    requires forall k :: k in entries ==> Rewritten(entries[k], out[k], step)
    ensures Rewritten(Dict(entries), Dict(out), step)
  {
  }

  lemma ChildRejected(t: Tree, c: Tree, step: Step)
    requires (t.Node? && c in t.children) || (t.Dict? && exists k :: k in t.entries && t.entries[k] == c)
    requires !Every(c, Accepts(step))
    ensures !Every(t, Accepts(step))
  {
  }

  method SubstituteList(t: Tree, step: Step) returns (r: Option<Tree>, changed: bool)
    requires t.Node?
    ensures PassResult(t, step, r, changed)
    decreases t, 0
  {
    changed := false;
    var done: seq<Tree> := [];
    for i := 0 to |t.children|
      invariant |done| == i
      invariant forall k :: 0 <= k < i ==> Rewritten(t.children[k], done[k], step)
      invariant changed <==> exists k :: 0 <= k < i && done[k] != t.children[k]
    {
      var c, ch := SubstituteValue(t.children[i], step);
      if c.None? {
        ChildRejected(t, t.children[i], step);
        return None, changed;
      }
      done := done + [c.value];
      changed := changed || ch;
    }
    ListRewritten(t.children, done, step);
    return Some(Node(done)), changed;
  }

  method SubstituteMap(t: Tree, step: Step) returns (r: Option<Tree>, changed: bool)
    requires t.Dict?
    ensures PassResult(t, step, r, changed)
    decreases t, 0
  {
    changed := false;
    var out := t.entries;
    var remaining := t.entries.Keys;
    while remaining != {}
      invariant remaining <= t.entries.Keys == out.Keys
      invariant forall k :: k in remaining ==> out[k] == t.entries[k]
      invariant forall k :: k in t.entries && k !in remaining ==> Rewritten(t.entries[k], out[k], step)
      invariant changed <==> exists k :: k in t.entries && out[k] != t.entries[k]
      decreases |remaining|
    {
      var k :| k in remaining;
      var c, ch := SubstituteValue(t.entries[k], step);
      if c.None? {
        ChildRejected(t, t.entries[k], step);
        return None, changed;
      }
      if ch {
        out := out[k := c.value];
        changed := true;
      }
      remaining := remaining - {k};
    }
    MapRewritten(t.entries, out, step);
    return Some(Dict(out)), changed;
  }

  /** `n` passes over a tree. */
  function Passes(step: Step, t: Tree, n: nat): Option<Tree>
    decreases n
  {
    if n == 0 then Some(t)
    else if Every(t, Accepts(step)) then Passes(step, Rewrite(t, After(step)), n - 1)
    else None
  }

  /** A pass that changes nothing can be repeated or left out. */
  lemma {:induction false} PassesFixed(step: Step, t: Tree, n: nat)
    requires Every(t, Accepts(step)) && Rewrite(t, After(step)) == t
    ensures Passes(step, t, n) == Some(t)
  {
    if n > 0 {
      PassesFixed(step, t, n - 1);
    }
  }

  /** `n` passes over one string. */
  function Iterate(step: Step, n: nat, s: string): string {
    if n == 0 then s else Iterate(step, n - 1, After(step)(s))
  }

  function Iterated(step: Step, n: nat): string -> string {
    s => Iterate(step, n, s)
  }

  lemma {:induction false} RewriteIdentity(t: Tree, f: string -> string)
    requires Every(t, s => f(s) == s)
    ensures Rewrite(t, f) == t
  {
    match t
    case Leaf(_) =>
    case Opaque =>
    case Node(children) =>
      forall i | 0 <= i < |children|
        ensures Rewrite(children[i], f) == children[i]
      {
        RewriteIdentity(children[i], f);
      }
    case Dict(entries) =>
      forall k | k in entries
        ensures Rewrite(entries[k], f) == entries[k]
      {
        RewriteIdentity(entries[k], f);
      }
  }

  lemma {:induction false} RewriteTwice(t: Tree, f: string -> string, g: string -> string)
    ensures Rewrite(Rewrite(t, f), g) == Rewrite(t, s => g(f(s)))
  {
    match t
    case Leaf(_) =>
    case Opaque =>
    case Node(children) =>
      forall i | 0 <= i < |children|
        ensures Rewrite(Rewrite(children[i], f), g) == Rewrite(children[i], s => g(f(s)))
      {
        RewriteTwice(children[i], f, g);
      }
    case Dict(entries) =>
      forall k | k in entries
        ensures Rewrite(Rewrite(entries[k], f), g) == Rewrite(entries[k], s => g(f(s)))
      {
        RewriteTwice(entries[k], f, g);
      }
  }

  lemma {:induction false} EveryTrue(t: Tree, p: string -> bool)
    requires forall s :: p(s)
    ensures Every(t, p)
  {
    match t
    case Leaf(_) =>
    case Opaque =>
    case Node(children) =>
      forall c | c in children ensures Every(c, p) { EveryTrue(c, p); }
    case Dict(entries) =>
      forall k | k in entries ensures Every(entries[k], p) { EveryTrue(entries[k], p); }
  }

  lemma {:induction false} RewriteSame(t: Tree, f: string -> string, g: string -> string)
    requires forall s :: f(s) == g(s)
    ensures Rewrite(t, f) == Rewrite(t, g)
  {
    match t
    case Leaf(_) =>
    case Opaque =>
    case Node(children) =>
      forall i | 0 <= i < |children|
        ensures Rewrite(children[i], f) == Rewrite(children[i], g)
      {
        RewriteSame(children[i], f, g);
      }
    case Dict(entries) =>
      forall k | k in entries
        ensures Rewrite(entries[k], f) == Rewrite(entries[k], g)
      {
        RewriteSame(entries[k], f, g);
      }
  }

  /** A predicate that implies another, string by string. */
  lemma {:induction false} EveryImplies(t: Tree, p: string -> bool, q: string -> bool)
    requires Every(t, p) && forall s :: p(s) ==> q(s)
    ensures Every(t, q)
  {
    match t
    case Leaf(_) =>
    case Opaque =>
    case Node(children) =>
      forall c | c in children ensures Every(c, q) { EveryImplies(c, p, q); }
    case Dict(entries) =>
      forall k | k in entries ensures Every(entries[k], q) { EveryImplies(entries[k], p, q); }
  }

  lemma {:induction false} EverySame(t: Tree, p: string -> bool, q: string -> bool)
    requires forall s :: p(s) == q(s)
    ensures Every(t, p) == Every(t, q)
  {
    if Every(t, p) {
      EveryImplies(t, p, q);
    }
    if Every(t, q) {
      EveryImplies(t, q, p);
    }
  }

  lemma {:induction false} EveryBoth(t: Tree, p: string -> bool, q: string -> bool)
    ensures Every(t, s => p(s) && q(s)) <==> Every(t, p) && Every(t, q)
  {
    match t
    case Leaf(_) =>
    case Opaque =>
    case Node(children) =>
      forall c | c in children
        ensures Every(c, s => p(s) && q(s)) <==> Every(c, p) && Every(c, q)
      {
        EveryBoth(c, p, q);
      }
    case Dict(entries) =>
      forall k | k in entries
        ensures Every(entries[k], s => p(s) && q(s)) <==> Every(entries[k], p) && Every(entries[k], q)
      {
        EveryBoth(entries[k], p, q);
      }
  }

  lemma ListAgrees(ts: seq<Tree>, us: seq<Tree>, p: string -> bool, q: string -> bool)
    requires |ts| == |us| && forall i :: 0 <= i < |ts| ==> (Every(ts[i], p) <==> Every(us[i], q))
    ensures Every(Node(ts), p) <==> Every(Node(us), q)
  {
    if Every(Node(ts), p) {
      forall i | 0 <= i < |us| ensures Every(us[i], q) {
        assert ts[i] in Node(ts).children;
      }
    }
    if Every(Node(us), q) {
      forall i | 0 <= i < |ts| ensures Every(ts[i], p) {
        assert us[i] in Node(us).children;
      }
    }
  }

  lemma MapAgrees(ts: map<string, Tree>, us: map<string, Tree>, p: string -> bool, q: string -> bool)
    requires ts.Keys == us.Keys && forall k :: k in ts ==> (Every(ts[k], p) <==> Every(us[k], q))
    ensures Every(Dict(ts), p) <==> Every(Dict(us), q)
  {
  }

  /** The strings of a rewritten tree are the rewritten strings of the tree. */
  lemma {:induction false} EveryRewritten(t: Tree, f: string -> string, p: string -> bool, q: string -> bool)
    requires forall s :: q(s) == p(f(s))
    ensures Every(Rewrite(t, f), p) <==> Every(t, q)
  {
    match t
    case Leaf(_) =>
    case Opaque =>
    case Node(children) =>
      forall i | 0 <= i < |children|
        ensures Every(Rewrite(children[i], f), p) <==> Every(children[i], q)
      {
        EveryRewritten(children[i], f, p, q);
      }
      ListAgrees(Rewrite(t, f).children, children, p, q);
    case Dict(entries) =>
      forall k | k in entries
        ensures Every(Rewrite(entries[k], f), p) <==> Every(entries[k], q)
      {
        EveryRewritten(entries[k], f, p, q);
      }
      MapAgrees(Rewrite(t, f).entries, entries, p, q);
  }

  /** Each of `n` passes over one string accepts it. */
  predicate AcceptsAll(step: Step, n: nat, s: string) {
    n == 0 || (step(s).Some? && AcceptsAll(step, n - 1, After(step)(s)))
  }

  function AcceptsThrough(step: Step, n: nat): string -> bool {
    s => AcceptsAll(step, n, s)
  }

  /** What a first pass and `later` passes accept together. */
  lemma FirstAndLater(step: Step, t: Tree, later: string -> bool, all: string -> bool)
    requires forall s :: all(s) == (step(s).Some? && later(After(step)(s)))
    ensures Every(t, Accepts(step)) && Every(Rewrite(t, After(step)), later) <==> Every(t, all)
  {
    var after := (s: string) => later(After(step)(s));
    EveryRewritten(t, After(step), later, after);
    EveryBoth(t, Accepts(step), after);
    EverySame(t, all, s => Accepts(step)(s) && after(s));
  }

  /** Passes over a tree succeed exactly when they do on each of its strings by itself. */
  lemma {:induction false} PassesSucceedIff(step: Step, t: Tree, n: nat)
    ensures Passes(step, t, n).Some? <==> Every(t, AcceptsThrough(step, n))
    decreases n
  {
    if n == 0 {
      EveryTrue(t, AcceptsThrough(step, 0));
    } else {
      PassesSucceedIff(step, Rewrite(t, After(step)), n - 1);
      FirstAndLater(step, t, AcceptsThrough(step, n - 1), AcceptsThrough(step, n));
    }
  }

  /** Successful passes leave every string as the iterate of the step, wherever it sits. */
  lemma {:induction false} PassesIterate(step: Step, t: Tree, n: nat)
    requires Passes(step, t, n).Some?
    ensures Passes(step, t, n).value == Rewrite(t, Iterated(step, n))
    decreases n
  {
    if n == 0 {
      forall s: string ensures Iterated(step, 0)(s) == s { }
      EveryTrue(t, s => Iterated(step, 0)(s) == s);
      RewriteIdentity(t, Iterated(step, 0));
    } else {
      PassesIterate(step, Rewrite(t, After(step)), n - 1);
      RewriteTwice(t, After(step), Iterated(step, n - 1));
      RewriteSame(t, s => Iterated(step, n - 1)(After(step)(s)), Iterated(step, n));
    }
  }

  /** All passes accept the string, and what they make of it satisfies `q`. */
  function Ends(step: Step, n: nat, q: string -> bool): string -> bool {
    s => AcceptsThrough(step, n)(s) && q(Iterated(step, n)(s))
  }

  /** Passes over a tree, checked by `q` at the end, succeed exactly when they do string by string. */
  lemma PassesEndIff(step: Step, t: Tree, n: nat, q: string -> bool)
    ensures Passes(step, t, n).Some? && Every(Passes(step, t, n).value, q) <==> Every(t, Ends(step, n, q))
  {
    var end := (s: string) => q(Iterated(step, n)(s));
    PassesSucceedIff(step, t, n);
    EveryBoth(t, AcceptsThrough(step, n), end);
    EverySame(t, Ends(step, n, q), s => AcceptsThrough(step, n)(s) && end(s));
    EveryRewritten(t, Iterated(step, n), q, end);
    if Passes(step, t, n).Some? {
      PassesIterate(step, t, n);
    }
  }

  /** The step accepts every string that satisfies `p` and leaves it alone. */
  ghost predicate Keeps(step: Step, p: string -> bool) {
    forall s :: p(s) ==> step(s) == Some(s)
  }

  /** A tree of strings that the step keeps is left alone by any number of passes. */
  lemma KeptUnaltered(step: Step, t: Tree, p: string -> bool, n: nat)
    requires Every(t, p) && Keeps(step, p)
    ensures Passes(step, t, n) == Some(t)
  {
    EveryImplies(t, p, Accepts(step));
    forall s: string | p(s) ensures After(step)(s) == s { }
    EveryImplies(t, p, s => After(step)(s) == s);
    RewriteIdentity(t, After(step));
    PassesFixed(step, t, n);
  }

  lemma {:induction false} KeptString(step: Step, s: string, n: nat)
    requires step(s) == Some(s)
    ensures Iterate(step, n, s) == s
  {
    if n > 0 {
      KeptString(step, s, n - 1);
    }
  }

  /** One pass over strings satisfying `p` leaves strings satisfying `q`. */
  lemma {:induction false} PassEstablishes(t: Tree, f: string -> string, p: string -> bool, q: string -> bool)
    requires Every(t, p) && forall s :: p(s) ==> q(f(s))
    ensures Every(Rewrite(t, f), q)
  {
    match t
    case Leaf(_) =>
    case Opaque =>
    case Node(children) =>
      forall i | 0 <= i < |children|
        ensures Every(Rewrite(children[i], f), q)
      {
        assert children[i] in children;
        PassEstablishes(children[i], f, p, q);
      }
    case Dict(entries) =>
      forall k | k in entries
        ensures Every(Rewrite(entries[k], f), q)
      {
        PassEstablishes(entries[k], f, p, q);
      }
  }

  /** When one pass turns every string into one the step keeps, one pass is the whole work. */
  lemma OnePass(step: Step, t: Tree, p: string -> bool, q: string -> bool, n: nat)
    requires n > 0 && Every(t, p) && Keeps(step, q)
    requires forall s :: p(s) ==> q(After(step)(s)) && Accepts(step)(s)
    ensures Passes(step, t, n) == Some(Rewrite(t, After(step)))
    ensures Every(Rewrite(t, After(step)), q)
  {
    EveryImplies(t, p, Accepts(step));
    PassEstablishes(t, After(step), p, q);
    KeptUnaltered(step, Rewrite(t, After(step)), q, n - 1);
  }

  // ----- Single strings of a tree -----

  /** How to get from a tree to a string in it. */
  datatype Key = Child(i: nat) | Entry(name: string)

  /** The string at the end of a path, if there is one. */
  function Follow(t: Tree, path: seq<Key>): Option<string> {
    if path == [] then if t.Leaf? then Some(t.text) else None
    else
      match t
      case Node(children) =>
        if path[0].Child? && path[0].i < |children| then Follow(children[path[0].i], path[1..]) else None
      case Dict(entries) =>
        if path[0].Entry? && path[0].name in entries then Follow(entries[path[0].name], path[1..]) else None
      case _ => None
  }

  /** Rewriting a tree rewrites the string at the end of every path, and adds none. */
  lemma {:induction false} FollowRewritten(t: Tree, f: string -> string, path: seq<Key>)
    ensures Follow(Rewrite(t, f), path) ==
            match Follow(t, path) case None => None case Some(s) => Some(f(s))
  {
    if path != [] {
      match t
      case Node(children) =>
        if path[0].Child? && path[0].i < |children| {
          FollowRewritten(children[path[0].i], f, path[1..]);
        }
      case Dict(entries) =>
        if path[0].Entry? && path[0].name in entries {
          FollowRewritten(entries[path[0].name], f, path[1..]);
        }
      case _ =>
    }
  }

  /** What holds of every string holds at the end of every path. */
  lemma {:induction false} EveryFollows(t: Tree, p: string -> bool, path: seq<Key>)
    requires Every(t, p) && Follow(t, path).Some?
    ensures p(Follow(t, path).value)
  {
    if path != [] {
      match t
      case Node(children) => EveryFollows(children[path[0].i], p, path[1..]);
      case Dict(entries) => EveryFollows(entries[path[0].name], p, path[1..]);
    }
  }

  /** A tree whose strings do not all satisfy `p` has one at the end of some path. */
  lemma {:induction false} SomeFollows(t: Tree, p: string -> bool) returns (path: seq<Key>)
    requires !Every(t, p)
    ensures Follow(t, path).Some? && !p(Follow(t, path).value)
  {
    match t
    case Leaf(_) => path := [];
    case Node(children) =>
      var i :| 0 <= i < |children| && !Every(children[i], p);
      var rest := SomeFollows(children[i], p);
      path := [Child(i)] + rest;
      assert path[1..] == rest;
    case Dict(entries) =>
      var k :| k in entries && !Every(entries[k], p);
      var rest := SomeFollows(entries[k], p);
      path := [Entry(k)] + rest;
      assert path[1..] == rest;
  }
}
