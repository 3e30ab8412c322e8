/**
  Listing workspaces (container/inspect.go): containers that carry devc's id label are listed as
  they are; the service containers of a devc compose project are collapsed into one row, which is
  updated through a shared reference after it has been appended to the result.
 */
module Inspect {
  import opened Wrappers

  datatype ContainerState = ContainerState(status: string, running: bool)

  const LABEL_ID := "com.github.terrakuh.devc.id"
  const LABEL_PROJECT := "com.docker.compose.project"
  const PROJECT_PREFIX := "devc-"

  function Lower(c: char): char {
    if 'A' <= c <= 'Z' then (c as int + 32) as char else c
  }

  /** `strings.EqualFold` against a lower-case ASCII word. */
  predicate EqualFold(s: string, word: string) {
    |s| == |word| && forall i :: 0 <= i < |s| ==> Lower(s[i]) == word[i]
  }

  predicate IsRunning(state: ContainerState) {
    state.running || EqualFold(state.status, "running")
  }

  /** The value of an `Info` object. */
  datatype View = View(id: string, state: ContainerState, labels: map<string, string>)

  class Info {
    var id: string
    var state: ContainerState
    var labels: map<string, string>

    constructor (id: string, state: ContainerState, labels: map<string, string>)
      ensures this.id == id && this.state == state && this.labels == labels
    {
      this.id, this.state, this.labels := id, state, labels;
    }

    function Value(): View
      reads this
    {
      View(id, state, labels)
    }
  }

  function Values(infos: seq<Info>): (vs: seq<View>)
    reads infos
    ensures |vs| == |infos|
  {
    seq(|infos|, i requires 0 <= i < |infos| reads infos => infos[i].Value())
  }

  function LabelOf(v: View, key: string): string {
    if key in v.labels then v.labels[key] else ""
  }

  predicate IsLabelled(v: View) {
    LabelOf(v, LABEL_ID) != ""
  }

  /** The workspace id in a compose project name of devc's making. */
  function WorkspaceIDFromProject(project: string): Option<string> {
    if PROJECT_PREFIX <= project && |project| > |PROJECT_PREFIX| then Some(project[|PROJECT_PREFIX|..])
    else None
  }

  /** The workspace a container is a compose service of, if it is not listed by its own label. */
  function RowKey(v: View): Option<string> {
    if IsLabelled(v) || LabelOf(v, LABEL_PROJECT) == "" then None
    else WorkspaceIDFromProject(LabelOf(v, LABEL_PROJECT))
  }

  // ----- The listing on values -----

  function Labelled(vs: seq<View>): seq<View> {
    if vs == [] then []
    else Labelled(vs[..|vs| - 1]) + if IsLabelled(vs[|vs| - 1]) then [vs[|vs| - 1]] else []
  }

  /** A collapsed row: the workspace, the container that named it, and the state it reports. */
  datatype Row = Row(key: string, id: string, state: ContainerState)

  function AsView(r: Row): View {
    View(r.id, r.state, map[LABEL_ID := r.key])
  }

  /** Position of the row of `key`, or the number of rows. */
  function Position(rows: seq<Row>, key: string): (i: nat)
    ensures i <= |rows|
    ensures i < |rows| ==> rows[i].key == key
    ensures forall k :: 0 <= k < i ==> rows[k].key != key
  {
    if rows == [] || rows[0].key == key then 0 else 1 + Position(rows[1..], key)
  }

  /** One more service container. */
  function Collect(rows: seq<Row>, v: View): seq<Row> {
    match RowKey(v)
    case None => rows
    case Some(key) =>
      var i := Position(rows, key);
      if i == |rows| then rows + [Row(key, v.id, v.state)]
      else if IsRunning(v.state) && !IsRunning(rows[i].state) then rows[i := rows[i].(state := v.state)]
      else rows
  }

  function Collapse(vs: seq<View>): seq<Row> {
    if vs == [] then [] else Collect(Collapse(vs[..|vs| - 1]), vs[|vs| - 1])
  }

  function RowViews(rows: seq<Row>): (vs: seq<View>)
    ensures |vs| == |rows|
  {
    seq(|rows|, i requires 0 <= i < |rows| => AsView(rows[i]))
  }

  // ----- The loops over objects -----

  /** `inspectAll` names every container once, in the order of first mention. */
  function FirstMentions(ids: seq<string>): (r: seq<string>)
    ensures forall id :: id in r <==> id in ids
    ensures forall i, j :: 0 <= i < j < |r| ==> r[i] != r[j]
  {
    if ids == [] then []
    else
      var r := FirstMentions(ids[..|ids| - 1]);
      assert ids == ids[..|ids| - 1] + [ids[|ids| - 1]];
      if ids[|ids| - 1] in r then r else r + [ids[|ids| - 1]]
  }

  method Deduplicate(ids: seq<string>) returns (args: seq<string>)
    ensures args == FirstMentions(ids)
  {
    args := [];
    var seen: set<string> := {};
    for i := 0 to |ids|
      invariant args == FirstMentions(ids[..i])
      invariant seen == set id | id in args
    {
      assert ids[..i + 1][..i] == ids[..i];
      if ids[i] !in seen {
        seen := seen + {ids[i]};
        args := args + [ids[i]];
      }
    }
    assert ids[..|ids|] == ids;
  }

  /** Distinct row objects that show `spec`. */
  ghost predicate Shows(rows: seq<Info>, spec: seq<Row>)
    reads rows
  {
    && |rows| == |spec|
    && (forall i, j :: 0 <= i < j < |rows| ==> rows[i] != rows[j])
    && (forall i :: 0 <= i < |rows| ==> rows[i].Value() == AsView(spec[i]))
  }

  /** `byID` points to the row of each workspace. */
  ghost predicate Indexes(byID: map<string, Info>, rows: seq<Info>, spec: seq<Row>)
    requires |rows| == |spec|
  {
    && (forall k :: k in byID <==> Position(spec, k) < |spec|)
    && (forall k :: k in byID ==> byID[k] == rows[Position(spec, k)])
  }

  ghost predicate Represents(rows: seq<Info>, byID: map<string, Info>, spec: seq<Row>)
    reads rows
  {
    Shows(rows, spec) && Indexes(byID, rows, spec)
  }

  /** One row object takes over a running state. */
  method SetState(rows: seq<Info>, ghost spec: seq<Row>, ghost p: nat, row: Info, state: ContainerState)
    requires Shows(rows, spec) && p < |rows| && rows[p] == row
    modifies rows
    ensures Shows(rows, spec[p := spec[p].(state := state)])
  {
    assert row.Value() == AsView(spec[p]);
    row.state := state;
  }

  /** A later container of a known project: the appended row changes through the map. */
  method UpdateRow(rows: seq<Info>, byID: map<string, Info>, ghost spec: seq<Row>, c: Info, key: string)
    requires Represents(rows, byID, spec) && c !in rows
    requires RowKey(c.Value()) == Some(key) && key in byID
    modifies rows
    ensures Represents(rows, byID, Collect(spec, old(c.Value())))
  {
    ghost var p := Position(spec, key);
    var row, state := byID[key], c.state;
    assert row.Value() == AsView(spec[p]);
    SameKeysSamePositions(spec, Collect(spec, c.Value()));
    if IsRunning(state) && !IsRunning(row.state) {
      SetState(rows, spec, p, row, state);
    }
  }

  /** The first container of a project: a fresh row, known to the map from now on. */
  method AppendRow(rows: seq<Info>, byID: map<string, Info>, ghost spec: seq<Row>, c: Info, key: string)
    returns (row: Info)
    requires Represents(rows, byID, spec)
    requires RowKey(c.Value()) == Some(key) && key !in byID
    ensures fresh(row)
    ensures Represents(rows + [row], byID[key := row], Collect(spec, c.Value()))
  {
    row := new Info(c.id, c.state, map[LABEL_ID := key]);
    IndexesAppended(byID, rows, spec, row, Row(key, c.id, c.state));
  }

  lemma IndexesAppended(byID: map<string, Info>, rows: seq<Info>, spec: seq<Row>, row: Info, r: Row)
    requires |rows| == |spec| && Indexes(byID, rows, spec) && Position(spec, r.key) == |spec|
    ensures Indexes(byID[r.key := row], rows + [row], spec + [r])
  {
    AppendedPositions(spec, r);
  }

  lemma {:induction false} SameKeysSamePositions(a: seq<Row>, b: seq<Row>)
    requires |a| == |b| && forall i :: 0 <= i < |a| ==> a[i].key == b[i].key
    ensures forall k :: Position(a, k) == Position(b, k)
  {
    if a != [] {
      SameKeysSamePositions(a[1..], b[1..]);
    }
  }

  lemma {:induction false} AppendedPositions(a: seq<Row>, r: Row)
    requires Position(a, r.key) == |a|
    ensures forall k :: Position(a + [r], k) ==
              if k == r.key || Position(a, k) < |a| then Position(a, k) else |a| + 1
  {
    if a != [] {
      assert (a + [r])[1..] == a[1..] + [r];
      AppendedPositions(a[1..], r);
    }
  }

  /** One turn of the collapsing loop. */
  method CollectOne(rows: seq<Info>, byID: map<string, Info>, ghost spec: seq<Row>, c: Info)
    returns (rows': seq<Info>, byID': map<string, Info>)
    requires Represents(rows, byID, spec) && c !in rows
    modifies rows
    ensures Represents(rows', byID', Collect(spec, old(c.Value())))
    ensures forall i :: 0 <= i < |rows'| ==> rows'[i] in rows || fresh(rows'[i])
  {
    var key := RowKey(c.Value());
    if key.None? {
      return rows, byID;
    }
    if key.value in byID {
      UpdateRow(rows, byID, spec, c, key.value);
      return rows, byID;
    }
    var row := AppendRow(rows, byID, spec, c, key.value);
    return rows + [row], byID[key.value := row];
  }

  lemma CollapseStep(vs: seq<View>, n: nat)
    requires n < |vs|
    ensures Collapse(vs[..n + 1]) == Collect(Collapse(vs[..n]), vs[n])
  {
    assert vs[..n + 1][..n] == vs[..n];
  }

  /** The collapsing loop: rows are appended once and updated through the map afterwards. */
  method CollapseCompose(containers: seq<Info>) returns (rows: seq<Info>)
    ensures Values(rows) == RowViews(Collapse(Values(containers)))
    ensures fresh(rows)
  {
    rows := [];
    var byID: map<string, Info> := map[];
    ghost var vs := Values(containers);
    for n := 0 to |containers|
      invariant fresh(rows)
      invariant Values(containers) == vs
      invariant Represents(rows, byID, Collapse(vs[..n]))
    {
      CollapseStep(vs, n);
      assert containers[n].Value() == vs[n];
      rows, byID := CollectOne(rows, byID, Collapse(vs[..n]), containers[n]);
    }
    assert vs[..|vs|] == vs;
  }

  /** `List`: the labelled containers themselves, then one fresh row per compose workspace. */
  method List(all: seq<Info>) returns (infos: seq<Info>)
    ensures Values(infos) == Labelled(Values(all)) + RowViews(Collapse(Values(all)))
  {
    var labelled: seq<Info> := [];
    for n := 0 to |all|
      invariant Values(labelled) == Labelled(Values(all)[..n])
    {
      assert Values(all)[..n + 1][..n] == Values(all)[..n];
      if IsLabelled(all[n].Value()) {
        labelled := labelled + [all[n]];
      }
    }
    assert Values(all)[..|all|] == Values(all);
    ghost var before := Values(labelled);
    var rows := CollapseCompose(all);
    assert Values(labelled) == before;
    infos := labelled + rows;
  }

  // ----- What the rows say -----

  /** A service container of workspace `key`. */
  predicate Serves(v: View, key: string) {
    RowKey(v) == Some(key)
  }

  ghost predicate Present(vs: seq<View>, key: string) {
    exists v :: v in vs && Serves(v, key)
  }

  ghost predicate AnyRunning(vs: seq<View>, key: string) {
    exists v :: v in vs && Serves(v, key) && IsRunning(v.state)
  }

  /** Rows that list every present workspace once, each running when some service of it is. */
  ghost predicate Describes(vs: seq<View>, rows: seq<Row>) {
    && (forall i, j :: 0 <= i < j < |rows| ==> rows[i].key != rows[j].key)
    && (forall key :: Position(rows, key) < |rows| <==> Present(vs, key))
    && (forall r :: r in rows ==> (IsRunning(r.state) <==> AnyRunning(vs, r.key)))
  }

  /**
    There is exactly one row per distinct devc compose workspace, and it reports running if and
    only if some container of its project does. Containers of foreign projects add nothing.
   */
  lemma {:induction false} CollapseMeaning(vs: seq<View>)
    ensures Describes(vs, Collapse(vs))
  {
    if vs != [] {
      var init, v := vs[..|vs| - 1], vs[|vs| - 1];
      assert vs == init + [v];
      CollapseMeaning(init);
      CollectMeaning(init, Collapse(init), v);
    }
  }

  lemma OneMore(vs: seq<View>, v: View, key: string)
    ensures Present(vs + [v], key) <==> Present(vs, key) || Serves(v, key)
    ensures AnyRunning(vs + [v], key) <==> AnyRunning(vs, key) || (Serves(v, key) && IsRunning(v.state))
  {
    var ws := vs + [v];
    assert v in ws;
    assert forall x :: x in ws <==> x in vs || x == v;
  }

  lemma CollectMeaning(vs: seq<View>, rows: seq<Row>, v: View)
    requires Describes(vs, rows)
    ensures Describes(vs + [v], Collect(rows, v))
  {
    var next := Collect(rows, v);
    forall key
      ensures Position(next, key) < |next| <==> Present(vs + [v], key)
    {
      OneMore(vs, v, key);
      CollectKeys(rows, v, key);
    }
    forall r | r in next
      ensures IsRunning(r.state) <==> AnyRunning(vs + [v], r.key)
    {
      OneMore(vs, v, r.key);
      CollectRuns(vs, rows, v, r);
    }
  }

  lemma CollectKeys(rows: seq<Row>, v: View, key: string)
    ensures var next := Collect(rows, v);
      Position(next, key) < |next| <==> Position(rows, key) < |rows| || Serves(v, key)
  {
    var next := Collect(rows, v);
    if RowKey(v).Some? {
      if Position(rows, RowKey(v).value) == |rows| {
        AppendedPositions(rows, next[|rows|]);
      } else {
        SameKeysSamePositions(rows, next);
      }
    }
  }

  lemma CollectRuns(vs: seq<View>, rows: seq<Row>, v: View, r: Row)
    requires Describes(vs, rows) && r in Collect(rows, v)
    ensures IsRunning(r.state) <==> AnyRunning(vs, r.key) || (Serves(v, r.key) && IsRunning(v.state))
  {
    var next := Collect(rows, v);
    var i :| 0 <= i < |next| && next[i] == r;
    if i < |rows| {
      assert rows[i] in rows;
      assert rows[i].key == r.key;
    } else {
      assert !Present(vs, r.key);
      assert AnyRunning(vs, r.key) ==> Present(vs, r.key);
    }
  }

  /** Whatever order the containers are listed in, the same workspaces are listed and running. */
  lemma OrderIrrelevant(vs: seq<View>, ws: seq<View>, key: string)
    requires multiset(vs) == multiset(ws)
    ensures
      var i, j := Position(Collapse(vs), key), Position(Collapse(ws), key);
      && (i < |Collapse(vs)| <==> j < |Collapse(ws)|)
      && (i < |Collapse(vs)| ==> (IsRunning(Collapse(vs)[i].state) <==> IsRunning(Collapse(ws)[j].state)))
  {
    CollapseMeaning(vs);
    CollapseMeaning(ws);
    forall v
      ensures v in vs <==> v in ws
    {
      assert v in vs <==> v in multiset(vs);
      assert v in ws <==> v in multiset(ws);
    }
    assert Present(vs, key) <==> Present(ws, key);
    assert AnyRunning(vs, key) <==> AnyRunning(ws, key);
    RowRuns(vs, Collapse(vs), key);
    RowRuns(ws, Collapse(ws), key);
  }

  lemma RowRuns(vs: seq<View>, rows: seq<Row>, key: string)
    requires Describes(vs, rows)
    ensures var i := Position(rows, key);
      && (i < |rows| <==> Present(vs, key))
      && (i < |rows| ==> (IsRunning(rows[i].state) <==> AnyRunning(vs, key)))
  {
    var i := Position(rows, key);
    if i < |rows| {
      assert rows[i] in rows;
    }
  }

  /** Every labelled container is listed as often as it occurs, and nothing else is. */
  lemma {:induction false} LabelledCounts(vs: seq<View>, v: View)
    ensures multiset(Labelled(vs))[v] == if IsLabelled(v) then multiset(vs)[v] else 0
  {
    if vs != [] {
      var init, last := vs[..|vs| - 1], vs[|vs| - 1];
      assert vs == init + [last];
      LabelledCounts(init, v);
    }
  }

  // ----- What the pieces mean -----

  /** The workspace's id is what follows "devc-", and there must be something. */
  lemma WorkspaceIDIff(project: string, id: string)
    ensures WorkspaceIDFromProject(project) == Some(id) <==> id != "" && project == "devc-" + id
  {
    var prefix := "devc-";
    if project == prefix + id {
      assert project[|prefix|..] == id;
    }
    if prefix <= project {
      assert project == prefix + project[|prefix|..];
    }
  }

  /** Running is what the runtime says, or the word in any mixture of cases. */
  lemma RunningIff(state: ContainerState)
    ensures IsRunning(state) <==>
            || state.running
            || (&& |state.status| == 7
                && state.status[0] in {'r', 'R'} && state.status[1] in {'u', 'U'}
                && state.status[2] in {'n', 'N'} && state.status[3] in {'n', 'N'}
                && state.status[4] in {'i', 'I'} && state.status[5] in {'n', 'N'}
                && state.status[6] in {'g', 'G'})
  {
    var word := "running";
    assert word == ['r', 'u', 'n', 'n', 'i', 'n', 'g'];
    forall c: char
      ensures Lower(c) == 'r' <==> c in {'r', 'R'}
      ensures Lower(c) == 'u' <==> c in {'u', 'U'}
      ensures Lower(c) == 'n' <==> c in {'n', 'N'}
      ensures Lower(c) == 'i' <==> c in {'i', 'I'}
      ensures Lower(c) == 'g' <==> c in {'g', 'G'}
    {
    }
    if EqualFold(state.status, word) {
      assert forall i :: 0 <= i < 7 ==> Lower(state.status[i]) == word[i];
    }
  }

  /** The label has a value that is not empty. */
  predicate Has(v: View, key: string) {
    key in v.labels && v.labels[key] != ""
  }

  /** A container serves a workspace by its compose project's name, unless it has devc's own label. */
  lemma ServesIff(v: View, key: string)
    ensures IsLabelled(v) <==> Has(v, "com.github.terrakuh.devc.id")
    ensures Serves(v, key) <==>
            && !Has(v, "com.github.terrakuh.devc.id")
            && "com.docker.compose.project" in v.labels
            && key != "" && v.labels["com.docker.compose.project"] == "devc-" + key
  {
    WorkspaceIDIff(LabelOf(v, LABEL_PROJECT), key);
  }

  /** Index of the first container with the property, or the number of containers. */
  function FirstWhere(vs: seq<View>, p: View -> bool): (i: nat)
    ensures i <= |vs|
    ensures i < |vs| ==> p(vs[i])
    ensures forall k :: 0 <= k < i ==> !p(vs[k])
  {
    if vs == [] || p(vs[0]) then 0 else 1 + FirstWhere(vs[1..], p)
  }

  function ServesIt(key: string): View -> bool {
    v => Serves(v, key)
  }

  function RunsIt(key: string): View -> bool {
    v => Serves(v, key) && IsRunning(v.state)
  }

  /** The first container stays the first when one is added. */
  lemma FirstAppended(vs: seq<View>, v: View, p: View -> bool)
    ensures
      var i := FirstWhere(vs, p);
      FirstWhere(vs + [v], p) == if i < |vs| then i else if p(v) then |vs| else |vs| + 1
  {
    var i, j := FirstWhere(vs, p), FirstWhere(vs + [v], p);
    assert forall k :: 0 <= k < |vs| ==> (vs + [v])[k] == vs[k];
    assert (vs + [v])[|vs|] == v;
  }

  lemma FirstAbsent(vs: seq<View>, p: View -> bool)
    requires forall v :: v in vs ==> !p(v)
    ensures FirstWhere(vs, p) == |vs|
  {
  }

  /** A row named by the first container with `p`, in the state of the first one with `q`, if any. */
  ghost predicate RowOf(vs: seq<View>, p: View -> bool, q: View -> bool, r: Row) {
    var a, b := FirstWhere(vs, p), FirstWhere(vs, q);
    && a < |vs| && r.id == vs[a].id
    && r.state == (if b < |vs| then vs[b].state else vs[a].state)
  }

  lemma RowKept(vs: seq<View>, v: View, p: View -> bool, q: View -> bool, r: Row)
    requires RowOf(vs, p, q, r) && (q(v) ==> FirstWhere(vs, q) < |vs|)
    ensures RowOf(vs + [v], p, q, r)
  {
    FirstAppended(vs, v, p);
    FirstAppended(vs, v, q);
  }

  lemma RowReplaced(vs: seq<View>, v: View, p: View -> bool, q: View -> bool, r: Row)
    requires RowOf(vs, p, q, r) && q(v) && FirstWhere(vs, q) == |vs|
    ensures RowOf(vs + [v], p, q, r.(state := v.state))
  {
    FirstAppended(vs, v, p);
    FirstAppended(vs, v, q);
  }

  lemma RowAdded(vs: seq<View>, v: View, p: View -> bool, q: View -> bool, key: string)
    requires FirstWhere(vs, p) == |vs| == FirstWhere(vs, q) && p(v)
    ensures RowOf(vs + [v], p, q, Row(key, v.id, v.state))
    ensures FirstWhere(vs + [v], p) == |vs|
  {
    FirstAppended(vs, v, p);
    FirstAppended(vs, v, q);
  }

  ghost predicate RowExact(vs: seq<View>, r: Row) {
    RowOf(vs, ServesIt(r.key), RunsIt(r.key), r)
  }

  ghost predicate RowsExact(vs: seq<View>, rows: seq<Row>) {
    && (forall r :: r in rows ==> RowExact(vs, r))
    && (forall i, j :: 0 <= i < j < |rows| ==>
          FirstWhere(vs, ServesIt(rows[i].key)) < FirstWhere(vs, ServesIt(rows[j].key)))
  }

  lemma RunningKnown(vs: seq<View>, rows: seq<Row>, r: Row)
    requires Describes(vs, rows) && r in rows
    ensures IsRunning(r.state) <==> FirstWhere(vs, RunsIt(r.key)) < |vs|
  {
    var b := FirstWhere(vs, RunsIt(r.key));
    if b < |vs| {
      assert RunsIt(r.key)(vs[b]) && vs[b] in vs;
    }
    if v :| v in vs && Serves(v, r.key) && IsRunning(v.state) {
      var k :| 0 <= k < |vs| && vs[k] == v;
      assert RunsIt(r.key)(vs[k]);
    }
  }

  /** What one more container does to an old row. */
  lemma CollectAt(rows: seq<Row>, v: View, i: nat)
    requires i < |rows| && forall j, k :: 0 <= j < k < |rows| ==> rows[j].key != rows[k].key
    ensures i < |Collect(rows, v)|
    ensures Collect(rows, v)[i] ==
            if Serves(v, rows[i].key) && IsRunning(v.state) && !IsRunning(rows[i].state)
            then rows[i].(state := v.state) else rows[i]
  {
    assert Position(rows, rows[i].key) == i;
  }

  lemma OldRow(vs: seq<View>, rows: seq<Row>, v: View, i: nat)
    requires Describes(vs, rows) && RowsExact(vs, rows) && i < |rows|
    ensures i < |Collect(rows, v)| && RowExact(vs + [v], Collect(rows, v)[i])
    ensures Collect(rows, v)[i].key == rows[i].key
    ensures FirstWhere(vs + [v], ServesIt(rows[i].key)) == FirstWhere(vs, ServesIt(rows[i].key)) < |vs|
  {
    var r := rows[i];
    var p, q := ServesIt(r.key), RunsIt(r.key);
    assert r in rows && RowOf(vs, p, q, r);
    CollectAt(rows, v, i);
    RunningKnown(vs, rows, r);
    FirstAppended(vs, v, p);
    if q(v) && !IsRunning(r.state) {
      RowReplaced(vs, v, p, q, r);
    } else {
      RowKept(vs, v, p, q, r);
    }
  }

  lemma NewRow(vs: seq<View>, rows: seq<Row>, v: View)
    requires Describes(vs, rows) && |Collect(rows, v)| > |rows|
    ensures
      var next := Collect(rows, v);
      && |next| == |rows| + 1 && RowExact(vs + [v], next[|rows|])
      && FirstWhere(vs + [v], ServesIt(next[|rows|].key)) == |vs|
  {
    var key := RowKey(v).value;
    assert !Present(vs, key);
    FirstAbsent(vs, ServesIt(key));
    FirstAbsent(vs, RunsIt(key));
    RowAdded(vs, v, ServesIt(key), RunsIt(key), key);
  }

  /**
    Every row is named by the first container of its workspace, is in the state of the first running
    one, or of the first if none is, and the rows come in the order of these first containers.
   */
  lemma {:induction false} CollapseExact(vs: seq<View>)
    ensures RowsExact(vs, Collapse(vs))
  {
    if vs != [] {
      var init, v := vs[..|vs| - 1], vs[|vs| - 1];
      assert vs == init + [v];
      CollapseExact(init);
      CollapseMeaning(init);
      CollectExact(init, Collapse(init), v);
    }
  }

  lemma CollectExact(vs: seq<View>, rows: seq<Row>, v: View)
    requires Describes(vs, rows) && RowsExact(vs, rows)
    ensures RowsExact(vs + [v], Collect(rows, v))
  {
    var next := Collect(rows, v);
    forall i | 0 <= i < |next|
      ensures RowExact(vs + [v], next[i])
      ensures FirstWhere(vs + [v], ServesIt(next[i].key)) ==
              if i < |rows| then FirstWhere(vs, ServesIt(rows[i].key)) else |vs|
      ensures i < |rows| ==> FirstWhere(vs, ServesIt(rows[i].key)) < |vs|
    {
      if i < |rows| {
        OldRow(vs, rows, v, i);
      } else {
        NewRow(vs, rows, v);
      }
    }
  }

  /** What a listed row shows: its container's id, its state, and devc's label with the workspace's id. */
  lemma RowShown(rows: seq<Row>, i: nat)
    requires i < |rows|
    ensures RowViews(rows)[i].id == rows[i].id && RowViews(rows)[i].state == rows[i].state
    ensures RowViews(rows)[i].labels == map["com.github.terrakuh.devc.id" := rows[i].key]
  {
  }

  /** Labelled containers are listed in their order, each on its own. */
  lemma {:induction false} LabelledInOrder(vs: seq<View>, ws: seq<View>, v: View)
    ensures Labelled(vs + ws) == Labelled(vs) + Labelled(ws)
    ensures Labelled([v]) == if Has(v, "com.github.terrakuh.devc.id") then [v] else []
  {
    if ws == [] {
      assert vs + ws == vs;
    } else {
      var init, last := ws[..|ws| - 1], ws[|ws| - 1];
      LabelledInOrder(vs, init, v);
      assert (vs + ws)[..|vs + ws| - 1] == vs + init;
    }
    assert [v][..0] == [];
    assert Labelled([v]) == Labelled([]) + if IsLabelled(v) then [v] else [];
    ServesIff(v, "");
  }

  /** Position of the first mention of an id, or the number of mentions. */
  function FirstMention(ids: seq<string>, id: string): (i: nat)
    ensures i <= |ids|
    ensures i < |ids| ==> ids[i] == id
    ensures forall k :: 0 <= k < i ==> ids[k] != id
  {
    if ids == [] || ids[0] == id then 0 else 1 + FirstMention(ids[1..], id)
  }

  lemma MentionAppended(ids: seq<string>, last: string, id: string)
    ensures
      var i := FirstMention(ids, id);
      && (id in ids <==> i < |ids|)
      && FirstMention(ids + [last], id) == if i < |ids| then i else if id == last then |ids| else |ids| + 1
  {
    var i, j := FirstMention(ids, id), FirstMention(ids + [last], id);
    assert forall k :: 0 <= k < |ids| ==> (ids + [last])[k] == ids[k];
    assert (ids + [last])[|ids|] == last;
  }

  /** The mentions are in the order in which they come first. */
  ghost predicate InMentionOrder(ids: seq<string>, r: seq<string>) {
    forall i, j :: 0 <= i < j < |r| ==> FirstMention(ids, r[i]) < FirstMention(ids, r[j])
  }

  /** Each id keeps the place of its first mention among the others. */
  lemma {:induction false} MentionOrder(ids: seq<string>)
    ensures InMentionOrder(ids, FirstMentions(ids))
  {
    if ids != [] {
      var init, last := ids[..|ids| - 1], ids[|ids| - 1];
      assert ids == init + [last];
      MentionOrder(init);
      var was := FirstMentions(init);
      forall i | 0 <= i < |was|
        ensures FirstMention(ids, was[i]) == FirstMention(init, was[i]) < |init|
      {
        assert was[i] in was;
        MentionAppended(init, last, was[i]);
      }
      MentionAppended(init, last, last);
    }
  }
}
