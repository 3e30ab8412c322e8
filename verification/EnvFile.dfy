/**
  The agent's environment file: the writer (`envFile` in container/cp.go) and the reader
  (`readEnvFile` in cmd/devc/serve.go). Characters stand for bytes.
 */
module EnvFile {
  import opened Wrappers
  import opened Text

  /** A line this long or longer overflows the reader's scanner, which then stops. */
  const MAX_LINE := 65536

  // ----- Writing -----

  /** Newlines in a value become blanks. */
  function Flatten(v: string): (f: string)
    ensures |f| == |v|
  {
    seq(|v|, i requires 0 <= i < |v| => if v[i] == '\n' then ' ' else v[i])
  }

  function Line(k: string, v: string): string {
    k + ['='] + Flatten(v)
  }

  function Render(keys: seq<string>, env: map<string, string>): string
    requires forall k :: k in keys ==> k in env
  {
    if keys == [] then []
    else Line(keys[0], env[keys[0]]) + (['\n'] + Render(keys[1..], env))
  }

  /** Lexicographic order, the order of `sort.Strings`. */
  predicate Before(a: string, b: string) {
    if a == "" then b != ""
    else b != "" && (a[0] < b[0] || (a[0] == b[0] && Before(a[1..], b[1..])))
  }

  lemma {:induction false} BeforeTotal(a: string, b: string)
    ensures Before(a, b) || a == b || Before(b, a)
    ensures !(Before(a, b) && Before(b, a)) && !Before(a, a)
  {
    if a != "" && b != "" && a[0] == b[0] {
      BeforeTotal(a[1..], b[1..]);
      assert a == [a[0]] + a[1..] && b == [b[0]] + b[1..];
    }
    if a != "" {
      BeforeTotal(a[1..], a[1..]);
    }
  }

  lemma {:induction false} BeforeTransitive(a: string, b: string, c: string)
    requires Before(a, b) && Before(b, c)
    ensures Before(a, c)
  {
    if a != "" && a[0] == b[0] && b[0] == c[0] {
      BeforeTransitive(a[1..], b[1..], c[1..]);
    }
  }

  predicate Ascending(keys: seq<string>) {
    forall i, j :: 0 <= i < j < |keys| ==> Before(keys[i], keys[j])
  }

  /** The keys of `env`, each once, in ascending order. */
  ghost predicate KeyList(keys: seq<string>, env: map<string, string>) {
    Ascending(keys) && forall k :: k in keys <==> k in env
  }

  method InsertKey(keys: seq<string>, k: string) returns (r: seq<string>)
    requires Ascending(keys) && k !in keys
    ensures Ascending(r)
    ensures forall x :: x in r <==> x == k || x in keys
  {
    var i := 0;
    while i < |keys| && Before(keys[i], k)
      invariant 0 <= i <= |keys|
      invariant forall j :: 0 <= j < i ==> Before(keys[j], k)
    {
      i := i + 1;
    }
    r := keys[..i] + [k] + keys[i..];
    forall j | i <= j < |keys|
      ensures Before(k, keys[j])
    {
      assert keys[i] in keys;
      BeforeTotal(keys[i], k);
      if i < j {
        BeforeTransitive(k, keys[i], keys[j]);
      }
    }
    assert keys == keys[..i] + keys[i..];
  }

  /**
    The keys are collected in an arbitrary order and sorted. The file is the only one that lists
    every key once in ascending order, and reading it back returns the map exactly when every
    entry is faithful.
   */
  method WriteEnvFile(env: map<string, string>) returns (text: string)
    ensures exists keys :: KeyList(keys, env) && text == Render(keys, env)
    ensures forall keys :: KeyList(keys, env) ==> text == Render(keys, env)
    ensures ReadFrom(map[], text) == Flattened(env) <==> AllFaithful(env)
  {
    var keys := SortedKeys(env);
    text := WriteLines(keys, env);
    RoundTripIff(keys, env);
    forall other | KeyList(other, env)
      ensures text == Render(other, env)
    {
      KeyListUnique(keys, other);
    }
  }

  method SortedKeys(env: map<string, string>) returns (keys: seq<string>)
    ensures KeyList(keys, env)
  {
    keys := [];
    var remaining := env.Keys;
    while remaining != {}
      invariant remaining <= env.Keys && Ascending(keys)
      invariant forall k :: k in keys <==> k in env.Keys - remaining
      decreases |remaining|
    {
      var k :| k in remaining;
      keys := InsertKey(keys, k);
      remaining := remaining - {k};
    }
  }

  method WriteLines(keys: seq<string>, env: map<string, string>) returns (text: string)
    requires forall k :: k in keys ==> k in env
    ensures text == Render(keys, env)
  {
    text := [];
    for i := 0 to |keys|
      invariant text + Render(keys[i..], env) == Render(keys, env)
    {
      RenderStep(text, keys, i, env);
      assert keys[i] in keys;
      text := text + (Line(keys[i], env[keys[i]]) + ['\n']);
    }
    assert text + [] == text;
  }

  lemma RenderStep(text: string, keys: seq<string>, i: nat, env: map<string, string>)
    requires forall k :: k in keys ==> k in env
    requires i < |keys|
    ensures text + Render(keys[i..], env) ==
            text + (Line(keys[i], env[keys[i]]) + ['\n']) + Render(keys[i + 1..], env)
  {
    assert keys[i..][1..] == keys[i + 1..];
  }

  /** The written file is a function of the map: there is only one ascending key list. */
  lemma {:induction false} KeyListUnique(a: seq<string>, b: seq<string>)
    requires Ascending(a) && Ascending(b)
    requires forall k :: k in a <==> k in b
    ensures a == b
  {
    assert a != [] ==> a[0] in a;
    assert b != [] ==> b[0] in b;
    if a != [] && b != [] {
      assert a[0] in b;
      var k :| 0 <= k < |b| && b[k] == a[0];
      assert b[0] in a;
      var j :| 0 <= j < |a| && a[j] == b[0];
      BeforeTotal(a[0], b[0]);
      assert a[0] == b[0];
      forall x
        ensures x in a[1..] <==> x in b[1..]
      {
        BeforeTotal(a[0], x);
        if x in a[1..] { assert x in b; }
        if x in b[1..] { assert x in a; }
      }
      KeyListUnique(a[1..], b[1..]);
    }
  }

  // ----- Reading -----

  function DropCR(line: string): string {
    if line != "" && line[|line| - 1] == '\r' then line[..|line| - 1] else line
  }

  /** What one line adds: nothing unless it has an equals sign; it is cut at the first one. */
  function AddLine(out: map<string, string>, line: string): map<string, string> {
    var e := IndexOf(line, '=');
    if e == |line| then out else out[line[..e] := line[e + 1..]]
  }

  /** Reading line by line from `text`; a line too long for the scanner ends the reading. */
  function ReadFrom(out: map<string, string>, text: string): map<string, string>
    decreases |text|
  {
    if text == "" then out
    else
      var n := IndexOf(text, '\n');
      if n >= MAX_LINE then out
      else
        var out' := AddLine(out, DropCR(text[..n]));
        if n == |text| then out' else ReadFrom(out', text[n + 1..])
  }

  /** `None` is a path that is empty or cannot be opened. */
  method ReadEnvFile(file: Option<string>) returns (out: map<string, string>)
    ensures out == if file.Some? then ReadFrom(map[], file.value) else map[]
  {
    if file.None? {
      return map[];
    }
    out := ReadLines(file.value);
  }

  method ReadLines(file: string) returns (out: map<string, string>)
    ensures out == ReadFrom(map[], file)
  {
    out := map[];
    var text := file;
    while text != []
      invariant ReadFrom(out, text) == ReadFrom(map[], file)
      decreases |text|
    {
      var n := IndexOf(text, '\n');
      if n >= MAX_LINE {
        break;
      }
      out := AddLine(out, DropCR(text[..n]));
      text := if n < |text| then text[n + 1..] else [];
    }
  }

  // ----- Round trip -----

  /** What the reader should get back: newlines in values are the only loss. */
  function Flattened(env: map<string, string>): map<string, string> {
    map k | k in env :: Flatten(env[k])
  }

  predicate GoodKey(k: string) {
    '=' !in k && '\n' !in k
  }

  /** The line of `k` reads back as `k` and its flattened value. */
  predicate Faithful(k: string, v: string) {
    GoodKey(k) && DropCR(v) == v && |k| + 1 + |v| < MAX_LINE
  }

  predicate AllFaithful(env: map<string, string>) {
    forall k :: k in env ==> Faithful(k, env[k])
  }

  lemma {:induction false} IndexOfFirst(a: string, c: char, b: string)
    requires c !in a
    ensures IndexOf(a + [c] + b, c) == |a|
  {
    var s := a + [c] + b;
    if a != "" {
      assert s[1..] == a[1..] + [c] + b;
      IndexOfFirst(a[1..], c, b);
    }
  }

  /** Reading a line with a good key. */
  lemma ReadLine(out: map<string, string>, k: string, v: string, rest: string)
    requires GoodKey(k)
    ensures ReadFrom(out, Line(k, v) + (['\n'] + rest)) ==
            if |k| + 1 + |v| < MAX_LINE then ReadFrom(out[k := DropCR(Flatten(v))], rest) else out
  {
    var line := Line(k, v);
    var text := line + (['\n'] + rest);
    assert text == line + ['\n'] + rest;
    IndexOfFirst(line, '\n', rest);
    assert text[..|line|] == line && text[|line| + 1..] == rest;
    ParseLine(out, k, v);
  }

  lemma ParseLine(out: map<string, string>, k: string, v: string)
    requires GoodKey(k)
    ensures AddLine(out, DropCR(Line(k, v))) == out[k := DropCR(Flatten(v))]
  {
    var line := Line(k, v);
    var d := DropCR(Flatten(v));
    assert DropCR(line) == k + ['='] + d;
    IndexOfFirst(k, '=', d);
    assert (k + ['='] + d)[..|k|] == k && (k + ['='] + d)[|k| + 1..] == d;
  }

  lemma DropCRFlatten(v: string)
    ensures DropCR(Flatten(v)) == Flatten(v) <==> DropCR(v) == v
  {
  }

  predicate Fits(k: string, v: string) {
    |k| + 1 + |v| < MAX_LINE
  }

  /** What reading the lines of `keys` collects, entry by entry. */
  function Collect(out: map<string, string>, keys: seq<string>, env: map<string, string>): map<string, string>
    requires forall k :: k in keys ==> k in env
    decreases keys
  {
    if keys == [] || !Fits(keys[0], env[keys[0]]) then out
    else Collect(out[keys[0] := DropCR(Flatten(env[keys[0]]))], keys[1..], env)
  }

  /** With good keys, the text level and the entry level agree. */
  lemma {:induction false} ReadIsCollect(out: map<string, string>, keys: seq<string>, env: map<string, string>)
    requires forall k :: k in keys ==> k in env && GoodKey(k)
    ensures ReadFrom(out, Render(keys, env)) == Collect(out, keys, env)
    decreases keys
  {
    if keys != [] {
      ReadLine(out, keys[0], env[keys[0]], Render(keys[1..], env));
      ReadIsCollect(out[keys[0] := DropCR(Flatten(env[keys[0]]))], keys[1..], env);
    }
  }

  /** Faithful entries are all collected, each with its flattened value. */
  lemma {:induction false} CollectFaithful(out: map<string, string>, keys: seq<string>, env: map<string, string>)
    requires forall k :: k in keys ==> k in env && Faithful(k, env[k])
    ensures Collect(out, keys, env).Keys == out.Keys + (set k | k in keys)
    ensures forall k :: k in keys ==> Collect(out, keys, env)[k] == Flatten(env[k])
    ensures forall k :: k in out && k !in keys ==> Collect(out, keys, env)[k] == out[k]
    decreases keys
  {
    if keys != [] {
      var k0 := keys[0];
      DropCRFlatten(env[k0]);
      assert forall k :: k in keys <==> k == k0 || k in keys[1..];
      CollectFaithful(out[k0 := Flatten(env[k0])], keys[1..], env);
    }
  }

  /** Every collected value has lost a final carriage return. */
  ghost predicate CarriageFree(out: map<string, string>, env: map<string, string>) {
    forall k :: k in out && k in env ==> out[k] == DropCR(Flatten(env[k]))
  }

  /** Values read back lose a final carriage return, and an entry that does not fit is lost. */
  lemma {:induction false} CollectLoses(out: map<string, string>, keys: seq<string>, env: map<string, string>)
    requires forall k :: k in keys ==> k in env
    requires CarriageFree(out, env)
    ensures CarriageFree(Collect(out, keys, env), env)
    ensures forall k :: k in env && !Fits(k, env[k]) && k !in out ==> k !in Collect(out, keys, env)
    decreases keys
  {
    if keys != [] && Fits(keys[0], env[keys[0]]) {
      CollectLoses(out[keys[0] := DropCR(Flatten(env[keys[0]]))], keys[1..], env);
    }
  }

  /** The reader never yields a key with an equals sign or a newline. */
  lemma {:induction false} ReadKeysGood(out: map<string, string>, text: string)
    requires forall k :: k in out ==> GoodKey(k)
    ensures forall k :: k in ReadFrom(out, text) ==> GoodKey(k)
    decreases |text|
  {
    if text != "" {
      var n := IndexOf(text, '\n');
      if n < MAX_LINE {
        var line := DropCR(text[..n]);
        assert '\n' !in line;
        var out' := AddLine(out, line);
        assert forall k :: k in out' ==> GoodKey(k);
        if n < |text| {
          ReadKeysGood(out', text[n + 1..]);
        }
      }
    }
  }

  lemma FaithfulReadsBack(keys: seq<string>, env: map<string, string>)
    requires KeyList(keys, env) && AllFaithful(env)
    ensures ReadFrom(map[], Render(keys, env)) == Flattened(env)
  {
    ReadIsCollect(map[], keys, env);
    CollectFaithful(map[], keys, env);
    assert Collect(map[], keys, env) == Flattened(env);
  }

  lemma ReadsBackFaithful(keys: seq<string>, env: map<string, string>)
    requires KeyList(keys, env) && ReadFrom(map[], Render(keys, env)) == Flattened(env)
    ensures AllFaithful(env)
  {
    var read := Flattened(env);
    ReadKeysGood(map[], Render(keys, env));
    forall k | k in env
      ensures k in read && GoodKey(k)
    {
    }
    ReadIsCollect(map[], keys, env);
    CollectLoses(map[], keys, env);
    forall k | k in env
      ensures Faithful(k, env[k])
    {
      assert read[k] == Flatten(env[k]);
      DropCRFlatten(env[k]);
    }
  }

  /**
    Reading the written file returns the map, with newlines in values turned to blanks, exactly
    when every entry is faithful: its key has no equals sign and no newline, its value does not
    end in a carriage return, and its line fits the scanner.
   */
  lemma RoundTripIff(keys: seq<string>, env: map<string, string>)
    requires KeyList(keys, env)
    ensures ReadFrom(map[], Render(keys, env)) == Flattened(env) <==> AllFaithful(env)
  {
    if AllFaithful(env) {
      FaithfulReadsBack(keys, env);
    } else if ReadFrom(map[], Render(keys, env)) == Flattened(env) {
      ReadsBackFaithful(keys, env);
    }
  }

  /** An equals sign in a key moves the rest of the key into the value. */
  lemma EqualsInKeyExample()
    ensures
      var env := map[['A', '=', 'B'] := ['1']];
      && KeyList([['A', '=', 'B']], env)
      && ReadFrom(map[], Render([['A', '=', 'B']], env)) == map[['A'] := ['B', '=', '1']] != Flattened(env)
  {
    var k: string := ['A', '=', 'B'];
    var env := map[k := ['1']];
    var value: string := ['B', '=', '1'];
    assert Flatten(['1']) == ['1'] && Flatten(value) == value;
    assert Render([k][1..], env) == [];
    assert Line(k, ['1']) == Line(['A'], value);
    ReadLine(map[], ['A'], value, []);
    assert ['A'] in ReadFrom(map[], Render([k], env));
    assert ['A'] !in Flattened(env);
  }

  // ----- What the pieces mean -----

  /** Flattening turns newlines into blanks and keeps every other byte. */
  lemma FlattenedBytes(v: string, i: nat)
    requires i < |v|
    ensures v[i] == '\n' ==> Flatten(v)[i] == ' '
    ensures v[i] != '\n' ==> Flatten(v)[i] == v[i]
  {
  }

  /** The file is one line per key: the key, an equals sign, the flattened value, a newline. */
  lemma RenderedLines(k: string, keys: seq<string>, env: map<string, string>)
    requires k in env && forall x :: x in keys ==> x in env
    ensures Render([], env) == []
    ensures Render([k] + keys, env) == k + ['='] + Flatten(env[k]) + ['\n'] + Render(keys, env)
  {
    assert ([k] + keys)[1..] == keys;
  }

  /** The texts agree up to `n`, where the first one ends or has the smaller byte. */
  predicate LessAt(a: string, b: string, n: nat) {
    && n <= |a| && n < |b| && a[..n] == b[..n]
    && (n == |a| || a[n] < b[n])
  }

  /** Keys are ordered by their first difference. */
  lemma {:induction false} BeforeIff(a: string, b: string)
    ensures Before(a, b) <==> exists n: nat :: LessAt(a, b, n)
  {
    forall n: nat | n > 0 && LessAt(a, b, n)
      ensures a != "" && b != "" && a[0] == b[0]
    {
      assert a[..n][0] == b[..n][0];
    }
    if a == "" || b == "" || a[0] != b[0] {
      if b != "" && (a == "" || a[0] < b[0]) {
        assert LessAt(a, b, 0);
      }
    } else {
      BeforeIff(a[1..], b[1..]);
      if n: nat :| LessAt(a, b, n) {
        assert n > 0;
        assert a[1..][..n - 1] == a[..n][1..] && b[1..][..n - 1] == b[..n][1..];
        assert LessAt(a[1..], b[1..], n - 1);
      }
      if n: nat :| LessAt(a[1..], b[1..], n) {
        assert a[..n + 1] == [a[0]] + a[1..][..n] && b[..n + 1] == [b[0]] + b[1..][..n];
        assert LessAt(a, b, n + 1);
      }
    }
  }

  /** A line is cut at its first equals sign; one without is passed over. */
  lemma LineAdds(out: map<string, string>, key: string, value: string, line: string)
    requires '=' !in key
    ensures AddLine(out, key + ['='] + value) == out[key := value]
    ensures '=' !in line ==> AddLine(out, line) == out
  {
    var l := key + ['='] + value;
    IndexOfFirst(key, '=', value);
    assert l[..|key|] == key && l[|key| + 1..] == value;
    if '=' !in line {
      assert IndexOf(line, '=') == |line|;
    }
  }

  /**
    Reading takes one line after the other, without a final carriage return, the last one with or
    without its newline, and stops at a line of 65536 bytes or more.
   */
  lemma LineByLine(out: map<string, string>, line: string, rest: string)
    requires '\n' !in line
    ensures ReadFrom(out, []) == out
    ensures |line| >= 65536 ==> ReadFrom(out, line + ['\n'] + rest) == out && ReadFrom(out, line) == out
    ensures |line| < 65536 ==>
              && ReadFrom(out, line + ['\n'] + rest) == ReadFrom(AddLine(out, WithoutCR(line)), rest)
              && (line != "" ==> ReadFrom(out, line) == AddLine(out, WithoutCR(line)))
  {
    var text := line + ['\n'] + rest;
    IndexOfFirst(line, '\n', rest);
    assert text[..|line|] == line && text[|line| + 1..] == rest;
    assert IndexOf(line, '\n') == |line| && line[..|line|] == line;
    assert DropCR(line) == WithoutCR(line);
  }

  /** The line, and if it ends in a carriage return, all but that. */
  function WithoutCR(line: string): string {
    if line == "" || line[|line| - 1] != '\r' then line else line[..|line| - 1]
  }
}
