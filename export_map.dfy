/** The `exports` map the generator writes into the package manifest:
    four fixed entry points, then one `./<component>` entry per component,
    inserted in order, so that a later key overwrites an earlier one. */
module ExportMap {
  import opened JsValues

  const RootEntry: Value := Obj(map[
    "types" := Str("./dist/index.d.ts"),
    "import" := Str("./dist/index.js"),
    "require" := Str("./dist/index.js")])

  const StylesEntry: Value := Obj(map["import" := Str("./dist/styles/index.css")])

  const StyleFilesEntry: Value := Obj(map["import" := Str("./dist/styles/*.css")])

  const ShimsEntry: Value := Obj(map[
    "types" := Str("./dist/shims/index.d.ts"),
    "import" := Str("./dist/shims/index.js")])

  const FixedExports: map<string, Value> := map[
    "." := RootEntry,
    "./styles" := StylesEntry,
    "./styles/*" := StyleFilesEntry,
    "./shims" := ShimsEntry]

  const FixedKeys: set<string> := {".", "./styles", "./styles/*", "./shims"}

  /** The component names whose key is one of the fixed keys. A directory
      listing never yields the third one, since file names hold no slash. */
  const CollidingNames: set<string> := {"styles", "styles/*", "shims"}

  function ComponentKey(component: string): string
  {
    "./" + component
  }

  function ComponentEntry(component: string): Value
  {
    Obj(map[
      "types" := Str("./dist/components/" + component + ".d.ts"),
      "import" := Str("./dist/components/" + component + ".js")])
  }

  /** The object after inserting the components one by one. */
  function ExportsOf(components: seq<string>): map<string, Value>
  {
    if components == [] then FixedExports
    else
      var last := components[|components| - 1];
      ExportsOf(components[..|components| - 1])[ComponentKey(last) := ComponentEntry(last)]
  }

  /** The `forEach` loop that adds the component entries. */
  method BuildExports(components: seq<string>) returns (exports: map<string, Value>)
    ensures exports == ExportsOf(components)
  {
    exports := FixedExports;
    var i := 0;
    while i < |components|
      invariant 0 <= i <= |components|
      invariant exports == ExportsOf(components[..i])
    {
      var component := components[i];
      exports := exports[ComponentKey(component) := ComponentEntry(component)];
      assert components[..i + 1][..i] == components[..i];
      i := i + 1;
    }
    assert components[..i] == components;
  }

  function ComponentKeys(components: seq<string>): set<string>
  {
    set c | c in components :: ComponentKey(c)
  }

  lemma ComponentKeyInjective(a: string, b: string)
    requires ComponentKey(a) == ComponentKey(b)
    ensures a == b
  {
    assert a == ComponentKey(a)[2..];
    assert b == ComponentKey(b)[2..];
  }

  /** `./c` is a fixed key exactly for the colliding names. */
  lemma ComponentKeyCollides(c: string)
    ensures ComponentKey(c) in FixedKeys <==> c in CollidingNames
  {
    var k := ComponentKey(c);
    if k == "./styles" { ComponentKeyInjective(c, "styles"); }
    if k == "./styles/*" { ComponentKeyInjective(c, "styles/*"); }
    if k == "./shims" { ComponentKeyInjective(c, "shims"); }
    assert k != "." by { assert |k| >= 2; }
  }

  /** Every component gets its `./c` entry pointing into dist/components;
      a fixed entry survives unless a component key overwrites it; and no
      other key appears. */
  lemma {:induction false} ExportsShape(components: seq<string>)
    ensures ExportsOf(components).Keys == FixedKeys + ComponentKeys(components)
    ensures forall c :: c in components ==> ExportsOf(components)[ComponentKey(c)] == ComponentEntry(c)
    ensures forall k :: k in FixedKeys - ComponentKeys(components) ==> ExportsOf(components)[k] == FixedExports[k]
  {
    if components != [] {
      var prefix, last := components[..|components| - 1], components[|components| - 1];
      ExportsShape(prefix);
      assert components == prefix + [last];
      assert ComponentKeys(components) == ComponentKeys(prefix) + {ComponentKey(last)};
      forall c | c in components ensures ExportsOf(components)[ComponentKey(c)] == ComponentEntry(c) {
        if c != last && ComponentKey(c) == ComponentKey(last) {
          ComponentKeyInjective(c, last);
        }
      }
    }
  }

  lemma {:induction false} KeyCount(names: set<string>)
    ensures |(set c | c in names :: ComponentKey(c))| == |names|
  {
    if names != {} {
      var x :| x in names;
      var rest := names - {x};
      KeyCount(rest);
      var keys := set c | c in names :: ComponentKey(c);
      var restKeys := set c | c in rest :: ComponentKey(c);
      assert keys == restKeys + {ComponentKey(x)};
      assert ComponentKey(x) !in restKeys by {
        if ComponentKey(x) in restKeys {
          var c :| c in rest && ComponentKey(c) == ComponentKey(x);
          ComponentKeyInjective(c, x);
        }
      }
    }
  }

  function NovelNames(components: seq<string>): set<string>
  {
    set c | c in components && c !in CollidingNames
  }

  lemma KeysSplit(components: seq<string>)
    ensures ExportsOf(components).Keys == FixedKeys + (set c | c in NovelNames(components) :: ComponentKey(c))
    ensures FixedKeys !! (set c | c in NovelNames(components) :: ComponentKey(c))
  {
    ExportsShape(components);
    var novelKeys := set c | c in NovelNames(components) :: ComponentKey(c);
    forall k | k in ComponentKeys(components) ensures k in FixedKeys + novelKeys {
      var c :| c in components && ComponentKey(c) == k;
      ComponentKeyCollides(c);
      if c !in CollidingNames { assert c in NovelNames(components); }
    }
    forall k | k in novelKeys ensures k in ComponentKeys(components) && k !in FixedKeys {
      var c :| c in NovelNames(components) && ComponentKey(c) == k;
      ComponentKeyCollides(c);
    }
  }

  /** The number of exports is four plus the number of distinct component
      names that do not collide with a fixed key. */
  lemma ExportCount(components: seq<string>)
    ensures |ExportsOf(components)| == 4 + |NovelNames(components)|
  {
    KeysSplit(components);
    KeyCount(NovelNames(components));
    assert |FixedKeys| == 4;
  }
}
