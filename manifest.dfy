/** The package-manifest rewrite of the export generator: `exports` and
    `keywords` are replaced, five build scripts are forced, and the other
    managed fields get a default only when they are falsy. The script runs
    as an ES module, hence in strict mode: adding a dependency to a
    `dependencies` value that is a truthy primitive throws a TypeError,
    which ends the script before the manifest is written back. */
module Manifest {
  import opened JsValues
  import ExportMap
  import ComponentNames

  const DefaultFiles: Value := Arr([Str("dist"), Str("README.md"), Str("LICENSE.md")])

  const BuildScripts: map<string, Value> := map[
    "build" := Str("tsc -p tsconfig.build.json && npm run copy-styles"),
    "copy-styles" := Str("node scripts/copy-files.js"),
    "dev" := Str("tsc -p tsconfig.build.json --watch"),
    "clean" := Str("rm -rf dist"),
    "prepublishOnly" := Str("npm run clean && npm run build")]

  const DefaultPeerDependencies: Value := Obj(map[
    "react" := Str("^18.0.0 || ^19.0.0"),
    "react-dom" := Str("^18.0.0 || ^19.0.0")])

  const DefaultPeerDependenciesMeta: Value := Obj(map["next" := Obj(map["optional" := Bool(true)])])

  const ClassnamesVersion: Value := Str("^2.5.1")

  const FramerMotionVersion: Value := Str("^11.11.17")

  const Keywords: Value := Arr([
    Str("react"), Str("ui"), Str("components"), Str("design-system"), Str("tree-shaking"),
    Str("optimized"), Str("vite"), Str("nextjs"), Str("framework-agnostic"), Str("once-ui"),
    Str("remix")])

  const DefaultBugs: Value := Obj(map["url" := Str("https://github.com/RemixRepo/fast-ui-core/issues")])

  const DefaultHomepage: Value := Str("https://github.com/RemixRepo/fast-ui-core#readme")

  datatype UpdateError = TypeError

  /** The parsed manifest: one component per field the script touches
      (`Undefined` when the field is absent) and the remaining fields. */
  datatype Fields = Fields(
    exports: Value,
    files: Value,
    scripts: Value,
    peerDependencies: Value,
    peerDependenciesMeta: Value,
    dependencies: Value,
    keywords: Value,
    bugs: Value,
    homepage: Value,
    others: map<string, Value>)

  /** The names of the fields the script reads or assigns. */
  const ManagedKeys: set<string> := {
    "exports", "files", "scripts", "peerDependencies", "peerDependenciesMeta",
    "dependencies", "keywords", "bugs", "homepage"}

  /** A `Fields` value stands for one JSON object: a managed field lives in
      its own component, never among the others. */
  predicate WellFormed(m: Fields)
  {
    m.others.Keys !! ManagedKeys
  }

  /** `v[name]` for the names read here: a field of an object, otherwise `undefined`. */
  function Property(v: Value, name: string): Value
  {
    if v.Obj? then Get(v.fields, name) else Undefined
  }

  /** `if (!v) v = fallback`. */
  function KeepOr(v: Value, fallback: Value): Value
  {
    if Truthy(v) then v else fallback
  }

  /** The dependencies after both required packages are ensured: an object
      gains each one that is falsy in it; a falsy value becomes an object
      holding both; an array or function takes the properties but keeps
      them out of the serialised JSON, so its value is unchanged. */
  function WithRequiredDependencies(deps: Value): Value
  {
    match deps
    case Obj(f) =>
      var f1 := if Truthy(Get(f, "classnames")) then f else f["classnames" := ClassnamesVersion];
      Obj(if Truthy(Get(f1, "framer-motion")) then f1 else f1["framer-motion" := FramerMotionVersion])
    case _ =>
      if Truthy(deps) then deps
      else Obj(map["classnames" := ClassnamesVersion, "framer-motion" := FramerMotionVersion])
  }

  /** True when adding a dependency throws: a truthy primitive. */
  predicate DependenciesThrow(deps: Value)
  {
    Truthy(deps) && IsPrimitive(deps)
  }

  /** The manifest as it stands when the dependencies step begins. */
  function BeforeDependencies(m: Fields, components: seq<string>): Fields
  {
    Fields(
      Obj(ExportMap.ExportsOf(components)),
      KeepOr(m.files, DefaultFiles),
      Obj(Spread(m.scripts) + BuildScripts),
      KeepOr(m.peerDependencies, DefaultPeerDependencies),
      KeepOr(m.peerDependenciesMeta, DefaultPeerDependenciesMeta),
      m.dependencies,
      m.keywords,
      m.bugs,
      m.homepage,
      m.others)
  }

  /** The manifest the script writes back, or the error that stops it. */
  function Updated(m: Fields, components: seq<string>): (r: Result<Fields, UpdateError>)
    requires WellFormed(m)
    ensures r.Success? <==> !DependenciesThrow(m.dependencies)
    ensures r.Success? ==> WellFormed(r.value) && r.value.others == m.others
  {
    if DependenciesThrow(m.dependencies) then Failure(TypeError)
    else
      var before := BeforeDependencies(m, components);
      Success(Fields(
        before.exports,
        before.files,
        before.scripts,
        before.peerDependencies,
        before.peerDependenciesMeta,
        WithRequiredDependencies(m.dependencies),
        Keywords,
        KeepOr(m.bugs, DefaultBugs),
        KeepOr(m.homepage, DefaultHomepage),
        m.others))
  }

  /** The parsed `package.json` object, updated field by field. */
  class PackageJson {
    var exports: Value
    var files: Value
    var scripts: Value
    var peerDependencies: Value
    var peerDependenciesMeta: Value
    var dependencies: Value
    var keywords: Value
    var bugs: Value
    var homepage: Value
    var others: map<string, Value>

    function Current(): Fields
      reads this
    {
      Fields(exports, files, scripts, peerDependencies, peerDependenciesMeta,
             dependencies, keywords, bugs, homepage, others)
    }

    constructor (parsed: Fields)
      ensures Current() == parsed
    {
      exports, files, scripts := parsed.exports, parsed.files, parsed.scripts;
      peerDependencies, peerDependenciesMeta := parsed.peerDependencies, parsed.peerDependenciesMeta;
      dependencies, keywords := parsed.dependencies, parsed.keywords;
      bugs, homepage, others := parsed.bugs, parsed.homepage, parsed.others;
    }

    /** The assignments before the dependencies step: `exports` replaced,
        `files` defaulted, the build scripts merged into `scripts`, and the
        peer dependencies defaulted. */
    method ApplyDefaults(components: seq<string>)
      modifies this
      ensures Current() == BeforeDependencies(old(Current()), components)
    {
      ghost var m := Current();
      var built := ExportMap.BuildExports(components);
      exports := Obj(built);
      files := KeepOr(files, DefaultFiles);
      scripts := KeepOr(scripts, Obj(map[]));
      SpreadOfReplacedFalsy(m.scripts);
      scripts := Obj(Spread(scripts) + BuildScripts);
      peerDependencies := KeepOr(peerDependencies, DefaultPeerDependencies);
      peerDependenciesMeta := KeepOr(peerDependenciesMeta, DefaultPeerDependenciesMeta);
    }

    /** The assignments of the script, in its order. On a TypeError the
        assignments made so far stay and nothing after them happens. */
    method Update(components: seq<string>) returns (ok: bool)
      requires WellFormed(Current())
      modifies this
      ensures ok == Updated(old(Current()), components).Success?
      ensures ok ==> Current() == Updated(old(Current()), components).value
      ensures !ok ==> Current() == BeforeDependencies(old(Current()), components)
    {
      ApplyDefaults(components);
      var added, deps := RequireDependencies(dependencies);
      if !added {
        ok := false;
        return;
      }
      dependencies := deps;
      keywords := Keywords;
      bugs := KeepOr(bugs, DefaultBugs);
      homepage := KeepOr(homepage, DefaultHomepage);
      ok := true;
    }
  }

  /** The dependency statements: `dependencies` defaults to `{}`, then
      `classnames` and `framer-motion` are each set when falsy. Setting a
      property on a truthy primitive throws; on an array or a function it
      succeeds but is invisible in the written JSON. */
  method RequireDependencies(dependencies: Value) returns (added: bool, deps: Value)
    ensures added <==> !DependenciesThrow(dependencies)
    ensures added ==> deps == WithRequiredDependencies(dependencies)
  {
    deps := dependencies;
    if !Truthy(deps) {
      deps := Obj(map[]);
      EmptyDependenciesFilled();
    }
    if !Truthy(Property(deps, "classnames")) {
      if IsPrimitive(deps) {
        added := false;
        return;
      }
      if deps.Obj? {
        deps := Obj(deps.fields["classnames" := ClassnamesVersion]);
      }
    }
    if !Truthy(Property(deps, "framer-motion")) && deps.Obj? {
      deps := Obj(deps.fields["framer-motion" := FramerMotionVersion]);
    }
    added := true;
  }

  /** `{...(v || {})}` copies what `{...v}` copies. */
  lemma SpreadOfReplacedFalsy(v: Value)
    ensures Spread(KeepOr(v, Obj(map[]))) == Spread(v)
  {
  }

  /** Filling a fresh `{}` gives the object a falsy value becomes. */
  lemma EmptyDependenciesFilled()
    ensures WithRequiredDependencies(Obj(map[])) == WithRequiredDependencies(Undefined)
  {
    assert map[]["classnames" := ClassnamesVersion]["framer-motion" := FramerMotionVersion]
        == map["classnames" := ClassnamesVersion, "framer-motion" := FramerMotionVersion];
  }

  /** The whole script: derive the component names from the directory
      listing, update the parsed manifest, and return what is written back
      (nothing when the update throws). */
  method Run(listing: seq<string>, packageFile: Fields) returns (written: Option<Fields>)
    requires WellFormed(packageFile)
    ensures written.Some? <==> !DependenciesThrow(packageFile.dependencies)
    ensures written.Some? ==> written.value == Updated(packageFile, ComponentNames.Components(listing)).value
  {
    var components := ComponentNames.Components(listing);
    var packageJson := new PackageJson(packageFile);
    var ok := packageJson.Update(components);
    written := if ok then Some(packageJson.Current()) else None;
  }

  // ---------------------------------------------------------------------
  // Properties of the update.

  /** `files`, `peerDependencies`, `peerDependenciesMeta`, `bugs` and
      `homepage` are set only when falsy; a truthy value is left as it is;
      `exports` and `keywords` are replaced; other fields are untouched. */
  lemma SetOnlyWhenMissing(m: Fields, components: seq<string>)
    requires WellFormed(m)
    requires Updated(m, components).Success?
    ensures var r := Updated(m, components).value;
      && (Truthy(m.files) ==> r.files == m.files)
      && (!Truthy(m.files) ==> r.files == DefaultFiles)
      && (Truthy(m.peerDependencies) ==> r.peerDependencies == m.peerDependencies)
      && (!Truthy(m.peerDependencies) ==> r.peerDependencies == DefaultPeerDependencies)
      && (Truthy(m.peerDependenciesMeta) ==> r.peerDependenciesMeta == m.peerDependenciesMeta)
      && (!Truthy(m.peerDependenciesMeta) ==> r.peerDependenciesMeta == DefaultPeerDependenciesMeta)
      && (Truthy(m.bugs) ==> r.bugs == m.bugs)
      && (!Truthy(m.bugs) ==> r.bugs == DefaultBugs)
      && (Truthy(m.homepage) ==> r.homepage == m.homepage)
      && (!Truthy(m.homepage) ==> r.homepage == DefaultHomepage)
      && r.exports == Obj(ExportMap.ExportsOf(components))
      && r.keywords == Keywords
      && r.others == m.others
  {
  }

  /** `scripts` keeps its entries except the five build scripts, which are
      always overwritten. */
  lemma ScriptsMerged(m: Fields, components: seq<string>)
    requires WellFormed(m)
    requires Updated(m, components).Success?
    ensures var r := Updated(m, components).value;
      && r.scripts.Obj?
      && (forall k :: k in BuildScripts ==> k in r.scripts.fields && r.scripts.fields[k] == BuildScripts[k])
      && (forall k :: k !in BuildScripts ==>
            (k in r.scripts.fields <==> k in Spread(m.scripts))
            && (k in r.scripts.fields ==> r.scripts.fields[k] == Spread(m.scripts)[k]))
  {
  }

  /** `classnames` and `framer-motion` are added to a dependencies object
      only when falsy there; the other dependencies are unchanged. */
  lemma DependenciesAdded(m: Fields, components: seq<string>)
    requires WellFormed(m) && m.dependencies.Obj?
    ensures Updated(m, components).Success?
    ensures var before, after := m.dependencies.fields, Updated(m, components).value.dependencies;
      && after.Obj?
      && after.fields["classnames"] == (if Truthy(Get(before, "classnames")) then before["classnames"] else ClassnamesVersion)
      && after.fields["framer-motion"] == (if Truthy(Get(before, "framer-motion")) then before["framer-motion"] else FramerMotionVersion)
      && after.fields.Keys == before.Keys + {"classnames", "framer-motion"}
      && (forall k :: k in before && k != "classnames" && k != "framer-motion" ==> after.fields[k] == before[k])
  {
  }

  /** Running the update on its own output changes nothing. */
  lemma {:induction false} Idempotent(m: Fields, components: seq<string>)
    requires WellFormed(m)
    requires Updated(m, components).Success?
    ensures Updated(Updated(m, components).value, components) == Updated(m, components)
  {
    var r := Updated(m, components).value;
    var deps := WithRequiredDependencies(m.dependencies);
    assert r.dependencies == deps;
    assert WithRequiredDependencies(deps) == deps;
    var scripts := Spread(m.scripts) + BuildScripts;
    assert r.scripts == Obj(scripts);
    assert scripts + BuildScripts == scripts;
  }
}
