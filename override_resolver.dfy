/**
 * The override resolver, a build-time plugin that runs before the bundler's
 * own resolution. For every import edge (source specifier, importing file) it
 * either serves the import from the extension tree (`<plugin>/src`), serves it
 * from the core tree (`<plugin>/../../spiffworkflow-frontend/src`), asks the
 * bundler to resolve a bare package again as if imported from inside the
 * extension tree, or defers to the bundler's normal resolution and alias table.
 *
 * The file system is a set of existing paths (files and directories) in their
 * string form; `__dirname` and the working directory are parameters.
 */
module OverrideResolver {
  import opened Text
  import opened Paths
  import opened JsValues

  /** Substring that marks an importer inside the core tree. */
  const CoreMarker: string := "/spiffworkflow-frontend/src/"
  /** Substring that marks an importer inside the extension tree. */
  const ExtensionMarker: string := "/extensions/m8flow-frontend/src/"
  /** Alias under which the core tree is imported. */
  const AliasPrefix: string := "@spiffworkflow-frontend"

  /** Suffixes tried, in this order, for code imports. */
  const JsExtensions: seq<string> := [".tsx", ".ts", ".jsx", ".js", "/index.tsx", "/index.ts"]
  /** Endings of static assets, which are only ever checked as they are. */
  const NonJsExtensions: seq<string> :=
    [".css", ".scss", ".sass", ".less", ".json", ".svg", ".png", ".jpg", ".jpeg", ".gif", ".webp"]

  type FileSystem = set<string>

  /** Where the plugin file lives (`__dirname`) and the process's working directory. */
  datatype Config = Config(pluginDir: Segments, cwd: Segments)

  predicate ValidConfig(c: Config)
  {
    IsNormal(c.pluginDir) && IsNormal(c.cwd)
  }

  /** `path.resolve(__dirname, './src')`. */
  function ExtensionsDir(c: Config): Segments
  {
    c.pluginDir + ["src"]
  }

  /** `path.resolve(__dirname, '../../spiffworkflow-frontend/src')`. */
  function CoreDir(c: Config): Segments
  {
    Normalize(c.pluginDir, ["..", "..", "spiffworkflow-frontend", "src"])
  }

  /** `path.resolve(__dirname, './node_modules')`. */
  function LocalNodeModules(c: Config): Segments
  {
    c.pluginDir + ["node_modules"]
  }

  /** The decision for one import edge. */
  datatype Resolution =
    | Found(path: string)                         // serve this file
    | Redirect(source: string, importer: string)  // resolve `source` again from `importer`, skipping this plugin
    | Defer                                       // `null`: the bundler resolves as usual

  // ---------------------------------------------------------------------------
  // Probing a tree

  predicate IsNonJsFile(relativePath: string)
  {
    exists i :: 0 <= i < |NonJsExtensions| && EndsWith(relativePath, NonJsExtensions[i])
  }

  /** The path tested for one suffix: the path itself when it already ends with the suffix. */
  function Candidate(base: string, ext: string): string
  {
    if EndsWith(base, ext) then base else base + ext
  }

  /** Every path a probe tests, in order. */
  function ProbeTargets(root: Segments, relativePath: string): (targets: seq<string>)
    ensures |targets| >= 1
  {
    var base := Render(ResolvePath(root, relativePath));
    if IsNonJsFile(relativePath) then [base]
    else seq(|JsExtensions|, k requires 0 <= k < |JsExtensions| => Candidate(base, JsExtensions[k]))
  }

  /** The first of `paths` that exists. */
  function FirstExisting(paths: seq<string>, fs: FileSystem): (r: Option<string>)
    ensures r.None? <==> forall i :: 0 <= i < |paths| ==> paths[i] !in fs
    ensures r.Some? ==> exists i :: 0 <= i < |paths| && paths[i] == r.value && paths[i] in fs
                                    && forall j :: 0 <= j < i ==> paths[j] !in fs
  {
    if |paths| == 0 then None
    else if paths[0] in fs then Some(paths[0])
    else
      var r := FirstExisting(paths[1..], fs);
      assert forall i :: 1 <= i < |paths| ==> paths[i] == paths[1..][i - 1];
      r
  }

  /** What `findOverride` (root = extension tree) and `findInCore` (root = core tree) return. */
  function Probe(root: Segments, relativePath: string, fs: FileSystem): (r: Option<string>)
    ensures r.Some? ==> r.value in fs
  {
    FirstExisting(ProbeTargets(root, relativePath), fs)
  }

  /** `findOverride` and `findInCore`: one existence check for an asset, else suffixes in order. */
  method FindIn(root: Segments, relativePath: string, fs: FileSystem) returns (r: Option<string>)
    ensures r == Probe(root, relativePath, fs)
  {
    var target := Render(ResolvePath(root, relativePath));
    ghost var targets := ProbeTargets(root, relativePath);
    var nonJs := IsNonJsFile(relativePath);
    if nonJs {
      return if target in fs then Some(target) else None;
    }
    for k := 0 to |JsExtensions|
      invariant forall j :: 0 <= j < k ==> targets[j] !in fs
    {
      var ext := JsExtensions[k];
      var testPath := if EndsWith(target, ext) then target else target + ext;
      if testPath in fs {
        FirstExistingAt(targets, fs, k);
        return Some(testPath);
      }
    }
    return None;
  }

  lemma FirstExistingAt(paths: seq<string>, fs: FileSystem, k: nat)
    requires k < |paths| && paths[k] in fs
    requires forall j :: 0 <= j < k ==> paths[j] !in fs
    ensures FirstExisting(paths, fs) == Some(paths[k])
  {
    var r := FirstExisting(paths, fs);
    var i :| 0 <= i < |paths| && paths[i] == r.value && paths[i] in fs
             && forall j :: 0 <= j < i ==> paths[j] !in fs;
    assert i == k;
  }

  // ---------------------------------------------------------------------------
  // Classifying the importer and the source

  predicate InCore(importer: string)
  {
    Contains(importer, CoreMarker)
  }

  predicate InExtensions(importer: string)
  {
    Contains(importer, ExtensionMarker)
  }

  /** Neither relative, nor absolute, nor the core alias. */
  predicate IsBare(source: string)
  {
    !StartsWith(source, ".") && !StartsWith(source, "/") && !StartsWith(source, AliasPrefix)
  }

  /** `@scope/package` for a scoped specifier, else the first `/`-piece. */
  function PackageName(source: string): string
  {
    var parts := Split(source, '/');
    if StartsWith(source, "@") then Join(parts[..if |parts| < 2 then |parts| else 2], "/") else parts[0]
  }

  /** The pieces of `path.dirname(importer)`: trailing slashes dropped, then the last piece. */
  function DirPieces(parts: seq<string>): (r: seq<string>)
    ensures |r| <= |parts| && r == parts[..|r|]
  {
    if |parts| == 0 then []
    else if parts[|parts| - 1] == "" && |parts| > 1 then DirPieces(parts[..|parts| - 1])
    else parts[..|parts| - 1]
  }

  /** `path.resolve(path.dirname(importer))`; a relative importer is taken from the working directory. */
  function ImporterDir(c: Config, importer: string): Segments
  {
    var parts := Split(importer, '/');
    var dir := DirPieces(parts);
    assert forall i :: 0 <= i < |dir| ==> dir[i] == parts[i];
    Normalize(if StartsWith(importer, "/") then [] else c.cwd, dir)
  }

  /** `path.resolve(path.dirname(importer), source)` for a source that starts with `.`. */
  function ResolveSource(c: Config, importer: string, source: string): Segments
  {
    Normalize(ImporterDir(c, importer), Split(source, '/'))
  }

  /** The spot the alias branch probes: the prefix removed, then one leading `/`. */
  function AliasPath(source: string): string
    requires StartsWith(source, AliasPrefix)
  {
    var modulePath := source[|AliasPrefix|..];
    if StartsWith(modulePath, "/") then modulePath[1..] else modulePath
  }

  // ---------------------------------------------------------------------------
  // The rules, in the order the plugin tries them. `None` means the rule does not claim the request.

  /** Bare import from a core file whose package the extension installs: resolve it from the extension tree. */
  function BareRule(c: Config, fs: FileSystem, source: string, importer: string): Option<Resolution>
  {
    if InCore(importer) && IsBare(source)
       && Render(ResolvePath(LocalNodeModules(c), PackageName(source))) in fs
    then Some(Redirect(source, Render(ExtensionsDir(c) + ["index.tsx"])))
    else None
  }

  /** Relative import from a core file: an extension file of the same relative path wins, else defer. */
  function CoreRelativeRule(c: Config, fs: FileSystem, source: string, importer: string): Option<Resolution>
  {
    if InCore(importer) && StartsWith(source, ".") then
      var relativePath := Relative(CoreDir(c), ResolveSource(c, importer, source));
      if StartsWith(relativePath, "..") then Some(Defer)
      else
        match Probe(ExtensionsDir(c), relativePath, fs)
        case Some(p) => Some(Found(p))
        case None => Some(Defer)
    else None
  }

  /** The raw string test the plugin uses for "inside the extension tree". */
  predicate PassesExtensionPrefixTest(c: Config, resolved: Segments)
  {
    StartsWith(Render(resolved), Render(ExtensionsDir(c)))
  }

  /** Relative import from an extension file: the extension tree, then the core tree, else no claim. */
  function ExtensionRelativeRule(c: Config, fs: FileSystem, source: string, importer: string): Option<Resolution>
  {
    if InExtensions(importer) && StartsWith(source, ".") then
      var resolved := ResolveSource(c, importer, source);
      if PassesExtensionPrefixTest(c, resolved) then
        var relativePath := Relative(ExtensionsDir(c), resolved);
        match Probe(ExtensionsDir(c), relativePath, fs)
        case Some(p) => Some(Found(p))
        case None =>
          match Probe(CoreDir(c), relativePath, fs)
          case Some(p) => Some(Found(p))
          case None => None
      else None
    else None
  }

  /** `@spiffworkflow-frontend…` from any importer: an extension file wins, else the alias table does. */
  function AliasRule(c: Config, fs: FileSystem, source: string): Option<Resolution>
  {
    if StartsWith(source, AliasPrefix) then
      match Probe(ExtensionsDir(c), AliasPath(source), fs)
      case Some(p) => Some(Found(p))
      case None => Some(Defer)
    else None
  }

  /** The plugin's `resolveId`: the first rule that claims the request decides; otherwise defer. */
  function Decide(c: Config, fs: FileSystem, source: string, importer: Option<string>): (r: Resolution)
    ensures importer == None || importer == Some("") ==> r == Defer
    ensures r.Found? ==> r.path in fs
    ensures r.Redirect? ==> importer.Some? && InCore(importer.value) && IsBare(source)
                            && r.source == source && r.importer == Render(ExtensionsDir(c) + ["index.tsx"])
  {
    if importer == None || importer == Some("") then Defer
    else
      var i := importer.value;
      match BareRule(c, fs, source, i)
      case Some(r) => r
      case None =>
        match CoreRelativeRule(c, fs, source, i)
        case Some(r) => r
        case None =>
          match ExtensionRelativeRule(c, fs, source, i)
          case Some(r) => r
          case None =>
            match AliasRule(c, fs, source)
            case Some(r) => r
            case None => Defer
  }

  /** The plugin hook itself, probing with `FindIn`. */
  method ResolveId(c: Config, fs: FileSystem, source: string, importer: Option<string>) returns (r: Resolution)
    ensures r == Decide(c, fs, source, importer)
  {
    if importer == None || importer == Some("") {
      return Defer;
    }
    var i := importer.value;
    var importerInCore := InCore(i);
    var importerInExtensions := InExtensions(i);

    if importerInCore && IsBare(source) {
      var moduleName := PackageName(source);
      var localModulePath := Render(ResolvePath(LocalNodeModules(c), moduleName));
      if localModulePath in fs {
        return Redirect(source, Render(ExtensionsDir(c) + ["index.tsx"]));
      }
    }
    assert BareRule(c, fs, source, i) == None;

    if importerInCore && StartsWith(source, ".") {
      var relativePath := Relative(CoreDir(c), ResolveSource(c, i, source));
      if StartsWith(relativePath, "..") {
        return Defer;
      }
      var overridePath := FindIn(ExtensionsDir(c), relativePath, fs);
      if overridePath.Some? {
        return Found(overridePath.value);
      }
      return Defer;
    }
    assert CoreRelativeRule(c, fs, source, i) == None;

    if importerInExtensions && StartsWith(source, ".") {
      var resolvedPath := ResolveSource(c, i, source);
      if StartsWith(Render(resolvedPath), Render(ExtensionsDir(c))) {
        var relativePath := Relative(ExtensionsDir(c), resolvedPath);
        var overridePath := FindIn(ExtensionsDir(c), relativePath, fs);
        if overridePath.Some? {
          return Found(overridePath.value);
        }
        var corePath := FindIn(CoreDir(c), relativePath, fs);
        if corePath.Some? {
          return Found(corePath.value);
        }
      }
    }
    assert ExtensionRelativeRule(c, fs, source, i) == None;

    if StartsWith(source, AliasPrefix) {
      var overridePath := FindIn(ExtensionsDir(c), AliasPath(source), fs);
      if overridePath.Some? {
        return Found(overridePath.value);
      }
      return Defer;
    }

    return Defer;
  }
}
