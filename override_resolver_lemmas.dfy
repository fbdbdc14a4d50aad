/**
 * What the override resolver promises, proved about `Decide` and `Probe`:
 * how a tree is probed, and what each kind of import edge resolves to.
 */
module OverrideResolverLemmas {
  import opened Text
  import opened Paths
  import opened JsValues
  import opened OverrideResolver

  // ---------------------------------------------------------------------------
  // String and path helpers

  lemma StartsWithTransitive(a: string, b: string, c: string)
    requires StartsWith(a, b) && StartsWith(b, c)
    ensures StartsWith(a, c)
  {
    assert a[..|c|] == a[..|b|][..|c|];
  }

  lemma StartsWithConcat(x: string, y: string)
    ensures StartsWith(x + y, x)
  {
    assert (x + y)[..|x|] == x;
  }

  /** The string form of a path starts with the string form of each of its prefixes. */
  lemma RenderPrefix(p: Segments, q: Segments)
    ensures StartsWith(Render(p + q), Render(p))
  {
    if q == [] {
      assert p + q == p;
    } else if p == [] {
      assert p + q == q;
    } else {
      JoinAppend(p, q, "/");
      StartsWithConcat(Render(p), "/" + Join(q, "/"));
      assert Render(p + q) == Render(p) + ("/" + Join(q, "/"));
    }
  }

  /** Every candidate starts with the base path, ends with its suffix, and is never suffixed twice. */
  lemma CandidateShape(base: string, ext: string)
    requires |ext| > 0
    ensures StartsWith(Candidate(base, ext), base)
    ensures EndsWith(Candidate(base, ext), ext)
    ensures Candidate(base, ext) == base <==> EndsWith(base, ext)
    ensures EndsWith(Candidate(base, ext), ext + ext) ==> EndsWith(base, ext + ext)
  {
    var t := Candidate(base, ext);
    if !EndsWith(base, ext) {
      assert t == base + ext;
      StartsWithConcat(base, ext);
      assert t[|t| - |ext|..] == ext;
      assert EndsWith(t, ext + ext) ==> EndsWith(base, ext) by {
        if |ext + ext| <= |t| {
          assert t[|t| - |ext + ext|..][..|ext|] == base[|base| - |ext|..];
        }
      }
    }
  }

  // ---------------------------------------------------------------------------
  // Probing a tree

  /** A static asset is found exactly when the path itself exists; no suffixed file (`logo.svg.ts`) stands in for it. */
  lemma AssetProbedAsWritten(root: Segments, relativePath: string, fs: FileSystem)
    requires IsNonJsFile(relativePath)
    ensures var target := Render(ResolvePath(root, relativePath));
      ProbeTargets(root, relativePath) == [target]
      && (Probe(root, relativePath, fs).Some? <==> target in fs)
      && Probe(root, relativePath, fs) == Probe(root, relativePath, fs * {target})
  {
  }

  /** Code candidates start at the resolved path and each carries its own suffix exactly once. */
  lemma CodeCandidates(root: Segments, relativePath: string, k: nat)
    requires !IsNonJsFile(relativePath) && k < |JsExtensions|
    ensures var base := Render(ResolvePath(root, relativePath));
      var t := ProbeTargets(root, relativePath)[k];
      var ext := JsExtensions[k];
      StartsWith(t, base) && EndsWith(t, ext)
      && (t == base <==> EndsWith(base, ext))
      && (EndsWith(t, ext + ext) ==> EndsWith(base, ext + ext))
  {
    CandidateShape(Render(ResolvePath(root, relativePath)), JsExtensions[k]);
  }

  /** A path that carries none of the code suffixes is never tested bare, so a directory of that name is not a hit. */
  lemma SuffixlessPathNotTestedBare(root: Segments, relativePath: string)
    requires !IsNonJsFile(relativePath)
    requires forall k :: 0 <= k < |JsExtensions| ==> !EndsWith(Render(ResolvePath(root, relativePath)), JsExtensions[k])
    ensures Render(ResolvePath(root, relativePath)) !in ProbeTargets(root, relativePath)
  {
    var base := Render(ResolvePath(root, relativePath));
    var targets := ProbeTargets(root, relativePath);
    forall k | 0 <= k < |targets| ensures targets[k] != base {
      CandidateShape(base, JsExtensions[k]);
    }
  }

  /** An existing candidate is answered by itself or an earlier one: a later suffix never beats an earlier hit. */
  lemma EarlierCandidateWins(root: Segments, relativePath: string, fs: FileSystem, i: nat)
    requires i < |ProbeTargets(root, relativePath)| && ProbeTargets(root, relativePath)[i] in fs
    ensures Probe(root, relativePath, fs).Some?
    ensures exists m :: 0 <= m <= i && Probe(root, relativePath, fs) == Some(ProbeTargets(root, relativePath)[m])
  {
    var targets := ProbeTargets(root, relativePath);
    var r := Probe(root, relativePath, fs);
    var m :| 0 <= m < |targets| && targets[m] == r.value && targets[m] in fs
             && forall j :: 0 <= j < m ==> targets[j] !in fs;
    assert m <= i;
  }

  /** `Foo.tsx` beats `Foo/index.ts` and every other candidate. */
  lemma TsxWinsOverIndex(root: Segments, relativePath: string, fs: FileSystem)
    requires !IsNonJsFile(relativePath)
    requires var base := Render(ResolvePath(root, relativePath));
      !EndsWith(base, ".tsx") && base + ".tsx" in fs
    ensures Probe(root, relativePath, fs) == Some(Render(ResolvePath(root, relativePath)) + ".tsx")
  {
    var targets := ProbeTargets(root, relativePath);
    FirstExistingAt(targets, fs, 0);
  }

  /** The k-th code candidate is the base with the k-th suffix. */
  lemma CodeCandidateAt(root: Segments, relativePath: string, k: nat)
    requires !IsNonJsFile(relativePath) && k < |JsExtensions|
    ensures ProbeTargets(root, relativePath)[k] == Candidate(Render(ResolvePath(root, relativePath)), JsExtensions[k])
  {
  }

  lemma TsCandidates(base: string)
    requires EndsWith(base, ".ts")
    ensures Candidate(base, ".tsx") == base + ".tsx" && Candidate(base, ".ts") == base
  {
    assert base[|base| - 1] == 's';
    assert !EndsWith(base, ".tsx") by {
      assert |base| >= 4 ==> base[|base| - 4..][3] == base[|base| - 1];
    }
  }

  /** As written, a path that already ends in `.ts` is tried with `.tsx` appended before it is tried as it is. */
  lemma TsPathTriesTsxFirst(root: Segments, relativePath: string, fs: FileSystem)
    requires !IsNonJsFile(relativePath)
    requires EndsWith(Render(ResolvePath(root, relativePath)), ".ts")
    ensures var base := Render(ResolvePath(root, relativePath));
      var targets := ProbeTargets(root, relativePath);
      targets[0] == base + ".tsx" && targets[1] == base
      && (base + ".tsx" in fs ==> Probe(root, relativePath, fs) == Some(base + ".tsx"))
  {
    var base := Render(ResolvePath(root, relativePath));
    var targets := ProbeTargets(root, relativePath);
    TsCandidates(base);
    assert JsExtensions[0] == ".tsx" && JsExtensions[1] == ".ts";
    CodeCandidateAt(root, relativePath, 0);
    CodeCandidateAt(root, relativePath, 1);
    assert targets[0] == base + ".tsx" && targets[1] == base;
    if base + ".tsx" in fs {
      FirstExistingAt(targets, fs, 0);
    }
  }

  /** Every hit starts with the resolved base path, so it lies under whatever that base lies under. */
  lemma ProbeStaysUnder(root: Segments, relativePath: string, fs: FileSystem, prefix: string)
    requires StartsWith(Render(ResolvePath(root, relativePath)), prefix)
    ensures Probe(root, relativePath, fs).Some? ==> StartsWith(Probe(root, relativePath, fs).value, prefix)
  {
    var r := Probe(root, relativePath, fs);
    if r.Some? {
      var targets := ProbeTargets(root, relativePath);
      assert r.value in targets;
      TargetsUnderBase(root, relativePath);
      StartsWithTransitive(r.value, Render(ResolvePath(root, relativePath)), prefix);
    }
  }

  /** Every spot a probe tests starts with the resolved base path. */
  lemma TargetsUnderBase(root: Segments, relativePath: string)
    ensures forall t :: t in ProbeTargets(root, relativePath) ==> StartsWith(t, Render(ResolvePath(root, relativePath)))
  {
    var base := Render(ResolvePath(root, relativePath));
    var targets := ProbeTargets(root, relativePath);
    if !IsNonJsFile(relativePath) {
      forall m | 0 <= m < |targets| ensures StartsWith(targets[m], base) {
        CandidateShape(base, JsExtensions[m]);
      }
    }
  }

  // ---------------------------------------------------------------------------
  // Relative imports from the core tree

  /** The normalised core tree: two levels above the plugin, then `spiffworkflow-frontend/src`. */
  lemma CoreDirShape(c: Config)
    requires ValidConfig(c)
    ensures CoreDir(c) == Normalize(c.pluginDir, ["..", ".."]) + ["spiffworkflow-frontend", "src"]
    ensures IsNormal(CoreDir(c)) && |CoreDir(c)| >= 1 && CoreDir(c)[|CoreDir(c)| - 1] == "src"
  {
    var ups := Normalize(c.pluginDir, ["..", ".."]);
    NormalizeAppend(c.pluginDir, ["..", ".."], ["spiffworkflow-frontend", "src"]);
    assert ["..", "..", "spiffworkflow-frontend", "src"] == ["..", ".."] + ["spiffworkflow-frontend", "src"];
    NormalizeSegments(ups, ["spiffworkflow-frontend", "src"]);
  }

  /** Every resolved source is normalised. */
  lemma ResolveSourceNormal(c: Config, importer: string, source: string)
    requires ValidConfig(c)
    ensures IsNormal(ResolveSource(c, importer, source))
  {
  }

  /** A relative path whose first segment does not start with `..` does not start with `..`. */
  lemma NoLeadingDotDot(rest: Segments)
    requires IsNormal(rest)
    requires rest == [] || !StartsWith(rest[0], "..")
    ensures !StartsWith(Join(rest, "/"), "..")
  {
    if rest != [] {
      var s := Join(rest, "/");
      if |rest[0]| >= 2 {
        JoinStartsWithFirst(rest, "/");
        assert s[..2] == rest[0][..2];
      } else if |rest| > 1 {
        assert s == rest[0] + "/" + Join(rest[1..], "/");
        assert s[1] == '/';
      }
    }
  }

  /** For a core importer a `.` source is decided by the core-relative rule alone. */
  lemma CoreRelativeDecides(c: Config, fs: FileSystem, source: string, importer: string)
    requires importer != "" && InCore(importer) && StartsWith(source, ".")
    ensures Decide(c, fs, source, Some(importer)) == CoreRelativeRule(c, fs, source, importer).value
  {
  }

  /** A relative import from core that lands outside the core tree is always left to the bundler. */
  lemma CoreImportOutsideCoreDefers(c: Config, fs: FileSystem, source: string, importer: string)
    requires importer != "" && InCore(importer) && StartsWith(source, ".")
    requires !IsPrefix(CoreDir(c), ResolveSource(c, importer, source))
    ensures Decide(c, fs, source, Some(importer)) == Defer
  {
    RelativeOutside(CoreDir(c), ResolveSource(c, importer, source));
    CoreRelativeDecides(c, fs, source, importer);
  }

  /**
   * A relative import from core that lands at `<core>/rest` is served by the
   * extension file at `<extensions>/rest` (probed with the usual suffixes) when
   * one exists, and is left to the bundler otherwise.
   */
  lemma CoreImportInsideCore(c: Config, fs: FileSystem, source: string, importer: string)
    requires ValidConfig(c) && importer != "" && InCore(importer) && StartsWith(source, ".")
    requires IsPrefix(CoreDir(c), ResolveSource(c, importer, source))
    requires var rest := ResolveSource(c, importer, source)[|CoreDir(c)|..];
      rest == [] || !StartsWith(rest[0], "..")
    ensures var resolved := ResolveSource(c, importer, source);
      var relativePath := Relative(CoreDir(c), resolved);
      ResolvePath(ExtensionsDir(c), relativePath) == ExtensionsDir(c) + resolved[|CoreDir(c)|..]
      && Decide(c, fs, source, Some(importer))
         == match Probe(ExtensionsDir(c), relativePath, fs) case Some(p) => Found(p) case None => Defer
  {
    var resolved := ResolveSource(c, importer, source);
    var rest := resolved[|CoreDir(c)|..];
    ResolveSourceNormal(c, importer, source);
    RelativeInside(CoreDir(c), resolved);
    ResolveRelativeInside(CoreDir(c), resolved, ExtensionsDir(c));
    assert IsNormal(rest) by {
      forall i | 0 <= i < |rest| ensures IsSegment(rest[i]) {
        assert rest[i] == resolved[|CoreDir(c)| + i];
      }
    }
    NoLeadingDotDot(rest);
    CoreRelativeDecides(c, fs, source, importer);
  }

  /**
   * The `..` test on the relative path compares raw strings as well: a target
   * inside core whose first segment only starts with `..`, such as
   * `<core>/..cache/x`, is left to the bundler, and no extension file is probed.
   */
  lemma DotDotNamedEntryDefers(c: Config, fs: FileSystem, source: string, importer: string)
    requires importer != "" && InCore(importer) && StartsWith(source, ".")
    requires IsPrefix(CoreDir(c), ResolveSource(c, importer, source))
    requires var rest := ResolveSource(c, importer, source)[|CoreDir(c)|..];
      rest != [] && StartsWith(rest[0], "..")
    ensures Decide(c, fs, source, Some(importer)) == Defer
  {
    var resolved := ResolveSource(c, importer, source);
    var rest := resolved[|CoreDir(c)|..];
    RelativeInside(CoreDir(c), resolved);
    JoinStartsWithFirst(rest, "/");
    StartsWithTransitive(Join(rest, "/"), rest[0], "..");
    CoreRelativeDecides(c, fs, source, importer);
  }

  /** Whatever a relative import from core is served with lies in the extension tree, never in core. */
  lemma CoreImportServedFromExtensions(c: Config, fs: FileSystem, source: string, importer: string)
    requires ValidConfig(c) && importer != "" && InCore(importer) && StartsWith(source, ".")
    ensures Decide(c, fs, source, Some(importer)).Found? ==>
      StartsWith(Decide(c, fs, source, Some(importer)).path, Render(ExtensionsDir(c)))
  {
    var resolved := ResolveSource(c, importer, source);
    var relativePath := Relative(CoreDir(c), resolved);
    CoreRelativeDecides(c, fs, source, importer);
    if IsPrefix(CoreDir(c), resolved) && !StartsWith(relativePath, "..") {
      ResolveSourceNormal(c, importer, source);
      ResolveRelativeInside(CoreDir(c), resolved, ExtensionsDir(c));
      RenderPrefix(ExtensionsDir(c), resolved[|CoreDir(c)|..]);
      ProbeStaysUnder(ExtensionsDir(c), relativePath, fs, Render(ExtensionsDir(c)));
    } else if !IsPrefix(CoreDir(c), resolved) {
      RelativeOutside(CoreDir(c), resolved);
    }
  }

  // ---------------------------------------------------------------------------
  // Relative imports from the extension tree

  /** For an extension importer outside core: the extension tree, then the core tree at the same relative path, else the bundler. */
  lemma ExtensionImportOrder(c: Config, fs: FileSystem, source: string, importer: string)
    requires importer != "" && !InCore(importer) && InExtensions(importer) && StartsWith(source, ".")
    ensures var resolved := ResolveSource(c, importer, source);
      var relativePath := Relative(ExtensionsDir(c), resolved);
      var r := Decide(c, fs, source, Some(importer));
      (!PassesExtensionPrefixTest(c, resolved) ==> r == Defer)
      && (PassesExtensionPrefixTest(c, resolved) ==>
            r == match Probe(ExtensionsDir(c), relativePath, fs)
                 case Some(p) => Found(p)
                 case None =>
                   match Probe(CoreDir(c), relativePath, fs)
                   case Some(p) => Found(p)
                   case None => Defer)
  {
    assert source[0] == '.';
    assert !StartsWith(source, AliasPrefix) by {
      assert |AliasPrefix| > 0 ==> AliasPrefix[0] == '@';
    }
  }

  /** A file inside the extension tree passes the test, and both probes look at its own spot below the respective root. */
  lemma ExtensionFallbackSamePath(c: Config, resolved: Segments)
    requires IsNormal(resolved) && IsPrefix(ExtensionsDir(c), resolved)
    ensures var relativePath := Relative(ExtensionsDir(c), resolved);
      PassesExtensionPrefixTest(c, resolved)
      && ResolvePath(ExtensionsDir(c), relativePath) == resolved
      && ResolvePath(CoreDir(c), relativePath) == CoreDir(c) + resolved[|ExtensionsDir(c)|..]
  {
    var rest := resolved[|ExtensionsDir(c)|..];
    assert resolved == ExtensionsDir(c) + rest;
    RenderPrefix(ExtensionsDir(c), rest);
    ResolveRelativeInside(ExtensionsDir(c), resolved, ExtensionsDir(c));
    ResolveRelativeInside(ExtensionsDir(c), resolved, CoreDir(c));
  }

  /** `<pd>/<s>/…` starts with `<pd>/src` whenever the segment `s` starts with `src`. */
  lemma SiblingStringPrefix(pd: Segments, s: string, rest: Segments)
    requires StartsWith(s, "src")
    ensures StartsWith(Render(pd + [s] + rest), Render(pd + ["src"]))
  {
    RenderPrefix(pd + [s], rest);
    RenderAppend(pd, s);
    RenderAppend(pd, "src");
    var head := if pd == [] then "/" else Render(pd) + "/";
    assert Render(pd + [s]) == head + s;
    assert Render(pd + ["src"]) == head + "src";
    assert (head + s)[..|head + "src"|] == head + s[..3];
    StartsWithTransitive(Render(pd + [s] + rest), Render(pd + [s]), Render(pd + ["src"]));
  }

  /** Seen from `<pd>/src`, the path `<pd>/<s>/…` with `s != "src"` is one level up and then down again. */
  lemma SiblingCommonPrefix(pd: Segments, s: string, rest: Segments)
    requires s != "src"
    ensures CommonPrefixLength(pd + ["src"], pd + [s] + rest) == |pd|
  {
    var ext := pd + ["src"];
    var resolved := pd + [s] + rest;
    var k := CommonPrefixLength(ext, resolved);
    assert ext[..|pd|] == pd == resolved[..|pd|];
    assert resolved[|pd|] == s;
    assert forall i :: 0 <= i < |pd| ==> ext[i] == pd[i] == resolved[i];
  }

  /**
   * As written, "inside the extension tree" is a string-prefix test, so a sibling
   * directory such as `<plugin>/src-old` passes it although it lies outside the
   * tree. The relative path then starts with `..`, and the core probe looks
   * outside the core tree.
   */
  lemma SiblingDirectoryPassesPrefixTest(c: Config, s: string, rest: Segments)
    requires ValidConfig(c) && IsSegment(s) && StartsWith(s, "src") && s != "src" && IsNormal(rest)
    ensures var resolved := c.pluginDir + [s] + rest;
      var relativePath := Relative(ExtensionsDir(c), resolved);
      PassesExtensionPrefixTest(c, resolved)
      && !IsPrefix(ExtensionsDir(c), resolved)
      && StartsWith(relativePath, "..")
      && ResolvePath(ExtensionsDir(c), relativePath) == resolved
      && !IsPrefix(CoreDir(c), ResolvePath(CoreDir(c), relativePath))
  {
    var pd := c.pluginDir;
    var ext := ExtensionsDir(c);
    var resolved := pd + [s] + rest;
    var relativePath := Relative(ext, resolved);
    SiblingShape(pd, s, rest);
    SiblingStringPrefix(pd, s, rest);
    assert ext[|pd|] == "src";
    RelativeOutside(ext, resolved);
    ResolveRelative(ext, resolved);
    SiblingCommonPrefix(pd, s, rest);
    CoreDirShape(c);
    var core := CoreDir(c);
    ResolveRelativeAt(ext, resolved, core);
    var landed := ResolvePath(core, relativePath);
    assert landed == core[..|core| - 1] + ([s] + rest);
    assert landed[|core| - 1] == s;
  }

  /** `<pd>/<s>/…` is normal when its pieces are, and holds `s` right after `pd`. */
  lemma SiblingShape(pd: Segments, s: string, rest: Segments)
    requires IsNormal(pd) && IsSegment(s) && IsNormal(rest)
    ensures var resolved := pd + [s] + rest;
      IsNormal(resolved) && resolved[|pd|] == s && resolved[|pd|..] == [s] + rest
  {
    var resolved := pd + [s] + rest;
    forall i | 0 <= i < |resolved| ensures IsSegment(resolved[i]) {
      if i < |pd| {
        assert resolved[i] == pd[i];
      } else if i > |pd| {
        assert resolved[i] == rest[i - |pd| - 1];
      }
    }
  }

  // ---------------------------------------------------------------------------
  // The alias

  /** From any importer, a `.`-free `@spiffworkflow-frontend…` source is decided by the alias rule: an extension file wins, else the alias table. */
  lemma AliasImport(c: Config, fs: FileSystem, source: string, importer: string)
    requires importer != "" && StartsWith(source, AliasPrefix)
    ensures Decide(c, fs, source, Some(importer))
            == match Probe(ExtensionsDir(c), AliasPath(source), fs) case Some(p) => Found(p) case None => Defer
  {
    assert source[0] == AliasPrefix[0] == '@';
    assert !StartsWith(source, ".") && !IsBare(source);
    assert BareRule(c, fs, source, importer) == None;
    assert CoreRelativeRule(c, fs, source, importer) == None;
    assert ExtensionRelativeRule(c, fs, source, importer) == None;
  }

  /**
   * The alias spot is what follows the prefix, less one leading `/`. As written
   * this also holds when no `/` follows: `@spiffworkflow-frontend-assets/x` is
   * probed as `-assets/x`.
   */
  lemma AliasPathOf(rest: string)
    ensures AliasPath(AliasPrefix + "/" + rest) == rest
    ensures !StartsWith(rest, "/") ==> AliasPath(AliasPrefix + rest) == rest
  {
    assert (AliasPrefix + "/" + rest)[..|AliasPrefix|] == AliasPrefix;
    assert (AliasPrefix + "/" + rest)[|AliasPrefix|..] == "/" + rest;
    assert (AliasPrefix + rest)[..|AliasPrefix|] == AliasPrefix;
    assert (AliasPrefix + rest)[|AliasPrefix|..] == rest;
  }

  /** As written, the alias spot is not confined to the extension tree: `@spiffworkflow-frontend/..` probes the plugin directory. */
  lemma AliasCanLeaveExtensions(c: Config)
    ensures ResolvePath(ExtensionsDir(c), AliasPath(AliasPrefix + "/..")) == c.pluginDir
    ensures !IsPrefix(ExtensionsDir(c), c.pluginDir)
  {
    AliasPathOf("..");
    SplitNoSeparator("..", '/');
    assert ResolvePath(ExtensionsDir(c), "..") == Normalize(ExtensionsDir(c), [".."]);
    assert (c.pluginDir + ["src"])[..|c.pluginDir|] == c.pluginDir;
  }

  // ---------------------------------------------------------------------------
  // Bare imports and everything else

  /** A bare import from core is redirected exactly when the extension installs the package itself. */
  lemma BareImportFromCore(c: Config, fs: FileSystem, source: string, importer: string)
    requires importer != "" && InCore(importer) && IsBare(source)
    ensures Decide(c, fs, source, Some(importer))
            == if Render(ResolvePath(LocalNodeModules(c), PackageName(source))) in fs
               then Redirect(source, Render(ExtensionsDir(c) + ["index.tsx"]))
               else Defer
  {
  }

  /** `a.join(sep)` starts with the join of any non-empty prefix of `a`. */
  lemma JoinPrefix(parts: seq<string>, k: nat, sep: string)
    requires 1 <= k <= |parts|
    ensures StartsWith(Join(parts, sep), Join(parts[..k], sep))
  {
    if k < |parts| {
      JoinAppend(parts[..k], parts[k..], sep);
      assert parts[..k] + parts[k..] == parts;
      StartsWithConcat(Join(parts[..k], sep), sep + Join(parts[k..], sep));
      assert Join(parts, sep) == Join(parts[..k], sep) + (sep + Join(parts[k..], sep));
    } else {
      assert parts[..k] == parts;
    }
  }

  /** The package name is a leading part of the specifier: `@scope/name` holds one `/`, any other name none. */
  lemma PackageNameShape(source: string)
    ensures StartsWith(source, PackageName(source))
    ensures !StartsWith(source, "@") ==> '/' !in PackageName(source)
    ensures StartsWith(source, "@") ==> Count(PackageName(source), '/') <= 1
  {
    var parts := Split(source, '/');
    JoinSplit(source, '/');
    var n := if |parts| < 2 then |parts| else 2;
    JoinPrefix(parts, n, "/");
    JoinPrefix(parts, 1, "/");
    assert Join(parts[..1], "/") == parts[0];
    if n == 2 {
      assert parts[..2] == [parts[0], parts[1]];
      assert Join(parts[..2], "/") == parts[0] + "/" + parts[1];
      CountAppend(parts[0] + "/", parts[1], '/');
      CountAppend(parts[0], "/", '/');
      CountAbsent(parts[0], '/');
      CountAbsent(parts[1], '/');
    } else {
      CountAbsent(parts[0], '/');
    }
  }

  /** An absolute source is never claimed, whoever imports it. */
  lemma AbsoluteSourceDefers(c: Config, fs: FileSystem, source: string, importer: Option<string>)
    requires StartsWith(source, "/")
    ensures Decide(c, fs, source, importer) == Defer
  {
    assert source[0] == '/';
    assert !StartsWith(source, AliasPrefix) by {
      assert |AliasPrefix| > 0 ==> AliasPrefix[0] == '@';
    }
  }

  /** An importer in neither tree is only ever served through the alias. */
  lemma OutsideImporterOnlyAlias(c: Config, fs: FileSystem, source: string, importer: string)
    requires !InCore(importer) && !InExtensions(importer) && !StartsWith(source, AliasPrefix)
    ensures Decide(c, fs, source, Some(importer)) == Defer
  {
  }

  /** `path.dirname` of `/a/b/file` is `/a/b`. */
  lemma ImporterDirOfFile(c: Config, dir: Segments, file: string)
    requires IsNormal(dir) && IsSegment(file)
    ensures ImporterDir(c, Render(dir + [file])) == dir
  {
    var p := dir + [file];
    assert IsNormal(p) by {
      forall i | 0 <= i < |p| ensures IsSegment(p[i]) {
        if i < |dir| {
          assert p[i] == dir[i];
        }
      }
    }
    SplitRender(p);
    var parts := [""] + p;
    assert parts[|parts| - 1] == file != "";
    assert DirPieces(parts) == [""] + dir;
    assert StartsWith(Render(p), "/");
    assert Normalize([], [""] + dir) == Normalize([], dir);
    NormalizeSegments([], dir);
  }
}
