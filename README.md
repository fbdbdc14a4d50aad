# m8flow frontend extension, modelled in Dafny

m8flow extends the SpiffWorkflow frontend, a React application, without
forking it. A Vite plugin resolves modules: when a core file imports a
module, a file at the same relative path in the extension tree takes its
place. On top of that the extension adds several features:

- a process-template library, with a service that posts templates, a hook that
  lists and fetches them, a "Save as Template" dialog, a gallery page, its filter
  bar and template cards;
- a dialog that imports process models from GitHub or the marketplace;
- a tenant administration page;
- a registry of custom task groupings, together with the hook that applies them;
- the diagram import hook, which highlights tasks and adds call-activity
  overlays;
- the multitenant flag of the configuration hook.

This project restates each of those pieces in Dafny and proves what each piece
promises. There is one module per source file:

- `OverrideResolver` (the resolver itself) and `OverrideResolverLemmas` (its
  properties);
- `TemplateService`, `TemplateTypes` and `UseTemplates`;
- `SaveAsTemplateModal`, `ProcessModelImportDialog`, `TemplateGalleryPage`,
  `TemplateFilterBar` and `TemplateCard`;
- `TenantPage`, `CustomGroupingContext`, `UseExtendedGrouping`,
  `UseDiagramImport` and `UseConfig`.

Four more modules are shared:

- `Text`: JavaScript string operations, namely `split`, `join`, `trim`,
  `includes`, lower-casing, number formatting and a character-by-character
  string order;
- `Paths`: Node's `path.resolve` and `path.relative` on normalised segment
  lists;
- `JsValues`: `Option`, `Result`, the outcome of an asynchronous call, and the
  shapes of a thrown value;
- `TaskGrouping`: the `reduce` that groups tasks by a key, which the grouping
  hook and the registry's built-in handler share.

The model follows the code's own form:

- Code that changes state is written as classes with `modifies` clauses. This
  covers the React state of the dialogs, the tenant page, the template hook, the
  grouping registry and the grouping hook.
- Loops are methods with invariants. These are the resolver's probe, the query
  builder, the facet collection, the task walk, the `reduce` and the tenant sort.
- Expression code is functions, with lemmas about them.

Each such method is proved against a function that specifies it. Where a
property concerns more than one call, it is a lemma about those functions.

Several values come in as parameters rather than being computed:

- the file system, as a set of the absolute paths that exist;
- what a backend answers, and the diagram XML the editor hands over;
- `JSON.stringify` and the URL-encoding of query parameters, as the functions
  `encode` and `escape`;
- whether `window` exists, and the two settings in the environment;
- the i18n labels;
- the process identifiers bpmn-js reports.

A request to the backend is returned, or recorded as an effect, as a value.

Three of the resolver's tests compare raw strings where the path they
stand for would call for a path-aware test. The model follows the code in
each, and a lemma states each one.

- A path that already ends in a code suffix is not tried as it is first.
  `Foo.ts` is tried as `Foo.ts.tsx` before it is tried as `Foo.ts`
  (`OverrideResolverLemmas.TsPathTriesTsxFirst`).
- The test that the inline comment describes as "within" the extension tree
  compares raw strings. A sibling directory whose name starts with `src`,
  such as `src2`, passes it
  (`OverrideResolverLemmas.SiblingDirectoryPassesPrefixTest`).
- The test that keeps a core-relative import inside core is
  `relativePath.startsWith('..')`, also on the raw string. A target inside
  core whose first segment starts with `..`, such as `<core>/..cache/x`, is
  left to the bundler like one outside core
  (`OverrideResolverLemmas.DotDotNamedEntryDefers`).

## Model

| member | source | states |
|---|---|---|
| OverrideResolver.ProbeTargets | extensions/m8flow-frontend/vite-plugin-override-resolver.ts:19-40 | a probe tests at least one path |
| OverrideResolver.FirstExisting | extensions/m8flow-frontend/vite-plugin-override-resolver.ts:33-39 | the result is absent exactly when no path exists, and otherwise it is one of the paths and it exists |
| OverrideResolver.FirstExistingAt | extensions/m8flow-frontend/vite-plugin-override-resolver.ts:33-39 | the first existing path, in order, is the answer |
| OverrideResolver.Probe | extensions/m8flow-frontend/vite-plugin-override-resolver.ts:23-58 | whatever `findOverride` and `findInCore` return exists |
| OverrideResolver.FindIn | extensions/m8flow-frontend/vite-plugin-override-resolver.ts:23-58 | the early-exit loop over the suffixes returns exactly what the probe specification says |
| OverrideResolver.IsNonJsFile | extensions/m8flow-frontend/vite-plugin-override-resolver.ts:27 | no contract of its own; an asset suffix means one probe of the path itself (`AssetProbedAsWritten`) |
| OverrideResolver.DirPieces | extensions/m8flow-frontend/vite-plugin-override-resolver.ts:85 | `path.dirname` keeps a leading part of the path's pieces |
| OverrideResolver.InCore | extensions/m8flow-frontend/vite-plugin-override-resolver.ts:66 | no contract of its own; the importer contains `/spiffworkflow-frontend/src/`, which selects the core rules (`CoreRelativeDecides`) |
| OverrideResolver.InExtensions | extensions/m8flow-frontend/vite-plugin-override-resolver.ts:67 | no contract of its own; the importer contains `/extensions/m8flow-frontend/src/`, which selects the extension rule (`ExtensionImportOrder`) |
| OverrideResolver.IsBare | extensions/m8flow-frontend/vite-plugin-override-resolver.ts:71 | no contract of its own; neither relative, absolute nor the alias, which selects the bare rule (`BareImportFromCore`, `AbsoluteSourceDefers`) |
| OverrideResolver.PackageName | extensions/m8flow-frontend/vite-plugin-override-resolver.ts:72-74 | no contract of its own; two pieces for a scoped specifier and one otherwise (`PackageNameShape`) |
| OverrideResolver.AliasPath | extensions/m8flow-frontend/vite-plugin-override-resolver.ts:132-133 | no contract of its own; the prefix and one leading `/` removed (`AliasPathOf`) |
| OverrideResolver.BareRule | extensions/m8flow-frontend/vite-plugin-override-resolver.ts:71-81 | no contract of its own; a redirect exactly when the package exists in the local `node_modules` (`BareImportFromCore`) |
| OverrideResolver.CoreRelativeRule | extensions/m8flow-frontend/vite-plugin-override-resolver.ts:84-104 | no contract of its own; defer outside core, else the extension file at the same relative spot, else defer (`CoreImportOutsideCoreDefers`, `CoreImportInsideCore`, `DotDotNamedEntryDefers`) |
| OverrideResolver.PassesExtensionPrefixTest | extensions/m8flow-frontend/vite-plugin-override-resolver.ts:112 | no contract of its own; the raw string prefix test, which a sibling directory passes (`SiblingDirectoryPassesPrefixTest`) |
| OverrideResolver.ExtensionRelativeRule | extensions/m8flow-frontend/vite-plugin-override-resolver.ts:107-128 | no contract of its own; the extension tree, then the core tree, else no claim (`ExtensionImportOrder`) |
| OverrideResolver.AliasRule | extensions/m8flow-frontend/vite-plugin-override-resolver.ts:131-143 | no contract of its own; an extension file wins, else the alias table (`AliasImport`) |
| OverrideResolver.Decide | extensions/m8flow-frontend/vite-plugin-override-resolver.ts:63-146 | without an importer the request is deferred; a found path exists; a redirect happens only for a bare import from a core file |
| OverrideResolver.ResolveId | extensions/m8flow-frontend/vite-plugin-override-resolver.ts:63-146 | the hook, with its probes as loops, returns what the rule order specifies |
| OverrideResolverLemmas.CandidateShape | extensions/m8flow-frontend/vite-plugin-override-resolver.ts:34 | every candidate starts with the base path and ends with its suffix, and no suffix is doubled |
| OverrideResolverLemmas.AssetProbedAsWritten | extensions/m8flow-frontend/vite-plugin-override-resolver.ts:27-30 | a static asset is found exactly when the path itself exists |
| OverrideResolverLemmas.CodeCandidates | extensions/m8flow-frontend/vite-plugin-override-resolver.ts:33-38 | code candidates start at the resolved path, each with its own suffix once |
| OverrideResolverLemmas.SuffixlessPathNotTestedBare | extensions/m8flow-frontend/vite-plugin-override-resolver.ts:33-39 | a path without a code suffix is never tested as it is, so a directory of that name is no hit |
| OverrideResolverLemmas.EarlierCandidateWins | extensions/m8flow-frontend/vite-plugin-override-resolver.ts:33-38 | a later suffix never beats an earlier existing candidate |
| OverrideResolverLemmas.TsxWinsOverIndex | extensions/m8flow-frontend/vite-plugin-override-resolver.ts:19 | `Foo.tsx` beats `Foo/index.ts` and every other candidate |
| OverrideResolverLemmas.TsPathTriesTsxFirst | extensions/m8flow-frontend/vite-plugin-override-resolver.ts:33-38 | a path ending in `.ts` is first tried with `.tsx` appended, and only second as it is |
| OverrideResolverLemmas.ProbeStaysUnder | extensions/m8flow-frontend/vite-plugin-override-resolver.ts:24-38 | every hit starts with the resolved base path |
| OverrideResolverLemmas.CoreDirShape | extensions/m8flow-frontend/vite-plugin-override-resolver.ts:16 | the core tree is two levels above the plugin, then `spiffworkflow-frontend/src` |
| OverrideResolverLemmas.CoreRelativeDecides | extensions/m8flow-frontend/vite-plugin-override-resolver.ts:84-104 | a `.` source from a core importer is decided by the core-relative rule alone |
| OverrideResolverLemmas.CoreImportOutsideCoreDefers | extensions/m8flow-frontend/vite-plugin-override-resolver.ts:89-94 | a relative import from core that lands outside the core tree is left to the bundler |
| OverrideResolverLemmas.CoreImportInsideCore | extensions/m8flow-frontend/vite-plugin-override-resolver.ts:84-104 | for a target inside the core tree whose first segment does not start with `..`, the extension file at the same relative path wins, and otherwise the request is deferred |
| OverrideResolverLemmas.DotDotNamedEntryDefers | extensions/m8flow-frontend/vite-plugin-override-resolver.ts:89-94 | a target inside the core tree whose first segment starts with `..` (such as `..cache`) is deferred, because the `..` test reads the raw relative path |
| OverrideResolverLemmas.CoreImportServedFromExtensions | extensions/m8flow-frontend/vite-plugin-override-resolver.ts:97-100 | a relative import from core is only ever served from the extension tree |
| OverrideResolverLemmas.ExtensionImportOrder | extensions/m8flow-frontend/vite-plugin-override-resolver.ts:107-128 | an extension importer gets the extension tree, then the core tree at the same relative path, then the bundler |
| OverrideResolverLemmas.ExtensionFallbackSamePath | extensions/m8flow-frontend/vite-plugin-override-resolver.ts:112-126 | a target inside the extension tree passes the test, and both probes look at its own spot |
| OverrideResolverLemmas.SiblingDirectoryPassesPrefixTest | extensions/m8flow-frontend/vite-plugin-override-resolver.ts:112 | a sibling directory whose name starts with `src` passes the raw prefix test although it lies outside the tree; its relative path starts with `..`, and the core fallback then probes outside the core tree |
| OverrideResolverLemmas.AliasImport | extensions/m8flow-frontend/vite-plugin-override-resolver.ts:131-143 | for any importer, an alias source is decided by the alias rule: an extension file wins, and otherwise the alias table does |
| OverrideResolverLemmas.AliasPathOf | extensions/m8flow-frontend/vite-plugin-override-resolver.ts:132-133 | the alias spot is the source without the prefix and without one leading `/` |
| OverrideResolverLemmas.AliasCanLeaveExtensions | extensions/m8flow-frontend/vite-plugin-override-resolver.ts:132-136 | `@spiffworkflow-frontend/..` probes outside the extension tree |
| OverrideResolverLemmas.BareImportFromCore | extensions/m8flow-frontend/vite-plugin-override-resolver.ts:71-81 | a bare import from core is redirected exactly when the extension installs the package |
| OverrideResolverLemmas.PackageNameShape | extensions/m8flow-frontend/vite-plugin-override-resolver.ts:72-74 | the package name is a leading part of the specifier, with one `/` when it is scoped and none otherwise |
| OverrideResolverLemmas.AbsoluteSourceDefers | extensions/m8flow-frontend/vite-plugin-override-resolver.ts:71-145 | an absolute source is never claimed |
| OverrideResolverLemmas.OutsideImporterOnlyAlias | extensions/m8flow-frontend/vite-plugin-override-resolver.ts:66-145 | an importer in neither tree is served only through the alias |
| OverrideResolverLemmas.ImporterDirOfFile | extensions/m8flow-frontend/vite-plugin-override-resolver.ts:85 | `path.dirname` of `/a/b/file` is `/a/b` |
| Paths.ResolveRelative | extensions/m8flow-frontend/vite-plugin-override-resolver.ts:89 | `path.resolve(from, path.relative(from, to))` is `to` |
| Paths.RelativeOutside | extensions/m8flow-frontend/vite-plugin-override-resolver.ts:92 | a target outside `from` gives a relative path that begins with `..` |
| Paths.ResolveRelativeInside | extensions/m8flow-frontend/vite-plugin-override-resolver.ts:114-117 | resolving the relative path of a target inside `from` against another root puts the same segments under that root |
| TemplateTypes.VisibilityNameInjective | extensions/m8flow-frontend/src/types/template.ts:1 | the three visibilities have distinct, non-empty wire spellings |
| TemplateTypes.VisibilityName | extensions/m8flow-frontend/src/types/template.ts:1 | no contract of its own; the wire spelling of a visibility, which `VisibilityNameInjective` proves distinct |
| TemplateTypes.Assign | extensions/m8flow-frontend/src/types/template.ts:25-32 | a set field reads back as the value given, and its key is present |
| TemplateTypes.KeyCount | extensions/m8flow-frontend/src/types/template.ts:25-32 | there are at most six keys, and none exactly for `{}` |
| TemplateTypes.TrimmedNonEmpty | extensions/m8flow-frontend/src/services/TemplateService.ts:25-27 | each tag kept is non-empty and trimmed, and none is added |
| TemplateTypes.ParseTagTextShape | extensions/m8flow-frontend/src/services/TemplateService.ts:23-28 | every tag parsed from text is non-empty, trimmed and free of commas |
| TemplateTypes.ParseJoinedTags | extensions/m8flow-frontend/src/services/TemplateService.ts:23-28 | clean tags joined with `,` parse back to themselves |
| TemplateTypes.ParseTagText | extensions/m8flow-frontend/src/services/TemplateService.ts:23 | no contract of its own; `split(',')`, `trim` and `filter(Boolean)`, stated by `ParseTagTextShape` and `ParseJoinedTags` |
| TemplateService.TagsHeaderOf | extensions/m8flow-frontend/src/services/TemplateService.ts:18-28 | the tags header is present exactly when the tag list is non-empty, and it carries that list's JSON |
| TemplateService.TextHeader | extensions/m8flow-frontend/src/services/TemplateService.ts:12-17 | no contract of its own; a description or category header exactly for a defined non-empty field (`BuildHeaders`) |
| TemplateService.TagValues | extensions/m8flow-frontend/src/services/TemplateService.ts:19-24 | no contract of its own; an array as it is and a string parsed into tags (`TagsHeaderOf`) |
| TemplateService.HeadersFor | extensions/m8flow-frontend/src/services/TemplateService.ts:6-42 | no contract of its own; the per-header description that `BuildHeaders` meets and `HeadersForUnique` proves unique |
| TemplateService.BuildHeaders | extensions/m8flow-frontend/src/services/TemplateService.ts:6-42 | the headers satisfy the header description: the three fixed ones, then each one whose field is set |
| TemplateService.HeadersForUnique | extensions/m8flow-frontend/src/services/TemplateService.ts:6-42 | the header description singles out one object, namely the one `buildHeaders` returns |
| TemplateService.CreateTemplate | extensions/m8flow-frontend/src/services/TemplateService.ts:48-63 | a blank key or name is rejected with its message before any request; otherwise the request is the POST to `/templates` with the XML and the headers |
| TemplateService.FailureMessage | extensions/m8flow-frontend/src/services/TemplateService.ts:65-71 | the message of an object with a `message` key, as a string, or else the fallback |
| TemplateService.Settle | extensions/m8flow-frontend/src/services/TemplateService.ts:59-73 | the promise resolves with the backend's template, or rejects with the failure message |
| UseTemplates.Rank | extensions/m8flow-frontend/src/hooks/useTemplates.ts:5-12 | each key sits at its rank in `FILTER_PARAM_KEYS` |
| UseTemplates.KeyName | extensions/m8flow-frontend/src/hooks/useTemplates.ts:5-12 | no contract of its own; the parameter name of a filter key, in `FILTER_PARAM_KEYS` order (`Rank`, `Named`) |
| UseTemplates.ParamValue | extensions/m8flow-frontend/src/hooks/useTemplates.ts:17-21 | the value of `latest_only` is sent as `"true"` or `"false"` |
| UseTemplates.BuildQueryParams | extensions/m8flow-frontend/src/hooks/useTemplates.ts:14-24 | the loop appends exactly the parameter list its specification gives |
| UseTemplates.ParamsFor | extensions/m8flow-frontend/src/hooks/useTemplates.ts:17-22 | no contract of its own; the entries for the visited keys, stated by `ParamsForMember` |
| UseTemplates.QueryParams | extensions/m8flow-frontend/src/hooks/useTemplates.ts:14-24 | no contract of its own; what `buildTemplateQueryParams` appends, stated by `QueryParamsMember`, `QueryParamsOrdered` and `QueryParamsEmpty` |
| UseTemplates.ParamsForMember | extensions/m8flow-frontend/src/hooks/useTemplates.ts:16-22 | an entry is present exactly when its key was visited and the filter holds that value |
| UseTemplates.QueryParamsMember | extensions/m8flow-frontend/src/hooks/useTemplates.ts:14-24 | `(key, value)` is a parameter exactly when there are filters and `filters[key]` is that value |
| UseTemplates.QueryParamsOrdered | extensions/m8flow-frontend/src/hooks/useTemplates.ts:5-24 | the parameters follow `FILTER_PARAM_KEYS` order, no key appears twice, and there are at most six |
| UseTemplates.QueryParamsEmpty | extensions/m8flow-frontend/src/hooks/useTemplates.ts:14-24 | there are no parameters exactly when there are no filters or none of them is defined |
| UseTemplates.NoFiltersNoParams | extensions/m8flow-frontend/src/hooks/useTemplates.ts:15 | missing filters and `{}` both give no parameters |
| UseTemplates.QueryParamsKeepValues | extensions/m8flow-frontend/src/hooks/useTemplates.ts:18-21 | only `undefined` is skipped; `""` is sent as it is, and a boolean is sent as text |
| UseTemplates.Named | extensions/m8flow-frontend/src/hooks/useTemplates.ts:20 | each entry becomes its parameter name and its value |
| UseTemplates.Serialize | extensions/m8flow-frontend/src/hooks/useTemplates.ts:57 | the query string is empty exactly when there are no parameters |
| UseTemplates.ListPath | extensions/m8flow-frontend/src/hooks/useTemplates.ts:56-58 | the list path carries `?` and the query exactly when some filter is defined |
| UseTemplates.WithQuery | extensions/m8flow-frontend/src/hooks/useTemplates.ts:58 | no contract of its own; `?` and the query only for a non-empty query (`ListPath`, `ByKeyPath`) |
| UseTemplates.ByIdPath | extensions/m8flow-frontend/src/hooks/useTemplates.ts:83 | no contract of its own; `/v1.0/m8flow/templates/<id>`, the path `BeginFetchById` records |
| UseTemplates.ByKeyParams | extensions/m8flow-frontend/src/hooks/useTemplates.ts:107-112 | the path carries the version when one is given, and otherwise `latest=true` |
| UseTemplates.ByKeyPath | extensions/m8flow-frontend/src/hooks/useTemplates.ts:114-115 | the by-key path always carries a non-empty query |
| UseTemplates.ErrorMessage | extensions/m8flow-frontend/src/hooks/useTemplates.ts:26-32 | an error's message, or a plain object's string message, or else the fallback |
| UseTemplates.ErrorMessagesAgree | extensions/m8flow-frontend/src/hooks/useTemplates.ts:26-32 | the hook's message agrees with the service's except for a non-string `message` |
| UseTemplates.TemplatesStore.constructor | extensions/m8flow-frontend/src/hooks/useTemplates.ts:46-50 | the hook starts with no templates, no error and nothing loading |
| UseTemplates.TemplatesStore.BeginFetchTemplates | extensions/m8flow-frontend/src/hooks/useTemplates.ts:52-62 | list loading starts and the error clears; the other state is unchanged and the path is the list path |
| UseTemplates.TemplatesStore.SettleFetchTemplates | extensions/m8flow-frontend/src/hooks/useTemplates.ts:63-74 | the list is replaced, or else the error is recorded; list loading ends either way |
| UseTemplates.TemplatesStore.BeginFetchById | extensions/m8flow-frontend/src/hooks/useTemplates.ts:77-86 | by-id loading starts, the error clears, and the path is the template's |
| UseTemplates.TemplatesStore.SettleFetchById | extensions/m8flow-frontend/src/hooks/useTemplates.ts:87-98 | the call resolves with the template, or with `null` after recording the error; the list is untouched |
| UseTemplates.TemplatesStore.BeginFetchByKey | extensions/m8flow-frontend/src/hooks/useTemplates.ts:101-116 | by-key loading starts, the error clears, and the path is the by-key path |
| UseTemplates.TemplatesStore.SettleFetchByKey | extensions/m8flow-frontend/src/hooks/useTemplates.ts:117-135 | the call resolves with the template, or with `null` after recording the error; the list is untouched |
| SaveAsTemplateModal.Optional | extensions/m8flow-frontend/src/components/SaveAsTemplateModal.tsx:79-88 | an optional field is sent, trimmed, exactly when it trims to something |
| SaveAsTemplateModal.FormMetadata | extensions/m8flow-frontend/src/components/SaveAsTemplateModal.tsx:79-88 | no contract of its own; the metadata object, stated by `FormHeaders` and met by `BuildMetadata` |
| SaveAsTemplateModal.ThrownMessage | extensions/m8flow-frontend/src/components/SaveAsTemplateModal.tsx:92-95 | no contract of its own; an `Error`'s message, else the fallback, which `SendTemplate` records |
| SaveAsTemplateModal.TemplateForm.constructor | extensions/m8flow-frontend/src/components/SaveAsTemplateModal.tsx:36-44 | the form starts empty, private, without an error and not loading |
| SaveAsTemplateModal.TemplateForm.OpenChanged | extensions/m8flow-frontend/src/components/SaveAsTemplateModal.tsx:46-56 | closing clears every field, the visibility and the error; opening changes nothing |
| SaveAsTemplateModal.TemplateForm.BuildMetadata | extensions/m8flow-frontend/src/components/SaveAsTemplateModal.tsx:79-88 | the metadata object is the form's metadata |
| SaveAsTemplateModal.TemplateForm.SendTemplate | extensions/m8flow-frontend/src/components/SaveAsTemplateModal.tsx:89-95 | the create request is sent with the form's headers; on success the dialog closes and then reports, and on failure the error is recorded |
| SaveAsTemplateModal.TemplateForm.Submit | extensions/m8flow-frontend/src/components/SaveAsTemplateModal.tsx:58-99 | the key is checked, then the name, then the diagram; each failure sets its own message, and loading ends false on every path past the checks |
| SaveAsTemplateModal.FormPassesServiceGuard | extensions/m8flow-frontend/src/components/SaveAsTemplateModal.tsx:59-68 | the form's own checks keep the service's guard from firing |
| SaveAsTemplateModal.FormHeaders | extensions/m8flow-frontend/src/components/SaveAsTemplateModal.tsx:79-88 | the backend gets the trimmed key, name, description and category; the visibility; and tags exactly when the tag text has a non-blank piece |
| SaveAsTemplateModal.ParseTagTextBlank | extensions/m8flow-frontend/src/components/SaveAsTemplateModal.tsx:84-86 | tag text that trims to `""` gives no tags |
| ProcessModelImportDialog.ValidateGithubUrl | extensions/m8flow-frontend/src/components/ProcessModelImportDialog.tsx:53-67 | a URL is valid exactly when it has the GitHub prefix, at least six slashes, and `/tree/` or `/blob/` |
| ProcessModelImportDialog.ValidateModelAlias | extensions/m8flow-frontend/src/components/ProcessModelImportDialog.tsx:69-72 | an alias is valid exactly when it is non-empty and every character is in `[a-zA-Z0-9_-]` |
| ProcessModelImportDialog.ValidateInput | extensions/m8flow-frontend/src/components/ProcessModelImportDialog.tsx:45-51 | no contract of its own; the GitHub check on the GitHub tab and the alias check otherwise (`SourceValidity`) |
| ProcessModelImportDialog.SourceValidity | extensions/m8flow-frontend/src/components/ProcessModelImportDialog.tsx:74-82 | validity is unknown exactly for input shorter than three characters, and otherwise it is the tab's verdict |
| ProcessModelImportDialog.AcceptedId | extensions/m8flow-frontend/src/components/ProcessModelImportDialog.tsx:114-127 | a model id is accepted exactly when it is present and not `""` |
| ProcessModelImportDialog.FailureText | extensions/m8flow-frontend/src/components/ProcessModelImportDialog.tsx:129-132 | a non-empty string `message` or `Error` message is shown as it is; a non-string `message` is shown when the value is truthy; a falsy or missing message, `null`, `undefined` or a primitive shows "Import failed" |
| ProcessModelImportDialog.FalsyMessageFallsBack | extensions/m8flow-frontend/src/components/ProcessModelImportDialog.tsx:131 | `{message: 0}` shows "Import failed", not "0"; a truthy number is shown as its text |
| ProcessModelImportDialog.ImportDialog.constructor | extensions/m8flow-frontend/src/components/ProcessModelImportDialog.tsx:36-42 | the dialog starts on the GitHub tab, with an empty source and unknown validity |
| ProcessModelImportDialog.ImportDialog.SourceChange | extensions/m8flow-frontend/src/components/ProcessModelImportDialog.tsx:74-82 | the new text and its validity on the current tab are recorded, and nothing else changes |
| ProcessModelImportDialog.ImportDialog.TabChange | extensions/m8flow-frontend/src/components/ProcessModelImportDialog.tsx:84-91 | the new tab gets an empty source and unknown validity |
| ProcessModelImportDialog.ImportDialog.Import | extensions/m8flow-frontend/src/components/ProcessModelImportDialog.tsx:93-137 | nothing happens unless the source is valid; a blank group id is refused with its message; otherwise one POST to the group's import path is sent |
| ProcessModelImportDialog.ImportDialog.Succeeded | extensions/m8flow-frontend/src/components/ProcessModelImportDialog.tsx:114-127 | an accepted id is reported and then the dialog closes; otherwise the missing-id message shows |
| ProcessModelImportDialog.ImportDialog.Failed | extensions/m8flow-frontend/src/components/ProcessModelImportDialog.tsx:129-132 | the failure text is shown as the error |
| ProcessModelImportDialog.DocumentedUrlAccepted | extensions/m8flow-frontend/src/components/ProcessModelImportDialog.tsx:53-67 | every `…/owner/repo/tree/…` or `…/owner/repo/blob/…` URL under the prefix is accepted |
| ProcessModelImportDialog.AcceptedUrlHasPath | extensions/m8flow-frontend/src/components/ProcessModelImportDialog.tsx:53-67 | an accepted URL holds at least three slashes after the prefix, for the owner, the repository and the tree or blob part |
| ProcessModelImportDialog.OtherHostRefused | extensions/m8flow-frontend/src/components/ProcessModelImportDialog.tsx:55-57 | plain `http`, or a host other than github.com, is refused whatever follows |
| ProcessModelImportDialog.AliasRefusesPaths | extensions/m8flow-frontend/src/components/ProcessModelImportDialog.tsx:69-72 | an alias with a `/`, a space or a `.` is refused |
| ProcessModelImportDialog.GitHubValidityKnown | extensions/m8flow-frontend/src/components/ProcessModelImportDialog.tsx:74-82 | a valid GitHub URL is never hidden by the length rule |
| ProcessModelImportDialog.ShortAliasStaysUnknown | extensions/m8flow-frontend/src/components/ProcessModelImportDialog.tsx:74-82 | a valid alias of one or two characters still has unknown validity |
| TenantPage.Keep | extensions/m8flow-frontend/src/views/TenantPage.tsx:101-112 | the filter keeps exactly the tenants that pass the test, each as often as it occurs, and no others |
| TenantPage.KeepAppend | extensions/m8flow-frontend/src/views/TenantPage.tsx:101-112 | filtering `a + b` keeps the tenants of `a` before those of `b`, so the order is kept |
| TenantPage.KeepOne | extensions/m8flow-frontend/src/views/TenantPage.tsx:101-112 | one tenant is kept exactly when it passes the test |
| TenantPage.MatchesSearch | extensions/m8flow-frontend/src/views/TenantPage.tsx:100-106 | no contract of its own; the lower-cased field contains the lower-cased query (`FilteredMembers`) |
| TenantPage.Filtered | extensions/m8flow-frontend/src/views/TenantPage.tsx:95-113 | no contract of its own; the search filter for a query that trims to something, then the status filter, stated by `FilteredMembers` and `BlankQueryKeepsAll` |
| TenantPage.TenantList.HasActiveFilters | extensions/m8flow-frontend/src/views/TenantPage.tsx:156 | no contract of its own; a non-empty raw query or a status other than "all" (`ClearFilters`, `BlankQueryActiveButInert`) |
| TenantPage.FilteredMembers | extensions/m8flow-frontend/src/views/TenantPage.tsx:96-113 | the filters keep exactly the tenants that match the trimmed-non-empty query and the status, and add none |
| TenantPage.BlankQueryKeepsAll | extensions/m8flow-frontend/src/views/TenantPage.tsx:99 | a query of white space with the status "all" hides nothing |
| TenantPage.SortTenants | extensions/m8flow-frontend/src/views/TenantPage.tsx:116-125 | the sort leaves the array ordered by the lower-cased field in the chosen direction, and a permutation of what it was |
| TenantPage.NextSort | extensions/m8flow-frontend/src/views/TenantPage.tsx:138-145 | the clicked field becomes the sort field; the same field flips the direction, and another field sorts ascending |
| TenantPage.NextSortTwice | extensions/m8flow-frontend/src/views/TenantPage.tsx:138-145 | clicking the same header twice restores the direction |
| TenantPage.TenantList.constructor | extensions/m8flow-frontend/src/views/TenantPage.tsx:56-62 | the page starts with an empty query, name search, status "all", and name ascending |
| TenantPage.TenantList.HandleSort | extensions/m8flow-frontend/src/views/TenantPage.tsx:138-145 | the sort becomes the next sort, and the filters are unchanged |
| TenantPage.TenantList.ClearFilters | extensions/m8flow-frontend/src/views/TenantPage.tsx:148-154 | clearing restores the initial settings, after which no filter is active |
| TenantPage.TenantList.FilteredAndSorted | extensions/m8flow-frontend/src/views/TenantPage.tsx:95-135 | the result is sorted, holds exactly the tenants shown, and is a permutation of the filtered list |
| TenantPage.BlankQueryActiveButInert | extensions/m8flow-frontend/src/views/TenantPage.tsx:99-156 | a white-space query counts as an active filter yet hides no tenant |
| TaskGrouping.Members | extensions/m8flow-frontend/src/contexts/CustomGroupingContext.tsx:35-42 | a group's members are exactly the tasks of that key |
| TaskGrouping.GroupTasks | extensions/m8flow-frontend/src/contexts/CustomGroupingContext.tsx:35-42 | the `reduce` throws exactly when some task's key cannot be computed or names a property an object inherits; otherwise it produces the grouping of the tasks by the key, each group in input order |
| TaskGrouping.PartitionsExact | extensions/m8flow-frontend/src/hooks/useExtendedGrouping.tsx:54-67 | every task sits in its own key's group and in no other, and no group is empty |
| TaskGrouping.PartitionsUnique | extensions/m8flow-frontend/src/hooks/useExtendedGrouping.tsx:54-67 | there is only one grouping of a task list by a key |
| TaskGrouping.LastSegment | extensions/m8flow-frontend/src/contexts/CustomGroupingContext.tsx:36 | `split('/').pop()` holds no `/` |
| TaskGrouping.ParentPath | extensions/m8flow-frontend/src/hooks/useExtendedGrouping.tsx:56-59 | no contract of its own; `split('/').slice(0, -1).join('/')`, stated by `ReassembleIdentifier`, `TopLevelIdentifier` and `IdentifierHalves` |
| TaskGrouping.ReassembleIdentifier | extensions/m8flow-frontend/src/hooks/useExtendedGrouping.tsx:56-59 | an identifier with a `/` is its parent path, a `/`, and its last segment |
| TaskGrouping.TopLevelIdentifier | extensions/m8flow-frontend/src/hooks/useExtendedGrouping.tsx:56-59 | an identifier without a `/` has the parent path `""` and is its own last segment |
| TaskGrouping.IdentifierHalves | extensions/m8flow-frontend/src/hooks/useExtendedGrouping.tsx:56-59 | `group/name` has parent path `group` and last segment `name` |
| CustomGroupingContext.ModelNameKey | extensions/m8flow-frontend/src/contexts/CustomGroupingContext.tsx:36 | the key is non-empty and slash-free; it is "Unknown" without an identifier or with an empty last segment |
| CustomGroupingContext.GroupByModelName | extensions/m8flow-frontend/src/contexts/CustomGroupingContext.tsx:34-43 | the built-in handler throws exactly when some model name is an inherited property name, and otherwise groups the tasks by model name |
| CustomGroupingContext.ConstructorModelThrows | extensions/m8flow-frontend/src/contexts/CustomGroupingContext.tsx:36-40 | a model named `constructor` gives a key the accumulator inherits, so the handler throws |
| CustomGroupingContext.ModelNameOfPath | extensions/m8flow-frontend/src/contexts/CustomGroupingContext.tsx:36 | a task of model `group/name` is filed under `name` |
| CustomGroupingContext.Find | extensions/m8flow-frontend/src/contexts/CustomGroupingContext.tsx:59 | `find` gives the first option with the label, and nothing when none has it |
| CustomGroupingContext.Register | extensions/m8flow-frontend/src/contexts/CustomGroupingContext.tsx:49-55 | an option whose label is taken is ignored, and any other is appended |
| CustomGroupingContext.RegisterKeepsUnique | extensions/m8flow-frontend/src/contexts/CustomGroupingContext.tsx:48-56 | registering keeps the earlier options and unique labels, and makes the label present |
| CustomGroupingContext.RegisterIdempotent | extensions/m8flow-frontend/src/contexts/CustomGroupingContext.tsx:48-56 | registering an option twice is registering it once |
| CustomGroupingContext.IsCustomOption | extensions/m8flow-frontend/src/contexts/CustomGroupingContext.tsx:66-68 | a label is custom exactly when some option has it |
| CustomGroupingContext.GetHandler | extensions/m8flow-frontend/src/contexts/CustomGroupingContext.tsx:58-60 | a handler comes only from an option with the label |
| CustomGroupingContext.GetHeaderText | extensions/m8flow-frontend/src/contexts/CustomGroupingContext.tsx:62-64 | a header text comes only from an option with the label |
| CustomGroupingContext.RegisterOption | extensions/m8flow-frontend/src/contexts/CustomGroupingContext.tsx:48-56 | with a provider, the updater is applied; without one, nothing changes |
| CustomGroupingContext.LookupUnique | extensions/m8flow-frontend/src/contexts/CustomGroupingContext.tsx:58-64 | with unique labels, the lookups return the fields of the one option with that label |
| CustomGroupingContext.NoProviderFallback | extensions/m8flow-frontend/src/contexts/CustomGroupingContext.tsx:83-96 | without a provider there are no options, no custom labels and no handler or header, and registering is ignored |
| CustomGroupingContext.GroupingProvider.constructor | extensions/m8flow-frontend/src/contexts/CustomGroupingContext.tsx:30-46 | the provider starts with the built-in option alone |
| CustomGroupingContext.GroupingProvider.Register | extensions/m8flow-frontend/src/contexts/CustomGroupingContext.tsx:48-56 | the provider's state becomes the registered list |
| CustomGroupingContext.InitialOptions | extensions/m8flow-frontend/src/contexts/CustomGroupingContext.tsx:30-46 | "Custom Grouping" is the one initial custom label, with the model-name handler and its header text |
| UseExtendedGrouping.Captions | extensions/m8flow-frontend/src/hooks/useExtendedGrouping.tsx:40 | the labels of the options, in order |
| UseExtendedGrouping.GroupByOptions | extensions/m8flow-frontend/src/hooks/useExtendedGrouping.tsx:36-43 | the options are responsible party, then process group, then every custom label in registry order |
| UseExtendedGrouping.ResponsiblePartyKey | extensions/m8flow-frontend/src/hooks/useExtendedGrouping.tsx:83-84 | the key is the assigned group when it is truthy, and otherwise the synthetic "me" key |
| UseExtendedGrouping.ProcessGroupKey | extensions/m8flow-frontend/src/hooks/useExtendedGrouping.tsx:56-59 | no contract of its own; the identifier without its last segment (`GroupAndModelName`, `KeysReassemble`); a missing identifier throws in `OnGroupBySelect` |
| UseExtendedGrouping.GroupAndModelName | extensions/m8flow-frontend/src/hooks/useExtendedGrouping.tsx:56-59 | model `group/name` falls in process group `group` and has the model name `name` |
| UseExtendedGrouping.KeysReassemble | extensions/m8flow-frontend/src/hooks/useExtendedGrouping.tsx:56-59 | the process-group key, a `/` and the model-name key rebuild the identifier |
| UseExtendedGrouping.BranchOf | extensions/m8flow-frontend/src/hooks/useExtendedGrouping.tsx:53-94 | the branch taken follows the order process group, `""`, custom, responsible party |
| UseExtendedGrouping.CustomShadowsResponsibleParty | extensions/m8flow-frontend/src/hooks/useExtendedGrouping.tsx:72-80 | a custom option with the responsible-party label wins over the built-in grouping |
| UseExtendedGrouping.ApplyHandler | extensions/m8flow-frontend/src/hooks/useExtendedGrouping.tsx:75-78 | the built-in handler groups the tasks by model name or throws on an inherited name, and a registered one gives its own grouping |
| UseExtendedGrouping.GroupingState.constructor | extensions/m8flow-frontend/src/hooks/useExtendedGrouping.tsx:46-51 | nothing is grouped or selected at the start |
| UseExtendedGrouping.GroupingState.OnGroupBySelect | extensions/m8flow-frontend/src/hooks/useExtendedGrouping.tsx:46-97 | without tasks nothing changes; otherwise the selection is set and each branch sets the grouping it specifies; a grouping throws exactly when a task lacks the identifier (process-group branch) or a key is an inherited name, and then the grouped tasks stay as they were |
| TemplateGalleryPage.InitialQuery | extensions/m8flow-frontend/src/views/TemplateGalleryPage.tsx:19-27 | the first fetch asks only for `latest_only=true` |
| TemplateGalleryPage.Insert | extensions/m8flow-frontend/src/views/TemplateGalleryPage.tsx:44-45 | inserting keeps the list ascending and adds exactly the one element |
| TemplateGalleryPage.SortStrings | extensions/m8flow-frontend/src/views/TemplateGalleryPage.tsx:44-45 | `sort()` gives an ascending permutation |
| TemplateGalleryPage.Add | extensions/m8flow-frontend/src/views/TemplateGalleryPage.tsx:36-39 | `Set.add` keeps members once each, and adds exactly the new one |
| TemplateGalleryPage.AvailableFacets | extensions/m8flow-frontend/src/views/TemplateGalleryPage.tsx:30-47 | the choices are strictly ascending and are exactly the truthy categories and the tags of the templates |
| TemplateGalleryPage.FacetsDetermined | extensions/m8flow-frontend/src/views/TemplateGalleryPage.tsx:30-47 | any two sorted lists of the offered categories agree |
| TemplateGalleryPage.StrictlyAscendingUnique | extensions/m8flow-frontend/src/views/TemplateGalleryPage.tsx:44-45 | a strictly ascending list is determined by its members |
| TemplateGalleryPage.EmptyHint | extensions/m8flow-frontend/src/views/TemplateGalleryPage.tsx:113-115 | the "adjust your filters" hint shows exactly when the filters have more than one key |
| TemplateGalleryPage.InitialHint | extensions/m8flow-frontend/src/views/TemplateGalleryPage.tsx:19-21 | the initial filters have one key, so an empty first listing says nothing is available |
| TemplateGalleryPage.AnyChoiceCountsAsFiltering | extensions/m8flow-frontend/src/views/TemplateGalleryPage.tsx:113-115 | after any filter change, even one that clears a field, the hint is "adjust your filters" |
| TemplateGalleryPage.PageOf | extensions/m8flow-frontend/src/views/TemplateGalleryPage.tsx:79-130 | a lone spinner exactly while the first list loads; then a spinner, the empty-state hint, or all the templates |
| TemplateGalleryPage.GalleryShowsFetchedList | extensions/m8flow-frontend/src/views/TemplateGalleryPage.tsx:50-52 | once loaded, a non-empty list is shown whole, and an empty one shows the hint |
| TemplateGalleryPage.FailedFetchShowsBanner | extensions/m8flow-frontend/src/views/TemplateGalleryPage.tsx:73-77 | a failed listing raises the banner with the hook's message, except exactly when the thrown message is empty |
| TemplateGalleryPage.NoBannerWithoutError | extensions/m8flow-frontend/src/views/TemplateGalleryPage.tsx:73-77 | no error, and an empty error, raise no banner |
| TemplateFilterBar.FromChoice | extensions/m8flow-frontend/src/components/TemplateFilters.tsx:66-92 | a choice of `""` becomes an explicit `undefined`, any other choice is kept, and the key is present either way |
| TemplateFilterBar.CategoryChange | extensions/m8flow-frontend/src/components/TemplateFilters.tsx:66-71 | only the category changes, to the choice or to `undefined` |
| TemplateFilterBar.VisibilityChange | extensions/m8flow-frontend/src/components/TemplateFilters.tsx:73-78 | only the visibility changes, to the choice or to `undefined` |
| TemplateFilterBar.TagChange | extensions/m8flow-frontend/src/components/TemplateFilters.tsx:80-85 | only the tag changes, to the choice or to `undefined` |
| TemplateFilterBar.OwnerChange | extensions/m8flow-frontend/src/components/TemplateFilters.tsx:87-92 | only the owner changes, to the choice or to `undefined` |
| TemplateFilterBar.DebouncedSearch | extensions/m8flow-frontend/src/components/TemplateFilters.tsx:53-55 | the latest filters, with only the search replaced |
| TemplateFilterBar.DeleteChip | extensions/m8flow-frontend/src/components/TemplateFilters.tsx:181-211 | deleting a chip hides that chip and leaves every other chip as it was |
| TemplateFilterBar.ChipShown | extensions/m8flow-frontend/src/components/TemplateFilters.tsx:181-211 | no contract of its own; a chip shows exactly for a truthy field (`DeleteChip`) |
| TemplateFilterBar.ChipCaption | extensions/m8flow-frontend/src/components/TemplateFilters.tsx:181-211 | no contract of its own; `Search: `, `Category: `, `Visibility: ` or `Tag: `, then the field's value |
| TemplateFilterBar.DeleteChipClears | extensions/m8flow-frontend/src/components/TemplateFilters.tsx:184-209 | deleting a chip sets its field to `undefined`, as its handler given `""` does |
| TemplateFilterBar.DeletedSearchStaysDeleted | extensions/m8flow-frontend/src/components/TemplateFilters.tsx:53-64 | emptying the search box after deleting its chip emits the same filters again |
| TemplateFilterBar.SelectShowsChoice | extensions/m8flow-frontend/src/components/TemplateFilters.tsx:66-92 | a select shows the value just chosen |
| TemplateFilterBar.LastChoiceWins | extensions/m8flow-frontend/src/components/TemplateFilters.tsx:66-92 | for a field, the last choice wins |
| TemplateFilterBar.ChangesCommute | extensions/m8flow-frontend/src/components/TemplateFilters.tsx:66-92 | changes to different fields commute |
| TemplateFilterBar.ChangeKeyCount | extensions/m8flow-frontend/src/components/TemplateFilters.tsx:66-92 | a change adds the field's key when it was missing and never removes one |
| TemplateCard.VisibilityColor | extensions/m8flow-frontend/src/components/TemplateCard.tsx:24-34 | public is primary, tenant is secondary, and private is default, in both directions |
| TemplateCard.LabelFollowsWireName | extensions/m8flow-frontend/src/components/TemplateCard.tsx:36-46 | the label is the wire name with the letters after the first lower-cased |
| TemplateCard.LabelsDistinct | extensions/m8flow-frontend/src/components/TemplateCard.tsx:36-46 | distinct visibilities have distinct labels |
| TemplateCard.VisibilityLabel | extensions/m8flow-frontend/src/components/TemplateCard.tsx:36-46 | no contract of its own; Public, Tenant or Private, stated by `LabelFollowsWireName` and `LabelsDistinct` |
| TemplateCard.DescriptionText | extensions/m8flow-frontend/src/components/TemplateCard.tsx:118 | the description when it is truthy, and otherwise `--` |
| TemplateCard.CategoryChip | extensions/m8flow-frontend/src/components/TemplateCard.tsx:120-127 | the chip shows exactly for a truthy category, as `Category: …` |
| TemplateCard.TagRowOf | extensions/m8flow-frontend/src/components/TemplateCard.tsx:128-146 | no row for missing or empty tags; otherwise the first three tags, and a count chip exactly when there are more |
| TemplateCard.TagRowAccountsForEveryTag | extensions/m8flow-frontend/src/components/TemplateCard.tsx:130-141 | the shown tags and the positive count on the `+N` chip account for every tag |
| TemplateCard.MoreLabel | extensions/m8flow-frontend/src/components/TemplateCard.tsx:141 | no contract of its own; the `+N` caption, whose count `TagRowAccountsForEveryTag` states |
| TemplateCard.DetailPathInjective | extensions/m8flow-frontend/src/components/TemplateCard.tsx:66 | distinct templates open distinct detail pages |
| TemplateCard.DetailPath | extensions/m8flow-frontend/src/components/TemplateCard.tsx:66 | no contract of its own; `/templates/<id>`, which `DetailPathInjective` proves injective |
| TemplateCard.Activate | extensions/m8flow-frontend/src/components/TemplateCard.tsx:60-75 | the callback is called when it is given, and then the card navigates to the detail page |
| TemplateCard.ActionsAgree | extensions/m8flow-frontend/src/components/TemplateCard.tsx:60-75 | both actions lead to the same page |
| UseDiagramImport.HighlightRule | extensions/m8flow-frontend/src/components/useDiagramImport.ts:53-63 | a task can be highlighted exactly when it is not a multi-instance child and has none of the three names and none of the fragments |
| UseDiagramImport.IsMultiInstanceChild | extensions/m8flow-frontend/src/components/useDiagramImport.ts:49-51 | no contract of its own; the runtime info has an own `iteration` key (`MultiInstanceChildUntouched`) |
| UseDiagramImport.CanBeHighlighted | extensions/m8flow-frontend/src/components/useDiagramImport.ts:53-63 | no contract of its own; stated in both directions by `HighlightRule` |
| UseDiagramImport.FragmentAnywhereBlocks | extensions/m8flow-frontend/src/components/useDiagramImport.ts:58-61 | a fragment anywhere in the id rules the task out |
| UseDiagramImport.ClassNamesDistinct | extensions/m8flow-frontend/src/components/useDiagramImport.ts:161-170 | the four classes are distinct and non-empty |
| UseDiagramImport.StateClasses | extensions/m8flow-frontend/src/components/useDiagramImport.ts:161-171 | which states get which highlight, and that every other state gets none |
| UseDiagramImport.HighlightOf | extensions/m8flow-frontend/src/components/useDiagramImport.ts:161-171 | no contract of its own; the state-to-class table, stated by `StateClasses` |
| UseDiagramImport.MarkerCalls | extensions/m8flow-frontend/src/components/useDiagramImport.ts:71-79 | a task gets at most one marker: exactly when it can be highlighted, has a class and is in the diagram |
| UseDiagramImport.OverlayEligible | extensions/m8flow-frontend/src/components/useDiagramImport.ts:95-184 | no contract of its own; a call activity whose state is not FUTURE, LIKELY or MAYBE, not a multi-instance child, with a click handler given, in the read-only diagram (`OverlayCalls`) |
| UseDiagramImport.OverlayCalls | extensions/m8flow-frontend/src/components/useDiagramImport.ts:95-134 | a task gets at most one overlay: exactly when it is an eligible call activity in the diagram |
| UseDiagramImport.OnImportDone | extensions/m8flow-frontend/src/components/useDiagramImport.ts:145-187 | an error is reported and nothing is drawn; DMN draws nothing; otherwise a zoom, then the task calls |
| UseDiagramImport.VisitTask | extensions/m8flow-frontend/src/components/useDiagramImport.ts:160-185 | one pass makes the task's marker and then its overlay |
| UseDiagramImport.MarkersJustified | extensions/m8flow-frontend/src/components/useDiagramImport.ts:160-185 | every marker is for some task that can be highlighted, in its state's class, of the diagram |
| UseDiagramImport.MarkersComplete | extensions/m8flow-frontend/src/components/useDiagramImport.ts:160-185 | every such task gets its marker |
| UseDiagramImport.OverlaysJustified | extensions/m8flow-frontend/src/components/useDiagramImport.ts:179-184 | every overlay is on an eligible call activity of the diagram |
| UseDiagramImport.OverlaysComplete | extensions/m8flow-frontend/src/components/useDiagramImport.ts:179-184 | every such call activity gets its overlay |
| UseDiagramImport.MultiInstanceChildUntouched | extensions/m8flow-frontend/src/components/useDiagramImport.ts:49-51 | a multi-instance child gets neither a marker nor an overlay |
| UseDiagramImport.TaskCallsBound | extensions/m8flow-frontend/src/components/useDiagramImport.ts:160-185 | the walk makes at most two calls per task and never zooms |
| UseDiagramImport.TaskCalls | extensions/m8flow-frontend/src/components/useDiagramImport.ts:160-185 | no contract of its own; the calls the walk makes, stated by `MarkersJustified`, `MarkersComplete`, `OverlaysJustified` and `OverlaysComplete` |
| UseDiagramImport.RunEffect | extensions/m8flow-frontend/src/components/useDiagramImport.ts:42-43 | the effect is skipped without a modeler or during XML updates; otherwise the first truthy source is loaded, and the blank diagram is DMN exactly for `dmn` |
| UseDiagramImport.SourcePrecedence | extensions/m8flow-frontend/src/components/useDiagramImport.ts:224-237 | XML, then URL, then file name; once one is truthy the later ones are ignored |
| UseDiagramImport.BlankFallback | extensions/m8flow-frontend/src/components/useDiagramImport.ts:238-245 | the blank diagram depends on the diagram type alone |
| UseDiagramImport.BlankPath | extensions/m8flow-frontend/src/components/useDiagramImport.ts:238-245 | no contract of its own; `/new_dmn_diagram.dmn` for DMN and `/new_bpmn_diagram.bpmn` otherwise (`RunEffect`, `BlankFallback`) |
| UseDiagramImport.Placeholder | extensions/m8flow-frontend/src/components/useDiagramImport.ts:189-198 | no contract of its own; the placeholder a blank diagram's text handler replaces, and the prefix of the id it puts there |
| UseConfig.TrueText | extensions/m8flow-frontend/src/utils/useConfig.ts:34 | text lower-cases to `true` exactly when it is those four letters in any case |
| UseConfig.RuntimeTerm | extensions/m8flow-frontend/src/utils/useConfig.ts:25-28 | no contract of its own; `false` without a window, else the runtime setting or `undefined` (`NoWindowIsOff`) |
| UseConfig.RawText | extensions/m8flow-frontend/src/utils/useConfig.ts:33-34 | no contract of its own; `String(runtime ?? build ?? '')`, where `??` keeps `false` and `""` (`EmptyRuntimeSettingIsOff`) |
| UseConfig.EnableMultitenant | extensions/m8flow-frontend/src/utils/useConfig.ts:25-34 | no contract of its own; the flag, stated by `RuntimeSettingWins`, `EmptyRuntimeSettingIsOff`, `NoWindowIsOff`, `BuildSettingFallback` and `CaseButNoTrim` |
| UseConfig.RuntimeSettingWins | extensions/m8flow-frontend/src/utils/useConfig.ts:25-34 | a runtime setting decides the flag, and the build setting is then ignored |
| UseConfig.EmptyRuntimeSettingIsOff | extensions/m8flow-frontend/src/utils/useConfig.ts:33-34 | an empty runtime setting turns the flag off, even when the build setting is `true` |
| UseConfig.NoWindowIsOff | extensions/m8flow-frontend/src/utils/useConfig.ts:25-34 | without a window the flag is off |
| UseConfig.BuildSettingFallback | extensions/m8flow-frontend/src/utils/useConfig.ts:29-34 | without a runtime setting the build setting decides, and without either the flag is off |
| UseConfig.CaseButNoTrim | extensions/m8flow-frontend/src/utils/useConfig.ts:34 | case does not matter, but surrounding spaces do |

## Left out

- Asynchrony is not modelled. Promises, React re-rendering, `useMemo` and `useCallback` dependencies, the 300 ms debounce, the refs and the search box's own `searchText` state are left out. Each handler is one atomic step, and callbacks are separate methods called with what the backend answered.
- I/O stays outside the model. Backend calls, `fetch` and the file system appear only as parameters and returned values: `fs.existsSync` is a set of paths, and `this.resolve` is the returned `Redirect`.
- The parts of bpmn-js are left out: the canvas, the overlay DOM, the SVG icon and `getBpmnProcessIdentifiers`, which is a parameter. The `try`/`catch` that swallows bpmn-js's "reading 'id'" error is also left out, so such an error cannot occur in the model.
- `makeid`'s randomness and the `replaceAll` that fills the placeholder of a blank diagram are left out. The model records which blank diagram is fetched, and the placeholder.
- Three JavaScript built-ins are simplified. `localeCompare` and the default `sort` comparison become the order `Text.Less`, and `toLowerCase` folds ASCII letters only. `JSON.stringify` and URL encoding are the parameters `encode` and `escape`.
- Strings are sequences of Unicode scalar values, not of UTF-16 code units. A character outside the Basic Multilingual Plane is one character here but two code units in JavaScript. So `Text.Less` and JavaScript's `sort` can order such characters differently, and every length test (such as the three-character minimum in `ProcessModelImportDialog.SourceValidity`) counts them differently.
- TenantPage.SortTenants: it does not state stability. Tenants with equal keys may appear in any order, whereas `Array.prototype.sort` keeps them in their original order.
- TaskGrouping.GroupTasks: a group is a map from key to tasks, so the model does not capture the insertion order of the group keys. A key that names a property inherited from `Object.prototype` (`constructor`, `toString`, `__proto__` and the others in `InheritedNames`) is modelled as the `TypeError` the source throws.
- UseExtendedGrouping.ApplyHandler: a registered handler is an uninterpreted function of its name and the tasks. Only the built-in model-name handler is modelled in full.
- UseExtendedGrouping.GroupingState.OnGroupBySelect: a thrown grouping is modelled as the `threw` result. Where the exception goes after it leaves the handler is not modelled.
- ProcessModelImportDialog.FailureText: a truthy `message` that is not a string is shown as its `String` text. That text can be empty (for `[]`), and React's rendering of such a value is not modelled.
- TemplateService.FailureMessage: a `message` that is not a string is modelled as its already-converted text, not as JavaScript's `String` conversion.
- TemplateService.BuildHeaders: the header object is a record with one optional field per header, not a dictionary built by successive assignments.
- The `TemplateFilters` fields model a missing key and an explicit `undefined`, but not `null`. The types do not allow `null` there.
- `VISIBILITY_OPTIONS` and the i18n lookups shape only what the user can click. Visibility is a three-valued datatype, and the labels are parameters.
- The `default` branch of the visibility switches in the card is left out. A typed visibility cannot reach it.
- The card's `TimeAgo` and version text, the `console.log` calls and the no-op `handleUseTemplate` of the gallery print or show text only, and are left out.
- The tenant page's modal (edit or delete, close, refetch) and the `STATUS_COLORS` table are presentation only, and are left out.
- `useTenants`, `TenantService` and the core hooks that the extension hooks wrap are not part of this model.
- Node's `path` module is modelled on normalised absolute paths given as segment lists (`Paths`). Relative importers are resolved from the working directory, and Windows paths are left out.
