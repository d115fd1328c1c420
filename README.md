# YABS and myst.js in Dafny

This project models two things from the myst.js repository:

- **YABS** (`build.js`), the repository's build tool. It reads a JSON build description and builds from it, either a single build or a batch of them. A single build:
  - gathers three manifests: files to copy, JavaScript sources to compile, and HTML pages to rewrite;
  - checks that every source exists;
  - stamps the source headers with JSDoc tags and the year;
  - copies the stale files;
  - runs each source through the optional preprocessor and then the compiler, prepending its header;
  - rewrites the `<script src>` lines of each HTML page to point at the compiled outputs.
- **The core of the myst.js game library** (`src/myst.js`) and parts of its demos:
  - the pure helpers `compose`, `clamp`, `pointInRect` and `getFilenameExtension`;
  - `Grid2D`, `Timer`, `KeyInput`;
  - the pointer-callback lists of `Input`;
  - the asset loader's `get` and its load count;
  - the `Font` widths table;
  - the `State`/`Game` lifecycle and `setViewMode`;
  - the example browser's database (`examples/app/src/db.js`);
  - `getBMPTextWidth` (`demo/zakk/src/util.js`);
  - `World.loadLevel` (`demo/zakk/src/world.js`);
  - the load screen's `EmulatedConsole` (`demo/zakk/src/load_state.js`).

**How the build is modelled.**

- The file system is a read-only tree value (`FileSystem.Fs`).
- Everything a build does to disk is recorded as a log of `Effects.Effect` values: copy, write, remove, preprocess, compile.
- The clock and the current year are parameters.
- These outside routines are opaque functions carried by `ExternalTools.Tools`:
  - JSON parsing;
  - JSDoc tag scanning;
  - the `<script src>` regular expression;
  - the preprocessor (metascript) and the compiler (uglify-js).
- Each operation that the source writes as a loop is a method. Its `ensures` ties it to a specification function, and the lemmas are proved about those functions.

**How the library is modelled.**

- Objects whose fields the source updates become classes: `Grid2D`, `Timer`, `KeyInput`, `Input`, `AssetLoader`, `State`, `Game`, `World`, `EmulatedConsole` and the database.
- JavaScript numbers that can become `NaN` are `JsNumbers.Number`.

## Model

| member | source | states |
|---|---|---|
| Paths.ExtOf | build.js:708-716 | `path.parse(...).ext`: empty or a dot followed by no other dot; it is a proper suffix of the base name |
| Paths.NameOf | build.js:708-716 | `path.parse(...).name`: the name followed by the extension is the base name |
| Paths.StrBase | build.js:312-315 | the base of a description file's path contains no slash |
| FileSystem.FindEntry | build.js:131-170 | a directory entry is found exactly when some entry has the name, and it is that entry's node |
| FileSystem.LookupChild | build.js:131-170 | every child listed in a directory is reached by appending its name to the directory's path |
| FileSystem.ReadFile | build.js:316-317 | reading succeeds exactly when the path names a file, and it yields that file's content |
| FileSystem.IsSourceNewer | build.js:110-114 | with one reading of the clock, the source is newer exactly when its mtime is at least 1000 ms later than the destination's |
| Expansion.MaskShapes | build.js:633-643 | for a last component named `*`: `*` is recursive, `*.*` is any file, `*.` is no mask, and `*.ext` filters by that extension |
| Expansion.GetFiles | build.js:131-170 | the descent fails exactly when the source directory does not exist |
| Expansion.GetFilesWithRecursiveDescent | build.js:131-172 | a missing source directory is an error; otherwise the walk over the listing returns exactly the specification's pairs, in listing order |
| Expansion.EntryPairs | build.js:137-168 | one listing entry yields the specification's pairs: a subdirectory's own pairs under the recursive mask only, a file when the mask accepts its extension and its destination is missing or older |
| Expansion.ExpandSound | build.js:131-170 | every pair produced maps a file under the source directory that the mask accepts and whose destination is stale |
| Expansion.ExpandComplete | build.js:131-170 | every such file yields its pair |
| Expansion.GetFilesExactly | build.js:131-170 | the result is exactly the accepted, stale files under the directory, each with its destination |
| JsonValues.GetOwn | build.js:320-352 | `hasOwnProperty` plus a read: an object member is present exactly when it is a key; primitives have no members |
| JsonValues.StringItems | build.js:363-377 | the items of an all-string array, in order |
| Effects.Then | build.js:1004-1054 | a failed first step stops the sequence; otherwise the effects are concatenated and the second step's error is the result |
| BuildConfiguration.BatchItem | build.js:325-345 | a string entry is a job with no options; an object entry is a job only when its `file` is truthy |
| BuildConfiguration.StringList | build.js:363-377 | a string is a one-element list; an array must hold strings only (else the given error); anything else is no list |
| BuildConfiguration.Listing | build.js:363-377 | an absent member is an empty listing; a present one fails exactly when its list fails |
| BuildConfiguration.VariableMap | build.js:433-449 | a variables object fails exactly when some array member is not all strings; it keeps exactly the array members |
| BuildConfiguration.SourceItem | build.js:378-490 | a string is a plain source; an object gives its own fields; anything else is skipped |
| BuildConfiguration.BuildConfig.constructor | build.js:312-315 | the description's base name and directory are recorded, and no listing yet |
| BuildConfiguration.BuildConfig.PushBatchEntries | build.js:324-346 | the batch listing becomes the specification's filtered entries |
| BuildConfiguration.BuildConfig.PushSourceEntries | build.js:378-490 | the sources listing is the specification's, or its first error is returned |
| BuildConfiguration.BuildConfig.Configure | build.js:312-506 | the configuration succeeds exactly when the specification does, and then holds its data |
| BuildConfiguration.BuildConfig.ConfigureLists | build.js:363-506 | the HTML, sources and files listings are read in that order; the first malformed one is the error, and otherwise the fields hold the single description |
| BuildConfiguration.SourcesErrorPersists | build.js:378-490 | once an entry of `sources` fails, the whole listing fails with that error |
| BuildConfiguration.LoadBuildConfig | build.js:312-506 | loading fails exactly on an unreadable file, unparsable JSON or a bad description; otherwise the object holds the description's data |
| BuildConfiguration.ConfigShape | build.js:320-362 | `batch_build` must be an array; without it, `source_dir` and then `destination_dir` are required; a single build keeps both |
| BuildConfiguration.SingleListings | build.js:363-490 | absent `html`, `sources` and `files` are empty; a string is a one-item list; a mixed `html` array and a non-array `sources` are errors |
| BuildConfiguration.BatchListingFilters | build.js:324-346 | the batch listing holds exactly the entries that make jobs |
| BuildConfiguration.UnresolvedReferences | build.js:416-432 | a `use_header` naming no shared header leaves the source without one |
| BuildConfiguration.OwnHeaderWins | build.js:405-415 | a source's own `header` is used and `use_header` is ignored |
| BuildSpec.LayoutOf | build.js:353-362 | the layout exists exactly when both directories are strings |
| BuildSpec.MissingError | build.js:773-786 | there is no error exactly when every checked source exists |
| BuildSpec.Copies | build.js:825-840 | one copy per manifest pair, in order |
| BuildSpec.StepsShape | build.js:1030-1047 | the copies, then the compiles, then the HTML pages; a compile error stops the sequence before the HTML |
| BuildSpec.UpdatesConcat | build.js:825-840 | the count of updated files adds up over concatenated logs |
| BuildSpec.NoUpdates | build.js:878-918 | a log of preprocess runs updates no file |
| BuildSpec.FinishUpdates | build.js:925-939 | finishing a source counts one update on success and none on failure |
| BuildSpec.CompileOneUpdates | build.js:842-945 | compiling one source counts one update on success and none on failure |
| BuildSpec.SuccessfulBuildCount | build.js:1004-1054 | a successful build updates exactly as many files as the three manifests hold |
| BuildSpec.CopiesCount | build.js:825-840 | every copy counts one update |
| BuildSpec.CompileAllCount | build.js:842-945 | a successful compile step updates one file per source |
| BuildSpec.HtmlAllCount | build.js:947-999 | a successful HTML step updates one file per page |
| BuildSpec.PreparationFailureTouchesNothing | build.js:1004-1029 | a failure while gathering manifests, checking sources or reading headers changes no file |
| BuildSpec.SuccessShape | build.js:1004-1054 | a successful build is its copies, then its compiles, then its pages |
| BuildSpec.SuccessfulBuildWrites | build.js:1004-1054 | after a successful build, every file pair has been copied and every source and page destination written |
| BuildSpec.CompileAllWrites | build.js:925-939 | each source's destination is written when the step succeeds |
| BuildSpec.HtmlAllWrites | build.js:947-999 | each page's destination is written when the step succeeds |
| BuildSpec.FirstMissingConcat | build.js:773-786 | the first missing source of concatenated lists is found in the first list before the second |
| Manifests.SourceItemOf | build.js:684-738 | a masked entry is skipped; the output is `output_file`'s base or the name with the compiled extension; a source that is its own destination is an error |
| Manifests.HtmlEntry | build.js:740-759 | a masked page is skipped; a page that is its own destination is an error |
| Manifests.FirstMissing | build.js:773-786 | none missing exactly when every source exists; otherwise it names a listed source that does not exist |
| Manifests.PlainEntryGuardUnreachable | build.js:651-680 | a plain `files` entry fails exactly when its source does not exist |
| Manifests.PlainEntryTaken | build.js:651-680 | an existing plain entry gives its pair exactly when it is a file and its destination is stale |
| Manifests.MaskedEntryShapes | build.js:624-650 | a mask outside the last component, or `*.`, gives nothing; a well-formed mask gives its directory's descent |
| Manifests.FilesManifestOrder | build.js:621-682 | the pairs of a listing's prefix come first, in listing order |
| Manifests.Unmasked | build.js:687-690 | the sources kept hold no `*` |
| Manifests.SourcesManifestKeeps | build.js:684-738 | the compile manifest holds one item per unmasked entry, in order |
| Strings.SubstitutionPlain | build.js:817 | a replacement without `$` is inserted exactly as written, whatever the match |
| Strings.ReplaceAllPlain | build.js:817 | for a replacement without `$`, the global replace inserts it literally at each non-overlapping occurrence, found left to right |
| Strings.ReplaceAllAbsent | build.js:817 | replacing a pattern that does not occur changes nothing, whatever the replacement |
| Strings.ReplaceAllJoin | build.js:820 | pieces without the pattern's first character joined by the pattern come out joined by a `$`-free replacement |
| Strings.ReplaceAllSingle | build.js:817 | a string holding the pattern once gets the replacement, expanded against that match, in its place |
| Strings.SubstitutionPattern | build.js:817 | `$$`, `$&`, `` $` `` and `$'` give a dollar sign, the match, the text before it and the text after it |
| Strings.SubstitutionPlainHead | build.js:817 | text without `$` at the head of a replacement is copied as it is |
| Strings.ReplaceFirstAt | build.js:986 | the first occurrence of the pattern is replaced by the expanded replacement and the rest kept; literally when it holds no `$` |
| Strings.ReplaceFirstAbsent | build.js:986 | a pattern that does not occur leaves the string unchanged |
| Headers.SubstituteHeader | build.js:813-821 | the line count is kept, and each line has every tag substituted in order, then every `$YEAR$`; each substitution is the global `replace` of `Strings.ReplaceAll`, values expanded as `replace` expands them |
| Headers.ProcessHeaders | build.js:791-823 | processing fails exactly when one source's header fails; otherwise each item carries its processed header |
| Headers.PlaceholderFound | build.js:799-805 | a tag placeholder in a line is detected as a variable |
| Headers.TagsLeaveLine | build.js:813-821 | a line without placeholders is left as it is, whatever the tag values |
| Headers.UnknownPlaceholderKept | build.js:815-818 | a line whose only placeholder names no tag keeps it, whatever the tag values |
| Headers.KnownReplacedUnknownKept | build.js:815-818 | in `before%k%mid%x%after`, the first tag named k replaces `%k%` (or `%k%` stays when no tag has that name), and `%x%`, naming no tag, is kept |
| Headers.SingleTagExpanded | build.js:817 | a line whose only placeholder is `%key%` gets the tag's value in its place, expanded against that match |
| Headers.MatchPatternExpanded | build.js:817 | `$&` in a tag value brings back the placeholder it replaces |
| Headers.DollarPatternExpanded | build.js:817 | `$$` in a tag value gives one dollar sign |
| Headers.SkipIsSound | build.js:799-821 | skipping the substitution when no line holds a variable changes nothing |
| Headers.HeaderErrors | build.js:791-823 | a header fails exactly when its source cannot be read for tags; no header means none |
| Headers.YearStamped | build.js:820 | once the tags are substituted, every `$YEAR$` becomes the year's decimal digits and the text between them is kept |
| Headers.YearStampedPlain | build.js:813-821 | in a line without placeholders, every `$YEAR$` becomes the year and the rest is kept |
| CompileStep.VariableParam | build.js:908-912 | a `key=value` entry fails exactly when it holds no `=` |
| CompileStep.EntriesParams | build.js:899-918 | a list of entries fails only with the missing-value error |
| CompileStep.DecidePreprocessor | build.js:878-897 | the loop decides the preprocessor exactly as the specification does |
| CompileStep.CollectParams | build.js:899-918 | the loop collects exactly the specification's parameters or error |
| CompileStep.CollectEntries | build.js:907-914 | the inner loop over one listing yields each entry's parameter in order, or fails on the first entry without '=' |
| CompileStep.EntriesParamsFail | build.js:899-918 | the entries fail exactly when one lacks `=`; the parameters are never more than the entries |
| CompileStep.EntriesFailure | build.js:908-912 | the first entry without `=` fails the whole list |
| CompileStep.EntriesErrorPersists | build.js:899-918 | a failing prefix fails the whole list |
| CompileStep.ListingsFailure | build.js:899-918 | a failing variable listing fails the parameters |
| CompileStep.ListingsErrorPersists | build.js:899-918 | a failing prefix of the variables fails them all |
| CompileStep.KeyValueParam | build.js:908-912 | `key=value` gives `-key=value`; anything after a second `=` is dropped |
| CompileStep.HeaderLines | build.js:925-939 | the compiled output's lines are the header's lines followed by the compiler's |
| CompileStep.FirstHeaderLine | build.js:925-939 | the output starts with the header's first line |
| CompileStep.CompileOneEffects | build.js:842-945 | on success the output is written and the temporary files removed; the preprocessor runs exactly when it is used; nothing happens when its parameters fail |
| HtmlRewrite.DropCarriageReturn | build.js:960 | a line without `\r` is kept |
| HtmlRewrite.SplitLines | build.js:960 | one line per `\n`-separated piece, none holding a `\n` |
| HtmlRewrite.FirstSourceMatch | build.js:974-982 | no match exactly when no manifest item has the script's source; otherwise the first such item |
| HtmlRewrite.RewriteLines | build.js:959-993 | the page split into lines, each rewritten, joined with EOL is exactly the specification's page |
| HtmlRewrite.RewriteAll | build.js:962-991 | the line loop keeps one output line per input line, in order, each the line's rewrite |
| HtmlRewrite.RewriteOneLine | build.js:963-990 | one line is rewritten exactly as the specification says |
| HtmlRewrite.FindSource | build.js:974-982 | the loop over the sources manifest stops at the first item whose source is the script's, or reports none |
| HtmlRewrite.RewriteLineUnmatched | build.js:963-990 | a line without a script, or whose script matches no source, is kept as it is |
| HtmlRewrite.RewriteLineMatched | build.js:963-990 | when the script matches a compiled source, the first occurrence of `src`, wherever it is, is replaced by the compiled destination expanded as `replace` expands it (inserted as it is when it holds no `$`), and the rest of the line is kept |
| HtmlRewrite.UnreferencedPageUnchanged | build.js:947-999 | a page whose scripts reference no compiled source is written back unchanged |
| BuildSteps.FilesEntryPairs | build.js:621-682 | one `files` entry gives exactly the specification's pairs |
| BuildSteps.VerifyManifest | build.js:773-786 | the check loop finds exactly the first missing source |
| BuildSteps.DetectVariables | build.js:799-805 | the scan finds a variable exactly when the header needs substitution |
| BuildSteps.SubstituteLines | build.js:813-821 | the loop substitutes exactly as the specification does |
| BuildSteps.CompileSource | build.js:842-945 | one source is compiled as the specification says |
| BuildSteps.CollectFilesManifest | build.js:621-682 | the files manifest loop equals the specification |
| BuildSteps.CollectSourcesManifest | build.js:684-738 | the sources manifest loop equals the specification |
| BuildSteps.CollectHtmlManifest | build.js:740-759 | the HTML manifest loop equals the specification |
| BuildSteps.ProcessOneHeader | build.js:791-823 | one header is processed as the specification says |
| BuildSteps.ProcessHeaderList | build.js:791-823 | the header loop equals the specification |
| BuildSteps.CompileAllStep | build.js:842-945 | one more source extends the compile step's outcome |
| BuildSteps.HtmlAllStep | build.js:947-999 | one more page extends the HTML step's outcome |
| BuildSteps.ThenDone | build.js:1004-1054 | an empty step after a successful sequence changes nothing |
| BuildSteps.ThenStep | build.js:1004-1054 | sequencing is associative over a successful prefix |
| BuildSteps.FilesErrorPersists | build.js:621-682 | an error in a `files` entry ends the manifest with that error |
| BuildSteps.SourcesManifestErrorPersists | build.js:684-738 | an error in a `sources` entry ends the manifest with that error |
| BuildSteps.HtmlErrorPersists | build.js:740-759 | an error in an `html` entry ends the manifest with that error |
| BuildSteps.HeadersErrorPersists | build.js:791-823 | a failing header ends the processing with that error |
| Builds.Builder.constructor | build.js:597-615 | a builder starts with empty manifests, no effects and no updates |
| Builds.Builder.BuildManifests | build.js:620-768 | the three manifests are the specification's, or its first error |
| Builds.Builder.VerifySourceFiles | build.js:773-786 | the error names the first missing source of the three manifests |
| Builds.Builder.ProcessSourceHeaders | build.js:791-823 | the sources manifest's headers are processed as specified; the rest is kept |
| Builds.Builder.UpdateFiles | build.js:825-840 | the stale files are copied and counted |
| Builds.Builder.Record | build.js:925-939 | a step's effects are logged and its update counted |
| Builds.Builder.CompileSources | build.js:842-945 | the compile loop logs the specification's effects and stops at its error |
| Builds.Builder.WriteHtmlFiles | build.js:947-999 | the page loop logs the specification's effects and stops at its error |
| Builds.Builder.WritePage | build.js:951-999 | one page: an unreadable source is the error and nothing is written; otherwise exactly one write, of the rewritten page, counted as an updated file |
| Builds.Builder.Prepare | build.js:1004-1029 | manifests, source check and headers, as the specification says |
| Builds.Builder.RunSteps | build.js:1030-1047 | copies, compiles and pages, as the specification says |
| Builds.Builder.Build | build.js:1004-1054 | the whole build logs exactly the specification's effects and returns its error |
| Builds.NewBuilder | build.js:597-615 | a builder exists exactly when both directories are strings |
| Batches.NestedBatchMessage | build.js:1124-1125 | as written, the nested-batch message is the same for every file; the corrected one names the file |
| Batches.OptionParams | build.js:1094-1105 | at most one parameter per token |
| Batches.Outcomes | build.js:1154-1179 | one outcome per job, in order |
| Batches.NoFailAccounts | build.js:1154-1179 | with `nofail` the batch never fails, and successes plus failures is the number of jobs |
| Batches.StopsAtFirstFailure | build.js:1154-1179 | without `nofail` the batch stops at the first failure and returns its error |
| Batches.ManifestSkipsEmpty | build.js:1085-1112 | one job per entry with a non-empty file name, in order, with its path joined to the description's directory |
| Batches.Named | build.js:1090 | the entries kept have file names |
| Batches.OptionParamsOf | build.js:1094-1105 | every option parameter comes from a dashed token; no dashed token gives none |
| Batches.RunJobsStep | build.js:1154-1179 | one more job extends the batch's result |
| Batches.BuildOne | build.js:1114-1130 | one job builds exactly as specified: its description is loaded, and a nested batch is refused with the corrected message `Batches.NestedBatch` of the Findings row for build.js:1125, not the literal the source throws |
| Batches.BatchBuilder.constructor | build.js:1071-1083 | the batch builder takes its listing, options and variables, with no result yet |
| Batches.BatchBuilder.BuildBatchManifest | build.js:1085-1112 | the manifest is the specification's |
| Batches.BatchBuilder.Build | build.js:1135-1147 | after the manifest is built, the batch's effects, error, successes and failures are the specification's |
| Batches.RunBatch | build.js:1149-1179 | the job loop gives the specification's run: jobs in order, stopping at the first failure unless `nofail` is set |
| Batches.ParseOptions | build.js:1094-1105 | options are the dashed tokens of the trimmed, whitespace-split string |
| Batches.KeepDashed | build.js:1094-1105 | the token loop equals the specification |
| Application.ParseParams | build.js:1219-1229 | the arguments after the second are classified as the specification says |
| Application.ParamsPartition | build.js:1219-1229 | each argument is exactly one of `--option`, `-variable` or free, in order |
| Application.InputFile | build.js:1236-1257 | a given file must exist, and an empty name never does (`fs.existsSync("")` is false), so it gives `Cannot find file: `; without a name, the build-all file is tried before the build file |
| Application.SuccessNeedsDescription | build.js:1236-1268 | a run ends without error only when its description was found and loaded, and a single build only when both directories are strings |
| Application.Run | build.js:1212-1276 | `main` produces exactly the specification's outcome |
| Application.Launch | build.js:1236-1266 | the chosen description is loaded, a load failure is the run's error, and what it describes is built |
| Application.BuildBatch | build.js:1258-1262 | a batch description's run is the batch specification's effects and error |
| Application.BuildSingle | build.js:1263-1267 | a single description fails when a directory is not a string, and otherwise its run is the single-build specification's |
| Application.NothingToBuild | build.js:1236-1257 | a missing given file, or both default files missing, is an error before anything is built |
| Application.ExtraNamesIgnored | build.js:1236-1257 | free arguments after the first are ignored |
| Common.LastWith | src/myst.js:56-75 | the last component that holds a key, if any |
| Common.ComposedProperty | src/myst.js:56-75 | a composed property comes from the last component that has it, else from the object |
| Common.ComposedTwice | src/myst.js:56-75 | composing in two calls is composing once with all components |
| Common.Compose | src/myst.js:62-74 | the copying loop returns the same object, holding the composition |
| Common.Clamp | src/myst.js:86-92 | at or below `min` gives `min`; above `min` and at or above `max` gives `max`, even when `min > max`; strictly inside gives the number; within `[min, max]` whenever `min <= max` |
| Common.ClampIdempotent | src/myst.js:86-92 | clamping twice is clamping once |
| Common.PointInRect | src/myst.js:156-158 | a point can only lie in a rectangle of positive size |
| Common.PointInRectTranslated | src/myst.js:156-158 | moving the point and the rectangle together keeps the answer |
| Common.LastIndexFrom | src/myst.js:276-278 | what follows the last separator is found after any earlier one |
| Common.SplitLast | src/myst.js:276-278 | the last piece of a split is what follows the last separator |
| Common.FilenameExtension | src/myst.js:276-278 | the lower-cased text after the last dot, which holds no dot |
| Grids.DefaultFill | src/myst.js:297-301 | an omitted default is 0, a given one is kept |
| Grids.IndexInGrid | src/myst.js:319-331 | every position inside the grid has an index inside the array |
| Grids.IndexInjective | src/myst.js:319-331 | two positions in range with the same index are the same position |
| Grids.Grid2D.constructor | src/myst.js:297-301 | size and default recorded; no cell set |
| Grids.Grid2D.Clear | src/myst.js:306-311 | every in-grid cell holds the default; cells outside are kept |
| Grids.Grid2D.Set | src/myst.js:329-331 | `get` at the position is the value; every position with another index reads as before |
| Grids.OtherCellsKept | src/myst.js:319-331 | setting one cell leaves every other in-grid cell as it was |
| Timers.NormalInterval | src/myst.js:343-347 | the interval is at least 1; a missing or non-positive one becomes 1 |
| Timers.TicksCount | src/myst.js:361-370 | n runs tick n div interval times |
| Timers.Timer.constructor | src/myst.js:343-347 | a fresh timer has not run |
| Timers.Timer.Run | src/myst.js:361-370 | the run ticks exactly on every interval-th run since the last reset |
| Timers.Timer.Reset | src/myst.js:374-377 | the count restarts |
| Keys.IsAlphanumeric | src/myst.js:1098-1102 | exactly the codes of digits, capitals and small letters |
| Keys.AlternatingExtend | src/myst.js:1044-1062 | alternation survives one more event of the expected kind |
| Keys.HistoryOfOneKey | src/myst.js:1044-1062 | each key's events alternate down and up, starting with down |
| Keys.KeyInput.constructor | src/myst.js:1025-1043 | no events and no key down |
| Keys.KeyInput.KeyPressed | src/myst.js:1044-1053 | the key is down; an event is queued only when it was not already down |
| Keys.KeyInput.KeyReleased | src/myst.js:1054-1062 | the key is up; an event is queued only when it was down |
| Keys.KeyInput.Clear | src/myst.js:1063-1075 | no event queued and no key down |
| Keys.KeyInput.PollEvent | src/myst.js:1082-1084 | the oldest event is removed and returned; none when the queue is empty |
| Inputs.EventTypeOf | src/myst.js:870 | exactly `press`, `move` and `release` name lists |
| Inputs.Calls | src/myst.js:873-930 | a dispatch runs at most one callback per registration |
| Inputs.Without | src/myst.js:989-1010 | removing by id never adds registrations |
| Inputs.WithoutKeeps | src/myst.js:989-1010 | `off(type, id)` keeps exactly the registrations with another id |
| Inputs.CallsOf | src/myst.js:873-930 | a callback runs exactly when it has an eligible registration; the newest runs first |
| Inputs.Bound | src/myst.js:955-961 | `bindTo` binds exactly the registration it was returned for |
| Inputs.Input.constructor | src/myst.js:833-870 | three empty lists |
| Inputs.Input.On | src/myst.js:972-977 | a new unbound registration with a fresh token is appended to the type's list; an unknown type fails |
| Inputs.Input.BindTo | src/myst.js:955-961 | a truthy state binds the registration; a falsy one changes nothing |
| Inputs.Input.Off | src/myst.js:989-1010 | no arguments empties every list; a type alone empties that list; an id removes its registrations of the type and keeps the others' order |
| Inputs.Input.RemoveId | src/myst.js:1001-1008 | the backward splicing walk leaves exactly the registrations without the id, in their order |
| Inputs.Input.Dispatch | src/myst.js:873-930 | an accepted event runs the type's eligible callbacks, newest first |
| Assets.Tokens | src/myst.js:724-727 | an argument's tokens hold no whitespace |
| Assets.RefOf | src/myst.js:729-736 | a reference is a token with exactly one dot, split at it |
| Assets.OutputKeys | src/myst.js:739-744 | the result object holds exactly the referenced keys |
| Assets.OutputLast | src/myst.js:729-744 | each key holds the asset its last reference names |
| Assets.Requests | src/myst.js:679-692 | at most one request per item |
| Assets.AllRequested | src/myst.js:662-692 | loading completes exactly when every category has a handler |
| Assets.PreparedBank | src/myst.js:672-692 | the bank gains an empty category for each new one with a handler, and keeps the rest |
| Assets.CountItems | src/myst.js:662-671 | the counting loop counts every item |
| Assets.ItemRequests | src/myst.js:679-692 | one handler call per item, in order |
| Assets.TokenLoop | src/myst.js:724-736 | the token loop collects the references and fills the object as specified |
| Assets.CollectRefs | src/myst.js:712-744 | the argument loop collects the references in order |
| Assets.AssetLoader.constructor | src/myst.js:553-626 | an empty bank, with handlers for graphics, data and text |
| Assets.AssetLoader.Load | src/myst.js:655-695 | every item is counted, room is made, and each item with a handler is requested |
| Assets.AssetLoader.Arrive | src/myst.js:589-626 | an arrival stores the asset and counts it; the last arrival completes the load |
| Assets.AssetLoader.GetAssets | src/myst.js:712-745 | `get` returns exactly the specification's result |
| Fonts.WidthTable | src/myst.js:1563-1570 | entry i is the width of character 32 + i, for all 95 printable characters |
| Fonts.TableOf | src/myst.js:1563-1570 | a table covers the printable characters |
| Fonts.WidthListLost | src/myst.js:1558-1561 | as written, a width list leaves a variable-width font without widths |
| Fonts.FontOf | src/myst.js:1548-1572 | the font is variable-width exactly when it has widths; a list is used as given; spacing 2 and offset 0 by default |
| Fonts.AsWrittenAgrees | src/myst.js:1548-1572 | apart from a width list, the written and corrected constructors agree |
| Fonts.NewFont | src/myst.js:1548-1572 | the constructor builds the corrected font |
| TextWidths.GetBMPTextWidth | demo/zakk/src/util.js:22-29 | the loop returns the width specification's result |
| TextWidths.WidthConcat | demo/zakk/src/util.js:22-29 | the width of a concatenation is the sum of the widths |
| TextWidths.WidthClosedForm | demo/zakk/src/util.js:22-29 | the width is the length times the spacing plus the glyph widths; an unknown character makes it NaN |
| Games.State.constructor | src/myst.js:1732-1734 | a new state is neither initialized nor active |
| Games.State.InitState | src/myst.js:1735-1742 | `init` runs the first time only |
| Games.State.Leave | src/myst.js:1930-1933 | the state becomes inactive and its `exit` hook runs |
| Games.State.Join | src/myst.js:1938-1939 | the state becomes active and its `enter` hook runs |
| Games.ViewModeOf | src/myst.js:2021-2038 | a number is kept; a name is compared trimmed and lower-cased, and an unknown one centers |
| Games.Game.constructor | src/myst.js:1804-1849 | no current state yet |
| Games.Game.SetState | src/myst.js:1929-1940 | the old state exits, the new one is initialized if needed and enters, and exactly it is active |
| Games.Game.ExitCurrent | src/myst.js:1930-1933 | after the exit, no known state is active |
| Games.Game.Activate | src/myst.js:1934-1939 | with no known state active, the next state becomes current, is initialized if it never was, and enters |
| Games.Game.InitStates | src/myst.js:1966-1975 | each listed state is initialized once, in order, and none is activated |
| Games.Game.InitListed | src/myst.js:1970-1973 | a listed state ends initialized, with `init` called only if it was not already, and its activity unchanged |
| Games.Game.SetViewMode | src/myst.js:2015-2057 | the mode is recorded; the resize listener exactly for scale-fit and expand; a mode outside 1 to 4 fails |
| Games.InitAtMostOnce | src/myst.js:1735-1742 | over any sequence of calls, `init` runs at most once, and exactly when the state is initialized |
| Games.OccursIn | src/myst.js:1735-1742 | a hook is in the log exactly when it occurs |
| HostDb.Added | examples/app/src/db.js:17-23 | the category is created if missing and the source set; everything else is kept |
| HostDb.Lookup | examples/app/src/db.js:24-29 | a non-empty result exactly for a stored truthy source, and then it is that source |
| HostDb.HasIffGet | examples/app/src/db.js:24-33 | `has` holds exactly when `get` finds a source |
| HostDb.GetAfterAdd | examples/app/src/db.js:17-33 | after `add`, `get` returns the code and every other example reads as before |
| HostDb.Db.constructor | examples/app/src/db.js:17-23 | an empty store |
| HostDb.Db.Add | examples/app/src/db.js:17-23 | the store becomes the specification's |
| Worlds.LastBackgroundWins | demo/zakk/src/world.js:23-37 | a background is chosen exactly when some layer is one, and it is the last such layer |
| Worlds.BackgroundExists | demo/zakk/src/world.js:23-37 | a background is chosen exactly when some layer is named background and is a tile layer |
| Worlds.BackgroundLast | demo/zakk/src/world.js:23-37 | the chosen background is a background layer with no background layer after it |
| Worlds.World.constructor | demo/zakk/src/world.js:14 | an empty world without a map |
| Worlds.World.ChooseLayers | demo/zakk/src/world.js:23-37 | fewer than three layers is a TypeError; otherwise the first three are classified |
| Worlds.World.Fill | demo/zakk/src/world.js:40-49 | every cell is filled from the two layers |
| Worlds.World.LoadLevel | demo/zakk/src/world.js:16-50 | the size is copied; a negative array length is a RangeError; the map is filled exactly when both tile layers are present; with a side of zero or less the new grid holds no cells |
| Worlds.CellOfPosition | demo/zakk/src/world.js:40-49 | cell (x, y) holds the tile numbers at `x + y * width`, less one |
| Consoles.JoinPush | demo/zakk/src/load_state.js:54-57 | a new line adds a newline to the joined text |
| Consoles.JoinExtendLast | demo/zakk/src/load_state.js:58-62 | extending the last line extends the joined text |
| Consoles.EmulatedConsole.constructor | demo/zakk/src/load_state.js:21-29 | one empty line, no queue, the cursor shown |
| Consoles.EmulatedConsole.PushText | demo/zakk/src/load_state.js:70-72 | the text is queued after what is queued |
| Consoles.EmulatedConsole.IsQueueEmpty | demo/zakk/src/load_state.js:73-75 | the queue is empty exactly when everything pushed is on screen |
| Consoles.EmulatedConsole.Update | demo/zakk/src/load_state.js:43-69 | blink every 15th update; feed one character every 3rd update while queued; a newline opens a line; a redraw exactly when something changed |
| Consoles.EmulatedConsole.BlinkStep | demo/zakk/src/load_state.js:45-49 | the blink timer runs once and the cursor toggles exactly when it ticks; the text is untouched |
| Consoles.EmulatedConsole.FeedStep | demo/zakk/src/load_state.js:50-63 | the feed timer runs only while text is queued, and a character is fed exactly when it ticks; otherwise nothing changes |
| Consoles.EmulatedConsole.FeedChar | demo/zakk/src/load_state.js:53-62 | the first queued character moves to the screen in order: a newline adds a line, any other character extends the last line, shows the cursor and restarts the blink |

## Left out

- Logging, progress output, `mkdir` of destination directories, and the asynchronous scheduling of `main` are left out. Each step's effect is kept as a log entry.
- The preprocessor, the compiler, JSON parsing, JSDoc tag scanning and the `<script src>` regular expression are opaque functions. Their internals belong to metascript, uglify-js, V8 and the regex engine.
- Paths.Parse: every path is taken as relative. Empty and `.` components vanish, and `..` cancels the component before it (`Paths.Step`); a leading `..` is resolved against the working directory when the file system is read (`FileSystem.ResolveStep`). A path starting with `/` is read as the same path relative to the working directory, and Windows separators and drive letters are not modelled.
- The line separator is fixed to `\n`, so `os.EOL` on Windows is not modelled.
- `Date.now()` is read once per comparison. The source reads it twice in `isSourceNewer`; the two readings differ by at most the call's duration.
- The `extensions/` and `tests/` trees are not part of this model.
- Inputs.Input.On: an unknown event type is an error, and `off(unknownType)` leaves the lists unchanged. In JavaScript, `off(unknownType)` creates a new list, after which `on(unknownType)` succeeds. The model keeps only the three lists that dispatch reads.
- Inputs.Input.Dispatch: callbacks that add or remove registrations while a dispatch runs are not modelled. The mouse event itself is not modelled: `Inputs.Mouse` carries the value of `e.which || e.button` already computed.
- `translateCoords`, `mouseMoveHandler`'s coordinate work, canvas and DOM styling, the resize debounce and the view handlers' drawing code are left out. The model keeps only which view mode has an update handler.
- Assets.AssetLoader.Load: the `done` and `progress` callbacks are represented by the returned count. The `FromObject` accessor is not modelled.
- Fonts.FontOf: `tilesPerRow`, `tilesH` and the graphics field are not modelled. Only the widths table, spacing and tile offset are.
- Strings.IsSpace: the regular-expression class `\s` is modelled as ASCII white space (space, tab, line feed, vertical tab, form feed, carriage return). It drives `trim`, `split(/\s+/)` in `Assets.Tokens` and `Batches.ParseOptions`, and the `%\S+%` test in `Headers.HasPlaceholder`. JavaScript's `\s` also matches U+00A0, U+FEFF, U+2028, U+2029 and the other Unicode space separators; the model treats those as ordinary characters.
- Strings.Lower: `toLowerCase` is modelled for ASCII letters only.
- Batches.RunBatch: every job runs against the file system as it was when the batch started, with one reading of the clock. In the source, a later job sees the files that earlier jobs copied or wrote, and each job reads the clock afresh.
- BuildSpec.SingleBuild: every step of one build reads the file system as it was when the build started, and one clock reading serves the whole build. In the source, step II reads files that step I may have just copied, and each staleness check reads the clock afresh.
- Grids.Grid2D.constructor requires a non-negative `w * h`, where JavaScript throws a RangeError. That error is modelled where a grid is built (`Worlds.World.LoadLevel`, error `BadLength`). A fractional width or height is not modelled, since sizes are integers.
- HostDb.Lookup: keys inherited from `Object.prototype` (such as `toString`) are not modelled. The store is a plain map.
- Assets.Lookup: keys inherited from `Object.prototype` are not modelled either; `get('constructor.name')` gives `"Object"` in JavaScript and nothing here. The bank is a plain map.
- Copying, writing, removing and creating directories always succeed in the model. In the source, `copyFileSync` onto a destination that is a directory, or `mkdirSync` under a file, throws (build.js:825-840, 925-939); such write-side failures are not modelled.
- Games.Game.InitStates: the source also accepts a single state that is not in an array. The model takes the list form, with `[s]` as that case.
- Games.ViewModeOf: mode values other than strings and integers are not modelled.
- Games.Game.SetState: the `surface` argument to `init` is not modelled, and neither are `update` or `draw` between state changes.
- The `draw` and `redraw` effects of `EmulatedConsole` are not modelled; `Update` returns whether a redraw is issued. The intro text pushed by the load state is not modelled.
- Numbers are integers. The tile data of levels and the font widths are integral in the demos; `NaN` is kept where a missing array entry produces it.

## Findings

| source | as written | input that shows it | evidently intended | confidence | as-written member | corrected member |
|---|---|---|---|---|---|---|
| build.js:1125 | the nested-batch error is written with single quotes, so `${build_instr_file}` is never interpolated and the message names no file | any batch whose listing names another batch description | a template literal naming the offending file | not executed | Batches.NestedBatchAsWritten (shown by Batches.NestedBatchMessage) | Batches.NestedBatch |
| src/myst.js:1560 | the list branch assigns `options.width` instead of `options.widths`, so a font given a width list ends up variable-width with no widths | `new Font({ widths: [4, 5, 6], ... })` | the widths list is used as the table | not executed | Fonts.FontAsWritten (shown by Fonts.WidthListLost) | Fonts.FontOf |
