# Verified models of the maintenance and probe scripts

Dafny models, with proofs, of six pieces of the Open Hardware Manager repository that keep state,
parse text or run a protocol:

- **Version bumping** (`scripts/bump_version.py`): one command rewrites every place that states the
  current release, and a gate rescans the same places. The regular expressions are run by a small
  backtracking engine (`Regex`) that is proved sound and complete against a declarative meaning, and
  on the registered patterns is proved to give the greedy match only. Scanning, rewriting, and the
  interplay of two patterns in one file are proved for every text.
- **The client drift gate** (`harness/modules/client_drift.py`): operations are read out of the
  generated `schema.d.ts` by splitting at path keys and counting braces, and compared with those of
  the OpenAPI document. What a printed document states is defined by the true brace depth of its code,
  independently of the reader; the round trip is proved with the exact conditions under which it holds,
  and with inputs on which it does not.
- **Batch regeneration** (`scripts/okh_generation_azure_regen_batches.py` and its library): an
  append-only log, a blob store and a tracker, worked on by runs that may be dry, forced, restricted
  to some keys, of any batch size, with any outcome per job, and killed after any write. Claims are
  made about single runs and about every sequence of runs.
- **Job polling** (`harness/modules/probe_async_generation.py`): a poll loop against any server trace,
  and the verdict drawn from it.
- **Synthetic data** (`scripts/generate_synthetic_data.py`): growing nested bills of materials and
  embedding them in a manifest, planning facilities for the processes of a set of designs, and adding
  equipment to a facility until it serves a design.
- **The repository map** (`scripts/generate_repo_map.py`): nested dictionaries grown file by file, and
  the indented listing printed from them, which is read back.

`dafny verify dfyconfig.toml` checks everything.

## What the proofs say about the scripts

- **A version with a trailing newline gets past `bump`.** `_SEMVER_RE` ends in `$`, which also matches
  before a final newline (`scripts/bump_version.py:35`). `bump("1.2.3\n")` called directly is accepted,
  and the gate can then never pass (`NewlineSlipsThrough`, `NewlineNeverPasses`). `BumpThenCheck` gives
  the exact condition: after a completed bump the gate passes if and only if the version has no such
  newline and every registered pattern matched beforehand. The command line strips its argument, so
  there only the second half remains (`BumpCommandThenCheck`). A line break that was written into a site
  is never quite removed again: a later bump to a proper version leaves what it alone would leave if and
  only if the earlier version had no line break or no site was found (`LastBumpWins`).
- **The regenerator never sees a sidecar.** It decides what is done by the log and by the sidecar keys
  it is shown, but the discovery service it asks drops every `*-bom.json`
  (`src/core/storage/smart_discovery.py:327-335`), so its set of sidecars is always empty and
  `bom_exists` never occurs (`NoSidecarSeen`). The claims that rest on seeing sidecars are proved for
  runs that do see them: each key is completed at most once, and never selected again
  (`CompletedAtMostOnce`, `NeverSelectedAgain`), and a key with a sidecar is selected exactly when the
  sidecar is not shown (`SelectedDespiteSidecar`). With the discovery in use, a key that succeeded is
  skipped once and is pending again in the run after, sidecar or not (`NothingStaysDone`), so that
  three good runs over a single manifest write its sidecar twice (`DoneTwice`); and since
  keys that succeeded go back to the front of the queue, no sequence of runs of batch size b ever
  processes a manifest beyond the first 2b that have a repo, even if every job succeeds
  (`NeverPastTwoBatches`). For runs over a fixed listing all of whose jobs succeed the result is exact:
  any number of runs from two on process just the first 2b manifests with a repo (`ReachesTwoBatches`),
  and so all of them if and only if there are at most 2b (`AllProcessed`); with 2b + 1 the last one is
  never reached (`LastOneStarves`).
- **Skip rows overwrite ok rows.** The documentation of `load_ok_keys_from_logfile`
  (`scripts/okh_generation_azure_regen_lib.py:47-49`) says that a key stays ok unless its last event is
  an error; the code (line 66) lets a skip row override it too. The model follows the code, and
  `OkLastsOneRun` is the consequence.
- **Failing jobs starve the rest.** The order is fixed and failed keys are retried first, so a batch
  full of failing jobs keeps every later key out for good (`FailuresStarve`).
- **Error answers look like a queue nobody reads.** A status object without a state reads as PENDING,
  so a job whose polls are all answered by JSON error bodies is reported as never consumed
  (`ErrorsReadPending`, `Probe`).
- **A directory called `classes` or `functions` hides files from the repository map.** The printer takes
  any dictionary with such a key for the symbols of a file (`scripts/generate_repo_map.py:101`), so a
  package that contains a `classes/` directory is printed as if it were a file, without its content.
  `MapShowsFiles` gives the exact condition: what can be read back from the printed lines is exactly
  the list of files if and only if no path has such a name below the top level. Beneath such a directory
  the keys of its entries are printed in insertion order, so that the map can depend on the order in which
  the files are listed: `pkg/classes/a.py` and `pkg/classes/b.py` are printed as two classes of `pkg`, in
  either order (`ClassesReordered`). `RepoSteady.OrderIrrelevant` gives the exact condition.
- **Processes that occur in sub-parts only are planned for but never counted.** The script expects this
  case not to happen (`scripts/generate_synthetic_data.py:4108-4110`); `SubPartsOnly` says when it does,
  and that the plan is then for two facilities.
- **The schema reader takes nested keys for methods.** It finds implementing lines at any depth of a path
  object, so a member of an inline operation object that is called like a method counts as an operation:
  an object `/x` of the lines `get: {`, `options: {`, `};`, `};` is said to offer OPTIONS
  (`NestedOptions`, `NestedKeyRead`). For documents whose comments balance, what is read is what is stated
  if and only if every nested name is one that the same path also has at its own depth (`ParsePrinted`).
- **The schema reader counts braces in comments.** An interface that is never closed gives no operations
  at all (`UnclosedIsEmpty`). Where no path object closes more than it opened, and the text behind the
  interface balances, reading is all or nothing: one comment line with an opening brace loses every
  operation of the schema (`ParseCommented`, `OpenBraceLosesAll`). A surplus closing brace ends the object,
  or the whole interface, early: what is then still read, and when that is all that is stated, is given
  exactly (`ReadDocument`, `ParseAny`, `ParseSurplus`), and one comment line with a closing brace can lose
  all paths (`SurplusBraceLosesRest`). In the shape the generator prints the comments are the only source
  of such trouble (`RemarksDecide`, `GeneratedCommented`).
- **A path object closed at once is read on.** When the first character of a block is its closing brace,
  the block is not cut, and the methods of all lines behind it are attributed to the path
  (`EmptyObjectReadsOn`).

## Reading guide

| module | about |
|---|---|
| `Text`, `Regex` | strings; the pattern engine |
| `VersionSites`, `VersionScan` | one registered pattern; scanning and rewriting a text, alone and beside another pattern |
| `VersionText`, `VersionRows` | what a version is, and what the registered patterns match, written out |
| `PyprojectField`, `PyprojectSpan` | the canonical version; what of pyproject.toml a new one replaces |
| `BumpVersion`, `BumpReport` | the registry, the gate and the bump; what the gate reports and how a bump ends |
| `SchemaScan` | the schema reader, as functions and as the loops of the script |
| `SchemaDocument`, `SchemaPatterns` | documents and their brace depths; what the two patterns match |
| `SchemaLines`, `SchemaCuts` | splitting and scanning lines; lines cut off at a brace |
| `SchemaRoundTrip`, `SchemaExact`, `SchemaLimits` | what is read of a document; when that is what it states; inputs on which it is not |
| `GeneratedSchema` | the shape the generator prints |
| `ClientDrift` | the OpenAPI side, the comparison, the verdict |
| `RegenKeys`, `RegenRun`, `RegenHistory` | keys; one run; sequences of runs |
| `RegenSafety`, `RegenProgress` | what holds over all runs; progress and starvation |
| `RegenDiscovery`, `RegenReach`, `RegenStock` | what the discovery service in use makes of it; what good runs reach; a store with one manifest too many |
| `RegenRepeat` | a manifest completed twice |
| `ProbePolling`, `NestedBom` | polling; bills of materials |
| `FacilityPlan`, `FacilityFit` | facilities per process; equipment for a design |
| `RepoTree`, `RepoGrowth`, `Repr` | growing the tree, with the order of its keys; trees exist for all lists of files; `repr` of strings |
| `RepoListing`, `RepoMap` | printing the tree and reading it back; when the map shows the files |
| `RepoSymbols`, `RepoRows` | reading the map with its symbols, its order and its branches |
| `RepoText` | the text of a dictionary, and what a directory taken for a file is printed with |
| `RepoAlike`, `RepoOrder`, `RepoSteady` | when two trees are printed alike; what the order of the files changes; when it changes nothing |
| `Order` | sorting strings |

## Model

| member | source | states |
|---|---|---|
| `Regex.MatchSound` | scripts/bump_version.py:54-74 | Whatever the backtracking matcher reports is a genuine way for the pattern to fit at the head of the text, within the text |
| `Regex.MatchComplete` | scripts/bump_version.py:54-74 | Backtracking misses nothing: if the pattern fits at the head of the text in any way, the matcher finds a match |
| `Regex.PlainMatch` | scripts/bump_version.py:54-74 | For patterns of the registered kind the match reported is the one in which every run is as long as possible, and there is no other such fit |
| `Regex.GreedyLocal` | scripts/bump_version.py:54-74 | A match depends only on the characters it covers and on the one after it not extending a final run |
| `Regex.GroupReplace` | scripts/bump_version.py:84-89 | Replacing the text of the group by another text the group pattern accepts leaves a match with the same surroundings |
| `VersionSites.HitText` | scripts/bump_version.py:54-74 | The group of a match is a full MAJOR.MINOR.PATCH, the literal key stands at the head of the match, and a match without closing literal is never followed by a digit |
| `VersionSites.HitReplace` | scripts/bump_version.py:84-89 | A match whose version span is replaced by another version is again a match, at the same place, with exactly the new version as its group |
| `VersionSites.HitAnchor` | scripts/bump_version.py:54-74 | The anchor character of a key occurs in a match at one place only, so that no match can begin inside another match of its pattern |
| `VersionSites.HitAvoids` | scripts/bump_version.py:54-64 | A match contains none of the characters its pattern avoids, so that no match of the other pattern of the file can begin inside it |
| `VersionSites.SemverChars` | scripts/bump_version.py:35 | A version begins with a digit and consists of digits and dots |
| `VersionText.SemverIs` | scripts/bump_version.py:35 | A version is exactly three nonempty numbers with dots between them |
| `Text.SpacesAre` | scripts/bump_version.py:34 | What `\s` matches, character by character |
| `VersionScan.RewriteFillsSkeleton` | scripts/bump_version.py:84-96 | A text is its skeleton filled with the versions found; rewriting fills the same skeleton with the new version, so nothing outside the version spans changes |
| `VersionScan.NoNewHit` | scripts/bump_version.py:149-161 | Rewriting one pattern creates no match of it, or of another pattern of the file, where there was none |
| `VersionScan.HitSurvives` | scripts/bump_version.py:149-161 | Rewriting another pattern of the same file leaves a match exactly as it was |
| `VersionScan.RescanSame` | scripts/bump_version.py:92-96 | Scanning the rewritten text finds the new version exactly as often as any version was found before, in the same skeleton |
| `VersionScan.RescanOther` | scripts/bump_version.py:54-64 | Rewriting one pattern of a file does not change what the other pattern finds in it |
| `VersionScan.LastRewriteWins` | scripts/bump_version.py:149-161 | Rewriting to v and then to w gives what rewriting to w gives |
| `VersionScan.RewritesCommute` | scripts/bump_version.py:149-161 | The rewrites of two patterns of one file can be done in either order, even to different versions |
| `PyprojectField.FieldWidths` | scripts/bump_version.py:34 | A field is an opening, a nonempty value that runs to the next quote, and that quote |
| `PyprojectField.FieldTextIsField` | scripts/bump_version.py:143-146 | The text that replaces a field is itself read as a field with the new value, whatever follows |
| `PyprojectField.SetCopies` | scripts/bump_version.py:143-146 | Setting the version replaces the first field by the new one; the text in front of it is kept, and so is what stands behind the field |
| `PyprojectSpan.FieldMeans` | scripts/bump_version.py:34 | What the pattern matches is `version`, an equals sign among white space, and a nonempty value between a quote and the next one |
| `PyprojectSpan.FieldHere` | scripts/bump_version.py:34 | Every such text is matched, with its value as the group |
| `PyprojectSpan.SetSpan` | scripts/bump_version.py:77-146 | The version read stands in the first such field that begins a line; setting it keeps every character in front of that `version` and behind its closing quote, and puts `version = "..."` between them |
| `PyprojectSpan.ReadsIfThere` | scripts/bump_version.py:77-81 | A version is read exactly when some line begins with such a field |
| `PyprojectField.NoEarlierField` | scripts/bump_version.py:77-81 | Replacing the value of the first field makes no field appear before it, even for openings that run over line breaks |
| `PyprojectField.ReadAfterSet` | scripts/bump_version.py:77-81 | Reading after setting gives the value set |
| `PyprojectField.LastSetWins` | scripts/bump_version.py:143-146 | Setting twice leaves what the second setting alone leaves |
| `BumpVersion.SitesAreRegistry` | scripts/bump_version.py:54-74 | The three committed rows are usable: each pattern matches in one way only and cannot overlap itself, and the two rows of README.md do not interfere |
| `VersionRows.ReleaseLineIs` | scripts/bump_version.py:55-59 | The first pattern matches exactly the bold key followed by white space and a version between backquotes |
| `VersionRows.DockerTagIs` | scripts/bump_version.py:60-64 | The second matches exactly `openhardwaremanager:` followed by a version that no digit follows |
| `VersionRows.ComposeTagsIs` | scripts/bump_version.py:67-73 | The third matches exactly the image name with or without `-frontend`, a colon, and a version as the default of `OHM_VERSION` |
| `BumpVersion.CheckIsExact` | scripts/bump_version.py:99-127 | The gate raises exactly when a registered file is missing, and passes exactly when every site is found and states the target everywhere |
| `BumpReport.ProblemsAre` | scripts/bump_version.py:101-115 | The gate reports exactly the sites that are not up to date, each once and in registry order: as matched by nothing, or with the set of versions other than the target that it states |
| `BumpVersion.WorkTree.Check` | scripts/bump_version.py:99-127 | The loop over the registry collects exactly the problems specified, in order, and none exactly when every site is up to date |
| `BumpVersion.WorkTree.Bump` | scripts/bump_version.py:130-164 | The loop over the registry leaves exactly the files specified, with rejected versions, a missing field and missing files as separate outcomes; skipping unmatched or unchanged files makes no difference |
| `BumpReport.BumpRefused` | scripts/bump_version.py:131-141 | A version that is not accepted, a missing pyproject.toml and one without a version field end a bump before anything is written |
| `BumpReport.BumpCompleted` | scripts/bump_version.py:143-164 | Any other bump is completed exactly when all registered files are there |
| `BumpReport.BumpStopped` | scripts/bump_version.py:143-150 | The first registered file that is missing stops it, after the sites in front of it have been rewritten |
| `BumpReport.PyprojectAfterBump` | scripts/bump_version.py:143-146 | After a completed bump pyproject.toml differs from before in its first version field only, which is `version = "..."` with the new version |
| `BumpVersion.RewriteUnmatched` | scripts/bump_version.py:151-157 | Where a pattern matches nothing, rewriting would change nothing |
| `BumpVersion.BumpFrame` | scripts/bump_version.py:149-161 | A bump neither adds nor removes files, leaves files outside the registry alone, and completes exactly when every registered file exists |
| `BumpVersion.BumpedSite` | scripts/bump_version.py:92-161 | After bumping, every site finds the new version exactly as often as it found any version before |
| `BumpVersion.BumpThenCheck` | scripts/bump_version.py:99-164 | After a completed bump to v pyproject states v, and the gate passes if and only if v has no trailing newline and every registered pattern matched before |
| `BumpVersion.BumpCommandThenCheck` | scripts/bump_version.py:167-186 | From the command line, a completed bump is followed by a passing check if and only if every registered pattern matched before |
| `BumpVersion.LastBumpWins` | scripts/bump_version.py:130-164 | Bumping to v and then to w leaves the files that bumping to w alone leaves if and only if v has no trailing newline or no site was found; in particular bumping twice to a version is bumping once |
| `BumpVersion.NewlineSlipsThrough` | scripts/bump_version.py:35 | A version followed by a newline is accepted although it is no version |
| `BumpVersion.SampleVersion` | scripts/bump_version.py:35 | `1.2.3` is a version |
| `BumpVersion.NewlineNeverPasses` | scripts/bump_version.py:99-127 | For an accepted version with a trailing newline no site of any file tree can satisfy the gate |
| `SchemaScan.CloseBrace` | harness/modules/client_drift.py:88-97 | The brace loop finds the first position at which the depth returns to zero, if there is one |
| `SchemaScan.MatchBrace` | harness/modules/client_drift.py:66-76 | The interface runs from its opening brace to the one that closes it, and is the opening brace alone if none does |
| `SchemaScan.CutBlock` | harness/modules/client_drift.py:88-98 | A block is cut at its closing brace, and left whole when there is none or it is the first character |
| `SchemaScan.OperationsFromSchemaDts` | harness/modules/client_drift.py:52-101 | The loops compute the operations specified: none without the interface or its brace, else those of all blocks |
| `SchemaPatterns.KeyMeans` | harness/modules/client_drift.py:80 | Every match of the path pattern is a line break, white space, a quoted slash, a nonempty quote-free tail - which is the group -, the closing quote with its colon, white space perhaps, and an opening brace |
| `SchemaPatterns.KeyHere` | harness/modules/client_drift.py:80 | A printed path key is matched as such, with its tail as the group, whatever follows |
| `SchemaPatterns.ImplMeans` | harness/modules/client_drift.py:31-34 | Every match of the method pattern has, after blank space, one of the seven methods and a colon |
| `SchemaPatterns.OpHere` | harness/modules/client_drift.py:31-34 | A printed implementation is matched as such, with its method as the group, whatever follows |
| `SchemaLines.PartsKey` | harness/modules/client_drift.py:80-83 | Splitting at path keys makes all lines up to the next key one block, with the tail of the key before them, whatever those lines contain |
| `SchemaCuts.BlockFinds` | harness/modules/client_drift.py:88-100 | In a block of lines exactly the methods of the lines up to the one that brings the brace depth to zero are found, in order; of all lines if none does |
| `SchemaCuts.CutSpots` | harness/modules/client_drift.py:66-100 | Ending the interface inside a path object hides no method in front of the close of that object |
| `SchemaRoundTrip.BodyYields` | harness/modules/client_drift.py:66-100 | The body that the brace loop encloses yields the operations of the path objects up to the one in which the loop takes a brace for the end of the interface, whatever follows |
| `SchemaRoundTrip.ReadDocument` | harness/modules/client_drift.py:52-101 | What is read of a document whose comments may contain any braces: the operations shown up to the brace taken for the end of the interface, and none if there is no such brace and what follows balances |
| `SchemaRoundTrip.UnclosedIsEmpty` | harness/modules/client_drift.py:66-76 | Any text whose paths interface is opened but never closed gives no operations at all |
| `SchemaRoundTrip.NoInterfaceIsEmpty` | harness/modules/client_drift.py:58-64 | A text in which no brace follows the name of the interface gives no operations |
| `SchemaExact.SeenIsStated` | harness/modules/client_drift.py:99-100 | The methods of lines at any depth include those stated, and are no more than those exactly when every nested name is one that the same path states |
| `SchemaExact.ParsePrinted` | harness/modules/client_drift.py:52-101 | Reading a document whose comments balance gives what it states if and only if every nested name is one that the same path states, for every header without the marker and every text behind the interface |
| `SchemaExact.ParseCommented` | harness/modules/client_drift.py:52-101 | If no path object closes more than it opens, comments included, and what follows balances, reading gives what is stated if and only if either all objects balance and every nested name is stated, or an object leaves a brace open and nothing is stated |
| `SchemaExact.ParseAny` | harness/modules/client_drift.py:52-101 | With any comments, a document is read as what it states if and only if every method found in what is looked at is one its path states, and every method stated is found there for its path; if no brace is taken for the end of the interface and what follows balances, if and only if nothing is stated |
| `SchemaExact.ParseSurplus` | harness/modules/client_drift.py:66-100 | If the interface seems to end inside an object, what is read is everything in front of that object and, of the object itself, the lines up to its surplus brace; this is what is stated if and only if each method stated behind is found in front for the same path and no nested name is new |
| `SchemaLimits.NestedKeyRead` | harness/modules/client_drift.py:31-34 | An inline operation object for m with a member named n is read as offering both, so it is read correctly if and only if n is m |
| `SchemaLimits.NestedOptions` | harness/modules/client_drift.py:31-34 | `/x` with `get: {`, `options: {`, `};`, `};` is said to offer OPTIONS, which it does not state |
| `SchemaLimits.OpenBraceLosesAll` | harness/modules/client_drift.py:66-76 | A schema that states GET /x, with one comment line `* {`, gives no operation |
| `SchemaLimits.SurplusBraceLosesRest` | harness/modules/client_drift.py:66-100 | A schema whose first object states GET /x behind one comment line `* }` gives no operation, whatever objects follow |
| `SchemaLimits.EmptyObjectReadsOn` | harness/modules/client_drift.py:88-98 | A path object that is closed at once is attributed every method of the lines behind it, and so is read correctly if and only if there is none |
| `SchemaRoundTrip.SuffixIrrelevant` | harness/modules/client_drift.py:63-76 | Text behind the brace that closes the interface never affects the result, for any text, printed or not |
| `GeneratedSchema.PrintedIsValid` | frontend/src/api/generated/schema.d.ts:6-55 | A path object as the generator prints it, with parameters, stubs, implementations and comments - none, on one line, or a block with bare stars for empty lines - is in the family of documents read, whatever the comments say |
| `GeneratedSchema.RemarkTexts` | frontend/src/api/generated/schema.d.ts:16-24 | A comment is printed on one line between its marks, or as an opening mark, a star and the text for every line, a bare star for an empty one, and a closing mark |
| `GeneratedSchema.PrintedMethods` | frontend/src/api/generated/schema.d.ts:14-53 | The methods such an object states at its own depth, and those any of its lines look like, are those of its implemented slots; stubs and `trace` do not count |
| `GeneratedSchema.RemarksDecide` | frontend/src/api/generated/schema.d.ts:6-55 | Whether the braces of such an object balance, close too much or stay open is decided by its comments alone |
| `ClientDrift.OperationsFromOpenapi` | harness/modules/client_drift.py:37-49 | The loops compute the operations specified: path items that are objects, known methods in any case, values other than null |
| `ClientDrift.MemberOpsAre` | harness/modules/client_drift.py:43-48 | The operations of a path item are exactly its members that name a known method and are not null |
| `ClientDrift.OpenApiOpsAre` | harness/modules/client_drift.py:37-49 | The operations of a document are exactly the members of its object path items that are not null and called, in any case, like one of the seven methods, each as its method in capitals, a blank and its path |
| `ClientDrift.ExtractorsAgree` | harness/modules/client_drift.py:37-101 | For an API and a schema printed for it whose comments balance, both readers give the same set if and only if every nested name is a method that the same path states |
| `ClientDrift.ExtractorsDecide` | harness/modules/client_drift.py:37-101 | The same for any comments: both readers give the same set if and only if what is read of the schema is faithful to it, or, if no brace is taken for the end of its interface, there is no operation |
| `ClientDrift.GeneratedRoundTrip` | harness/modules/client_drift.py:37-101 | Printing any API in the generated shape and reading it back gives the operations of its OpenAPI document, if the braces in its comments balance path by path |
| `ClientDrift.GeneratedCommented` | harness/modules/client_drift.py:37-101 | With comments that close no more than they open, and a balanced rest of the file, reading back gives the operations of the OpenAPI document if and only if the comments of every path balance or there is no operation |
| `Order.Sorted` | harness/modules/client_drift.py:110-114 | The list has exactly the members of the set, in strictly increasing order of code points |
| `Order.BeforeIs` | scripts/generate_repo_map.py:94 | A string comes before another if it is its beginning, or smaller where they first differ |
| `ClientDrift.DiffOperations` | harness/modules/client_drift.py:104-114 | The three lists are the sorted differences and the sorted intersection |
| `ClientDrift.DiffPartitions` | harness/modules/client_drift.py:104-114 | The three lists partition live and committed operations without repetition |
| `ClientDrift.Judge` | harness/modules/client_drift.py:177-232 | One finding for a missing schema; otherwise one error for missing operations and one warning for extra ones, each only if there are any, with at most fifty listed |
| `ClientDrift.Tick` | harness/modules/client_drift.py:147-232 | No finding exactly when a schema is committed and states the live operations; nothing worse than a warning exactly when it states at least those |
| `RegenKeys.SidecarOfManifest` | scripts/okh_generation_azure_regen_lib.py:11-28 | The sidecar key of a manifest key is a sidecar key and never a manifest key |
| `RegenKeys.SidecarOfOther` | scripts/okh_generation_azure_regen_lib.py:11-14 | For any key that is no manifest key the ending is appended |
| `RegenKeys.SidecarsDiffer` | scripts/okh_generation_azure_regen_lib.py:11-14 | Different manifests have different sidecar keys |
| `RegenKeys.ManifestKeyIs` | scripts/okh_generation_azure_regen_lib.py:21-28 | The third test of the manifest filter never decides |
| `RegenKeys.SidecarsHidden` | src/core/storage/smart_discovery.py:20-35 | Directory discovery shows no sidecar key, whatever its case or directory |
| `RegenKeys.DiscoveredIs` | src/core/storage/smart_discovery.py:20-35 | A key under `okh/` is shown exactly if its last component, in lower case, is not `bom.json`, does not end in `-bom.json`, and is no JSON file beginning with `bom_` |
| `RegenRun.StatusConcat` | scripts/okh_generation_azure_regen_lib.py:44-68 | The latest row about a key decides its status |
| `RegenRun.OkMeans` | scripts/okh_generation_azure_regen_lib.py:44-68 | A key is ok exactly if it is not empty and the last of its ok, error and skip rows is an ok row; it has no status exactly if it has none of them |
| `RegenRun.Regenerator.LoadOkKeys` | scripts/okh_generation_azure_regen_lib.py:44-68 | The loop over the log returns exactly the keys whose latest ok, error or skip row is an ok row |
| `RegenRun.Regenerator.Inventory` | scripts/okh_generation_azure_regen_batches.py:144-185 | The loop over the listing gives the manifests with their repos, in order, and the sidecar keys shown |
| `RegenRun.Summarize` | scripts/okh_generation_azure_regen_lib.py:92-101 | The counts are the numbers of targets of each class, zero included |
| `RegenRun.CountsMean` | scripts/okh_generation_azure_regen_lib.py:81-101 | In terms of the store, the log and the listing: without a repo are counted the manifests looked at that name none; done in the log those with one, not forced, whose latest row is ok; done by sidecar those not ok whose sidecar is listed; pending all others |
| `RegenRun.Regenerator.LogSkips` | scripts/okh_generation_azure_regen_batches.py:249-262 | One skip row for every target that is not pending, written in order, and nothing else |
| `RegenRun.Regenerator.WriteBlobs` | scripts/okh_generation_azure_regen_batches.py:360-382 | The manifest is written first and the sidecar after it, each only if the job produced it |
| `RegenRun.Regenerator.Process` | scripts/okh_generation_azure_regen_batches.py:306-479 | The writes of one job are, in this order, its start row, the manifest, the sidecar, as far as it gets, then one ok or error row and one tracker row; the new state is what they make of the old one |
| `RegenRun.Regenerator.ProcessAll` | scripts/okh_generation_azure_regen_batches.py:306-479 | The writes of the batch are those of its jobs one after the other, and the errors counted are the jobs that did not end ok |
| `RegenRun.Regenerator.Run` | scripts/okh_generation_azure_regen_batches.py:188-491 | The writes of a run, in order, are exactly those specified, so that a killed run leaves a prefix of them; the new state of log, store and tracker follows; a dry run stops after the skip rows. The printed counts are the numbers of manifests without a repo, ok in the log, with a listed sidecar, and pending; a batch of the pending is selected, the others remain, and the errors are the jobs that did not end ok |
| `RegenHistory.RunTargets` | scripts/okh_generation_azure_regen_batches.py:207-250 | A target is pending exactly when it has a repo and the run is forced or neither an ok row nor a shown sidecar says it is done; all others are skipped |
| `RegenHistory.RunSelects` | scripts/okh_generation_azure_regen_batches.py:264-265 | A run selects pending manifests only, each once, and all of them if the batch size allows |
| `RegenHistory.LogEffect` | scripts/okh_generation_azure_regen_lib.py:35-41 | Writing extends the log and changes no row of it |
| `RegenHistory.StoreEffect` | scripts/okh_generation_azure_regen_batches.py:373-382 | The store only grows, and a key that is not written keeps its blob |
| `RegenHistory.RunTracked` | scripts/okh_generation_azure_regen_batches.py:463-479 | A finished run adds one row to the tracker for every key it selected, in order, saying how its job ended |
| `RegenHistory.BatchSidecars` | scripts/okh_generation_azure_regen_batches.py:360-382 | A batch writes the sidecar of a key once if a job for that key produced one, and otherwise never |
| `RegenSafety.RunRows` | scripts/okh_generation_azure_regen_batches.py:249-462 | The rows a run writes are exactly: a skip for every target not pending, an ok or an error for every selected key as its job ended |
| `RegenSafety.StatusAfterRun` | scripts/okh_generation_azure_regen_batches.py:249-462 | After a finished run the status of every key is that of its row in this run, or what it was if it has none |
| `RegenSafety.OkAfterRun` | scripts/okh_generation_azure_regen_lib.py:44-68 | After a finished non-forced run the ok keys among its targets are exactly those that succeeded in it; a dry run leaves none; other keys keep what they had |
| `RegenSafety.RunSidecars` | scripts/okh_generation_azure_regen_batches.py:360-382 | A run, killed anywhere or not, writes the sidecar of a key at most once, and only if it selected the key |
| `RegenSafety.ManifestUntouched` | scripts/okh_generation_azure_regen_batches.py:373-382 | A manifest that was not selected keeps its blob: no sidecar is written over it |
| `RegenSafety.SelectedByPlace` | scripts/okh_generation_azure_regen_lib.py:104-109 | For every batch size, a real run selects a pending key exactly when it takes everything or fewer than a batch of pending targets stand before the key |
| `RegenSafety.SelectedDespiteSidecar` | scripts/okh_generation_azure_regen_batches.py:211-265 | A non-forced run selects a key that has its sidecar only if discovery hides it; for a key with a repo and no ok row, a real run of any batch size does so if and only if the sidecar is hidden and fewer than a batch of pending targets stand before the key |
| `RegenSafety.CompletedAtMostOnce` | scripts/okh_generation_azure_regen_batches.py:144-382 | Over any sequence of non-forced runs that see the sidecars, dry or real, of any size and outcome, killed anywhere, the sidecar of a key is written at most once, and not at all if it was there |
| `RegenSafety.NeverSelectedAgain` | scripts/okh_generation_azure_regen_batches.py:211-265 | Nor does any of those runs select a key whose sidecar was there before |
| `RegenSafety.OkLastsOneRun` | scripts/okh_generation_azure_regen_lib.py:44-89 | A key whose latest row is ok is skipped by the next run, whose skip row then makes it pending in the run after, unless that run is shown its sidecar |
| `RegenDiscovery.Discover` | src/core/storage/smart_discovery.py:309-363 | The loop keeps exactly the listed objects that do not look like a bill of materials, in order |
| `RegenDiscovery.KeepConcat` | src/core/storage/smart_discovery.py:309-363 | What it keeps of two listings, one behind the other, is what it keeps of each, so that the order is kept |
| `RegenDiscovery.DiscoveredListing` | src/core/storage/smart_discovery.py:309-363 | From a complete listing of the prefix without repeats, that loop gives a run exactly the keys of the store that directory discovery shows, each once |
| `RegenDiscovery.NoSidecarSeen` | scripts/okh_generation_azure_regen_batches.py:144-185 | A run fed by directory discovery sees no sidecar and classifies nothing as `bom_exists` |
| `RegenDiscovery.NothingStaysDone` | scripts/okh_generation_azure_regen_batches.py:211-265 | With directory discovery a key that succeeded is pending again two runs later, whether or not its sidecar exists, and a real run of any batch size processes it again exactly when fewer than a batch of pending targets stand before it |
| `RegenRepeat.DoneTwice` | scripts/okh_generation_azure_regen_batches.py:144-382 | With directory discovery three finished runs over a single manifest, the first and the last of which succeed, write its sidecar twice: completing at most once fails |
| `RegenRepeat.SampleKey` | src/core/storage/smart_discovery.py:20-35 | `okh/a.json` is such a manifest |
| `RegenDiscovery.OkAfterCut` | scripts/okh_generation_azure_regen_batches.py:249-462 | After a run over all manifests, killed anywhere, the ok keys are among the old ones or among those it selected |
| `RegenDiscovery.Shift` | scripts/okh_generation_azure_regen_lib.py:71-109 | Leaving out the ok keys moves a pending target forward by at most their number |
| `RegenDiscovery.Window` | scripts/okh_generation_azure_regen_batches.py:249-265 | With at most b ok keys, a batch of b comes from the first 2b manifests that have a repo |
| `RegenDiscovery.NeverPastTwoBatches` | scripts/okh_generation_azure_regen_batches.py:188-491 | With directory discovery and batch size b no sequence of runs, whatever the outcomes and kills, ever processes a manifest beyond the first 2b that have a repo |
| `RegenReach.SelectedAre` | scripts/okh_generation_azure_regen_batches.py:249-265 | With directory discovery a real run of batch size b over everything selects the first b manifests with a repo, in listing order, that are not ok |
| `RegenReach.AfterGood` | scripts/okh_generation_azure_regen_batches.py:306-462 | A good run keeps the manifests with a repo as they were listed and makes exactly those it selected ok, so that the others are no longer |
| `RegenReach.ReachesTwoBatches` | scripts/okh_generation_azure_regen_batches.py:188-491 | Two or more finished runs of batch size b over a fixed listing, all of whose jobs succeed, process exactly the first 2b manifests with a repo, from any log with at most b ok keys and however many runs there are |
| `RegenReach.AllProcessed` | scripts/okh_generation_azure_regen_batches.py:188-491 | They process every manifest with a repo if and only if there are at most 2b |
| `RegenStock.FoundStays` | src/core/storage/smart_discovery.py:309-363 | No run changes what directory discovery shows: it adds sidecars only, which are hidden |
| `RegenStock.LastOneStarves` | scripts/okh_generation_azure_regen_batches.py:188-491 | For every b and every number of runs from two on there is such a history over 2b + 1 manifests, and it processes all of them but the last |
| `RegenProgress.PendingIsTodo` | scripts/okh_generation_azure_regen_batches.py:249-265 | The keys that a run shown the whole store finds pending are exactly the manifests with a repo, no ok row and no sidecar, each once; it selects among them |
| `RegenProgress.GoodRun` | scripts/okh_generation_azure_regen_batches.py:306-462 | A finished run whose jobs all succeed with a sidecar leaves to do exactly what it did not select |
| `RegenProgress.GoodRunCounts` | scripts/okh_generation_azure_regen_batches.py:264-265 | Such a run of batch size b takes n pending to max(0, n - b), which is the `remaining_after` it reports |
| `RegenProgress.FinishesInTime` | scripts/okh_generation_azure_regen_batches.py:264-491 | After i such runs max(0, n - i b) are left, so that ceil(n / b) runs finish everything |
| `RegenProgress.BlockedNow` | scripts/okh_generation_azure_regen_lib.py:104-109 | A batch that is full of pending keys listed before a key does not contain that key |
| `RegenProgress.StayStuck` | scripts/okh_generation_azure_regen_batches.py:430-462 | Keys whose jobs fail without a sidecar are still to be done after the run, however it ends |
| `RegenProgress.FailuresStarve` | scripts/okh_generation_azure_regen_batches.py:249-462 | If at least a batch of pending keys in front of a key fails in every run, that key is never selected |
| `ProbePolling.PollJob` | harness/modules/probe_async_generation.py:104-127 | The loop leaves the last state and object read, and the states and stages read with consecutive repeats dropped, after exactly the polls the clock and the answers allow |
| `ProbePolling.Observe` | harness/modules/probe_async_generation.py:61-159 | A refused submission is not polled; an accepted one is polled, and revoked once at the end exactly when its last state is not terminal |
| `ProbePolling.CollapseKeeps` | harness/modules/probe_async_generation.py:120-124 | Dropping consecutive repeats keeps the first value and every one that differs from the one before, in order, and nothing else |
| `ProbePolling.CollapseIs` | harness/modules/probe_async_generation.py:120-124 | So neighbours differ, no value is lost or added, and the last is kept |
| `ProbePolling.PollsStop` | harness/modules/probe_async_generation.py:104-127 | Every poll happens within the budget, and none after an answer SUCCESS, FAILURE or REVOKED; polling ends with the first such answer or because the budget is used up |
| `ProbePolling.CurrentIsLast` | harness/modules/probe_async_generation.py:106-119 | The state reported is the last one read, or PENDING if none was |
| `ProbePolling.CurrentIs` | harness/modules/probe_async_generation.py:106-119 | What is judged is the last object answered; its state is PENDING if it has none |
| `ProbePolling.NothingRead` | harness/modules/probe_async_generation.py:106-119 | If no answer was an object, the state is PENDING, without a manifest or the use of an LLM |
| `ProbePolling.ReadAsTold` | harness/modules/probe_async_generation.py:117-124 | The states and stages read are those of the objects answered, in order; a missing state is PENDING, a missing stage is left out |
| `ProbePolling.ErrorsReadPending` | harness/modules/probe_async_generation.py:104-119 | As long as no answer carries a state, every state read and the one reported are PENDING |
| `ProbePolling.Judge` | harness/modules/probe_async_generation.py:161-310 | At most one finding, with the exact condition for none and for each of the nine kinds |
| `ProbePolling.Probe` | harness/modules/probe_async_generation.py:61-310 | A job accepted is polled until the first of SUCCESS, FAILURE and REVOKED or the end of the budget, and is revoked, once, exactly if none of these was read last; there is at most one finding, with the exact condition for none and for each of the nine kinds in terms of the submission and the answers |
| `NestedBom.Generate` | scripts/generate_synthetic_data.py:642-714 | Whatever the random choices, the tree is grown as specified: recorded depth is actual depth, names extend the parent name, one to three children above the last level and none on it; process and material come from the template or the defaults, and exactly CNC and SHEET parts get a tolerance |
| `NestedBom.SizeBounds` | scripts/generate_synthetic_data.py:642-714 | A tree with d levels below its root has between d + 1 and (3^(d+1) - 1) / 2 components |
| `NestedBom.BoundReached` | scripts/generate_synthetic_data.py:703-712 | The upper bound is reached by a tree with three children everywhere |
| `NestedBom.LeavesAtMaxDepth` | scripts/generate_synthetic_data.py:704-712 | Every leaf sits at exactly the maximal depth |
| `NestedBom.LeafRecorded` | scripts/generate_synthetic_data.py:700-712 | A component without children has recorded exactly the maximal depth |
| `NestedBom.NamesExtend` | scripts/generate_synthetic_data.py:674-676 | The name of a component begins with the names of all components above it |
| `NestedBom.NamedByLevel` | scripts/generate_synthetic_data.py:652-677 | A name is that of the component above, a dash, and one of the four names of its level, which differ for the first level, the second and those below |
| `NestedBom.Manifest.Embed` | scripts/generate_synthetic_data.py:845-887 | The embedding loop divides the components, one after the other: one with a nonempty reference stands among the sub-parts with its whole subtree and yields no part; any other yields a part with its name, process and material - `3DP` and `PLA` if it has none - and its children stand among the sub-parts |
| `NestedBom.Manifest.Add` | scripts/generate_synthetic_data.py:869-887 | A component with a reference becomes a sub-part as a whole, any other a part with its children as sub-parts |
| `NestedBom.ComponentsFound` | scripts/generate_synthetic_data.py:869-887 | Of such a division: every component with a nonempty reference is found among the sub-parts, any other among the parts, and its children among the sub-parts |
| `NestedBom.PartsCome` | scripts/generate_synthetic_data.py:874-881 | Every part comes from a component without a reference, and the names of the parts are, in order, those of these components |
| `NestedBom.EmbeddingConserves` | scripts/generate_synthetic_data.py:845-887 | The names in parts and in the whole sub-part forest are together exactly the names of all components, with multiplicity |
| `NestedBom.NamesCount` | scripts/generate_synthetic_data.py:845-887 | There are as many names, with multiplicity, as components at all levels |
| `NestedBom.NodesConserved` | scripts/generate_synthetic_data.py:845-887 | The parts and the sub-parts at all levels are together as many as the components at all levels |
| `NestedBom.ConversionLosesIdsOnly` | scripts/generate_synthetic_data.py:851-867 | Converting to a sub-part and back gives the same tree up to the ids, on every level |
| `NestedBom.EverySubPartIsConverted` | scripts/generate_synthetic_data.py:851-867 | Every forest of sub-parts is the conversion of some components |
| `FacilityFit.GenerateEquipment` | scripts/generate_synthetic_data.py:3139-3171 | New equipment carries the process URI that the reconciliation looks for, for known and unknown types |
| `FacilityFit.Facility.Reconcile` | scripts/generate_synthetic_data.py:4918-4949 | The loop leaves the original equipment as a prefix and appends the equipment and pages specified, in order: only items for a process asked for, each with a URI that nothing in front of it has, so that every process with an equipment type is served; the pages listed are those from before and those of the items added |
| `FacilityFit.AddsExactly` | scripts/generate_synthetic_data.py:4925-4943 | The URIs added are exactly those needed and not present, and as many items are added as there are such URIs |
| `FacilityFit.ReconcileServes` | scripts/generate_synthetic_data.py:4925-4943 | An item is added only for a process asked for, with the page of its equipment type and the URI specified for it, or the page if none is, and only if no item in front has that URI; every process with an equipment type is served |
| `FacilityFit.PagesListed` | scripts/generate_synthetic_data.py:4944-4949 | The pages of the types added are listed behind those from before, each once |
| `FacilityFit.Reconciled` | scripts/generate_synthetic_data.py:4918-4949 | Afterwards every process with a known equipment type is served, one item was added for every missing URI, and reconciling again would add nothing |
| `FacilityPlan.Analyze` | scripts/generate_synthetic_data.py:4041-4118 | The plan is for exactly the nonempty taxonomy keys of names in designs, parts and sub-parts; two facilities if at most three tenths of the designs use the process themselves or in a part, three if at most six tenths do, four otherwise |
| `FacilityPlan.UsesCount` | scripts/generate_synthetic_data.py:4076-4098 | The frequency is the number of designs that use the process themselves or in a part, each counted once |
| `FacilityPlan.StaffGrows` | scripts/generate_synthetic_data.py:4106-4116 | Two to four facilities, and never fewer for a process used in more designs |
| `FacilityPlan.OrderIrrelevant` | scripts/generate_synthetic_data.py:4041-4118 | Neither the processes planned for nor their frequencies depend on the order of the designs |
| `FacilityPlan.SubPartsOnly` | scripts/generate_synthetic_data.py:4106-4116 | A process is planned for without ever being counted exactly when it occurs in sub-parts and in nothing else, and the plan is then for two facilities |
| `RepoTree.WhereInjective` | scripts/generate_repo_map.py:79-83 | Different paths lead to different dictionaries: no dictionary is shared |
| `RepoTree.Tree.Step` | scripts/generate_repo_map.py:80-83 | One step of the moving reference ends in the directory of that name, creates it as the last key if it is missing, and moves no file |
| `RepoTree.Tree.Enter` | scripts/generate_repo_map.py:79-83 | The walk ends in the parent directory, creates exactly the missing directories on the way, each as the last key of its parent, and moves no file |
| `RepoTree.Tree.Add` | scripts/generate_repo_map.py:75-86 | Afterwards the symbols are found at the path, everything else where it was, only directories leading to the file are new, and only the keys on its way can have been added, at the end |
| `RepoTree.Tree.Build` | scripts/generate_repo_map.py:71-88 | Looking up a path gives exactly the symbols of the file listed with it, there are no directories but those that lead to files, and the keys of each come in the order in which the files bring them up |
| `RepoGrowth.CanGrow` | scripts/generate_repo_map.py:71-88 | For every list of separate files there is such a tree |
| `RepoListing.FormatTree` | scripts/generate_repo_map.py:91-126 | The recursion prints exactly the lines specified: sorted entries with their connectors, symbols, the content of directories, and for a directory mistaken for a file the keys of its `classes` and `functions` in insertion order and the text of its `error` |
| `RepoListing.FormatSymbols` | scripts/generate_repo_map.py:105-119 | The loops print one line for each class, then one for each function, then one for a nonempty error |
| `RepoListing.ParseEntry` | scripts/generate_repo_map.py:98-122 | The line of a file or directory can be read: its depth, its name, and which of the two it looks like |
| `RepoListing.ReadLines` | scripts/generate_repo_map.py:91-126 | The listing read back by its indentation gives exactly the paths listed, wherever in a larger listing it stands |
| `RepoMap.PathsAre` | scripts/generate_repo_map.py:91-126 | Exactly the paths shown are listed, each once |
| `RepoMap.ClearIs` | scripts/generate_repo_map.py:100-124 | In a built tree no directory is mistaken for a file exactly when no path has a component `classes` or `functions` below the top level |
| `RepoMap.MapShowsFiles` | scripts/generate_repo_map.py:71-126 | No path is listed twice, and what is read back is exactly the files if and only if no path has such a component; this holds for every order of the keys, so that lines beneath a directory mistaken for a file are never read as entries |
| `RepoSymbols.SymbolsNoted` | scripts/generate_repo_map.py:105-119 | The lines of symbols beneath an entry are read as its classes, its functions and its nonempty error, in this order |
| `RepoRows.PathsInOrder` | scripts/generate_repo_map.py:94 | The paths are listed in the order of their names, level by level |
| `RepoRows.MapShowsSymbols` | scripts/generate_repo_map.py:71-126 | Reading the printed map with its symbols: every file shown is shown with exactly its classes, functions and nonempty error, in order; at every level the branch of the greatest name, and no other, is drawn as the last; paths come in order and once; and the map shows exactly the files, each with its symbols, if and only if no path has a component `classes` or `functions` below the top level |
| `Repr.QuotedSplits` | scripts/generate_repo_map.py:116-119 | Where the text of a dictionary goes on with a quoted key, it can be told which key it is and where it ends |
| `RepoText.PlainQuoted` | scripts/generate_repo_map.py:116-119 | A string without quotes, backslashes and control characters is quoted as it is, between single quotes |
| `RepoText.QuotesAre` | scripts/generate_repo_map.py:116-119 | A string with single quotes and no double quotes is put between double quotes, any other between single ones |
| `RepoText.EscapesAre` | scripts/generate_repo_map.py:116-119 | Backslashes, the quote in use, line breaks, tabs and other control characters are escaped; the other quote is not |
| `RepoText.SymbolsTextIs` | scripts/generate_repo_map.py:66-68 | The symbols of a file are printed as a dictionary of two lists, and its error if there is one |
| `RepoText.DictTextIs` | scripts/generate_repo_map.py:116-119 | A directory is printed as its entries in insertion order, each with its quoted key, with commas between them |
| `RepoText.PosingIs` | scripts/generate_repo_map.py:101-119 | A directory taken for a file is printed with the keys beneath `classes` as its classes, those beneath `functions` as its functions, and the text of what is beneath `error` unless that is empty |
| `RepoAlike.PrintedAlike` | scripts/generate_repo_map.py:91-126 | Two trees with the same files are printed alike if and only if every directory listed as a file is printed with the same symbols in both |
| `RepoOrder.PrintedIs` | scripts/generate_repo_map.py:71-126 | The printed map depends on the list of files only: any tree grown from it gives the same lines |
| `RepoOrder.PoseTells` | scripts/generate_repo_map.py:105-119 | If a directory taken for a file is printed with the same symbols from two trees, its `classes` and `functions` begin with the same key in both, and so does any directory within its `error` that single entries lead to |
| `RepoSteady.PosedIs` | scripts/generate_repo_map.py:100-103 | The directories listed as files are those with a child `classes` or `functions` none of whose parents below the root has one |
| `RepoSteady.OrderIrrelevant` | scripts/generate_repo_map.py:71-126 | The printed lines are the same for every order in which the files may be listed if and only if no directory listed as a file has more than one entry in its `classes` or `functions`, or in any directory from its `error` on |
| `RepoSteady.ClearIsSteady` | scripts/generate_repo_map.py:100-124 | That is so if no path has a component `classes` or `functions` below the top level |
| `RepoSteady.ClassesReordered` | scripts/generate_repo_map.py:105-110 | Two files in a directory `classes` of a package, as `pkg/classes/a.py` and `pkg/classes/b.py`, give different maps in the two orders |
| `RepoSteady.SampleFiles` | scripts/generate_repo_map.py:75-86 | `pkg`, `a.py` and `b.py` are such names |

## Left out

- Unicode: `\d`, `\s`, `str.strip`, `str.lower` and `str.upper` are modelled on ASCII.
- Files: texts are strings as `read_text` returns them; encodings and line-break translation are not modelled.
- `re` beyond the fragment the patterns use: literal alternatives, character-class runs, one group, `^` in multiline mode. `(?:-frontend)?:` is written as the ordered choice of its two spellings.
- Printed messages, finding titles, evidence texts and exit codes other than through the findings and outcomes they stand for.
- The cloud, HTTP, clocks and the generator behind a job: listings, answers, elapsed times and job outcomes are inputs that range over everything.
- WorkTree.Bump: a write that fails half-way through a file is not modelled; files are written whole or not at all.
- RegenRun.Regenerator.Run: log fields that are never read back, tracker summaries, mirror directory, heartbeat and timeouts (an error outcome) are not modelled; `before` summaries that raise on malformed manifests are not either.
- RegenRun.Regenerator.LoadOkKeys: rows that are not JSON objects, and lines cut in half by a kill, are not modelled; rows without key or event are.
- RegenDiscovery.Discover: the other discovery strategies, which run only when this one raises, are not modelled.
- RegenDiscovery.NeverPastTwoBatches: is stated for runs over all manifests with a fixed batch size, starting from a log with at most b ok keys that are listed; forced runs and `--only-keys` can reach any key.
- RegenReach.ReachesTwoBatches: the listing order is fixed, as an object store that lists by key makes it, and every job succeeds and leaves a manifest with a repo; other histories are bounded by `RegenDiscovery.NeverPastTwoBatches` only.
- BumpVersion.LastBumpWins: two versions that both end in a line break are left out; what remains of the first then depends on whether a pattern has a closing literal.
- RegenProgress.FinishesInTime: is stated for runs that are shown the whole store, sidecars included, which the discovery service in use does not do.
- ProbePolling.Observe: the budget is assumed to run out eventually, as a clock that advances makes it; what a poll answers is any object or something else, reduced to the fields that are read.
- ProbePolling.Probe: a submission counts as accepted only with a status from 200 to 299, as `harness/probes/http.py:28-29` defines it.
- SchemaRoundTrip.ReadDocument: documents are made of lines; a line is taken for part of a comment when it begins with `*` or `/*`, so that comments behind code on one line, and braces inside quoted strings of code, count as code. A path key inside a path object, and one that is not printed on a line of its own with four blanks before it, are outside the family.
- SchemaRoundTrip.ReadDocument: if the interface of a document never ends before a text whose braces do not balance, a brace of that text may end it; for that case only `UnclosedIsEmpty` and `SuffixIrrelevant` say what is read.
- NestedBom.Generate: the distribution of the random choices; a `tolerance` entry that is None is a missing one.
- The external bill-of-materials file, the choice of two to five top-level components, referenced components and manifest templates around the nested generator.
- FacilityPlan.Analyze: the thresholds 0.3 and 0.6 are exact fractions, and the process taxonomy is any function.
- FacilityFit.Facility.Reconcile: the random fields of equipment are not modelled, and the process list is taken to be a list.
- RepoTree.Tree.Build: a file listed twice, or one that lies inside another, which no working tree has, is outside the model; dictionaries are positions in one sequence, so that sharing is visible, with the order of their keys beside them.
- RepoListing.FormatTree: the lines are not joined into one text; a class, function or error text with a line break in it is one line here. `repr` of a string beyond ASCII is taken to print every character as it is.
- The environment template, top-k selection in matching, and the smoke-report walk: each settled by one short argument.
- The deployment, migration and secret scripts, the command line and the front end: sequences of external commands with little state of their own.
