# gogogo cross-compilation driver and pyrmm CLI helpers, in Dafny

This project models the core of `gogogo`, a driver that compiles one Go
source file for many `GOOS/GOARCH` targets. It also models two small pieces
of the `pyrmm` Python CLI.

**Platform resolution (`platforms.dfy`, module `Platforms`)**
- A comma-separated platform string becomes a list of build targets. Each
  token is trimmed and is, in this order of precedence:
  - `all`: the discovered platform catalog, or a fixed fallback list of 23
    platforms when discovery fails;
  - a name from the preset group table;
  - an explicit `os/arch` pair;
  - a bare OS name. This gives every architecture the catalog lists for
    that OS (with `--all`), or only the host architecture when the catalog
    lists it.
- The catalog is the `go tool dist list` output, split into lines and
  trimmed, keeping the lines that hold a `/`.
- Each loop of the Go code is a `method` proved equal to a recursive
  specification function. The lemmas are about those functions.

**Building (`build.dfy`, module `Build`)**
- `buildSingle` applies the skip rules in the code's order:
  1. `SkipCGO` skips Android and iOS;
  2. iOS off a darwin host is skipped unless forced;
  3. iOS on darwin without `xcodebuild` fails;
  4. Android at verbosity ≥ 1 is skipped unless the prompt is approved.
- Rule 1 comes first. After it, `buildSingle` computes the output path,
  creates its directory, and builds the `go build` arguments and the
  environment. Rules 2–4 apply only after that, so a skipped iOS or
  Android attempt has already created its directory. An attempt that no
  rule stops turns the compiler's result into `Success` or
  `Failed(message)`.
- The sentinel error `ErrSkipped` is the `Skipped` case of `Outcome`.
- The retry loop makes up to `MaxRetries + 1` attempts. When `Retry` is
  set, it sleeps `k + 1` seconds after every unsuccessful attempt
  `k < MaxRetries`, skipped attempts included. There is no sleep after the
  last attempt.
- Each target's recorded outcome goes into `successful`, `skipped` or
  `errs`. The run fails iff `errs` is non-empty.

**The Python helpers**
- `rmmr.dfy` (module `Rmmr`): how the `rmmr` wrapper filters `sys.argv`.
- `configcmd.dfy` (module `ConfigCommand`): the `config` group callback. It
  stores its arguments in the click context object, which is a class whose
  field the method updates. It then checks the `-w`/`-r` pairs.

**Shared modules**
- `strings.dfy` (module `GoStrings`): the string functions the code relies
  on, with their properties (`Split`/`Join` round trips, `TrimSpace`,
  `Contains`).
- `settings.dfy`: the global `config` variable and the host facts, as
  explicit parameters.
- `wrappers.dfy`: `Option`.

**External inputs.** Everything the Go code asks of the outside world is an
input to the model:
- the output of `go tool dist list` (`None` when the command fails);
- the host OS and architecture, and whether `xcodebuild` is on the `PATH`;
- the answer typed at the Android prompt (`None` at end of input);
- the compiler's result and the compression result for each attempt of each
  target. These are given as a function of (target index, attempt).

**Behaviours of the code that the model keeps, though a user might expect
otherwise:**
- Duplicate targets are kept. `Platforms.ResolveKeepsDuplicates` proves
  that repeating a token doubles the list.
- A skipped attempt is retried like a failure. `Build.SkipsAreRetried` proves
  that a `SkipCGO` target is attempted `MaxRetries + 1` times.
- With `Retry` off, all `MaxRetries + 1` attempts are still made. Only the
  sleeps are dropped (`Build.BuildWithRetry`).
- A forced iOS build on a non-darwin host does not check for `xcodebuild`.
  The check runs only on darwin.
- The Android static-link flags never reach the command. They are inserted
  into a local copy of the arguments after the command has been created
  (`Build.AndroidRewriteNotExecuted`).
- With a negative `MaxRetries`, the retry loop does not run and the target
  is recorded as successful (`Build.FinalOutcome`).

## Model

| member | source | states |
|---|---|---|
| GoStrings.TrimSpace | MyModule/src/gogogo/gogogo.go:149-152 | the result is the slice of the input between its leading and trailing white space; every character outside that slice is white space, and the result neither starts nor ends with white space |
| GoStrings.TrimSpaceIdempotent | MyModule/src/gogogo/gogogo.go:149-152 | trimming a line that was already trimmed changes nothing, so the second trim of a catalog line is a no-op |
| GoStrings.TrimSpaceAround | MyModule/src/gogogo/gogogo.go:322 | trimming a text whose first and last characters are not white space, surrounded by white space only, gives exactly that text |
| GoStrings.ToLowerIdempotent | src/pyrmm/cli/rmmr.py:54-55 | the lower-cased string holds no ASCII capital, so lower-casing it again changes nothing |
| GoStrings.ContainsIgnoringCase | src/pyrmm/cli/rmmr.py:54-55 | `w in s.lower()` holds iff `w` occurs at some index of `s` written in any mixture of upper and lower case |
| GoStrings.ContainsIff | MyModule/src/gogogo/gogogo.go:237 | `strings.Contains(s, sub)` holds exactly when `sub` occurs in `s` at some index |
| GoStrings.Split | MyModule/src/gogogo/gogogo.go:187 | splitting yields at least one piece (the empty string gives one empty piece) and no piece contains the separator |
| GoStrings.SplitAround | MyModule/src/gogogo/gogogo.go:187-188 | the pieces of `a sep b` are the pieces of `a` followed by the pieces of `b` |
| GoStrings.SplitWithoutSep | MyModule/src/gogogo/gogogo.go:187 | a string without the separator is its own single piece |
| GoStrings.SplitPair | MyModule/src/gogogo/gogogo.go:216-217 | `os/arch` with slash-free halves splits into exactly those two halves |
| GoStrings.SplitsInTwo | MyModule/src/gogogo/gogogo.go:239-245 | when a string splits into exactly two pieces, it is those pieces around one separator |
| GoStrings.JoinSplit | MyModule/src/gogogo/gogogo.go:149 | joining the pieces of a split gives the string back |
| GoStrings.SplitJoin | MyModule/src/gogogo/gogogo.go:823 | comma-free platform arguments joined with "," split back into the same list |
| Platforms.CatalogLines | MyModule/src/gogogo/gogogo.go:150-156 | every catalog entry is non-empty, contains '/', and is already trimmed |
| Platforms.CatalogLinesMembers | MyModule/src/gogogo/gogogo.go:149-156 | a string is in the catalog iff it is non-empty, contains '/', and is the trimmed form of some output line |
| Platforms.Catalog | MyModule/src/gogogo/gogogo.go:142-159 | the catalog: `None` when `go tool dist list` fails, otherwise the kept lines of its output (characterized by `Platforms.CatalogLinesMembers`) |
| Platforms.SupportedPlatforms | MyModule/src/gogogo/gogogo.go:142-159 | the loop returns the catalog of the discovery output, and nothing when discovery failed |
| Platforms.ArchsFor | MyModule/src/gogogo/gogogo.go:168-174 | no listed architecture contains '/' |
| Platforms.ArchOfMembers | MyModule/src/gogogo/gogogo.go:170-172 | one catalog entry yields `a` for `os` iff the entry is exactly `os/a` with slash-free parts |
| Platforms.ArchOf | MyModule/src/gogogo/gogogo.go:170-174 | the architecture one catalog entry contributes for an OS: `[a]` for exactly `os/a`, nothing otherwise (characterized by `Platforms.ArchOfMembers`) |
| Platforms.ArchsForMembers | MyModule/src/gogogo/gogogo.go:162-177 | `a` is listed for `os` iff `os/a` is a catalog entry with slash-free parts |
| Platforms.ArchsForOS | MyModule/src/gogogo/gogogo.go:162-177 | fails exactly when discovery fails; otherwise returns the architectures the catalog lists for the OS, in catalog order |
| Platforms.ContainsArch | MyModule/src/gogogo/gogogo.go:280-286 | the search finds the host architecture iff it is in the list |
| Platforms.AppendLabelTargets | MyModule/src/gogogo/gogogo.go:215-224 | the loop appends one target for each two-part label and skips the others |
| Platforms.AppendOsTargets | MyModule/src/gogogo/gogogo.go:301-307 | the loop appends `os/arch` for every architecture, in order |
| Platforms.AppendBareOsTargets | MyModule/src/gogogo/gogogo.go:251-307 | a bare OS name appends every catalog architecture with `--all`, the native one without it if the catalog lists it, and nothing when the architectures cannot be obtained |
| Platforms.AppendTokenTargets | MyModule/src/gogogo/gogogo.go:189-308 | one trimmed token appends exactly the targets of the first rule that applies: `all`, a group, an explicit pair, a bare OS |
| Platforms.OsTargets | MyModule/src/gogogo/gogogo.go:301-307 | one target per architecture, in order, with OS, architecture and `os/arch` name |
| Platforms.ParsePlatforms | MyModule/src/gogogo/gogogo.go:185-311 | the resolution loop, with all its `continue` paths, returns exactly the targets the token rules give for the split and trimmed tokens |
| Platforms.Resolve | MyModule/src/gogogo/gogogo.go:185-311 | the targets of a platform string: each comma-separated token's targets, in token order (its properties are `Platforms.ResolveConcat` and `Platforms.ResolveWellFormed`) |
| Platforms.TokenTargets | MyModule/src/gogogo/gogogo.go:189-308 | one trimmed token: `all`, then a group name, then an explicit pair, then a bare OS name, the first rule that applies |
| Platforms.BareOsTargets | MyModule/src/gogogo/gogogo.go:251-307 | a bare OS name: every catalog architecture with `--all`, otherwise the native one if the catalog lists it (characterized by `Platforms.BareOsNative` and `Platforms.BareOsAll`) |
| Platforms.ResolveTokensAppend | MyModule/src/gogogo/gogogo.go:188-309 | tokens resolve independently: the targets of a concatenated token list are the concatenation of the targets of each part |
| Platforms.ResolveTokens | MyModule/src/gogogo/gogogo.go:187-190 | the targets of a list of tokens, each trimmed and resolved on its own, in order (characterized by `Platforms.ResolveTokensAppend` and `Platforms.ResolveTokensWellFormed`) |
| Platforms.ResolveConcat | MyModule/src/gogogo/gogogo.go:187-188 | resolving `s1,s2` gives the targets of `s1` followed by those of `s2` |
| Platforms.ResolveKeepsDuplicates | MyModule/src/gogogo/gogogo.go:185-311 | no de-duplication: resolving `s,s` gives twice as many targets as `s` |
| Platforms.LabelTargetWellFormed | MyModule/src/gogogo/gogogo.go:239-245 | a target made from an explicit pair is named by that pair and has slash-free OS and architecture matching its name |
| Platforms.LabelTargetOfLabel | MyModule/src/gogogo/gogogo.go:239-245 | an `os/arch` pair with slash-free parts gives exactly the one target `(os, arch, "os/arch")` |
| Platforms.LabelTargetsMembers | MyModule/src/gogogo/gogogo.go:215-224 | every target expanded from a label list is well formed and named by a label, and every two-part label yields a target |
| Platforms.LabelTarget | MyModule/src/gogogo/gogogo.go:215-224 | one target for a two-part label, named by the label; nothing for any other label (characterized by `Platforms.LabelTargetWellFormed` and `Platforms.LabelTargetOfLabel`) |
| Platforms.LabelTargets | MyModule/src/gogogo/gogogo.go:215-224 | the targets of a label list, in order (characterized by `Platforms.LabelTargetsMembers`) |
| Platforms.LabelTargetsOfPairs | MyModule/src/gogogo/gogogo.go:55-83 | a table of slash-free pairs expands to exactly its pairs, and the names are the table's labels in order |
| Platforms.GroupsSlashFree | MyModule/src/gogogo/gogogo.go:55-83 | no OS or architecture in any preset group contains a slash |
| Platforms.TokenTargetsWellFormed | MyModule/src/gogogo/gogogo.go:189-308 | every target one token produces has slash-free OS and architecture and is named `os/arch` |
| Platforms.ResolveTokensWellFormed | MyModule/src/gogogo/gogogo.go:188-309 | every target of a token list is well formed |
| Platforms.ResolveWellFormed | MyModule/src/gogogo/gogogo.go:185-311 | every target of the resolved platform string is well formed |
| Platforms.AllWithoutCatalog | MyModule/src/gogogo/gogogo.go:192-224 | `all` without a catalog gives the 23 fallback platforms in their listed order |
| Platforms.AllWithCatalog | MyModule/src/gogogo/gogogo.go:192-224 | `all` with a catalog gives one well-formed target per two-part catalog entry and no others |
| Platforms.GroupExpansion | MyModule/src/gogogo/gogogo.go:225-236 | a preset group name expands to the group's platforms, in the table's order |
| Platforms.BareOsNative | MyModule/src/gogogo/gogogo.go:267-297 | without `--all`, a bare OS gives at most one target: `os/native` exactly when the catalog lists it, and nothing when discovery fails |
| Platforms.BareOsAll | MyModule/src/gogogo/gogogo.go:252-266 | with `--all`, a bare OS gives one target per architecture the catalog lists for it, nothing when discovery fails, and an architecture is used iff `os/arch` is in the catalog |
| Build.SkipRules | MyModule/src/gogogo/gogogo.go:329-413 | an attempt is skipped iff `SkipCGO` hits Android/iOS, or it is iOS off darwin without `Force`, or it is Android at verbosity ≥ 1 with prompting on and an answer other than y/yes |
| Build.VerdictCases | MyModule/src/gogogo/gogogo.go:329-461 | an attempt succeeds iff the compiler is run and succeeds; it fails iff `xcodebuild` is missing on darwin or the compiler fails |
| Build.ConfirmIgnoresSpaceAndCase | MyModule/src/gogogo/gogogo.go:314-326 | with prompting on, " YES" plus a newline approves |
| Build.ConfirmDeclines | MyModule/src/gogogo/gogogo.go:314-326 | end of input, an empty line and "no" decline; "y" approves |
| Build.AskUserConfirm | MyModule/src/gogogo/gogogo.go:314-326 | approves under `NoPrompt`; otherwise the line read, trimmed and lower-cased, must be "y" or "yes", and end of input declines (characterized by `Build.ConfirmIff`) |
| Build.TrimmedApproves | MyModule/src/gogogo/gogogo.go:322-323 | a line that trims and lower-cases to "y" or "yes" is that word, in some letter case, with only white space around it |
| Build.ApprovesTrimmed | MyModule/src/gogogo/gogogo.go:322-323 | a line that is "y" or "yes", in any letter case, with only white space around it trims and lower-cases to that word |
| Build.ConfirmIff | MyModule/src/gogogo/gogogo.go:314-326 | the prompt approves iff `NoPrompt` is set, or a line was read that is "y" or "yes" in any letter case with only white space around it |
| Build.Verdict | MyModule/src/gogogo/gogogo.go:329-461 | the outcome of one attempt: the skip rules in the code's order, then the compiler's result (characterized by `Build.SkipRules` and `Build.VerdictCases`) |
| Build.DistinctOutputPaths | MyModule/src/gogogo/gogogo.go:337-343 | two well-formed targets with different names never share an output path |
| Build.OutputPath | MyModule/src/gogogo/gogogo.go:337-343 | `outputDir/name/filename`, with ".exe" appended for Windows (its properties are `Build.DistinctOutputPaths` and `Build.DirOfOutputPath`) |
| Build.Filename | MyModule/src/gogogo/gogogo.go:338-341 | the binary name, with ".exe" appended for Windows (used by `Build.DistinctOutputPaths`) |
| Build.LastSlash | MyModule/src/gogogo/gogogo.go:346 | the index of the last '/' of a path, or -1: the character there is '/' and no '/' follows it |
| Build.Dir | MyModule/src/gogogo/gogogo.go:346 | `filepath.Dir` without cleaning: the text before the last '/', or "." when there is none |
| Build.DirOfJoin | MyModule/src/gogogo/gogogo.go:346 | the directory of `p/f` is `p`, extended by the directory part of `f` when `f` holds a '/' |
| Build.DirOfOutputPath | MyModule/src/gogogo/gogogo.go:343-346 | the directory made is `outputDir/name` for a slash-free binary name, and `outputDir/name/` plus the binary name's directory part otherwise |
| Build.BinaryNameWithDirectory | MyModule/src/gogogo/gogogo.go:343-346 | with `-n bin/app` the directory made is `outputDir/name/bin`, not `outputDir/name` |
| Build.CgoSetting | MyModule/src/gogogo/gogogo.go:371-440 | cgo is enabled for iOS and Android and disabled for every other OS |
| Build.BuildEnv | MyModule/src/gogogo/gogogo.go:365-440 | the compiler's environment is the inherited one followed by `GOOS`, `GOARCH` and the cgo setting (stated in `Build.BuildSingle`) |
| Build.CommandArgs | MyModule/src/gogogo/gogogo.go:337-361 | the prepared output path is `dir/name/file` (".exe" for Windows) and the arguments are the specified flag list around it |
| Build.BuildArgsShape | MyModule/src/gogogo/gogogo.go:350-361 | the arguments start with "build" and end with `-o path source`; `-ldflags` and `-tags` pairs appear exactly when set, which fixes the length |
| Build.BuildArgs | MyModule/src/gogogo/gogogo.go:350-361 | `build`, then `-ldflags` and `-tags` when set, then `-o path source` (characterized by `Build.BuildArgsShape`) |
| Build.InsertStaticLinkFlags | MyModule/src/gogogo/gogogo.go:421-436 | the rewrite inserts `-ldflags` with the static-link flags just before the first "-o" (two more arguments), or changes nothing when there is no "-o" |
| Build.BuildSingle | MyModule/src/gogogo/gogogo.go:329-461 | the outcome is the policy verdict for the attempt's prompt answer and compiler result; the directory made, unless `SkipCGO` skips first, is `filepath.Dir` of the output path; the compiler runs iff no skip rule and no missing tool stops it, with the plain arguments and the per-OS environment |
| Build.AndroidRewriteNotExecuted | MyModule/src/gogogo/gogogo.go:361-436 | for Android with empty `LDFlags`, the executed arguments differ from the rewritten list |
| Build.RetryFromFacts | MyModule/src/gogogo/gogogo.go:537-550 | from any attempt on, the recorded outcome is the last attempt's; every earlier attempt failed or was skipped; the loop stops early only on success |
| Build.FinalOutcomeFacts | MyModule/src/gogogo/gogogo.go:537-550 | with `MaxRetries ≥ 0`, 1 to MaxRetries+1 attempts are made; the recorded outcome is the last; it is a success iff some attempt succeeded; otherwise every attempt was used |
| Build.SkipsAreRetried | MyModule/src/gogogo/gogogo.go:537-550 | a target skipped by `SkipCGO` is attempted MaxRetries+1 times and recorded as skipped |
| Build.RetryFrom | MyModule/src/gogogo/gogogo.go:538-550 | from attempt `k` on: the first successful attempt, or the last one, ends the loop and gives the recorded outcome and the attempt count (its properties are `Build.RetryFromFacts`) |
| Build.FinalOutcome | MyModule/src/gogogo/gogogo.go:537-550 | the outcome recorded for a target; with a negative `MaxRetries` the loop does not run and the target counts as built (characterized by `Build.FinalOutcomeFacts`) |
| Build.AttemptCount | MyModule/src/gogogo/gogogo.go:538-550 | the number of attempts the loop makes for a target: none with a negative `MaxRetries` (bounds in `Build.FinalOutcomeFacts`) |
| Build.Backoff | MyModule/src/gogogo/gogogo.go:546-549 | the sleeps before attempts 2, 3, …: 1, 2, … seconds, one per attempt after the first |
| Build.BuildWithRetry | MyModule/src/gogogo/gogogo.go:537-550 | the loop records the specified final outcome and attempt count, and sleeps 1, 2, … seconds (one less sleep than attempts) only when `Retry` is set |
| Build.Classify | MyModule/src/gogogo/gogogo.go:552-568 | every recorded outcome lands in exactly one of the three lists |
| Build.ClassifyLast | MyModule/src/gogogo/gogogo.go:552-568 | recording one more outcome adds it to the list of its kind and to no other |
| Build.ClassifyCounts | MyModule/src/gogogo/gogogo.go:552-568 | each name is in `successful` (or `skipped`) as often as it ended so, and each (name, error) pair is in `errs` as often as it failed so |
| Build.ClassifyOrderIndependent | MyModule/src/gogogo/gogogo.go:514-576 | any completion order of the targets gives the same three multisets, so the goroutine schedule does not change the report |
| Build.ClassifyErrsIff | MyModule/src/gogogo/gogogo.go:552-568 | `errs` is non-empty iff some recorded outcome is a failure |
| Build.BuildWithProgress | MyModule/src/gogogo/gogogo.go:495-598 | the report classifies every target's recorded outcome in target order, and the run fails with the error count iff `errs` is non-empty |
| Build.RunFailsIff | MyModule/src/gogogo/gogogo.go:577-583 | the run fails iff some target's recorded outcome is a failure; skipped targets never fail it |
| Build.Run | MyModule/src/gogogo/gogogo.go:822-829 | the joined platform list is resolved with the host architecture; an empty target list is an error before any build; otherwise the report is built and the run fails iff some target failed |
| Rmmr.CleanArgs | src/pyrmm/cli/rmmr.py:44-59 | the cleaned list is "rmmr" followed by the arguments after the program path that are not excluded, in order |
| Rmmr.Excluded | src/pyrmm/cli/rmmr.py:53-58 | the six exclusion tests: ".exe" suffix, "python" or "scripts" in the lower-cased argument, `-c`, "import" or "pyrmm" in it |
| Rmmr.Kept | src/pyrmm/cli/rmmr.py:51-59 | the arguments that pass every exclusion test, in order (characterized by `Rmmr.KeptMembers`) |
| Rmmr.AnyCaseExcluded | src/pyrmm/cli/rmmr.py:54-55 | an argument holding "python" or "scripts" in any letter case is dropped |
| Rmmr.KeptMembers | src/pyrmm/cli/rmmr.py:51-59 | an argument survives iff it was given and none of the six exclusion tests hits it |
| Rmmr.KeptAppend | src/pyrmm/cli/rmmr.py:51-59 | each argument is judged on its own: filtering a concatenation is concatenating the filtered parts |
| Rmmr.KeptLength | src/pyrmm/cli/rmmr.py:51-59 | no more arguments survive than were given, and all survive iff none is excluded |
| Rmmr.KeptIdempotent | src/pyrmm/cli/rmmr.py:51-59 | filtering the survivors again removes nothing |
| Rmmr.CleanArgsStable | src/pyrmm/cli/rmmr.py:44-59 | cleaning an already cleaned list gives it back unchanged |
| Rmmr.CleanArgsExample | src/pyrmm/cli/rmmr.py:53-58 | the ".exe" launcher path and `-c` are dropped, while `build` and `-r` survive |
| ConfigCommand.Context.EnsureObject | src/pyrmm/cli/config/__main__.py:10 | an existing context object is kept; a missing one becomes an empty dictionary |
| ConfigCommand.Context.Store | src/pyrmm/cli/config/__main__.py:11-13 | one key of the context object is set and the rest of the object is unchanged |
| ConfigCommand.Config | src/pyrmm/cli/config/__main__.py:8-30 | the three arguments are stored over the existing context object whatever the outcome, and the result is the outcome of the mode checks |
| ConfigCommand.SplitFirst | src/pyrmm/cli/config/__main__.py:20 | key, "=" and value rebuild the pair, and the key contains no '=' |
| ConfigCommand.SplitFirstJoin | src/pyrmm/cli/config/__main__.py:20 | splitting a joined key and value gives them back |
| ConfigCommand.FirstRejected | src/pyrmm/cli/config/__main__.py:17-27 | every pair before the index is accepted by the mode, and the pair at the index, if any, is refused |
| ConfigCommand.CheckPairs | src/pyrmm/cli/config/__main__.py:15-30 | the echo-and-check loops return exactly the specified outcome |
| ConfigCommand.Checked | src/pyrmm/cli/config/__main__.py:15-30 | the outcome of the mode checks: header, then the lines of the accepted pairs up to the first refused one (characterized by `ConfigCommand.CheckedOkIff` and `ConfigCommand.RejectionIsFirst`) |
| ConfigCommand.Stored | src/pyrmm/cli/config/__main__.py:10-13 | the context object after the three stores (characterized by `ConfigCommand.StoredEntries`) |
| ConfigCommand.StoredEntries | src/pyrmm/cli/config/__main__.py:10-13 | the object holds `pairs`, `read_mode` and `write_mode` with the given values; every other key comes from the previous object and keeps its value; no previous key is lost |
| ConfigCommand.CheckedOkIff | src/pyrmm/cli/config/__main__.py:15-30 | the call succeeds iff a mode flag is given and that mode accepts every pair |
| ConfigCommand.WriteEchoes | src/pyrmm/cli/config/__main__.py:15-21 | a successful write echoes the header and then, for each pair, its key and value split at the pair's first '=' |
| ConfigCommand.RejectionIsFirst | src/pyrmm/cli/config/__main__.py:15-28 | a refusal names the first refused pair and follows the header and the line of every pair before it |
| ConfigCommand.WriteTakesPrecedence | src/pyrmm/cli/config/__main__.py:15-30 | with both flags the pairs are checked for writing; with neither, the call is a usage error |

## Left out

- `filepath.Join` is modelled as joining with "/", and `filepath.Dir` as taking the text before the last "/". Go's lexical cleaning of the result (removing `.`, `..`, empty elements and doubled separators) is not modelled. So `Build.OutputPath`, `Build.Dir`, `Build.DistinctOutputPaths` and `Build.BuildSingle` speak of the uncleaned path.
- Build.DistinctOutputPaths: proved of the uncleaned path. The explicit tokens `linux/` and `/linux` both give two-part targets (with an empty architecture or an empty OS), and Go's cleaning maps both to `out/linux/app`, while the model keeps the two paths apart.
- Build.BuildSingle: assumes `os.MkdirAll` succeeds. The "创建输出目录失败" failure path (lines 346-348) is not modelled, because the file system is outside the model.
- Build.BuildSingle: does not model the effect of `compressFile` (lines 454-458, 464-492). Compression reads, writes and removes files. The model only shows that its result does not affect the outcome.
- Build.BuildWithRetry: the sleeps are returned as their lengths in seconds. No time passes in the model.
- Build.BuildWithProgress: targets are built one after another. The goroutines, the worker semaphore, the mutex and the progress bar are not modelled. Their effect on the report is covered by `Build.ClassifyOrderIndependent`: any completion order gives the same three multisets. The order of names within each list is not captured.
- Build.Run: takes `BinaryName` as already set. It does not model the steps before resolution (lines 800-820: the Go toolchain check, the source-file check, deriving the binary name from the source file name, and cleaning the output directory). The two errors are returned as cases, without their formatted text.
- Platforms.ParsePlatforms: the discovery output is one input shared by every token. The Go code runs `go tool dist list` again for each `all` and bare-OS token, so a discovery result that changes between calls is not captured.
- Platforms.ParsePlatforms: the warnings printed at verbosity ≥ 1 are left out. They do not affect the result.
- Build.AskUserConfirm: lower-cases ASCII letters only. Go's `strings.ToLower` also folds non-ASCII letters, which the model leaves unchanged. The prompt text, and the fresh `bufio.Scanner` created on each call, are not modelled. The answer is the line read, or `None` at end of input.
- Rmmr.Excluded: the "python" and "scripts" tests lower-case ASCII letters only. Python's `str.lower` also folds non-ASCII letters, which the model leaves unchanged.
- Rmmr: loading the native extension module and calling it (rmmr.py lines 8-40 and 62-73) is left out, because it is I/O and a foreign call.
- ConfigCommand: `click.echo` output is returned as a list of lines. The click exceptions are `ConfigResult` cases, and how click renders them is not modelled. `ensure_object` is modelled for a context object that is absent or a dictionary.
- The other commands of `gogogo` are left out because they only print: `listPlatforms`, `listGroups`, `showVersion`, `showExamples` and the cobra flag setup. Logging, colours and the verbosity-2 command echo are left out for the same reason.
