/** Per-target policy, job preparation and retry-and-classify orchestration
    of the cross-compilation driver.

    The external world is reduced to inputs: the answer read from standard
    input at the Android prompt (`None` at end of input), the result of the
    `go build` invocation, and the result of compressing the artifact, one of
    each per attempt. The sentinel error `ErrSkipped` becomes the `Skipped`
    case of `Outcome`. The targets of a run are built one after another here;
    the Go program runs them in goroutines, and the report is proved to have
    the same contents whatever order the targets finish in. */
module Build {
  import opened Wrappers
  import opened GoStrings
  import opened Settings
  import opened Platforms

  /** What one call of `buildSingle` ends in: `nil`, `ErrSkipped`, or any
      other error with its text. */
  datatype Outcome = Success | Skipped | Failed(message: string)

  /** What running the compiler returns: success, or the process error and
      the combined output. */
  datatype CompileResult = Compiled | CompileError(err: string, output: string)

  /** The outside world as one attempt sees it. */
  datatype AttemptInput = AttemptInput(answer: Option<string>, compile: CompileResult, compressOk: bool)

  /** The `go` command that is executed: its arguments after `go`, and its
      environment. */
  datatype Command = Command(args: seq<string>, env: seq<string>)

  /** The effects of one attempt: the directory it makes sure exists, and the
      command it executes. */
  datatype Effects = Effects(madeDir: Option<string>, executed: Option<Command>)

  const StaticLinkFlags: string := "-linkmode=external -extldflags=-static"
  const XcodeMissing: string := "iOS编译需要安装Xcode和Command Line Tools"

  // ---------------------------------------------------------------------
  // Policy
  // ---------------------------------------------------------------------

  /** `askUserConfirm`: approved without asking under `NoPrompt`; otherwise
      the answer, trimmed and lower-cased, must be "y" or "yes". */
  function AskUserConfirm(cfg: Config, answer: Option<string>): bool {
    if cfg.noPrompt then true
    else if answer.None? then false
    else
      var response := ToLower(TrimSpace(answer.value));
      YesWord(response)
  }

  /** "y" or "yes": the words the prompt accepts once lower-cased. */
  predicate YesWord(response: string) {
    response == "y" || response == "yes"
  }

  /** An answer approves when it is "y" or "yes", in any letter case, with
      only white space around it. */
  ghost predicate Approves(answer: string) {
    exists pre, w, post :: answer == pre + w + post && AllSpace(pre) && AllSpace(post) && YesWord(ToLower(w))
  }

  /** A line whose trimmed, lower-cased form is accepted is of the approved
      shape. */
  lemma TrimmedApproves(s: string)
    requires YesWord(ToLower(TrimSpace(s)))
    ensures Approves(s)
  {
    var r := TrimSpace(s);
    var n := LeadingSpaces(s);
    var pre, post := s[..n], s[n + |r|..];
    assert s == pre + r + post by {
      assert r == s[n..n + |r|];
    }
    assert AllSpace(pre) by {
      assert forall k :: 0 <= k < |pre| ==> pre[k] == s[k];
    }
    assert AllSpace(post) by {
      assert forall k :: 0 <= k < |post| ==> post[k] == s[n + |r| + k];
    }
    assert YesWord(ToLower(r));
  }

  /** A line of the approved shape trims and lower-cases to "y" or "yes". */
  lemma ApprovesTrimmed(s: string)
    requires Approves(s)
    ensures YesWord(ToLower(TrimSpace(s)))
  {
    var pre, w, post :| s == pre + w + post && AllSpace(pre) && AllSpace(post) && YesWord(ToLower(w));
    assert LowerChar(w[0]) == 'y';
    assert LowerChar(w[|w| - 1]) == 'y' || LowerChar(w[|w| - 1]) == 's';
    TrimSpaceAround(pre, w, post);
  }

  /** The prompt approves exactly under `NoPrompt`, or when a line was read
      and it is "y" or "yes" up to surrounding white space and letter case. */
  lemma ConfirmIff(cfg: Config, answer: Option<string>)
    ensures AskUserConfirm(cfg, answer) <==> cfg.noPrompt || (answer.Some? && Approves(answer.value))
  {
    if !cfg.noPrompt && answer.Some? {
      if YesWord(ToLower(TrimSpace(answer.value))) {
        TrimmedApproves(answer.value);
      }
      if Approves(answer.value) {
        ApprovesTrimmed(answer.value);
      }
    }
  }

  /** Android and iOS need cgo; `SkipCGO` skips them outright. */
  predicate SkipsForCgo(cfg: Config, t: BuildTarget) {
    cfg.skipCgo && (t.goos == "android" || t.goos == "ios")
  }

  /** iOS is skipped off a darwin host unless forced. */
  predicate SkipsIosOffDarwin(cfg: Config, host: Host, t: BuildTarget) {
    t.goos == "ios" && host.goos != "darwin" && !cfg.force
  }

  /** iOS on a darwin host needs `xcodebuild`. */
  predicate LacksXcode(host: Host, t: BuildTarget) {
    t.goos == "ios" && host.goos == "darwin" && !host.hasXcodebuild
  }

  /** Android is prompted for at verbosity 1 or more, and skipped unless
      the prompt is approved. */
  predicate SkipsAndroidPrompt(cfg: Config, t: BuildTarget, answer: Option<string>) {
    t.goos == "android" && cfg.verbose >= 1 && !AskUserConfirm(cfg, answer)
  }

  /** The compiler is run for a target iff no skip rule and no missing tool
      stops it first. */
  predicate Invokes(cfg: Config, host: Host, t: BuildTarget, answer: Option<string>) {
    && !SkipsForCgo(cfg, t)
    && !SkipsIosOffDarwin(cfg, host, t)
    && !LacksXcode(host, t)
    && !SkipsAndroidPrompt(cfg, t, answer)
  }

  function CompileFailure(name: string, err: string, output: string): string {
    "编译失败 [" + name + "]: " + err + "\n输出: " + output
  }

  /** The outcome of one attempt for a target: the rules in the order
      `buildSingle` checks them, then the compiler's result. Compression does
      not appear: its failure is only logged. */
  function Verdict(cfg: Config, host: Host, t: BuildTarget, answer: Option<string>, compile: CompileResult): Outcome {
    if SkipsForCgo(cfg, t) then Skipped
    else if SkipsIosOffDarwin(cfg, host, t) then Skipped
    else if LacksXcode(host, t) then Failed(XcodeMissing)
    else if SkipsAndroidPrompt(cfg, t, answer) then Skipped
    else
      match compile
      case Compiled => Success
      case CompileError(err, output) => Failed(CompileFailure(t.name, err, output))
  }

  /** A target is skipped exactly when one of the three skip rules applies. */
  lemma SkipRules(cfg: Config, host: Host, t: BuildTarget, answer: Option<string>, compile: CompileResult)
    ensures Verdict(cfg, host, t, answer, compile).Skipped? <==>
      || (cfg.skipCgo && (t.goos == "android" || t.goos == "ios"))
      || (t.goos == "ios" && host.goos != "darwin" && !cfg.force)
      || (t.goos == "android" && cfg.verbose >= 1 && !cfg.noPrompt
          && !(answer.Some? && ToLower(TrimSpace(answer.value)) in {"y", "yes"}))
  {
  }

  /** An attempt succeeds exactly when the compiler is run and succeeds; it
      fails exactly when `xcodebuild` is missing or the compiler fails. */
  lemma VerdictCases(cfg: Config, host: Host, t: BuildTarget, answer: Option<string>, compile: CompileResult)
    ensures Verdict(cfg, host, t, answer, compile).Success? <==> Invokes(cfg, host, t, answer) && compile.Compiled?
    ensures Verdict(cfg, host, t, answer, compile).Failed? <==>
      (!SkipsForCgo(cfg, t) && !SkipsIosOffDarwin(cfg, host, t) && LacksXcode(host, t))
      || (Invokes(cfg, host, t, answer) && compile.CompileError?)
  {
  }

  /** The prompt ignores surrounding white space and letter case:
      " YES" followed by a newline approves. */
  lemma ConfirmIgnoresSpaceAndCase(cfg: Config)
    requires !cfg.noPrompt
    ensures AskUserConfirm(cfg, Some(" YES\n"))
  {
    assert TrimSpace(" YES\n") == "YES" by {
      assert " YES\n" == " " + "YES" + "\n";
      TrimSpaceAround(" ", "YES", "\n");
    }
    assert ToLower("YES") == "yes";
  }

  /** End of input and any answer other than "y" or "yes" decline. */
  lemma ConfirmDeclines(cfg: Config)
    requires !cfg.noPrompt
    ensures !AskUserConfirm(cfg, None)
    ensures !AskUserConfirm(cfg, Some(""))
    ensures !AskUserConfirm(cfg, Some("no"))
    ensures AskUserConfirm(cfg, Some("y"))
  {
    PlainAnswers();
  }

  /** The answers "", "no" and "y" are unchanged by trimming and
      lower-casing. */
  lemma PlainAnswers()
    ensures ToLower(TrimSpace("")) == "" && ToLower(TrimSpace("no")) == "no" && ToLower(TrimSpace("y")) == "y"
  {
    TrimSpaceOfTrimmed("");
    TrimSpaceOfTrimmed("no");
    TrimSpaceOfTrimmed("y");
    assert ToLower("no") == "no";
    assert ToLower("y") == "y";
  }

  // ---------------------------------------------------------------------
  // Output path, arguments and environment
  // ---------------------------------------------------------------------

  /** The binary's file name: ".exe" is appended for Windows only. */
  function Filename(binaryName: string, goos: string): string {
    if goos == "windows" then binaryName + ".exe" else binaryName
  }

  /** `filepath.Join(outputDir, target.Name, filename)`. */
  function OutputPath(outputDir: string, t: BuildTarget, binaryName: string): string {
    outputDir + "/" + t.name + "/" + Filename(binaryName, t.goos)
  }

  /** Index of the last '/' of `path`, or -1 when it has none. */
  function LastSlash(path: string): (i: int)
    ensures -1 <= i < |path|
    ensures i >= 0 ==> path[i] == '/'
    ensures forall k :: i < k < |path| ==> path[k] != '/'
  {
    if path == [] then -1
    else if path[|path| - 1] == '/' then |path| - 1
    else LastSlash(path[..|path| - 1])
  }

  /** `filepath.Dir`, without the final cleaning: everything before the
      last '/', or "." when there is none. */
  function Dir(path: string): string {
    var i := LastSlash(path);
    if i < 0 then "." else path[..i]
  }

  /** The last '/' is the only one with no '/' after it. */
  lemma LastSlashAt(path: string, i: nat)
    requires i < |path| && path[i] == '/'
    requires forall k :: i < k < |path| ==> path[k] != '/'
    ensures LastSlash(path) == i
  {
  }

  /** The directory of `p/f` is `p` extended by the directory part of `f`,
      if `f` has one. */
  lemma DirOfJoin(p: string, f: string)
    ensures '/' !in f ==> Dir(p + "/" + f) == p
    ensures '/' in f ==> Dir(p + "/" + f) == p + "/" + f[..LastSlash(f)]
  {
    var s := p + "/" + f;
    var j := LastSlash(f);
    var i := |p| + 1 + j;
    if j < 0 {
      i := |p|;
    }
    assert s[i] == '/';
    assert forall k :: i < k < |s| ==> s[k] == f[k - |p| - 1];
    LastSlashAt(s, i);
    assert s[..i] == if j < 0 then p else p + "/" + f[..j];
  }

  /** The directory `buildSingle` makes is `outputDir/name`, extended by the
      directory part of the binary name when that name holds a '/'. */
  lemma DirOfOutputPath(outputDir: string, t: BuildTarget, binaryName: string)
    ensures '/' !in binaryName ==> Dir(OutputPath(outputDir, t, binaryName)) == outputDir + "/" + t.name
    ensures '/' in binaryName ==>
      Dir(OutputPath(outputDir, t, binaryName)) == outputDir + "/" + t.name + "/" + binaryName[..LastSlash(binaryName)]
  {
    var f := Filename(binaryName, t.goos);
    assert f[..|binaryName|] == binaryName;
    assert forall k :: |binaryName| <= k < |f| ==> f[k] != '/';
    if '/' in binaryName {
      LastSlashAt(f, LastSlash(binaryName));
      assert f[..LastSlash(binaryName)] == binaryName[..LastSlash(binaryName)];
    } else {
      assert forall k :: 0 <= k < |binaryName| ==> f[k] == binaryName[k];
    }
    DirOfJoin(outputDir + "/" + t.name, f);
  }

  /** A binary name with a directory part puts the binary in a further
      subdirectory: with `-n bin/app` the directory made for a target is
      `outputDir/name/bin`, not `outputDir/name`. */
  lemma BinaryNameWithDirectory(outputDir: string, t: BuildTarget)
    ensures Dir(OutputPath(outputDir, t, "bin/app")) == outputDir + "/" + t.name + "/bin"
  {
    assert LastSlash("bin/app") == 3 by {
      LastSlashAt("bin/app", 3);
    }
    assert '/' in "bin/app" && "bin/app"[..3] == "bin";
    DirOfOutputPath(outputDir, t, "bin/app");
  }

  /** The arguments of the executed `go` command. */
  function BuildArgs(cfg: Config, outputPath: string, sourceFile: string): seq<string> {
    ["build"]
    + (if cfg.ldFlags != "" then ["-ldflags", cfg.ldFlags] else [])
    + (if cfg.tags != "" then ["-tags", cfg.tags] else [])
    + ["-o", outputPath, sourceFile]
  }

  /** cgo is enabled for iOS and Android and disabled for every other OS. */
  function CgoSetting(goos: string): string {
    if goos == "ios" || goos == "android" then "CGO_ENABLED=1" else "CGO_ENABLED=0"
  }

  function BuildEnv(baseEnv: seq<string>, t: BuildTarget): seq<string> {
    baseEnv + ["GOOS=" + t.goos, "GOARCH=" + t.goarch, CgoSetting(t.goos)]
  }

  lemma SlashFreeHeadsDiffer(p: string, x: string, y: string, r1: string, r2: string)
    requires '/' !in x && '/' !in y && x != y
    ensures p + x + "/" + r1 != p + y + "/" + r2
  {
    var s1, s2 := p + x + "/" + r1, p + y + "/" + r2;
    if |x| == |y| {
      var i :| 0 <= i < |x| && x[i] != y[i];
      assert s1[|p| + i] == x[i] && s2[|p| + i] == y[i];
    } else if |x| < |y| {
      assert s1[|p| + |x|] == '/' && s2[|p| + |x|] == y[|x|];
    } else {
      assert s2[|p| + |y|] == '/' && s1[|p| + |y|] == x[|y|];
    }
  }

  /** Two well-formed targets with different names never share an output
      path. */
  lemma DistinctOutputPaths(outputDir: string, binaryName: string, t1: BuildTarget, t2: BuildTarget)
    requires WellFormed(t1) && WellFormed(t2) && t1.name != t2.name
    ensures OutputPath(outputDir, t1, binaryName) != OutputPath(outputDir, t2, binaryName)
  {
    var f1, f2 := Filename(binaryName, t1.goos), Filename(binaryName, t2.goos);
    if t1.goos != t2.goos {
      assert OutputPath(outputDir, t1, binaryName) == (outputDir + "/") + t1.goos + "/" + (t1.goarch + "/" + f1);
      assert OutputPath(outputDir, t2, binaryName) == (outputDir + "/") + t2.goos + "/" + (t2.goarch + "/" + f2);
      SlashFreeHeadsDiffer(outputDir + "/", t1.goos, t2.goos, t1.goarch + "/" + f1, t2.goarch + "/" + f2);
    } else {
      var p := outputDir + "/" + t1.goos + "/";
      assert OutputPath(outputDir, t1, binaryName) == p + t1.goarch + "/" + f1;
      assert OutputPath(outputDir, t2, binaryName) == p + t2.goarch + "/" + f2;
      SlashFreeHeadsDiffer(p, t1.goarch, t2.goarch, f1, f2);
    }
  }

  /** The executed arguments start with "build" and end with `-o path
      source`; each of `LDFlags` and `Tags` adds a flag pair when set. */
  lemma BuildArgsShape(cfg: Config, outputPath: string, sourceFile: string)
    ensures var args := BuildArgs(cfg, outputPath, sourceFile);
      && args[0] == "build"
      && |args| == 4 + (if cfg.ldFlags != "" then 2 else 0) + (if cfg.tags != "" then 2 else 0)
      && args[|args| - 3..] == ["-o", outputPath, sourceFile]
      && (cfg.ldFlags != "" ==> args[1..3] == ["-ldflags", cfg.ldFlags])
      && (cfg.tags != "" ==> args[|args| - 5..|args| - 3] == ["-tags", cfg.tags])
  {
  }

  /** Index of the first occurrence of `x`. */
  function FirstIndex(xs: seq<string>, x: string): (i: nat)
    requires x in xs
    ensures i < |xs| && xs[i] == x && x !in xs[..i]
  {
    if xs[0] == x then 0 else 1 + FirstIndex(xs[1..], x)
  }

  lemma {:induction false} FirstIndexAt(xs: seq<string>, x: string, i: nat)
    requires i < |xs| && xs[i] == x && x !in xs[..i]
    ensures FirstIndex(xs, x) == i
  {
    if i > 0 {
      assert xs[0] in xs[..i];
      assert xs[1..][..i - 1] == xs[1..i];
      assert xs[..i] == [xs[0]] + xs[1..i];
      FirstIndexAt(xs[1..], x, i - 1);
    }
  }

  /** The Android rewrite of the local argument list: `-ldflags` with the
      static-link flags is inserted before the first "-o". */
  method InsertStaticLinkFlags(args: seq<string>) returns (newArgs: seq<string>)
    ensures "-o" !in args ==> newArgs == args
    ensures "-o" in args ==>
      var i := FirstIndex(args, "-o");
      && newArgs == args[..i] + ["-ldflags", StaticLinkFlags] + args[i..]
      && |newArgs| == |args| + 2
  {
    newArgs := args;
    for i := 0 to |args|
      invariant "-o" !in args[..i]
    {
      if args[i] == "-o" {
        FirstIndexAt(args, "-o", i);
        newArgs := args[..i] + ["-ldflags", StaticLinkFlags] + args[i..];
        return;
      }
      assert args[..i + 1] == args[..i] + [args[i]];
    }
    assert args[..|args|] == args;
  }

  // ---------------------------------------------------------------------
  // One attempt
  // ---------------------------------------------------------------------

  /** The output path and argument list `buildSingle` prepares: the file
      name gains ".exe" for Windows, and each of `LDFlags` and `Tags` adds a
      flag pair when set, ahead of `-o path source`. */
  method CommandArgs(cfg: Config, t: BuildTarget, sourceFile: string, outputDir: string, binaryName: string)
    returns (outputPath: string, args: seq<string>)
    ensures outputPath == OutputPath(outputDir, t, binaryName)
    ensures args == BuildArgs(cfg, outputPath, sourceFile)
  {
    var filename := binaryName;
    if t.goos == "windows" {
      filename := filename + ".exe";
    }
    outputPath := outputDir + "/" + t.name + "/" + filename;
    args := ["build"];
    if cfg.ldFlags != "" {
      args := args + ["-ldflags", cfg.ldFlags];
    }
    if cfg.tags != "" {
      args := args + ["-tags", cfg.tags];
    }
    args := args + ["-o", outputPath, sourceFile];
  }

  /** `buildSingle`: apply the skip rules, choose the output path, build the
      argument list and environment, run the compiler, and compress the
      artifact on success. The command's arguments are fixed before the
      Android rewrite of the local list, so the rewrite is not executed. */
  method BuildSingle(cfg: Config, host: Host, t: BuildTarget, sourceFile: string, outputDir: string,
                     binaryName: string, baseEnv: seq<string>, input: AttemptInput)
    returns (outcome: Outcome, effects: Effects)
    ensures outcome == Verdict(cfg, host, t, input.answer, input.compile)
    ensures effects.madeDir == if SkipsForCgo(cfg, t) then None else Some(Dir(OutputPath(outputDir, t, binaryName)))
    ensures effects.executed.Some? <==> Invokes(cfg, host, t, input.answer)
    ensures effects.executed.Some? ==>
      effects.executed.value == Command(BuildArgs(cfg, OutputPath(outputDir, t, binaryName), sourceFile), BuildEnv(baseEnv, t))
  {
    if cfg.skipCgo && (t.goos == "android" || t.goos == "ios") {
      return Skipped, Effects(None, None);
    }

    var outputPath, args := CommandArgs(cfg, t, sourceFile, outputDir, binaryName);
    var dir := Dir(outputPath);

    var cmdArgs := args;
    var env := baseEnv + ["GOOS=" + t.goos, "GOARCH=" + t.goarch];
    if t.goos == "js" {
      env := env + ["CGO_ENABLED=0"];
    } else if t.goos == "ios" {
      if host.goos != "darwin" {
        if !cfg.force {
          assert SkipsIosOffDarwin(cfg, host, t);
          return Skipped, Effects(Some(dir), None);
        }
      }
      if host.goos == "darwin" {
        if !host.hasXcodebuild {
          assert LacksXcode(host, t);
          return Failed(XcodeMissing), Effects(Some(dir), None);
        }
      }
      env := env + ["CGO_ENABLED=1"];
    } else if t.goos == "android" {
      if cfg.verbose >= 1 {
        if !AskUserConfirm(cfg, input.answer) {
          assert SkipsAndroidPrompt(cfg, t, input.answer);
          return Skipped, Effects(Some(dir), None);
        }
      }
      env := env + ["CGO_ENABLED=1"];
      if cfg.ldFlags == "" {
        // rewrites the local list only; `cmdArgs` keeps the plain arguments
        args := InsertStaticLinkFlags(args);
      }
    } else {
      env := env + ["CGO_ENABLED=0"];
    }
    assert env == BuildEnv(baseEnv, t) && Invokes(cfg, host, t, input.answer);

    var cmd := Command(cmdArgs, env);
    effects := Effects(Some(dir), Some(cmd));
    match input.compile {
      case CompileError(err, output) =>
        return Failed(CompileFailure(t.name, err, output)), effects;
      case Compiled =>
    }
    // with `Compress` set the artifact is compressed; a failure there is
    // only logged, so the attempt succeeds either way
    outcome := Success;
  }

  /** The static-link rewrite made for Android never reaches the executed
      command: the command has the plain arguments, two fewer than the
      rewritten list. */
  lemma AndroidRewriteNotExecuted(cfg: Config, t: BuildTarget, outputDir: string, binaryName: string, sourceFile: string)
    requires t.goos == "android" && cfg.ldFlags == ""
    ensures var args := BuildArgs(cfg, OutputPath(outputDir, t, binaryName), sourceFile);
      && "-o" in args
      && var i := FirstIndex(args, "-o");
         args != args[..i] + ["-ldflags", StaticLinkFlags] + args[i..]
  {
    var args := BuildArgs(cfg, OutputPath(outputDir, t, binaryName), sourceFile);
    assert args[|args| - 3] == "-o";
    var i := FirstIndex(args, "-o");
    assert |args[..i] + ["-ldflags", StaticLinkFlags] + args[i..]| == |args| + 2;
  }

  // ---------------------------------------------------------------------
  // The retry loop
  // ---------------------------------------------------------------------

  /** The outcome of attempt `k`, with that attempt's inputs. */
  function AttemptVerdict(cfg: Config, host: Host, t: BuildTarget, inputs: nat -> AttemptInput, k: nat): Outcome {
    Verdict(cfg, host, t, inputs(k).answer, inputs(k).compile)
  }

  /** Attempts from `k` on: the recorded outcome and the number of attempts
      made in all. Attempts stop at the first success or after attempt
      `MaxRetries`. */
  function RetryFrom(cfg: Config, host: Host, t: BuildTarget, inputs: nat -> AttemptInput, k: nat): (Outcome, nat)
    requires k <= cfg.maxRetries
    decreases cfg.maxRetries - k
  {
    var o := AttemptVerdict(cfg, host, t, inputs, k);
    if o.Success? || k == cfg.maxRetries then (o, k + 1)
    else RetryFrom(cfg, host, t, inputs, k + 1)
  }

  /** The outcome recorded for a target; with a negative `MaxRetries` the
      loop does not run and the target counts as built. */
  function FinalOutcome(cfg: Config, host: Host, t: BuildTarget, inputs: nat -> AttemptInput): Outcome {
    if cfg.maxRetries < 0 then Success else RetryFrom(cfg, host, t, inputs, 0).0
  }

  function AttemptCount(cfg: Config, host: Host, t: BuildTarget, inputs: nat -> AttemptInput): nat {
    if cfg.maxRetries < 0 then 0 else RetryFrom(cfg, host, t, inputs, 0).1
  }

  /** The sleeps before attempts 2, 3, ...: 1, 2, ... seconds. */
  function Backoff(n: nat): (d: seq<nat>)
    ensures |d| == n && forall i :: 0 <= i < n ==> d[i] == i + 1
  {
    seq(n, i requires 0 <= i < n => i + 1)
  }

  /** One step of the retry loop: attempt `k` either ends the loop or
      hands over to attempt `k + 1`. */
  lemma RetryStep(cfg: Config, host: Host, t: BuildTarget, inputs: nat -> AttemptInput, k: nat, o: Outcome)
    requires k <= cfg.maxRetries && o == AttemptVerdict(cfg, host, t, inputs, k)
    ensures o.Success? || k == cfg.maxRetries ==> RetryFrom(cfg, host, t, inputs, k) == (o, k + 1)
    ensures !o.Success? && k < cfg.maxRetries ==> RetryFrom(cfg, host, t, inputs, k) == RetryFrom(cfg, host, t, inputs, k + 1)
  {
  }

  lemma BackoffStep(n: nat)
    ensures Backoff(n) + [n + 1] == Backoff(n + 1)
  {
  }

  /** The attempts from `k` on: the last one made is the one recorded, every
      earlier one did not succeed, and the loop stops early only on a
      success. */
  lemma {:induction false} RetryFromFacts(cfg: Config, host: Host, t: BuildTarget, inputs: nat -> AttemptInput, k: nat)
    requires k <= cfg.maxRetries
    ensures var (o, n) := RetryFrom(cfg, host, t, inputs, k);
      && k < n <= cfg.maxRetries + 1
      && o == AttemptVerdict(cfg, host, t, inputs, n - 1)
      && (forall j :: k <= j < n - 1 ==> !AttemptVerdict(cfg, host, t, inputs, j).Success?)
      && (o.Success? || n == cfg.maxRetries + 1)
    decreases cfg.maxRetries - k
  {
    var o := AttemptVerdict(cfg, host, t, inputs, k);
    if !(o.Success? || k == cfg.maxRetries) {
      RetryFromFacts(cfg, host, t, inputs, k + 1);
    }
  }

  /** With `MaxRetries >= 0` the recorded outcome is that of the last of
      1..MaxRetries+1 attempts; it is a success iff some attempt succeeded,
      and otherwise exactly MaxRetries+1 attempts were made. */
  lemma FinalOutcomeFacts(cfg: Config, host: Host, t: BuildTarget, inputs: nat -> AttemptInput)
    requires cfg.maxRetries >= 0
    ensures var n := AttemptCount(cfg, host, t, inputs);
      && 1 <= n <= cfg.maxRetries + 1
      && FinalOutcome(cfg, host, t, inputs) == AttemptVerdict(cfg, host, t, inputs, n - 1)
      && (!FinalOutcome(cfg, host, t, inputs).Success? ==> n == cfg.maxRetries + 1)
    ensures FinalOutcome(cfg, host, t, inputs).Success? <==>
      exists k :: 0 <= k <= cfg.maxRetries && AttemptVerdict(cfg, host, t, inputs, k).Success?
  {
    RetryFromFacts(cfg, host, t, inputs, 0);
    var n := AttemptCount(cfg, host, t, inputs);
    if !FinalOutcome(cfg, host, t, inputs).Success? {
      assert forall k :: 0 <= k <= cfg.maxRetries ==> !AttemptVerdict(cfg, host, t, inputs, k).Success?;
    } else {
      assert AttemptVerdict(cfg, host, t, inputs, n - 1).Success?;
    }
  }

  /** Skips are retried like failures: a target that `SkipCGO` skips is
      attempted MaxRetries+1 times and recorded as skipped. */
  lemma SkipsAreRetried(cfg: Config, host: Host, t: BuildTarget, inputs: nat -> AttemptInput)
    requires cfg.maxRetries >= 0 && SkipsForCgo(cfg, t)
    ensures AttemptCount(cfg, host, t, inputs) == cfg.maxRetries + 1
    ensures FinalOutcome(cfg, host, t, inputs) == Skipped
  {
    FinalOutcomeFacts(cfg, host, t, inputs);
  }

  /** The per-target retry loop of `buildWithProgress`: call `buildSingle`
      until it succeeds or MaxRetries+1 attempts are used, sleeping k+1
      seconds after a failed attempt k when `Retry` is set and k <
      MaxRetries. Returns the recorded outcome, the attempts made and the
      sleeps taken. */
  method BuildWithRetry(cfg: Config, host: Host, t: BuildTarget, sourceFile: string, outputDir: string,
                        binaryName: string, baseEnv: seq<string>, inputs: nat -> AttemptInput)
    returns (outcome: Outcome, attempts: nat, delays: seq<nat>)
    ensures outcome == FinalOutcome(cfg, host, t, inputs)
    ensures attempts == AttemptCount(cfg, host, t, inputs)
    ensures delays == if cfg.retry && attempts > 0 then Backoff(attempts - 1) else []
  {
    var err := Success;
    attempts, delays := 0, [];
    var attempt := 0;
    while attempt <= cfg.maxRetries
      invariant 0 <= attempt == attempts
      invariant attempt <= cfg.maxRetries + 1 || attempt == 0
      invariant attempt <= cfg.maxRetries ==> RetryFrom(cfg, host, t, inputs, 0) == RetryFrom(cfg, host, t, inputs, attempt)
      invariant attempt > 0 && attempt == cfg.maxRetries + 1 ==> RetryFrom(cfg, host, t, inputs, 0) == (err, attempt)
      invariant attempt == 0 ==> err == Success
      invariant delays == if cfg.retry then Backoff(if attempt > cfg.maxRetries && attempt > 0 then attempt - 1 else attempt) else []
      decreases cfg.maxRetries + 1 - attempt
    {
      var effects;
      err, effects := BuildSingle(cfg, host, t, sourceFile, outputDir, binaryName, baseEnv, inputs(attempt));
      RetryStep(cfg, host, t, inputs, attempt, err);
      attempts := attempts + 1;
      if err.Success? {
        break;
      }
      if attempt < cfg.maxRetries && cfg.retry {
        BackoffStep(attempt);
        delays := delays + [attempt + 1];
      }
      attempt := attempt + 1;
    }
    outcome := err;
  }

  // ---------------------------------------------------------------------
  // Classification and the run
  // ---------------------------------------------------------------------

  /** An entry of `errs`: the target's name and the error it ended in. */
  datatype TargetError = TargetError(name: string, detail: string)

  /** The three lists `buildWithProgress` fills. */
  datatype Report = Report(successful: seq<string>, skipped: seq<string>, errs: seq<TargetError>)

  /** What the run returns: success, the caller's error for an empty target
      list, or the error counting failed targets. */
  datatype RunResult = Ok | NoTargets | BuildFailed(failures: nat)

  /** The report of a sequence of (name, recorded outcome) pairs, each
      appended to the list its outcome selects. */
  function Classify(results: seq<(string, Outcome)>): (r: Report)
    ensures |r.successful| + |r.skipped| + |r.errs| == |results|
  {
    if results == [] then Report([], [], [])
    else
      var r := Classify(results[..|results| - 1]);
      var last := results[|results| - 1];
      match last.1
      case Success => r.(successful := r.successful + [last.0])
      case Skipped => r.(skipped := r.skipped + [last.0])
      case Failed(msg) => r.(errs := r.errs + [TargetError(last.0, msg)])
  }

  /** Appending `x` adds one to its own count only. */
  lemma AppendCount<T>(xs: seq<T>, x: T, y: T)
    ensures multiset(xs + [x])[y] == multiset(xs)[y] + (if x == y then 1 else 0)
  {
    assert multiset(xs + [x]) == multiset(xs) + multiset{x};
  }

  /** Classifying one more result adds it to the list of its kind only. */
  lemma ClassifyLast(results: seq<(string, Outcome)>, name: string, msg: string)
    requires results != []
    ensures var r, r' := Classify(results[..|results| - 1]), Classify(results);
      var last := results[|results| - 1];
      && multiset(r'.successful)[name] == multiset(r.successful)[name] + (if last == (name, Success) then 1 else 0)
      && multiset(r'.skipped)[name] == multiset(r.skipped)[name] + (if last == (name, Skipped) then 1 else 0)
      && multiset(r'.errs)[TargetError(name, msg)] == multiset(r.errs)[TargetError(name, msg)] + (if last == (name, Failed(msg)) then 1 else 0)
  {
    var r := Classify(results[..|results| - 1]);
    var last := results[|results| - 1];
    match last.1
    case Success =>
      AppendCount(r.successful, last.0, name);
    case Skipped =>
      AppendCount(r.skipped, last.0, name);
    case Failed(m) =>
      AppendCount(r.errs, TargetError(last.0, m), TargetError(name, msg));
  }

  /** Each list counts exactly the results of its kind: a name appears in
      `successful` (or `skipped`) as often as it finished so, and each
      (name, error) pair in `errs` as often as it failed so. */
  lemma {:induction false} ClassifyCounts(results: seq<(string, Outcome)>, name: string, msg: string)
    ensures multiset(Classify(results).successful)[name] == multiset(results)[(name, Success)]
    ensures multiset(Classify(results).skipped)[name] == multiset(results)[(name, Skipped)]
    ensures multiset(Classify(results).errs)[TargetError(name, msg)] == multiset(results)[(name, Failed(msg))]
  {
    if results != [] {
      var n := |results|;
      var prefix, last := results[..n - 1], results[n - 1];
      assert results == prefix + [last];
      AppendCount(prefix, last, (name, Success));
      AppendCount(prefix, last, (name, Skipped));
      AppendCount(prefix, last, (name, Failed(msg)));
      ClassifyCounts(prefix, name, msg);
      ClassifyLast(results, name, msg);
    }
  }
  /** The report's contents do not depend on the order in which targets
      finish: any reordering of the results gives the same three multisets. */
  lemma ClassifyOrderIndependent(a: seq<(string, Outcome)>, b: seq<(string, Outcome)>)
    requires multiset(a) == multiset(b)
    ensures multiset(Classify(a).successful) == multiset(Classify(b).successful)
    ensures multiset(Classify(a).skipped) == multiset(Classify(b).skipped)
    ensures multiset(Classify(a).errs) == multiset(Classify(b).errs)
  {
    forall name ensures multiset(Classify(a).successful)[name] == multiset(Classify(b).successful)[name]
      && multiset(Classify(a).skipped)[name] == multiset(Classify(b).skipped)[name] {
      ClassifyCounts(a, name, "");
      ClassifyCounts(b, name, "");
    }
    forall e: TargetError ensures multiset(Classify(a).errs)[e] == multiset(Classify(b).errs)[e] {
      ClassifyCounts(a, e.name, e.detail);
      ClassifyCounts(b, e.name, e.detail);
    }
  }

  /** There are errors iff some result is a failure. */
  lemma {:induction false} ClassifyErrsIff(results: seq<(string, Outcome)>)
    ensures |Classify(results).errs| > 0 <==> exists i :: 0 <= i < |results| && results[i].1.Failed?
  {
    if results != [] {
      var n := |results|;
      ClassifyErrsIff(results[..n - 1]);
      if exists i :: 0 <= i < n && results[i].1.Failed? {
        var i :| 0 <= i < n && results[i].1.Failed?;
        if i < n - 1 {
          assert results[..n - 1][i].1.Failed?;
        }
      }
      var prefix := results[..n - 1];
      if exists i :: 0 <= i < |prefix| && prefix[i].1.Failed? {
        var i :| 0 <= i < |prefix| && prefix[i].1.Failed?;
        assert results[i].1.Failed?;
      }
    }
  }

  /** What the attempts of target `i` see. */
  function AttemptsOf(inputs: (nat, nat) -> AttemptInput, i: nat): nat -> AttemptInput {
    (k: nat) => inputs(i, k)
  }

  /** The recorded outcome of every target, paired with its name; `inputs(i,
      k)` is what attempt k of target i sees. */
  function Results(cfg: Config, host: Host, targets: seq<BuildTarget>, inputs: (nat, nat) -> AttemptInput)
    : (rs: seq<(string, Outcome)>)
    ensures |rs| == |targets|
  {
    seq(|targets|, i requires 0 <= i < |targets| =>
      (targets[i].name, FinalOutcome(cfg, host, targets[i], AttemptsOf(inputs, i))))
  }

  /** `buildWithProgress`: run the retry loop for every target and sort each
      recorded outcome into `successful`, `skipped` or `errs`; the run fails
      iff `errs` is non-empty. */
  method BuildWithProgress(cfg: Config, host: Host, targets: seq<BuildTarget>, sourceFile: string, outputDir: string,
                           binaryName: string, baseEnv: seq<string>, inputs: (nat, nat) -> AttemptInput)
    returns (report: Report, result: RunResult)
    ensures report == Classify(Results(cfg, host, targets, inputs))
    ensures result == if |report.errs| > 0 then BuildFailed(|report.errs|) else Ok
  {
    ghost var results := Results(cfg, host, targets, inputs);
    var errs: seq<TargetError> := [];
    var skipped: seq<string> := [];
    var successful: seq<string> := [];
    for i := 0 to |targets|
      invariant Report(successful, skipped, errs) == Classify(results[..i])
    {
      assert results[..i + 1][..i] == results[..i];
      var t := targets[i];
      var err, attempts, delays := BuildWithRetry(cfg, host, t, sourceFile, outputDir, binaryName, baseEnv, AttemptsOf(inputs, i));
      assert results[..i + 1][i] == (t.name, err);
      match err {
        case Skipped => skipped := skipped + [t.name];
        case Failed(msg) => errs := errs + [TargetError(t.name, msg)];
        case Success => successful := successful + [t.name];
      }
    }
    assert results[..|targets|] == results;
    report := Report(successful, skipped, errs);
    if |errs| > 0 {
      return report, BuildFailed(|errs|);
    }
    result := Ok;
  }

  /** The run fails iff some target's recorded outcome is a failure; skipped
      targets do not fail it. */
  lemma RunFailsIff(cfg: Config, host: Host, targets: seq<BuildTarget>, inputs: (nat, nat) -> AttemptInput)
    ensures |Classify(Results(cfg, host, targets, inputs)).errs| > 0 <==>
      exists i :: 0 <= i < |targets| && FinalOutcome(cfg, host, targets[i], AttemptsOf(inputs, i)).Failed?
  {
    var rs := Results(cfg, host, targets, inputs);
    ClassifyErrsIff(rs);
    assert forall i :: 0 <= i < |targets| ==> rs[i].1 == FinalOutcome(cfg, host, targets[i], AttemptsOf(inputs, i));
  }

  /** The command's main path: resolve the joined platform list, reject an
      empty target list, then build. `BinaryName` is taken as already
      defaulted. */
  method Run(cfg: Config, host: Host, discovery: Option<string>, baseEnv: seq<string>, inputs: (nat, nat) -> AttemptInput)
    returns (targets: seq<BuildTarget>, report: Option<Report>, result: RunResult)
    ensures targets == Resolve(Join(cfg.platforms, ','), cfg.all, Catalog(discovery), host.goarch)
    ensures result.NoTargets? <==> targets == []
    ensures result.NoTargets? ==> report.None?
    ensures !result.NoTargets? ==>
      && report == Some(Classify(Results(cfg, host, targets, inputs)))
      && (result.BuildFailed? <==> exists i :: 0 <= i < |targets| && FinalOutcome(cfg, host, targets[i], AttemptsOf(inputs, i)).Failed?)
  {
    targets := ParsePlatforms(Join(cfg.platforms, ','), cfg.all, discovery, host.goarch);
    if |targets| == 0 {
      return targets, None, NoTargets;
    }
    var r;
    r, result := BuildWithProgress(cfg, host, targets, cfg.sourceFile, cfg.outputDir, cfg.binaryName, baseEnv, inputs);
    report := Some(r);
    RunFailsIff(cfg, host, targets, inputs);
  }
}
