/** Platform resolution of the cross-compilation driver: turning a
    comma-separated platform specification such as `"desktop,js/wasm,illumos"`
    into the list of `GOOS/GOARCH` build targets.

    The platform catalog comes from `go tool dist list`; here its output is an
    input, `None` when the command fails. The host's native architecture
    (`runtime.GOARCH`) is an input too. Each operation that the Go code writes
    as a loop is a method, proved equal to a recursive specification function,
    and the properties of resolution are lemmas about those functions. */
module Platforms {
  import opened Wrappers
  import opened GoStrings

  /** One build target; `name` is the label the target was written as. */
  datatype BuildTarget = BuildTarget(goos: string, goarch: string, name: string)

  /** The canonical `os/arch` label. */
  function Label(os: string, arch: string): string {
    os + "/" + arch
  }

  /** A target is well formed when its name is `GOOS/GOARCH` and neither part
      holds a slash. */
  predicate WellFormed(t: BuildTarget) {
    t.name == Label(t.goos, t.goarch) && '/' !in t.goos && '/' !in t.goarch
  }

  function Labels(pairs: seq<(string, string)>): (ls: seq<string>)
    ensures |ls| == |pairs|
  {
    seq(|pairs|, i requires 0 <= i < |pairs| => Label(pairs[i].0, pairs[i].1))
  }

  function PairTargets(pairs: seq<(string, string)>): (ts: seq<BuildTarget>)
    ensures |ts| == |pairs|
  {
    seq(|pairs|, i requires 0 <= i < |pairs| => BuildTarget(pairs[i].0, pairs[i].1, Label(pairs[i].0, pairs[i].1)))
  }

  function Names(ts: seq<BuildTarget>): (ns: seq<string>)
    ensures |ns| == |ts|
  {
    seq(|ts|, i requires 0 <= i < |ts| => ts[i].name)
  }

  /** No slash in either half of any pair. */
  predicate SlashFree(pairs: seq<(string, string)>) {
    forall i :: 0 <= i < |pairs| ==> '/' !in pairs[i].0 && '/' !in pairs[i].1
  }

  const DesktopPairs: seq<(string, string)> := [
    ("windows", "amd64"), ("windows", "386"), ("windows", "arm64"),
    ("linux", "amd64"), ("linux", "386"), ("linux", "arm64"), ("linux", "arm"),
    ("darwin", "amd64"), ("darwin", "arm64")]
  const DefaultPairs: seq<(string, string)> := DesktopPairs + [("android", "arm64")]
  const ServerPairs: seq<(string, string)> := [("linux", "amd64"), ("linux", "arm64"), ("freebsd", "amd64"), ("freebsd", "arm64")]
  const MobilePairs: seq<(string, string)> := [("android", "arm64"), ("android", "arm"), ("ios", "amd64"), ("ios", "arm64")]
  const WebPairs: seq<(string, string)> := [("js", "wasm")]
  const EmbeddedPairs: seq<(string, string)> := [("linux", "arm"), ("linux", "arm64"), ("linux", "mips"), ("linux", "mips64"), ("linux", "riscv64")]

  /** The preset platform groups (`PlatformGroups`), each an ordered list of
      labels. `all` is not among them: it is resolved from the catalog. */
  const PlatformGroups: map<string, seq<string>> := map[
    "default" := Labels(DefaultPairs),
    "desktop" := Labels(DesktopPairs),
    "server" := Labels(ServerPairs),
    "mobile" := Labels(MobilePairs),
    "web" := Labels(WebPairs),
    "embedded" := Labels(EmbeddedPairs)]

  /** The 23 platforms `all` stands for when the catalog cannot be obtained. */
  const FallbackPairs: seq<(string, string)> := [
    ("windows", "amd64"), ("windows", "386"), ("windows", "arm64"),
    ("linux", "amd64"), ("linux", "386"), ("linux", "arm64"), ("linux", "arm"),
    ("darwin", "amd64"), ("darwin", "arm64"),
    ("freebsd", "amd64"), ("freebsd", "arm64"),
    ("android", "arm64"), ("android", "arm"),
    ("ios", "amd64"), ("ios", "arm64"),
    ("js", "wasm"),
    ("linux", "mips"), ("linux", "mips64"),
    ("linux", "riscv64"),
    ("openbsd", "amd64"), ("netbsd", "amd64"),
    ("dragonfly", "amd64"), ("solaris", "amd64")]

  const FallbackAll: seq<string> := Labels(FallbackPairs)

  /** None of the operating-system or architecture names in the constants
      holds a slash. */
  lemma NamesSlashFree()
    ensures '/' !in "windows" && '/' !in "linux" && '/' !in "darwin" && '/' !in "freebsd"
    ensures '/' !in "android" && '/' !in "ios" && '/' !in "js" && '/' !in "openbsd"
    ensures '/' !in "netbsd" && '/' !in "dragonfly" && '/' !in "solaris"
    ensures '/' !in "amd64" && '/' !in "386" && '/' !in "arm64" && '/' !in "arm"
    ensures '/' !in "wasm" && '/' !in "mips" && '/' !in "mips64" && '/' !in "riscv64"
  {
  }

  // ---------------------------------------------------------------------
  // The catalog: parsing the output of `go tool dist list`
  // ---------------------------------------------------------------------

  /** The catalog entry a line of discovery output contributes: the trimmed
      line, if it is non-empty and holds a slash. */
  function CatalogEntry(line: string): seq<string> {
    var p := TrimSpace(line);
    if p != "" && '/' in p then [p] else []
  }

  /** The catalog entries of a list of output lines, in line order. */
  function CatalogLines(lines: seq<string>): (entries: seq<string>)
    ensures forall p :: p in entries ==> p != "" && '/' in p && TrimSpace(p) == p
  {
    if lines == [] then []
    else
      TrimSpaceIdempotent(lines[|lines| - 1]);
      CatalogLines(lines[..|lines| - 1]) + CatalogEntry(lines[|lines| - 1])
  }

  /** The catalog that a discovery result yields; `None` when discovery failed. */
  function Catalog(discovery: Option<string>): Option<seq<string>> {
    match discovery
    case None => None
    case Some(output) => Some(CatalogLines(Split(TrimSpace(output), '\n')))
  }

  /** Some line of `lines` trims to `p`. */
  predicate TrimsTo(lines: seq<string>, p: string) {
    exists l :: l in lines && TrimSpace(l) == p
  }

  /** A string is a catalog entry iff it is the trimmed form of some output
      line and that form is non-empty and holds a slash. */
  lemma {:induction false} CatalogLinesMembers(lines: seq<string>, p: string)
    ensures p in CatalogLines(lines) <==> p != "" && '/' in p && TrimsTo(lines, p)
  {
    if lines != [] {
      var n := |lines|;
      var init, last := lines[..n - 1], lines[n - 1];
      CatalogLinesMembers(init, p);
      assert CatalogLines(lines) == CatalogLines(init) + CatalogEntry(last);
      assert p in CatalogEntry(last) <==> p == TrimSpace(last) && p != "" && '/' in p;
      if TrimsTo(lines, p) {
        var l :| l in lines && TrimSpace(l) == p;
        var k :| 0 <= k < n && lines[k] == l;
        if k < n - 1 {
          assert init[k] == l;
        }
      }
      if TrimsTo(init, p) {
        var l :| l in init && TrimSpace(l) == p;
        assert l in lines;
      }
      assert last in lines;
    }
  }

  lemma CatalogLinesStep(lines: seq<string>, i: nat)
    requires i < |lines|
    ensures CatalogLines(lines[..i + 1]) == CatalogLines(lines[..i]) + CatalogEntry(lines[i])
  {
    assert lines[..i + 1][..i] == lines[..i];
  }

  /** `getAllSupportedPlatforms`, parsing part: split the trimmed output into
      lines and keep each trimmed line that is non-empty and holds a slash. */
  method SupportedPlatforms(discovery: Option<string>) returns (r: Option<seq<string>>)
    ensures r == Catalog(discovery)
  {
    if discovery.None? {
      return None;
    }
    var platforms := Split(TrimSpace(discovery.value), '\n');
    var validPlatforms := [];
    for i := 0 to |platforms|
      invariant validPlatforms == CatalogLines(platforms[..i])
    {
      CatalogLinesStep(platforms, i);
      var platform := TrimSpace(platforms[i]);
      if platform != "" && '/' in platform {
        validPlatforms := validPlatforms + [platform];
      }
    }
    assert platforms[..|platforms|] == platforms;
    r := Some(validPlatforms);
  }

  // ---------------------------------------------------------------------
  // Architectures of one operating system
  // ---------------------------------------------------------------------

  /** The architecture an entry contributes for `os`: its second half, if the
      entry splits on "/" into exactly two parts and the first is `os`. */
  function ArchOf(os: string, entry: string): seq<string> {
    var parts := Split(entry, '/');
    if |parts| == 2 && parts[0] == os then [parts[1]] else []
  }

  /** The architectures the catalog lists for `os`, in catalog order. */
  function ArchsFor(os: string, catalog: seq<string>): (archs: seq<string>)
    ensures forall a :: a in archs ==> '/' !in a
  {
    if catalog == [] then []
    else ArchsFor(os, catalog[..|catalog| - 1]) + ArchOf(os, catalog[|catalog| - 1])
  }

  /** An entry contributes `a` for `os` iff it is exactly the label `os/a`
      of two slash-free halves. */
  lemma ArchOfMembers(os: string, entry: string, a: string)
    ensures a in ArchOf(os, entry) <==> '/' !in os && '/' !in a && entry == Label(os, a)
  {
    var parts := Split(entry, '/');
    if |parts| == 2 {
      SplitsInTwo(entry, '/');
      assert entry == Label(parts[0], parts[1]);
    }
    if '/' !in os && '/' !in a && entry == Label(os, a) {
      SplitPair(os, '/', a);
    }
  }

  /** `a` is listed for `os` iff the catalog holds the label `os/a` of two
      slash-free halves. */
  lemma {:induction false} ArchsForMembers(os: string, catalog: seq<string>, a: string)
    ensures a in ArchsFor(os, catalog) <==> '/' !in os && '/' !in a && Label(os, a) in catalog
  {
    if catalog != [] {
      var n := |catalog|;
      ArchsForMembers(os, catalog[..n - 1], a);
      ArchOfMembers(os, catalog[n - 1], a);
      assert catalog == catalog[..n - 1] + [catalog[n - 1]];
    }
  }

  lemma ArchsForStep(os: string, catalog: seq<string>, i: nat)
    requires i < |catalog|
    ensures ArchsFor(os, catalog[..i + 1]) == ArchsFor(os, catalog[..i]) + ArchOf(os, catalog[i])
  {
    assert catalog[..i + 1][..i] == catalog[..i];
  }

  /** `getArchsForOS`: obtain the catalog, then keep the second half of every
      two-part entry whose first half is `targetOS`. */
  method ArchsForOS(targetOS: string, discovery: Option<string>) returns (r: Option<seq<string>>)
    ensures r.None? <==> discovery.None?
    ensures r.Some? ==> r.value == ArchsFor(targetOS, Catalog(discovery).value)
  {
    var allPlatforms := SupportedPlatforms(discovery);
    if allPlatforms.None? {
      return None;
    }
    var catalog := allPlatforms.value;
    var archs := [];
    for i := 0 to |catalog|
      invariant archs == ArchsFor(targetOS, catalog[..i])
    {
      ArchsForStep(targetOS, catalog, i);
      var parts := Split(catalog[i], '/');
      if |parts| == 2 && parts[0] == targetOS {
        archs := archs + [parts[1]];
      }
    }
    assert catalog[..|catalog|] == catalog;
    r := Some(archs);
  }

  // ---------------------------------------------------------------------
  // Resolution of one token and of a whole specification
  // ---------------------------------------------------------------------

  /** The target a label stands for: none unless it splits on "/" into
      exactly two parts. */
  function LabelTarget(p: string): seq<BuildTarget> {
    var parts := Split(p, '/');
    if |parts| == 2 then [BuildTarget(parts[0], parts[1], p)] else []
  }

  /** The targets of a list of labels, in list order. */
  function LabelTargets(labels: seq<string>): seq<BuildTarget> {
    if labels == [] then []
    else LabelTargets(labels[..|labels| - 1]) + LabelTarget(labels[|labels| - 1])
  }

  lemma LabelTargetsStep(labels: seq<string>, j: nat)
    requires j < |labels|
    ensures LabelTargets(labels[..j + 1]) == LabelTargets(labels[..j]) + LabelTarget(labels[j])
  {
    assert labels[..j + 1][..j] == labels[..j];
  }

  /** One target per architecture, in the order given. */
  function OsTargets(os: string, archs: seq<string>): (ts: seq<BuildTarget>)
    ensures |ts| == |archs|
    ensures forall i :: 0 <= i < |archs| ==> ts[i] == BuildTarget(os, archs[i], Label(os, archs[i]))
  {
    if archs == [] then []
    else OsTargets(os, archs[..|archs| - 1]) + [BuildTarget(os, archs[|archs| - 1], Label(os, archs[|archs| - 1]))]
  }

  /** A bare operating-system name: every catalog architecture with `all`,
      otherwise the native architecture if the catalog lists it; nothing
      when the catalog is unavailable. */
  function BareOsTargets(os: string, all: bool, catalog: Option<seq<string>>, nativeArch: string): seq<BuildTarget> {
    if catalog.None? then []
    else
      var archs := ArchsFor(os, catalog.value);
      if all then OsTargets(os, archs)
      else if nativeArch in archs then [BuildTarget(os, nativeArch, Label(os, nativeArch))]
      else []
  }

  /** The targets of one comma-separated token, rules tried in order: the
      `all` keyword, a group name, an explicit `os/arch`, a bare OS name. */
  function TokenTargets(token: string, all: bool, catalog: Option<seq<string>>, nativeArch: string): seq<BuildTarget> {
    var platform := TrimSpace(token);
    if platform == "all" then
      LabelTargets(if catalog.None? then FallbackAll else catalog.value)
    else if platform in PlatformGroups then
      LabelTargets(PlatformGroups[platform])
    else if '/' in platform then
      LabelTarget(platform)
    else
      BareOsTargets(platform, all, catalog, nativeArch)
  }

  /** The targets of a list of tokens: each token's targets, concatenated in
      token order, duplicates included. */
  function ResolveTokens(tokens: seq<string>, all: bool, catalog: Option<seq<string>>, nativeArch: string): seq<BuildTarget> {
    if tokens == [] then []
    else ResolveTokens(tokens[..|tokens| - 1], all, catalog, nativeArch) + TokenTargets(tokens[|tokens| - 1], all, catalog, nativeArch)
  }

  lemma ResolveTokensStep(tokens: seq<string>, i: nat, all: bool, catalog: Option<seq<string>>, nativeArch: string)
    requires i < |tokens|
    ensures ResolveTokens(tokens[..i + 1], all, catalog, nativeArch)
         == ResolveTokens(tokens[..i], all, catalog, nativeArch) + TokenTargets(tokens[i], all, catalog, nativeArch)
  {
    assert tokens[..i + 1][..i] == tokens[..i];
  }

  /** The targets of a platform specification string. */
  function Resolve(spec: string, all: bool, catalog: Option<seq<string>>, nativeArch: string): seq<BuildTarget> {
    ResolveTokens(Split(spec, ','), all, catalog, nativeArch)
  }

  /** The loop `parsePlatforms` runs over a label list (the catalog, the
      fallback list or a group): append a target for every label that splits
      into exactly two parts. */
  method AppendLabelTargets(targets: seq<BuildTarget>, labels: seq<string>) returns (r: seq<BuildTarget>)
    ensures r == targets + LabelTargets(labels)
  {
    r := targets;
    for j := 0 to |labels|
      invariant r == targets + LabelTargets(labels[..j])
    {
      LabelTargetsStep(labels, j);
      var parts := Split(labels[j], '/');
      if |parts| == 2 {
        r := r + [BuildTarget(parts[0], parts[1], labels[j])];
      }
    }
    assert labels[..|labels|] == labels;
  }

  /** The loop `parsePlatforms` runs over the architectures chosen for a bare
      OS name. */
  method AppendOsTargets(targets: seq<BuildTarget>, os: string, archs: seq<string>) returns (r: seq<BuildTarget>)
    ensures r == targets + OsTargets(os, archs)
  {
    r := targets;
    for j := 0 to |archs|
      invariant r == targets + OsTargets(os, archs[..j])
    {
      assert archs[..j + 1][..j] == archs[..j];
      r := r + [BuildTarget(os, archs[j], os + "/" + archs[j])];
    }
    assert archs[..|archs|] == archs;
  }

  /** The search `parsePlatforms` makes for the native architecture among
      those the catalog lists; it stops at the first match. */
  method ContainsArch(archs: seq<string>, nativeArch: string) returns (found: bool)
    ensures found <==> nativeArch in archs
  {
    found := false;
    var j := 0;
    while j < |archs| && !found
      invariant 0 <= j <= |archs|
      invariant found <==> nativeArch in archs[..j]
    {
      assert archs[..j + 1] == archs[..j] + [archs[j]];
      if archs[j] == nativeArch {
        found := true;
      }
      j := j + 1;
    }
    assert !found ==> archs[..j] == archs;
  }

  /** The body of the loop of `parsePlatforms`: trim one token and append
      the targets of the first rule that applies. A bare OS name whose
      architectures cannot be determined, or whose catalog lacks the native
      architecture, adds nothing. */
  method AppendTokenTargets(targets: seq<BuildTarget>, token: string, all: bool, discovery: Option<string>, nativeArch: string)
    returns (r: seq<BuildTarget>)
    ensures r == targets + TokenTargets(token, all, Catalog(discovery), nativeArch)
  {
    var platform := TrimSpace(token);
    if platform == "all" {
      var allPlatforms := SupportedPlatforms(discovery);
      if allPlatforms.None? {
        allPlatforms := Some(FallbackAll);
      }
      r := AppendLabelTargets(targets, allPlatforms.value);
    } else if platform in PlatformGroups {
      r := AppendLabelTargets(targets, PlatformGroups[platform]);
    } else if '/' in platform {
      var parts := Split(platform, '/');
      r := targets;
      if |parts| == 2 {
        r := r + [BuildTarget(parts[0], parts[1], platform)];
      }
    } else {
      r := AppendBareOsTargets(targets, platform, all, discovery, nativeArch);
    }
  }

  /** The bare-OS rule of `parsePlatforms`: with `all`, every architecture
      the catalog lists for the OS; otherwise the native architecture if the
      catalog lists it. Nothing is added when the architectures cannot be
      determined. */
  method AppendBareOsTargets(targets: seq<BuildTarget>, os: string, all: bool, discovery: Option<string>, nativeArch: string)
    returns (r: seq<BuildTarget>)
    ensures r == targets + BareOsTargets(os, all, Catalog(discovery), nativeArch)
  {
    r := targets;
    var archs: seq<string>;
    if all {
      var supported := ArchsForOS(os, discovery);
      if supported.None? || |supported.value| == 0 {
        return;
      }
      archs := supported.value;
    } else {
      var supported := ArchsForOS(os, discovery);
      if supported.None? {
        return;
      }
      var found := ContainsArch(supported.value, nativeArch);
      if !found {
        return;
      }
      archs := [nativeArch];
    }
    r := AppendOsTargets(targets, os, archs);
  }

  /** `parsePlatforms`: split on commas and append the targets of every
      token, in order. */
  method ParsePlatforms(platformStr: string, all: bool, discovery: Option<string>, nativeArch: string)
    returns (targets: seq<BuildTarget>)
    ensures targets == Resolve(platformStr, all, Catalog(discovery), nativeArch)
  {
    targets := [];
    var platforms := Split(platformStr, ',');
    for i := 0 to |platforms|
      invariant targets == ResolveTokens(platforms[..i], all, Catalog(discovery), nativeArch)
    {
      ResolveTokensStep(platforms, i, all, Catalog(discovery), nativeArch);
      targets := AppendTokenTargets(targets, platforms[i], all, discovery, nativeArch);
    }
    assert platforms[..|platforms|] == platforms;
  }

  // ---------------------------------------------------------------------
  // Properties of resolution
  // ---------------------------------------------------------------------

  lemma ResolveTokensLast(tokens: seq<string>, all: bool, catalog: Option<seq<string>>, nativeArch: string)
    requires tokens != []
    ensures ResolveTokens(tokens, all, catalog, nativeArch)
         == ResolveTokens(tokens[..|tokens| - 1], all, catalog, nativeArch) + TokenTargets(tokens[|tokens| - 1], all, catalog, nativeArch)
  {
  }

  lemma {:induction false} ResolveTokensAppend(a: seq<string>, b: seq<string>, all: bool, catalog: Option<seq<string>>, nativeArch: string)
    ensures ResolveTokens(a + b, all, catalog, nativeArch)
         == ResolveTokens(a, all, catalog, nativeArch) + ResolveTokens(b, all, catalog, nativeArch)
  {
    var ab := a + b;
    if b != [] {
      var n := |b|;
      assert ab[..|ab| - 1] == a + b[..n - 1];
      assert ab[|ab| - 1] == b[n - 1];
      ResolveTokensAppend(a, b[..n - 1], all, catalog, nativeArch);
      ResolveTokensLast(ab, all, catalog, nativeArch);
      ResolveTokensLast(b, all, catalog, nativeArch);
    } else {
      assert ab == a;
    }
  }

  /** Resolution is a concatenation over tokens: resolving `s1,s2` yields the
      targets of `s1` followed by those of `s2`, with nothing removed. */
  lemma ResolveConcat(s1: string, s2: string, all: bool, catalog: Option<seq<string>>, nativeArch: string)
    ensures Resolve(s1 + "," + s2, all, catalog, nativeArch)
         == Resolve(s1, all, catalog, nativeArch) + Resolve(s2, all, catalog, nativeArch)
  {
    SplitAround(s1, ',', s2);
    ResolveTokensAppend(Split(s1, ','), Split(s2, ','), all, catalog, nativeArch);
  }

  /** Repeating a specification repeats its targets: there is no
      de-duplication. */
  lemma ResolveKeepsDuplicates(s: string, all: bool, catalog: Option<seq<string>>, nativeArch: string)
    ensures |Resolve(s + "," + s, all, catalog, nativeArch)| == 2 * |Resolve(s, all, catalog, nativeArch)|
  {
    ResolveConcat(s, s, all, catalog, nativeArch);
  }

  lemma LabelTargetWellFormed(p: string)
    ensures forall t :: t in LabelTarget(p) ==> WellFormed(t) && t.name == p
  {
    var parts := Split(p, '/');
    if |parts| == 2 {
      SplitsInTwo(p, '/');
    }
  }

  /** A label yields its target iff it is two slash-free halves around one
      slash. */
  lemma LabelTargetOfLabel(os: string, arch: string)
    requires '/' !in os && '/' !in arch
    ensures LabelTarget(Label(os, arch)) == [BuildTarget(os, arch, Label(os, arch))]
  {
    SplitPair(os, '/', arch);
  }

  /** The targets of a list of labels are exactly its two-part labels, each
      well formed and named by its label. */
  lemma {:induction false} LabelTargetsMembers(labels: seq<string>)
    ensures forall t :: t in LabelTargets(labels) ==> WellFormed(t) && t.name in labels
    ensures forall p :: p in labels && |Split(p, '/')| == 2 ==> exists t :: t in LabelTargets(labels) && t.name == p
  {
    if labels != [] {
      var n := |labels|;
      LabelTargetsMembers(labels[..n - 1]);
      LabelTargetWellFormed(labels[n - 1]);
      assert labels == labels[..n - 1] + [labels[n - 1]];
      forall p | p in labels && |Split(p, '/')| == 2
        ensures exists t :: t in LabelTargets(labels) && t.name == p
      {
        if p == labels[n - 1] {
          var t := LabelTarget(p)[0];
          assert t in LabelTargets(labels);
        } else {
          assert p in labels[..n - 1];
          var t :| t in LabelTargets(labels[..n - 1]) && t.name == p;
          assert t in LabelTargets(labels);
        }
      }
    }
  }

  /** Lists of slash-free pairs resolve to exactly one target per pair, in
      order. */
  lemma {:induction false} LabelTargetsOfPairs(pairs: seq<(string, string)>)
    requires SlashFree(pairs)
    ensures LabelTargets(Labels(pairs)) == PairTargets(pairs)
    ensures Names(LabelTargets(Labels(pairs))) == Labels(pairs)
  {
    if pairs != [] {
      var n := |pairs|;
      var init := pairs[..n - 1];
      LabelTargetsOfPairs(init);
      assert Labels(pairs)[..n - 1] == Labels(init);
      LabelTargetOfLabel(pairs[n - 1].0, pairs[n - 1].1);
      assert PairTargets(pairs) == PairTargets(init) + [PairTargets(pairs)[n - 1]];
    }
  }

  lemma {:induction false} TokenTargetsWellFormed(token: string, all: bool, catalog: Option<seq<string>>, nativeArch: string)
    ensures forall t :: t in TokenTargets(token, all, catalog, nativeArch) ==> WellFormed(t)
  {
    var platform := TrimSpace(token);
    if platform == "all" {
      LabelTargetsMembers(if catalog.None? then FallbackAll else catalog.value);
    } else if platform in PlatformGroups {
      LabelTargetsMembers(PlatformGroups[platform]);
    } else if '/' in platform {
      LabelTargetWellFormed(platform);
    }
  }

  /** Every resolved target is named `GOOS/GOARCH`, with no slash in either
      part. */
  lemma {:induction false} ResolveTokensWellFormed(tokens: seq<string>, all: bool, catalog: Option<seq<string>>, nativeArch: string)
    ensures forall t :: t in ResolveTokens(tokens, all, catalog, nativeArch) ==> WellFormed(t)
  {
    if tokens != [] {
      ResolveTokensWellFormed(tokens[..|tokens| - 1], all, catalog, nativeArch);
      TokenTargetsWellFormed(tokens[|tokens| - 1], all, catalog, nativeArch);
    }
  }

  lemma ResolveWellFormed(spec: string, all: bool, catalog: Option<seq<string>>, nativeArch: string)
    ensures forall t :: t in Resolve(spec, all, catalog, nativeArch) ==> WellFormed(t)
  {
    ResolveTokensWellFormed(Split(spec, ','), all, catalog, nativeArch);
  }

  /** `all` without a catalog is exactly the 23-entry fallback list, in
      order. */
  lemma AllWithoutCatalog(token: string, all: bool, nativeArch: string)
    requires TrimSpace(token) == "all"
    ensures TokenTargets(token, all, None, nativeArch) == PairTargets(FallbackPairs)
    ensures Names(TokenTargets(token, all, None, nativeArch)) == FallbackAll
    ensures |TokenTargets(token, all, None, nativeArch)| == 23
  {
    NamesSlashFree();
    assert SlashFree(FallbackPairs);
    LabelTargetsOfPairs(FallbackPairs);
  }

  /** `all` with a catalog yields a well-formed target for each two-part
      catalog entry, and nothing else. */
  lemma AllWithCatalog(token: string, all: bool, catalog: seq<string>, nativeArch: string)
    requires TrimSpace(token) == "all"
    ensures TokenTargets(token, all, Some(catalog), nativeArch) == LabelTargets(catalog)
    ensures forall t :: t in LabelTargets(catalog) ==> WellFormed(t) && t.name in catalog
    ensures forall p :: p in catalog && |Split(p, '/')| == 2 ==> exists t :: t in LabelTargets(catalog) && t.name == p
  {
    LabelTargetsMembers(catalog);
  }

  /** The pairs behind each preset group. */
  function GroupPairs(g: string): seq<(string, string)> {
    if g == "default" then DefaultPairs
    else if g == "desktop" then DesktopPairs
    else if g == "server" then ServerPairs
    else if g == "mobile" then MobilePairs
    else if g == "web" then WebPairs
    else EmbeddedPairs
  }

  /** No name in any preset group holds a slash. */
  lemma GroupsSlashFree()
    ensures forall g :: SlashFree(GroupPairs(g))
  {
    NamesSlashFree();
    assert SlashFree(DefaultPairs) && SlashFree(DesktopPairs) && SlashFree(ServerPairs);
    assert SlashFree(MobilePairs) && SlashFree(WebPairs) && SlashFree(EmbeddedPairs);
  }

  /** Each preset group lists the labels of its pairs. */
  lemma GroupsOfPairs(g: string)
    requires g in PlatformGroups
    ensures PlatformGroups[g] == Labels(GroupPairs(g))
  {
  }

  /** A group name expands to every label of the group, in order. */
  lemma GroupExpansion(token: string, all: bool, catalog: Option<seq<string>>, nativeArch: string)
    requires TrimSpace(token) in PlatformGroups
    ensures Names(TokenTargets(token, all, catalog, nativeArch)) == PlatformGroups[TrimSpace(token)]
  {
    var g := TrimSpace(token);
    GroupsSlashFree();
    GroupsOfPairs(g);
    LabelTargetsOfPairs(GroupPairs(g));
  }

  /** A bare OS name without `all`: at most one target, on the native
      architecture, produced iff the catalog lists that OS with it. */
  lemma {:induction false} BareOsNative(token: string, catalog: Option<seq<string>>, nativeArch: string)
    requires var p := TrimSpace(token); p != "all" && p !in PlatformGroups && '/' !in p
    ensures var r := TokenTargets(token, false, catalog, nativeArch);
      && |r| <= 1
      && (|r| == 1 <==> catalog.Some? && '/' !in nativeArch && Label(TrimSpace(token), nativeArch) in catalog.value)
      && (|r| == 1 ==> r[0] == BuildTarget(TrimSpace(token), nativeArch, Label(TrimSpace(token), nativeArch)))
  {
    if catalog.Some? {
      ArchsForMembers(TrimSpace(token), catalog.value, nativeArch);
    }
  }

  /** A bare OS name with `all`: one target per catalog architecture of that
      OS, in catalog order; none when the catalog is unavailable or does
      not know the OS. */
  lemma {:induction false} BareOsAll(token: string, catalog: Option<seq<string>>, nativeArch: string)
    requires var p := TrimSpace(token); p != "all" && p !in PlatformGroups && '/' !in p
    ensures var r := TokenTargets(token, true, catalog, nativeArch);
      && (catalog.None? ==> r == [])
      && (catalog.Some? ==>
            var archs := ArchsFor(TrimSpace(token), catalog.value);
            && |r| == |archs|
            && forall i :: 0 <= i < |r| ==> r[i] == BuildTarget(TrimSpace(token), archs[i], Label(TrimSpace(token), archs[i])))
    ensures forall a :: catalog.Some? ==>
      (a in ArchsFor(TrimSpace(token), catalog.value) <==> '/' !in a && Label(TrimSpace(token), a) in catalog.value)
  {
    if catalog.Some? {
      forall a ensures a in ArchsFor(TrimSpace(token), catalog.value) <==> '/' !in a && Label(TrimSpace(token), a) in catalog.value {
        ArchsForMembers(TrimSpace(token), catalog.value, a);
      }
    }
  }
}
