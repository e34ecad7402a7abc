/** The build driver's settings, which the Go program keeps in one global
    `Config` variable filled from the command line, and the facts about the
    host it reads from the Go runtime and the `PATH`. Here both are values
    passed to every operation that reads them. */
module Settings {

  /** Every field of the driver's `Config` record, in declaration order. */
  datatype Config = Config(
    sourceFile: string,
    outputDir: string,
    binaryName: string,
    platforms: seq<string>,
    verbose: int,
    parallel: bool,
    compress: bool,
    clean: bool,
    retry: bool,
    maxRetries: int,
    progress: bool,
    ldFlags: string,
    tags: string,
    skipTests: bool,
    skipCgo: bool,
    force: bool,
    noPrompt: bool,
    all: bool)

  /** The host the driver runs on: `runtime.GOOS`, `runtime.GOARCH`, and
      whether `xcodebuild` is found on the `PATH`. */
  datatype Host = Host(goos: string, goarch: string, hasXcodebuild: bool)
}
