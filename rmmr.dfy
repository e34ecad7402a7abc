/** The argument cleaning of the `rmmr` wrapper: before handing the command
    line to the native extension, the wrapper keeps its own name as the
    first argument and drops every argument that looks like part of the
    Python launcher (an executable, an interpreter or scripts path, `-c`, an
    import statement, or the package name). */
module Rmmr {
  import opened GoStrings

  /** The arguments the wrapper drops. The "python" and "scripts" tests
      ignore letter case; the others do not. */
  predicate Excluded(arg: string) {
    || HasSuffix(arg, ".exe")
    || Contains(ToLower(arg), "python")
    || Contains(ToLower(arg), "scripts")
    || arg == "-c"
    || Contains(arg, "import")
    || Contains(arg, "pyrmm")
  }

  /** An argument holding "python" or "scripts" in any letter case, such as
      an interpreter path `C:\Python311\Scripts\rmmr.exe`, is dropped. */
  lemma AnyCaseExcluded(arg: string, i: nat)
    requires OccursAnyCase(arg, "python", i) || OccursAnyCase(arg, "scripts", i)
    ensures Excluded(arg)
  {
    ContainsIgnoringCase(arg, "python");
    ContainsIgnoringCase(arg, "scripts");
  }

  /** The arguments that survive, in their original order. */
  function Kept(args: seq<string>): seq<string> {
    if args == [] then []
    else
      var rest := Kept(args[..|args| - 1]);
      var last := args[|args| - 1];
      if Excluded(last) then rest else rest + [last]
  }

  /** `sys.argv[1:]`: everything after the program path. */
  function Tail(argv: seq<string>): seq<string> {
    if argv == [] then [] else argv[1..]
  }

  /** `clean_args`: "rmmr" followed by the kept arguments after the
      program path. */
  method CleanArgs(argv: seq<string>) returns (clean: seq<string>)
    ensures clean == ["rmmr"] + Kept(Tail(argv))
  {
    clean := ["rmmr"];
    var args := Tail(argv);
    for i := 0 to |args|
      invariant clean == ["rmmr"] + Kept(args[..i])
    {
      assert args[..i + 1][..i] == args[..i];
      var arg := args[i];
      if !Excluded(arg) {
        clean := clean + [arg];
      }
    }
    assert args[..|args|] == args;
  }

  /** An argument survives iff it was given and is not excluded. */
  lemma {:induction false} KeptMembers(args: seq<string>, a: string)
    ensures a in Kept(args) <==> a in args && !Excluded(a)
  {
    if args != [] {
      var n := |args|;
      KeptMembers(args[..n - 1], a);
      assert args == args[..n - 1] + [args[n - 1]];
    }
  }

  /** Filtering distributes over concatenation: arguments are judged one
      at a time, independently of their neighbours. */
  lemma {:induction false} KeptAppend(a: seq<string>, b: seq<string>)
    ensures Kept(a + b) == Kept(a) + Kept(b)
  {
    if b != [] {
      var n := |b|;
      KeptAppend(a, b[..n - 1]);
      assert (a + b)[..|a + b| - 1] == a + b[..n - 1];
    } else {
      assert a + b == a;
    }
  }

  /** At most as many arguments survive as were given, and all survive iff
      none is excluded. */
  lemma {:induction false} KeptLength(args: seq<string>)
    ensures |Kept(args)| <= |args|
    ensures |Kept(args)| == |args| <==> forall i :: 0 <= i < |args| ==> !Excluded(args[i])
  {
    if args != [] {
      var n := |args|;
      var prefix := args[..n - 1];
      KeptLength(prefix);
      if forall i :: 0 <= i < n ==> !Excluded(args[i]) {
        assert forall i :: 0 <= i < n - 1 ==> !Excluded(prefix[i]);
      }
      if forall i :: 0 <= i < n - 1 ==> !Excluded(prefix[i]) {
        assert forall i :: 0 <= i < n - 1 ==> !Excluded(args[i]);
      }
    }
  }

  /** Every surviving argument is kept again: filtering is idempotent. */
  lemma {:induction false} KeptIdempotent(args: seq<string>)
    ensures Kept(Kept(args)) == Kept(args)
  {
    if args != [] {
      var n := |args|;
      var prefix, last := args[..n - 1], args[n - 1];
      KeptIdempotent(prefix);
      if !Excluded(last) {
        KeptAppend(Kept(prefix), [last]);
        assert Kept([last]) == [last] by {
          assert [last][..0] == [];
        }
      }
    }
  }

  /** Cleaning an already cleaned list gives it back: "rmmr" stands in the
      program path's place and every other argument survives again. */
  lemma CleanArgsStable(argv: seq<string>)
    ensures var clean := ["rmmr"] + Kept(Tail(argv));
      ["rmmr"] + Kept(Tail(clean)) == clean
  {
    var clean := ["rmmr"] + Kept(Tail(argv));
    assert Tail(clean) == Kept(Tail(argv));
    KeptIdempotent(Tail(argv));
  }

  /** A plain subcommand word passes every exclusion test. */
  lemma SubcommandKept()
    ensures !Excluded("build")
  {
    assert ToLower("build") == "build";
    ContainsIff("build", "python");
    ContainsIff("build", "scripts");
    ContainsIff("build", "import");
    ContainsIff("build", "pyrmm");
    assert "build"[0..5][0] != "pyrmm"[0];
    assert !HasSuffix("build", ".exe");
  }

  /** A short flag other than `-c` passes every exclusion test. */
  lemma FlagKept()
    ensures !Excluded("-r")
  {
    assert ToLower("-r") == "-r";
    ContainsIff("-r", "python");
    ContainsIff("-r", "scripts");
    ContainsIff("-r", "import");
    ContainsIff("-r", "pyrmm");
  }

  /** A launcher path ending in ".exe" and `-c` are dropped; the
      subcommand and its flag survive. */
  lemma CleanArgsExample()
    ensures Kept(["rmmr.exe", "build", "-c", "-r"]) == ["build", "-r"]
  {
    SubcommandKept();
    FlagKept();
    assert Excluded("rmmr.exe");
    assert Excluded("-c");
    var args := ["rmmr.exe", "build", "-c", "-r"];
    assert args[..3] == ["rmmr.exe", "build", "-c"];
    assert args[..3][..2] == ["rmmr.exe", "build"];
    assert args[..3][..2][..1] == ["rmmr.exe"];
    assert Kept(["rmmr.exe"]) == [] by {
      assert ["rmmr.exe"][..0] == [];
    }
    assert Kept(["rmmr.exe", "build"]) == ["build"];
    assert Kept(["rmmr.exe", "build", "-c"]) == ["build"];
  }
}
