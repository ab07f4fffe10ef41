/**
 * Command-line handling of the Hückel program (parse_input.py): the split of
 * argv into flags and positional arguments, and the decision which structure
 * to compute.
 *
 * Python's `int(...)` is the parameter `parseInt`, which answers None where
 * `int` raises. The structure names the program passes around as strings are
 * the datatype `Structure`.
 */
module HuckelInput {
  import opened Wrappers

  /** `PLATONIC_SOLIDS`: structure name to atom count. */
  const PlatonicSolids: map<string, int> :=
    map["tetrahedron" := 4, "octahedron" := 6, "cube" := 8, "icosahedron" := 12, "dodecahedron" := 20, "fullerene60" := 60]

  /** `POLYENES`: the structure names that take an atom count. */
  const Polyenes: set<string> := {"linear_polyene", "cyclic_polyene", "platonic"}

  /** `FLAGS`: short flag to long flag. */
  const ShortFlags: map<string, string> := map["o" := "optimized", "h" := "help"]

  predicate StartsWith(s: string, prefix: string)
  {
    |prefix| <= |s| && s[..|prefix|] == prefix
  }

  /** `sys.argv[1:]`. */
  function UserArguments(argv: seq<string>): seq<string>
  {
    if |argv| == 0 then [] else argv[1..]
  }

  /** The flag one argument contributes, if any: the body of the loop in `extract_flags`. */
  function FlagOf(arg: string): (f: Option<string>)
    ensures f.Some? ==> StartsWith(arg, "-") && (f.value == "optimized" || f.value == "help")
  {
    ShortFlagValues();
    if StartsWith(arg, "--") then
      DashDashIsDash(arg);
      if arg[2..] in ShortFlags.Values then Some(arg[2..]) else None
    else if StartsWith(arg, "-") then
      if arg[1..] in ShortFlags then Some(ShortFlags[arg[1..]]) else None
    else None
  }

  /** The flags recognised in `args`, in order: at most one per argument, each "optimized" or "help". */
  function Flags(args: seq<string>): (flags: seq<string>)
    ensures |flags| <= |args|
    ensures forall k :: 0 <= k < |flags| ==> flags[k] == "optimized" || flags[k] == "help"
  {
    if |args| == 0 then []
    else
      var f := FlagOf(args[0]);
      (if f.Some? then [f.value] else []) + Flags(args[1..])
  }

  /** The arguments that are not dash-prefixed, in order: each one of the arguments and none starting with "-". */
  function Positional(args: seq<string>): (kept: seq<string>)
    ensures |kept| <= |args|
    ensures forall k :: 0 <= k < |kept| ==> kept[k] in args && !StartsWith(kept[k], "-")
  {
    if |args| == 0 then []
    else (if StartsWith(args[0], "-") then [] else [args[0]]) + Positional(args[1..])
  }

  /**
   * `extract_flags()`, with argv as a parameter: one pass over the user
   * arguments, appending to `flags` and `args`.
   */
  method ExtractFlags(argv: seq<string>) returns (flags: seq<string>, args: seq<string>)
    ensures flags == Flags(UserArguments(argv))
    ensures args == Positional(UserArguments(argv))
  {
    var input := UserArguments(argv);
    flags := [];
    args := [];
    var k := 0;
    while k < |input|
      invariant 0 <= k <= |input|
      invariant flags + Flags(input[k..]) == Flags(input)
      invariant args + Positional(input[k..]) == Positional(input)
    {
      var arg := input[k];
      SplitFirst(input, k);
      if StartsWith(arg, "--") {
        var flag := arg[2..];
        DashDashIsDash(arg);
        assert Positional(input[k..]) == Positional(input[k + 1..]);
        if flag in ShortFlags.Values {
          Regroup(flags, [flag], Flags(input[k + 1..]));
          flags := flags + [flag];
        }
      } else if StartsWith(arg, "-") {
        var flag := arg[1..];
        assert Positional(input[k..]) == Positional(input[k + 1..]);
        if flag in ShortFlags {
          Regroup(flags, [ShortFlags[flag]], Flags(input[k + 1..]));
          flags := flags + [ShortFlags[flag]];
        }
      } else {
        Regroup(args, [arg], Positional(input[k + 1..]));
        args := args + [arg];
      }
      k := k + 1;
    }
  }

  /** The first of the remaining arguments contributes its flag, or its positional value, ahead of the rest. */
  lemma SplitFirst(input: seq<string>, k: nat)
    requires k < |input|
    ensures Flags(input[k..]) == (if FlagOf(input[k]).Some? then [FlagOf(input[k]).value] else []) + Flags(input[k + 1..])
    ensures Positional(input[k..]) == (if StartsWith(input[k], "-") then [] else [input[k]]) + Positional(input[k + 1..])
  {
    assert input[k..][1..] == input[k + 1..];
  }

  lemma Regroup(acc: seq<string>, x: seq<string>, rest: seq<string>)
    ensures (acc + x) + rest == acc + (x + rest)
  {
  }

  lemma DashDashIsDash(arg: string)
    requires StartsWith(arg, "--")
    ensures StartsWith(arg, "-")
  {
    assert arg[..1] == arg[..2][..1];
  }

  lemma ShortFlagValues()
    ensures ShortFlags.Values == {"optimized", "help"}
  {
    assert ShortFlags["o"] == "optimized" && ShortFlags["h"] == "help";
  }

  lemma LongFlagForms(arg: string)
    ensures FlagOf(arg) == Some("optimized") <==> arg == "--optimized" || arg == "-o"
    ensures FlagOf(arg) == Some("help") <==> arg == "--help" || arg == "-h"
  {
    ShortFlagValues();
    if arg == "--optimized" {
      assert StartsWith(arg, "--") && arg[2..] == "optimized";
    } else if arg == "--help" {
      assert StartsWith(arg, "--") && arg[2..] == "help";
    } else if arg == "-o" {
      assert arg[..2] != "--" by { assert arg[..2][1] == 'o'; }
      assert StartsWith(arg, "-") && arg[1..] == "o";
    } else if arg == "-h" {
      assert arg[..2] != "--" by { assert arg[..2][1] == 'h'; }
      assert StartsWith(arg, "-") && arg[1..] == "h";
    } else if StartsWith(arg, "--") {
      assert arg == "--" + arg[2..];
    } else if StartsWith(arg, "-") {
      assert arg == "-" + arg[1..];
    }
  }

  /**
   * "optimized" is among the flags exactly when "--optimized" or "-o" was
   * given, and "help" exactly when "--help" or "-h" was.
   */
  lemma {:induction false} FlagMembership(args: seq<string>)
    ensures "optimized" in Flags(args) <==> exists k :: 0 <= k < |args| && (args[k] == "--optimized" || args[k] == "-o")
    ensures "help" in Flags(args) <==> exists k :: 0 <= k < |args| && (args[k] == "--help" || args[k] == "-h")
  {
    if |args| > 0 {
      FlagMembership(args[1..]);
      LongFlagForms(args[0]);
      assert Flags([args[0]]) == (if FlagOf(args[0]).Some? then [FlagOf(args[0]).value] else []) + Flags([]);
      forall k | 1 <= k < |args|
        ensures args[k] == args[1..][k - 1]
      {
      }
      if exists k :: 1 <= k < |args| && (args[k] == "--optimized" || args[k] == "-o") {
        var k :| 1 <= k < |args| && (args[k] == "--optimized" || args[k] == "-o");
        assert args[1..][k - 1] == args[k];
      }
      if exists k :: 1 <= k < |args| && (args[k] == "--help" || args[k] == "-h") {
        var k :| 1 <= k < |args| && (args[k] == "--help" || args[k] == "-h");
        assert args[1..][k - 1] == args[k];
      }
    }
  }

  /** The positional arguments are exactly the arguments without a leading dash. */
  lemma {:induction false} PositionalMembership(args: seq<string>)
    ensures forall a :: a in Positional(args) <==> a in args && !StartsWith(a, "-")
  {
    if |args| > 0 {
      PositionalMembership(args[1..]);
      assert args == [args[0]] + args[1..];
    }
  }

  /** Splitting keeps order: the positional arguments of a concatenation concatenate. */
  lemma {:induction false} PositionalAppend(a: seq<string>, b: seq<string>)
    ensures Positional(a + b) == Positional(a) + Positional(b)
  {
    if |a| == 0 {
      assert a + b == b;
    } else {
      assert (a + b)[1..] == a[1..] + b;
      PositionalAppend(a[1..], b);
    }
  }

  // ---------------------------------------------------------------------------
  // parse_user_input
  // ---------------------------------------------------------------------------

  datatype Structure = NoCalc | Platonic | LinearPolyene | CyclicPolyene

  /** The triple `(structure, number_of_atoms, flags)`. */
  datatype Request = Request(structure: Structure, atoms: int, flags: seq<string>)

  /** The branching of `parse_user_input` on the split arguments. */
  function Decide(args: seq<string>, flags: seq<string>, parseInt: string -> Option<int>): (r: Request)
    ensures r.flags == flags
    ensures r.structure == NoCalc ==> r.atoms == 0
    ensures r.structure == Platonic ==> r.atoms in PlatonicSolids.Values
    ensures r.structure == CyclicPolyene ==> r.atoms >= 3
    ensures r.structure == LinearPolyene ==> r.atoms >= 2
    ensures |args| == 0 ==> r.structure == NoCalc
    ensures |args| >= 1 && args[0] in PlatonicSolids ==> r.structure == Platonic && r.atoms == PlatonicSolids[args[0]]
    ensures |args| >= 1 && args[0] !in PlatonicSolids && args[0] !in Polyenes ==> r.structure == NoCalc
    ensures |args| == 1 && args[0] !in PlatonicSolids ==> r.structure == NoCalc
    ensures |args| >= 2 && args[0] in Polyenes && parseInt(args[1]).None? ==> r.structure == NoCalc
    ensures |args| >= 2 && args[0] == "platonic" && parseInt(args[1]).Some? ==>
      r.structure == (if parseInt(args[1]).value in PlatonicSolids.Values then Platonic else NoCalc)
    ensures |args| >= 2 && args[0] == "cyclic_polyene" && parseInt(args[1]).Some? ==>
      r.structure == (if parseInt(args[1]).value >= 3 then CyclicPolyene else NoCalc)
    ensures |args| >= 2 && args[0] == "linear_polyene" && parseInt(args[1]).Some? ==>
      r.structure == (if parseInt(args[1]).value >= 2 then LinearPolyene else NoCalc)
    ensures r.structure != NoCalc && args[0] !in PlatonicSolids ==> r.atoms == parseInt(args[1]).value
  {
    if |args| == 0 then Request(NoCalc, 0, flags)
    else if |args| == 1 then
      var structure := args[0];
      if structure in PlatonicSolids then Request(Platonic, PlatonicSolids[structure], flags)
      else Request(NoCalc, 0, flags)
    else
      var structure := args[0];
      if structure in PlatonicSolids then Request(Platonic, PlatonicSolids[structure], flags)
      else if structure in Polyenes then
        match parseInt(args[1])
        case None => Request(NoCalc, 0, flags)
        case Some(n) =>
          if structure == "platonic" then
            if n !in PlatonicSolids.Values then Request(NoCalc, 0, flags) else Request(Platonic, n, flags)
          else if structure == "cyclic_polyene" then
            if n < 3 then Request(NoCalc, 0, flags) else Request(CyclicPolyene, n, flags)
          else
            if n < 2 then Request(NoCalc, 0, flags) else Request(LinearPolyene, n, flags)
      else Request(NoCalc, 0, flags)
  }

  /** `parse_user_input()`, with argv as a parameter. */
  function ParseUserInput(argv: seq<string>, parseInt: string -> Option<int>): (r: Request)
    ensures r.flags == Flags(UserArguments(argv))
    ensures forall f :: f in r.flags ==> f == "optimized" || f == "help"
  {
    Decide(Positional(UserArguments(argv)), Flags(UserArguments(argv)), parseInt)
  }

  /** Arguments after the second never change the outcome. */
  lemma ExtraArgumentsIgnored(args: seq<string>, flags: seq<string>, parseInt: string -> Option<int>)
    requires |args| > 2
    ensures Decide(args, flags, parseInt) == Decide(args[..2], flags, parseInt)
  {
  }

  /** The values of `PLATONIC_SOLIDS` are the six atom counts of the solids. */
  lemma PlatonicCounts()
    ensures PlatonicSolids.Values == {4, 6, 8, 12, 20, 60}
  {
    assert PlatonicSolids["tetrahedron"] == 4 && PlatonicSolids["octahedron"] == 6;
    assert PlatonicSolids["cube"] == 8 && PlatonicSolids["icosahedron"] == 12;
    assert PlatonicSolids["dodecahedron"] == 20 && PlatonicSolids["fullerene60"] == 60;
  }
}
