/**
 * The command-line loop of fsize: a left-to-right scan of the arguments
 * (program name excluded) that fills in a target path and three flags, or
 * stops early on a request for help or on a flag whose value is missing.
 */
module Arguments {

  const HelpFlags: set<string> := {"--help", "-h"}
  const FileFlags: set<string> := {"--file", "-f"}
  const DirectoryFlags: set<string> := {"--directory", "-d"}
  const ProgressFlag: string := "-p"

  /** Flags whose value is the next argument, taken without looking at it. */
  predicate TakesValue(token: string)
  {
    token in FileFlags || token in DirectoryFlags
  }

  /** What the loop has gathered: the path and the three booleans of `main`. */
  datatype Flags = Flags(path: string, isFile: bool, isDirectory: bool, showProgress: bool)

  /** An empty path, nothing set. */
  const Initial: Flags := Flags("", false, false, false)

  datatype ParseResult =
    | NoArguments                 // argc < 2: usage is printed, exit code 1
    | Help                        // usage is printed, exit code 0
    | MissingArgument(flag: string) // a value flag was the last argument, exit code 1
    | Parsed(flags: Flags)        // the loop ran to the end

  /**
   * The loop from position `i` on, with `acc` gathered so far: one pass of
   * the loop body per call.
   */
  function ParseFrom(args: seq<string>, i: nat, acc: Flags): (r: ParseResult)
    ensures !r.NoArguments?
    ensures r.MissingArgument? ==> |args| > 0 && r.flag == args[|args| - 1] && TakesValue(r.flag)
    ensures r.Parsed? ==> (acc.isFile ==> r.flags.isFile) && (acc.isDirectory ==> r.flags.isDirectory)
    ensures r.Parsed? && acc.showProgress ==> r.flags.showProgress
    decreases |args| - i
  {
    if i >= |args| then Parsed(acc)
    else if args[i] in HelpFlags then Help
    else if args[i] == ProgressFlag then ParseFrom(args, i + 1, acc.(showProgress := true))
    else if args[i] in FileFlags then
      if i + 1 >= |args| then MissingArgument(args[i])
      else ParseFrom(args, i + 2, acc.(path := args[i + 1], isFile := true))
    else if args[i] in DirectoryFlags then
      if i + 1 >= |args| then MissingArgument(args[i])
      else ParseFrom(args, i + 2, acc.(path := args[i + 1], isDirectory := true))
    else if i == 0 && |args| == 1 then ParseFrom(args, i + 1, acc.(path := args[i]))
    else ParseFrom(args, i + 1, acc)
  }

  /** The whole of argument handling in `main`, starting from nothing set. */
  function Parse(args: seq<string>): (r: ParseResult)
    ensures r.NoArguments? <==> |args| == 0
  {
    if |args| == 0 then NoArguments else ParseFrom(args, 0, Initial)
  }

  /** The loop of `main`, which moves past a flag's value with `++i`. */
  method ParseArgs(args: seq<string>) returns (r: ParseResult)
    ensures r == Parse(args)
  {
    if |args| < 1 {
      return NoArguments;
    }
    var targetPath := "";
    var isFile, isDirectory, showProgress := false, false, false;
    var i := 0;
    while i < |args|
      invariant 0 <= i <= |args|
      invariant ParseFrom(args, i, Flags(targetPath, isFile, isDirectory, showProgress)) == Parse(args)
    {
      var token := args[i];
      if token in HelpFlags {
        return Help;
      } else if token == ProgressFlag {
        showProgress := true;
      } else if token in FileFlags {
        if i + 1 >= |args| {
          return MissingArgument(token);
        }
        i := i + 1;
        targetPath := args[i];
        isFile := true;
      } else if token in DirectoryFlags {
        if i + 1 >= |args| {
          return MissingArgument(token);
        }
        i := i + 1;
        targetPath := args[i];
        isDirectory := true;
      } else if i == 0 && |args| == 1 {
        targetPath := token;
      }
      i := i + 1;
    }
    return Parsed(Flags(targetPath, isFile, isDirectory, showProgress));
  }

  // ---------------------------------------------------------------------------
  // The positions the loop treats as flags, and what the result says about them
  // ---------------------------------------------------------------------------

  /** Where the loop goes after looking at position `i`, if it goes on. */
  function Next(args: seq<string>, i: nat): nat
    requires i < |args|
  {
    if TakesValue(args[i]) then i + 2 else i + 1
  }

  /**
   * The positions from `i` on that the loop inspects as flags, in order:
   * a value taken by a flag is skipped.
   */
  function FlagPositions(args: seq<string>, i: nat): (ps: seq<nat>)
    ensures forall k :: k in ps ==> i <= k < |args|
    ensures i < |args| ==> ps != [] && ps[0] == i
    decreases |args| - i
  {
    if i >= |args| then [] else [i] + FlagPositions(args, Next(args, i))
  }

  /** Some position inspected as a flag from `i` on holds one of `tokens`. */
  predicate FlagAmong(args: seq<string>, i: nat, tokens: set<string>)
  {
    exists k :: k in FlagPositions(args, i) && args[k] in tokens
  }

  /** What one inspected position adds to the gathered flags when the loop goes on past it. */
  function Step(args: seq<string>, i: nat, acc: Flags): Flags
    requires i < |args|
  {
    if args[i] == ProgressFlag then acc.(showProgress := true)
    else if args[i] in FileFlags && i + 1 < |args| then acc.(path := args[i + 1], isFile := true)
    else if args[i] in DirectoryFlags && i + 1 < |args| then acc.(path := args[i + 1], isDirectory := true)
    else if i == 0 && |args| == 1 then acc.(path := args[i])
    else acc
  }

  /** The loop stops at `i`: a help flag, or a value flag with nothing after it. */
  predicate StopsAt(args: seq<string>, i: nat)
    requires i < |args|
  {
    args[i] in HelpFlags || (TakesValue(args[i]) && i + 1 >= |args|)
  }

  lemma ParseStep(args: seq<string>, i: nat, acc: Flags)
    requires i < |args| && !StopsAt(args, i)
    ensures ParseFrom(args, i, acc) == ParseFrom(args, Next(args, i), Step(args, i, acc))
    ensures FlagPositions(args, i) == [i] + FlagPositions(args, Next(args, i))
  {
  }

  lemma {:induction false} HelpFrom(args: seq<string>, i: nat, acc: Flags)
    ensures ParseFrom(args, i, acc) == Help <==> FlagAmong(args, i, HelpFlags)
    decreases |args| - i
  {
    if i < |args| {
      var ps := FlagPositions(args, i);
      assert ps == [i] + FlagPositions(args, Next(args, i));
      if args[i] in HelpFlags {
        assert i in ps;
      } else if StopsAt(args, i) {
        assert FlagPositions(args, Next(args, i)) == [];
      } else {
        ParseStep(args, i, acc);
        HelpFrom(args, Next(args, i), Step(args, i, acc));
        assert FlagAmong(args, i, HelpFlags) <==> FlagAmong(args, Next(args, i), HelpFlags);
      }
    }
  }

  /**
   * Help wins whenever `-h` or `--help` sits at a position the loop inspects
   * as a flag, whatever the other arguments are; and only then.
   */
  lemma HelpWins(args: seq<string>)
    requires |args| > 0
    ensures Parse(args) == Help <==> FlagAmong(args, 0, HelpFlags)
  {
    HelpFrom(args, 0, Initial);
  }

  lemma {:induction false} MissingFrom(args: seq<string>, i: nat, acc: Flags)
    ensures ParseFrom(args, i, acc).MissingArgument? <==>
      && |args| > 0
      && !FlagAmong(args, i, HelpFlags)
      && |args| - 1 in FlagPositions(args, i)
      && TakesValue(args[|args| - 1])
    decreases |args| - i
  {
    HelpFrom(args, i, acc);
    if i < |args| {
      var ps := FlagPositions(args, i);
      assert ps == [i] + FlagPositions(args, Next(args, i));
      if args[i] in HelpFlags {
        assert i in ps;
      } else if StopsAt(args, i) {
        assert FlagPositions(args, Next(args, i)) == [];
        assert ps == [i];
      } else {
        ParseStep(args, i, acc);
        MissingFrom(args, Next(args, i), Step(args, i, acc));
        assert FlagAmong(args, i, HelpFlags) <==> FlagAmong(args, Next(args, i), HelpFlags);
        assert i != |args| - 1 || !TakesValue(args[|args| - 1]);
      }
    }
  }

  /**
   * A missing value is reported exactly when a value flag is the last
   * argument, the loop inspects it as a flag, and no help flag came first.
   */
  lemma MissingArgumentOnlyLast(args: seq<string>)
    ensures Parse(args).MissingArgument? <==>
      && |args| > 0
      && !FlagAmong(args, 0, HelpFlags)
      && |args| - 1 in FlagPositions(args, 0)
      && TakesValue(args[|args| - 1])
  {
    if |args| > 0 {
      MissingFrom(args, 0, Initial);
    }
  }

  lemma {:induction false} SkipsAfter(args: seq<string>, i: nat, k: nat, j: nat)
    requires k in FlagPositions(args, i) && k < j < Next(args, k)
    ensures j !in FlagPositions(args, i)
    decreases |args| - i
  {
    assert i < |args|;
    assert FlagPositions(args, i) == [i] + FlagPositions(args, Next(args, i));
    if k != i {
      SkipsAfter(args, Next(args, i), k, j);
    }
  }

  /**
   * The argument after `-f`/`--file` or `-d`/`--directory` is consumed as
   * the path without being looked at: the loop never inspects it as a flag.
   */
  lemma ConsumedValueSkipped(args: seq<string>, k: nat)
    requires k in FlagPositions(args, 0) && TakesValue(args[k])
    ensures k + 1 !in FlagPositions(args, 0)
  {
    SkipsAfter(args, 0, k, k + 1);
  }

  lemma {:induction false} BooleansFrom(args: seq<string>, i: nat, acc: Flags)
    requires ParseFrom(args, i, acc).Parsed?
    ensures var f := ParseFrom(args, i, acc).flags;
      && f.isFile == (acc.isFile || FlagAmong(args, i, FileFlags))
      && f.isDirectory == (acc.isDirectory || FlagAmong(args, i, DirectoryFlags))
      && f.showProgress == (acc.showProgress || FlagAmong(args, i, {ProgressFlag}))
    decreases |args| - i
  {
    if i < |args| {
      ParseStep(args, i, acc);
      BooleansFrom(args, Next(args, i), Step(args, i, acc));
      var ps := FlagPositions(args, i);
      assert i in ps;
      forall tokens: set<string>
        ensures FlagAmong(args, i, tokens) <==> args[i] in tokens || FlagAmong(args, Next(args, i), tokens)
      {
        if FlagAmong(args, i, tokens) {
          var k :| k in ps && args[k] in tokens;
          if k != i {
            assert k in FlagPositions(args, Next(args, i));
          }
        }
      }
    }
  }

  /**
   * `isFile`, `isDirectory` and `showProgress` are only ever set: each is true
   * exactly when its flag appears at an inspected position, so `-f` together
   * with `-d` leaves both true.
   */
  lemma FlagsAreSticky(args: seq<string>)
    requires Parse(args).Parsed?
    ensures Parse(args).flags.isFile == FlagAmong(args, 0, FileFlags)
    ensures Parse(args).flags.isDirectory == FlagAmong(args, 0, DirectoryFlags)
    ensures Parse(args).flags.showProgress == FlagAmong(args, 0, {ProgressFlag})
  {
    BooleansFrom(args, 0, Initial);
  }

  /** The flags that take the next argument as the path. */
  const ValueFlags: set<string> := FileFlags + DirectoryFlags

  lemma {:induction false} PathWithoutValueFlagFrom(args: seq<string>, i: nat, acc: Flags)
    requires ParseFrom(args, i, acc).Parsed? && !FlagAmong(args, i, ValueFlags)
    ensures ParseFrom(args, i, acc).flags.path ==
      if i == 0 && |args| == 1 && args[0] != ProgressFlag then args[0] else acc.path
    decreases |args| - i
  {
    if i < |args| {
      assert i in FlagPositions(args, i);
      ParseStep(args, i, acc);
      assert forall k :: k in FlagPositions(args, Next(args, i)) ==> k in FlagPositions(args, i);
      PathWithoutValueFlagFrom(args, Next(args, i), Step(args, i, acc));
    }
  }

  lemma {:induction false} LastValueWinsFrom(args: seq<string>, i: nat, acc: Flags, k: nat)
    requires ParseFrom(args, i, acc).Parsed?
    requires k in FlagPositions(args, i) && TakesValue(args[k])
    requires forall j :: j in FlagPositions(args, i) && k < j ==> !TakesValue(args[j])
    ensures k + 1 < |args| && ParseFrom(args, i, acc).flags.path == args[k + 1]
    decreases |args| - i
  {
    assert i < |args|;
    if StopsAt(args, i) {
      assert false;
    }
    ParseStep(args, i, acc);
    var rest := FlagPositions(args, Next(args, i));
    if k == i {
      forall j | j in rest ensures !TakesValue(args[j]) {
        assert j in FlagPositions(args, i) && k < j;
      }
      assert !FlagAmong(args, Next(args, i), ValueFlags);
      PathWithoutValueFlagFrom(args, Next(args, i), Step(args, i, acc));
    } else {
      assert k in rest;
      LastValueWinsFrom(args, Next(args, i), Step(args, i, acc), k);
    }
  }

  /**
   * The path is last-write-wins: it is the argument after the last `-f` or
   * `-d` the loop inspects, whichever of the two that flag is.
   */
  lemma LastValueWins(args: seq<string>, k: nat)
    requires Parse(args).Parsed?
    requires k in FlagPositions(args, 0) && TakesValue(args[k])
    requires forall j :: j in FlagPositions(args, 0) && k < j ==> !TakesValue(args[j])
    ensures k + 1 < |args| && Parse(args).flags.path == args[k + 1]
  {
    LastValueWinsFrom(args, 0, Initial, k);
  }

  /**
   * Without `-f` or `-d`, a bare argument becomes the path only when it is
   * the single argument; otherwise unrecognised arguments are ignored and
   * the path stays empty.
   */
  lemma PathWithoutValueFlag(args: seq<string>)
    requires Parse(args).Parsed? && !FlagAmong(args, 0, ValueFlags)
    ensures Parse(args).flags.path == if |args| == 1 && args[0] != ProgressFlag then args[0] else ""
  {
    PathWithoutValueFlagFrom(args, 0, Initial);
  }

  /** `-f -h` analyses a file named "-h": the help flag is the value here. */
  lemma HelpTakenAsFileValue()
    ensures Parse(["-f", "-h"]) == Parsed(Flags("-h", true, false, false))
    ensures Parse(["--directory", "--help"]) == Parsed(Flags("--help", false, true, false))
  {
  }
}
