/**
 * `main` of fsize: read the arguments, check the path, measure it and pick
 * the unit to print. The file system is a snapshot mapping paths to nodes;
 * the text printed is reduced to what decides it.
 */
module Fsize {
  import opened FileTree
  import opened Arguments
  import opened Validation
  import opened Size

  /** The first line of the report: "Archivo" for a regular file, "Directorio" for anything else. */
  datatype Label = FileLabel | DirectoryLabel

  datatype Outcome =
    | UsageError                   // no arguments: error and usage printed
    | HelpShown                    // usage printed
    | MissingValue(flag: string)   // `-f`/`-d` without a value
    | NotFound(path: string)
    | Mismatch(path: string)       // the flag given disagrees with the entry
    | Report(path: string, heading: Label, display: Display)

  /** The value `main` returns. */
  function ExitCode(o: Outcome): (code: int)
    ensures code == 0 || code == 1
    ensures code == 0 <==> o.HelpShown? || o.Report?
  {
    if o.HelpShown? || o.Report? then 0 else 1
  }

  /** What the status queries say about a path; the empty path never exists. */
  function Lookup(fs: map<string, Node>, path: string): (k: EntryKind)
    ensures k != Missing <==> path != "" && path in fs
  {
    if path != "" && path in fs then KindOf(fs[path]) else Missing
  }

  /** Everything after the argument loop: validation, measuring and the unit chain. */
  function Finish(f: Flags, fs: map<string, Node>): (o: Outcome)
    ensures o.NotFound? || o.Mismatch? || o.Report?
    ensures o.NotFound? <==> Lookup(fs, f.path) == Missing
    ensures o.Mismatch? <==> Validate(f.isFile, f.isDirectory, Lookup(fs, f.path)).KindMismatch?
    ensures o.Report? <==> Validate(f.isFile, f.isDirectory, Lookup(fs, f.path)).Valid?
    ensures o.Report? ==> o.path == f.path && f.path in fs
    ensures o.Report? ==> (o.heading == FileLabel <==> fs[f.path].RegularFile?)
    ensures o.Report? ==> o.display == ChooseDisplay(Scale(TreeBytes(fs[f.path])))
  {
    var entry := Lookup(fs, f.path);
    match Validate(f.isFile, f.isDirectory, entry)
    case PathNotFound => NotFound(f.path)
    case KindMismatch => Mismatch(f.path)
    case Valid(_, _) =>
      var heading := if entry == Regular then FileLabel else DirectoryLabel;
      Report(f.path, heading, ChooseDisplay(Scale(TreeBytes(fs[f.path]))))
  }

  /** One run of the program on the arguments after the program name. */
  function Invocation(args: seq<string>, fs: map<string, Node>): (o: Outcome)
    ensures o == UsageError <==> |args| == 0
    ensures |args| > 0 ==> (o == HelpShown <==> FlagAmong(args, 0, HelpFlags))
    ensures o.MissingValue? <==>
      && |args| > 0
      && !FlagAmong(args, 0, HelpFlags)
      && |args| - 1 in FlagPositions(args, 0)
      && TakesValue(args[|args| - 1])
  {
    if |args| == 0 then UsageError
    else
      HelpWins(args);
      MissingArgumentOnlyLast(args);
      match Parse(args)
      case NoArguments => UsageError
      case Help => HelpShown
      case MissingArgument(flag) => MissingValue(flag)
      case Parsed(f) => Finish(f, fs)
  }

  /** `main` itself, with its argument loop and its size loop. */
  method Run(args: seq<string>, fs: map<string, Node>) returns (o: Outcome)
    ensures o == Invocation(args, fs)
    ensures ExitCode(o) == 0 <==> o.HelpShown? || o.Report?
  {
    var parsed := ParseArgs(args);
    match parsed {
      case NoArguments => return UsageError;
      case Help => return HelpShown;
      case MissingArgument(flag) => return MissingValue(flag);
      case Parsed(f) =>
        var entry := Lookup(fs, f.path);
        var check := Validate(f.isFile, f.isDirectory, entry);
        if check.PathNotFound? {
          return NotFound(f.path);
        }
        if check.KindMismatch? {
          return Mismatch(f.path);
        }
        var info := CalculateSize(fs[f.path]);
        var heading := if entry == Regular then FileLabel else DirectoryLabel;
        return Report(f.path, heading, ChooseDisplay(info));
    }
  }

  /** With no arguments the program stops before any parsing, with exit code 1. */
  lemma NoArgumentsFails(fs: map<string, Node>)
    ensures Invocation([], fs) == UsageError && ExitCode(Invocation([], fs)) == 1
  {
  }

  /**
   * Once `-f` and `-d` have both been inspected, no path is measured: a
   * missing path is not found, and an existing one is the wrong kind.
   */
  lemma BothFlagsNeverReport(args: seq<string>, fs: map<string, Node>)
    requires Parse(args).Parsed?
    requires FlagAmong(args, 0, FileFlags) && FlagAmong(args, 0, DirectoryFlags)
    ensures var o := Invocation(args, fs); (o.NotFound? || o.Mismatch?) && ExitCode(o) == 1
  {
    FlagsAreSticky(args);
    var f := Parse(args).flags;
    var entry := Lookup(fs, f.path);
    if entry != Missing {
      BothFlagsAlwaysMismatch(entry);
    }
  }

  /** `--file` on a directory is a kind mismatch with exit code 1; nothing is measured. */
  lemma FileFlagOnDirectory(fs: map<string, Node>, p: string)
    requires p != "" && p in fs && fs[p].Directory?
    ensures Invocation(["--file", p], fs) == Mismatch(p)
  {
    var args := ["--file", p];
    assert args[0] in FileFlags;
    assert ParseFrom(args, 0, Initial) == ParseFrom(args, 2, Flags(p, true, false, false));
  }

  /** A single bare argument naming a regular file reports exactly that file's size. */
  lemma BareFileReportsItsSize(fs: map<string, Node>, p: string)
    requires p != "" && p in fs && fs[p].RegularFile?
    requires p !in HelpFlags && p !in ValueFlags && p != ProgressFlag
    ensures Invocation([p], fs) == Report(p, FileLabel, ChooseDisplay(Scale(fs[p].size)))
  {
    assert ParseFrom([p], 0, Initial) == ParseFrom([p], 1, Flags(p, false, false, false));
  }

  /**
   * A path that is neither a regular file nor a directory, given without a
   * flag, passes the checks and is reported as a directory of 0 KB.
   */
  lemma OtherEntryReportsZero(fs: map<string, Node>, p: string)
    requires p != "" && p in fs && fs[p].Special?
    requires p !in HelpFlags && p !in ValueFlags && p != ProgressFlag
    ensures Invocation([p], fs) == Report(p, DirectoryLabel, Display(KB, 0.0))
  {
    assert ParseFrom([p], 0, Initial) == ParseFrom([p], 1, Flags(p, false, false, false));
  }

  /** Two arguments without flags leave the path empty, which is not found. */
  lemma TwoBareArgumentsNotFound(fs: map<string, Node>, a: string, b: string)
    requires a !in HelpFlags && a !in ValueFlags && a != ProgressFlag
    requires b !in HelpFlags && b !in ValueFlags && b != ProgressFlag
    ensures Invocation([a, b], fs) == NotFound("")
  {
    assert ParseFrom([a, b], 0, Initial) == ParseFrom([a, b], 1, Initial);
    assert ParseFrom([a, b], 1, Initial) == ParseFrom([a, b], 2, Initial);
  }

  /** `-p` sets a flag that nothing reads: the outcome is the same either way. */
  lemma ProgressIsInert(f: Flags, fs: map<string, Node>)
    ensures Finish(f, fs) == Finish(f.(showProgress := !f.showProgress), fs)
  {
  }
}
