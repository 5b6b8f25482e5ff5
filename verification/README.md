# fsize in Dafny

`fsize` is a command-line tool that prints the size of a file, or the total
size of the regular files below a directory, in KB, MB, GB or TB. This
project models the logic of its single source file, `fsize.cpp`:

- `arguments.dfy` (module `Arguments`): the argument loop of `main`. It reads
  the arguments left to right. It sets the target path and the `isFile`,
  `isDirectory` and `showProgress` flags. It stops early for `-h`/`--help`,
  or when `-f`/`-d` has no value. `ParseArgs` is the loop itself. `ParseFrom`
  and `Parse` define what the loop computes. `FlagPositions` lists the
  positions the loop inspects as flags. The value after `-f`/`-d` is skipped.
- `validation.dfy` (module `Validation`): the checks after parsing. The path
  must exist. The kind is inferred when no flag was given. A flag given must
  agree with the entry.
- `file_tree.dfy` (module `FileTree`): the file system as a tree of nodes,
  and the recursive directory enumeration as a pre-order walk. It has the
  sum of regular-file sizes over a walk and over the tree structure.
- `size.dfy` (module `Size`): `calculateSize` as a loop over the walk. The
  four unit values are exact quotients. The if-else chain of `printSizeInfo`
  picks the unit.
- `fsize.dfy` (module `Fsize`): `main` from end to end. It has the outcome of
  a run and its exit code.

The file system is a parameter: a map from paths to nodes (a snapshot). The
empty path, which `targetPath` keeps when no argument sets it, never exists.
The arguments are `argv[1..]`, so `argc < 2` is the empty sequence.

Two behaviours of the code are easy to misread:

- With both `-f` and `-d`, only the path is last-write-wins. Both kind flags
  stay set, so every existing path is a kind mismatch (`FlagsAreSticky`,
  `BothFlagsNeverReport`).
- `-h` wins only at a position the loop inspects as a flag. After `-f` or
  `-d` it is taken as the path (`HelpWins`, `HelpTakenAsFileValue`).

## Model

| member | source | states |
|---|---|---|
| `Arguments.ParseArgs` | fsize.cpp:94-124 | The loop, with its two-step advance past a flag's value, returns exactly `Parse(args)` |
| `Arguments.ParseFrom` | fsize.cpp:100-124 | The loop never reports "no arguments". A missing value is reported only for a value flag that is the last argument. `isFile`, `isDirectory` and `showProgress`, once set, stay set |
| `Arguments.Parse` | fsize.cpp:88-92 | "No arguments" exactly when the argument list is empty, checked before the loop |
| `Arguments.FlagPositions` | fsize.cpp:100-119 | The inspected positions are in range, and the first one is the starting position |
| `Arguments.HelpWins` | fsize.cpp:100-103 | The result is Help exactly when `-h`/`--help` is at an inspected position, whatever the other arguments are |
| `Arguments.MissingArgumentOnlyLast` | fsize.cpp:106-110 | A missing value is reported exactly when a value flag is the last argument, the loop inspects it, and no help flag is inspected |
| `Arguments.ConsumedValueSkipped` | fsize.cpp:111-118 | The argument after an inspected `-f`/`-d` is never inspected as a flag |
| `Arguments.FlagsAreSticky` | fsize.cpp:104-119 | After a full parse, each of `isFile`, `isDirectory`, `showProgress` is true exactly when its flag is at an inspected position |
| `Arguments.LastValueWins` | fsize.cpp:111-118 | The path is the argument after the last inspected `-f`/`-d` |
| `Arguments.PathWithoutValueFlag` | fsize.cpp:120-123 | Without `-f`/`-d`, the path is the argument only when it is the single argument (and not `-p`). Otherwise the path stays empty |
| `Arguments.HelpTakenAsFileValue` | fsize.cpp:111 | `-f -h` and `--directory --help` take the help flag as the path |
| `Validation.Validate` | fsize.cpp:127-146 | Not found exactly when the entry is missing. Kind mismatch exactly when `isFile` and the entry is not regular, or `isDirectory` and it is not a directory. Without flags the kind is inferred from the entry. A valid result never has both kinds |
| `Validation.BothFlagsAlwaysMismatch` | fsize.cpp:142-146 | With both flags set, every existing entry is a mismatch |
| `Validation.WrongFlagRejected` | fsize.cpp:142-146 | `--file` on a directory and `--directory` on a file are mismatches |
| `FileTree.KindOf` | fsize.cpp:34-36 | A node's kind is regular exactly for a file, and a directory exactly for a directory |
| `FileTree.Walk` | fsize.cpp:37 | The enumeration yields every entry of the directory and, for each subdirectory, every entry the enumeration of that subdirectory yields |
| `FileTree.RegularBytesAppend` | fsize.cpp:37-41 | The sum over two runs of entries is the sum of their sums |
| `FileTree.WalkBytes` | fsize.cpp:36-41 | The regular-file sizes summed over the walk equal the structural total of the tree |
| `FileTree.RegularBytesPermutation` | fsize.cpp:37-41 | Any reordering of the entries gives the same sum |
| `FileTree.EnumerationOrderIrrelevant` | fsize.cpp:36-41 | Whatever the enumeration order, the sum is the directory's structural total |
| `Size.Scale` | fsize.cpp:44-48 | KB, MB, GB and TB times 1024, 1024², 1024³ and 1024⁴ each give back the byte count |
| `Size.CalculateSize` | fsize.cpp:31-51 | A file gives its size. A directory gives the total of the regular files below it. Anything else gives 0. The units are scaled from that count |
| `Size.ChooseDisplay` | fsize.cpp:68-82 | For unit values scaled from the byte count: KB below 2^20 bytes, MB below 2^30, GB below 2^40, TB otherwise, and the value shown is the byte count in that unit |
| `Size.UnitThresholds` | fsize.cpp:68-82 | KB below 2^20 bytes, MB below 2^30, GB below 2^40, TB otherwise. The value shown is the count in that unit, at least 1 unless KB, below 1024 unless TB |
| `Size.UnitMonotone` | fsize.cpp:68-82 | More bytes never select a smaller unit |
| `Size.SubKilobyteShownInKilobytes` | fsize.cpp:68-70 | Below 1024 bytes the size is shown in KB, with a value under 1 |
| `Size.SizeExamples` | fsize.cpp:31-82 | 2048 bytes show as 2 KB. Files of 500, 1500 and 100000 bytes total 102000, shown in KB |
| `Fsize.ExitCode` | fsize.cpp:91-152 | Exit code 0 exactly for help and a report, 1 for every error |
| `Fsize.Lookup` | fsize.cpp:127 | A path exists exactly when it is non-empty and in the snapshot |
| `Fsize.Finish` | fsize.cpp:126-150 | After parsing, a run ends as not found exactly when the path does not exist, mismatch exactly when the kind check fails, and report exactly when it passes. A report names the path, its heading says file exactly for a regular file, and it shows the unit chosen for the tree's byte total |
| `Fsize.Invocation` | fsize.cpp:87-153 | Usage error exactly without arguments. Help exactly when a help flag is inspected. Missing value exactly as `MissingArgumentOnlyLast` says |
| `Fsize.Run` | fsize.cpp:87-153 | `main` gives `Invocation(args, fs)`. Its exit code is 0 exactly for help or a report |
| `Fsize.NoArgumentsFails` | fsize.cpp:88-92 | No arguments gives the usage error with exit code 1 |
| `Fsize.BothFlagsNeverReport` | fsize.cpp:106-119 | With both `-f` and `-d` inspected, nothing is measured and the exit code is 1 |
| `Fsize.FileFlagOnDirectory` | fsize.cpp:142-146 | `--file` naming a directory is a mismatch |
| `Fsize.BareFileReportsItsSize` | fsize.cpp:120-123 | A single bare argument naming a regular file reports that file's size under the file heading |
| `Fsize.OtherEntryReportsZero` | fsize.cpp:133-146 | An entry that is neither file nor directory, given bare, passes the checks and shows 0 KB under the directory heading |
| `Fsize.TwoBareArgumentsNotFound` | fsize.cpp:120-130 | Two unflagged arguments leave the path empty, which is not found |
| `Fsize.ProgressIsInert` | fsize.cpp:104-105 | `showProgress` does not affect the outcome |

## Left out

- The file-system calls (`fs::exists`, `is_regular_file`, `is_directory`, `file_size`, `recursive_directory_iterator`) are foreign library calls. They are replaced by the snapshot map and the node tree. Their exceptions on permission errors or races are not modelled, and neither is symbolic-link following. A link is a `Special` node, never descended into.
- The file system is read once. The source queries it again before printing and could see a changed entry.
- Size.Scale: the unit values are exact real quotients, not IEEE doubles. Byte counts above 2^53 are rounded when converted to double in the source. That rounding is monotone and the thresholds are powers of two, so the unit chosen is the same. The printed decimals do differ.
- The text printed is left out: `printHelp`, the Spanish messages, the stdout/stderr split, and the two-decimal fixed-point rendering. An outcome keeps only what decides that text.
- `uintmax_t` overflow of the running byte total is not modelled. Sizes are unbounded naturals.
