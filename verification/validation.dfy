/**
 * The checks `main` makes once the arguments are read: the path must exist;
 * without `-f` or `-d` the kind is taken from the entry; and a flag given
 * must agree with the entry's kind.
 */
module Validation {
  import opened FileTree

  datatype Check =
    | PathNotFound                       // exit code 1
    | KindMismatch                       // exit code 1
    | Valid(isFile: bool, isDirectory: bool) // the flags after inference

  /**
   * `isFile` and `isDirectory` as parsed, and the kind of entry the path
   * names. Existence is checked first; the kind is inferred only when
   * neither flag was given; then the consistency check runs.
   */
  function Validate(isFile: bool, isDirectory: bool, entry: EntryKind): (r: Check)
    ensures r.PathNotFound? <==> entry == Missing
    ensures r.KindMismatch? <==>
      entry != Missing && ((isFile && entry != Regular) || (isDirectory && entry != Dir))
    ensures r.Valid? && (isFile || isDirectory) ==> r.isFile == isFile && r.isDirectory == isDirectory
    ensures r.Valid? && !isFile && !isDirectory ==>
      r.isFile == (entry == Regular) && r.isDirectory == (entry == Dir)
    ensures r.Valid? ==> !(r.isFile && r.isDirectory)
  {
    if entry == Missing then PathNotFound
    else
      var inferredFile := if !isFile && !isDirectory then entry == Regular else isFile;
      var inferredDirectory := if !isFile && !isDirectory then entry == Dir else isDirectory;
      if (inferredFile && entry != Regular) || (inferredDirectory && entry != Dir) then KindMismatch
      else Valid(inferredFile, inferredDirectory)
  }

  /** With both `-f` and `-d`, no existing path passes: nothing is both a file and a directory. */
  lemma BothFlagsAlwaysMismatch(entry: EntryKind)
    requires entry != Missing
    ensures Validate(true, true, entry) == KindMismatch
  {
  }

  /** `--file` naming a directory, and `--directory` naming a file, are rejected. */
  lemma WrongFlagRejected()
    ensures Validate(true, false, Dir) == KindMismatch
    ensures Validate(false, true, Regular) == KindMismatch
  {
  }
}
