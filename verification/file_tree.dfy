/**
 * The file-system snapshot that the size calculation walks. A path names a
 * Node: a regular file with its byte length, a directory with its entries,
 * or any other kind of entry (socket, device), which is neither counted
 * nor descended into. Symbolic links are modelled as such other entries.
 */
module FileTree {

  /** What the status queries report about a path. */
  datatype EntryKind = Missing | Regular | Dir | Other

  datatype Node =
    | RegularFile(size: nat)
    | Directory(children: seq<Node>)
    | Special

  function KindOf(n: Node): (k: EntryKind)
    ensures k != Missing
    ensures k == Regular <==> n.RegularFile?
    ensures k == Dir <==> n.Directory?
  {
    match n
    case RegularFile(_) => Regular
    case Directory(_) => Dir
    case Special => Other
  }

  /**
   * The entries a recursive directory iterator yields for a directory whose
   * entries are `children`: every entry, each subdirectory followed by the
   * entries below it. The directory itself is not among them.
   */
  function Walk(children: seq<Node>): (entries: seq<Node>)
    ensures forall c :: c in children ==> c in entries
    ensures forall c, e :: c in children && c.Directory? && e in Walk(c.children) ==> e in entries
    ensures |entries| >= |children|
    decreases children
  {
    if children == [] then []
    else
      var first := children[0];
      [first] + (if first.Directory? then Walk(first.children) else []) + Walk(children[1..])
  }

  /** What the size loop adds for one entry: a regular file's size, nothing otherwise. */
  function Contribution(n: Node): nat
  {
    if n.RegularFile? then n.size else 0
  }

  /** Sum of the sizes of the regular files among `entries`, in the order given. */
  function RegularBytes(entries: seq<Node>): nat
  {
    if entries == [] then 0 else Contribution(entries[0]) + RegularBytes(entries[1..])
  }

  /** Bytes held by the regular files of a tree, by structure: the total computed from the tree's structure. */
  function TreeBytes(n: Node): nat
    decreases n
  {
    match n
    case RegularFile(size) => size
    case Directory(cs) => ForestBytes(cs)
    case Special => 0
  }

  function ForestBytes(cs: seq<Node>): nat
    decreases cs
  {
    if cs == [] then 0 else TreeBytes(cs[0]) + ForestBytes(cs[1..])
  }

  lemma {:induction false} RegularBytesAppend(a: seq<Node>, b: seq<Node>)
    ensures RegularBytes(a + b) == RegularBytes(a) + RegularBytes(b)
    decreases |a|
  {
    if a == [] {
      assert a + b == b;
    } else {
      assert (a + b)[1..] == a[1..] + b;
      RegularBytesAppend(a[1..], b);
    }
  }

  /**
   * The enumeration counts exactly the bytes of the tree: summing the regular
   * entries of a walk gives the structural total, however deep the nesting.
   */
  lemma {:induction false} WalkBytes(children: seq<Node>)
    ensures RegularBytes(Walk(children)) == ForestBytes(children)
    decreases children
  {
    if children != [] {
      var first := children[0];
      var below := if first.Directory? then Walk(first.children) else [];
      assert Walk(children) == [first] + below + Walk(children[1..]);
      RegularBytesAppend([first] + below, Walk(children[1..]));
      RegularBytesAppend([first], below);
      assert RegularBytes([first]) == Contribution(first);
      if first.Directory? {
        WalkBytes(first.children);
      }
      WalkBytes(children[1..]);
    }
  }

  /** Taking out the entry at `j` takes out its contribution. */
  lemma {:induction false} RegularBytesWithout(b: seq<Node>, j: nat)
    requires j < |b|
    ensures RegularBytes(b) == RegularBytes(b[..j] + b[j + 1..]) + Contribution(b[j])
  {
    var left, right := b[..j], b[j + 1..];
    assert b == left + [b[j]] + right;
    RegularBytesAppend(left + [b[j]], right);
    RegularBytesAppend(left, [b[j]]);
    RegularBytesAppend(left, right);
    assert RegularBytes([b[j]]) == Contribution(b[j]);
  }

  lemma {:induction false} MultisetWithout(a: seq<Node>, b: seq<Node>, j: nat)
    requires a != [] && j < |b| && b[j] == a[0] && multiset(a) == multiset(b)
    ensures multiset(a[1..]) == multiset(b[..j] + b[j + 1..])
  {
    assert b == b[..j] + [b[j]] + b[j + 1..];
    assert a == [a[0]] + a[1..];
    assert multiset(b) == multiset(b[..j]) + multiset{b[j]} + multiset(b[j + 1..]);
    assert multiset(a[1..]) == multiset(a) - multiset{a[0]};
  }

  /**
   * The total does not depend on the order in which the entries are visited:
   * any rearrangement of the same entries sums to the same number of bytes.
   */
  lemma {:induction false} RegularBytesPermutation(a: seq<Node>, b: seq<Node>)
    requires multiset(a) == multiset(b)
    ensures RegularBytes(a) == RegularBytes(b)
    decreases |a|
  {
    if a != [] {
      assert a[0] in multiset(b);
      var j :| 0 <= j < |b| && b[j] == a[0];
      MultisetWithout(a, b, j);
      RegularBytesPermutation(a[1..], b[..j] + b[j + 1..]);
      RegularBytesWithout(b, j);
    }
  }

  /**
   * Whatever order the directory's entries are enumerated in, the regular
   * files among them add up to the structural total of the directory.
   */
  lemma EnumerationOrderIrrelevant(children: seq<Node>, visited: seq<Node>)
    requires multiset(visited) == multiset(Walk(children))
    ensures RegularBytes(visited) == TreeBytes(Directory(children))
  {
    RegularBytesPermutation(visited, Walk(children));
    WalkBytes(children);
  }
}
