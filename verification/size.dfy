/**
 * `calculateSize` and the unit chain of `printSizeInfo`. The unit values are
 * the byte count divided by 1024 once, twice, three and four times; they are
 * modelled as exact real quotients.
 */
module Size {
  import opened FileTree

  datatype SizeInfo = SizeInfo(
    bytes: nat,
    kilobytes: real,
    megabytes: real,
    gigabytes: real,
    terabytes: real)

  const KiB: real := 1024.0
  const MiB: real := 1048576.0
  const GiB: real := 1073741824.0
  const TiB: real := 1099511627776.0

  /** The unit values derived from a byte count, each the previous one over 1024. */
  function Scale(bytes: nat): (info: SizeInfo)
    ensures info.bytes == bytes
    ensures info.kilobytes * KiB == bytes as real
    ensures info.megabytes * MiB == bytes as real
    ensures info.gigabytes * GiB == bytes as real
    ensures info.terabytes * TiB == bytes as real
  {
    var kilobytes := bytes as real / 1024.0;
    var megabytes := kilobytes / 1024.0;
    var gigabytes := megabytes / 1024.0;
    var terabytes := gigabytes / 1024.0;
    SizeInfo(bytes, kilobytes, megabytes, gigabytes, terabytes)
  }

  /**
   * The byte count of what the path names: a regular file's size, the sum
   * over the regular entries of a recursive walk for a directory, and 0 for
   * anything else.
   */
  method CalculateSize(n: Node) returns (info: SizeInfo)
    ensures info == Scale(TreeBytes(n))
    ensures n.RegularFile? ==> info.bytes == n.size
    ensures n.Special? ==> info.bytes == 0
  {
    var bytes: nat := 0;
    if n.RegularFile? {
      bytes := n.size;
    } else if n.Directory? {
      var entries := Walk(n.children);
      var i := 0;
      while i < |entries|
        invariant 0 <= i <= |entries|
        invariant bytes == RegularBytes(entries[..i])
      {
        RegularBytesAppend(entries[..i], [entries[i]]);
        assert entries[..i + 1] == entries[..i] + [entries[i]];
        if entries[i].RegularFile? {
          bytes := bytes + entries[i].size;
        }
        i := i + 1;
      }
      assert entries[..i] == entries;
      WalkBytes(n.children);
    }
    info := Scale(bytes);
  }

  datatype Unit = KB | MB | GB | TB

  /** One line of output: the unit and the value shown with it. */
  datatype Display = Display(unit: Unit, value: real)

  /** The if-else chain of `printSizeInfo`; its first two branches print the same line. */
  function ChooseDisplay(info: SizeInfo): (d: Display)
    ensures info == Scale(info.bytes) ==>
      && (d.unit == KB <==> info.bytes < 0x10_0000)
      && (d.unit == MB <==> 0x10_0000 <= info.bytes < 0x4000_0000)
      && (d.unit == GB <==> 0x4000_0000 <= info.bytes < 0x100_0000_0000)
      && (d.unit == TB <==> 0x100_0000_0000 <= info.bytes)
      && d.value * Divisor(d.unit) == info.bytes as real
  {
    if info.bytes < 1024 then Display(KB, info.kilobytes)
    else if info.kilobytes < 1024.0 then Display(KB, info.kilobytes)
    else if info.megabytes < 1024.0 then Display(MB, info.megabytes)
    else if info.gigabytes < 1024.0 then Display(GB, info.gigabytes)
    else Display(TB, info.terabytes)
  }

  function Divisor(u: Unit): real
  {
    match u
    case KB => KiB
    case MB => MiB
    case GB => GiB
    case TB => TiB
  }

  /** Position of a unit in the order KB, MB, GB, TB. */
  function Rank(u: Unit): nat
  {
    match u
    case KB => 0
    case MB => 1
    case GB => 2
    case TB => 3
  }

  /**
   * The chain on the derived values is the same as comparing the byte count
   * with 2^20, 2^30 and 2^40; the value shown is the byte count in the chosen
   * unit, at least 1 unless the unit is KB and below 1024 unless it is TB.
   */
  lemma UnitThresholds(bytes: nat)
    ensures var d := ChooseDisplay(Scale(bytes));
      && (d.unit == KB <==> bytes < 0x10_0000)
      && (d.unit == MB <==> 0x10_0000 <= bytes < 0x4000_0000)
      && (d.unit == GB <==> 0x4000_0000 <= bytes < 0x100_0000_0000)
      && (d.unit == TB <==> 0x100_0000_0000 <= bytes)
      && d.value * Divisor(d.unit) == bytes as real
      && (d.unit != KB ==> d.value >= 1.0)
      && (d.unit != TB ==> d.value < 1024.0)
  {
  }

  /** A larger byte count never selects a smaller unit. */
  lemma UnitMonotone(smaller: nat, larger: nat)
    requires smaller <= larger
    ensures Rank(ChooseDisplay(Scale(smaller)).unit) <= Rank(ChooseDisplay(Scale(larger)).unit)
  {
  }

  /** Below 1024 bytes the size is still shown in kilobytes, as a value under 1. */
  lemma SubKilobyteShownInKilobytes(bytes: nat)
    requires bytes < 1024
    ensures ChooseDisplay(Scale(bytes)) == Display(KB, bytes as real / 1024.0)
    ensures ChooseDisplay(Scale(bytes)).value < 1.0
  {
  }

  /** A 2048-byte file shows as 2 KB; files of 500, 1500 and 100000 bytes as 102000/1024 KB. */
  lemma SizeExamples()
    ensures ChooseDisplay(Scale(2048)) == Display(KB, 2.0)
    ensures TreeBytes(Directory([RegularFile(500), RegularFile(1500), RegularFile(100000)])) == 102000
    ensures ChooseDisplay(Scale(102000)) == Display(KB, 102000.0 / 1024.0)
  {
  }
}
