/**
 * The Partition Information Table as the frontend sees it: an ordered list of
 * entries, each with an identifier, a partition name, a flash filename and a
 * flashable flag. The binary layout and PitData::Unpack are not part of this
 * model; lookup by identifier and by name is a first-match linear scan.
 */
module Pit {

  import opened Wrappers

  /** An unsigned 32-bit integer, the type of PIT identifiers and FileInfo partition ids. */
  type uint32 = x: int | 0 <= x < 0x1_0000_0000

  datatype PitEntry = PitEntry(identifier: uint32, partitionName: string, flashFilename: string, flashable: bool)

  type PitTable = seq<PitEntry>

  /** The position of the first entry with identifier id, or -1. */
  function IndexById(pit: PitTable, id: uint32): (r: int)
    ensures -1 <= r < |pit|
    ensures r >= 0 ==> pit[r].identifier == id && forall j :: 0 <= j < r ==> pit[j].identifier != id
    ensures r == -1 ==> forall j :: 0 <= j < |pit| ==> pit[j].identifier != id
  {
    if pit == [] then -1
    else if pit[0].identifier == id then 0
    else var k := IndexById(pit[1..], id); if k < 0 then -1 else k + 1
  }

  /** The position of the first entry named name (byte-exact), or -1. */
  function IndexByName(pit: PitTable, name: string): (r: int)
    ensures -1 <= r < |pit|
    ensures r >= 0 ==> pit[r].partitionName == name && forall j :: 0 <= j < r ==> pit[j].partitionName != name
    ensures r == -1 ==> forall j :: 0 <= j < |pit| ==> pit[j].partitionName != name
  {
    if pit == [] then -1
    else if pit[0].partitionName == name then 0
    else var k := IndexByName(pit[1..], name); if k < 0 then -1 else k + 1
  }

  /** PitData::FindEntry(unsigned int): the first entry with that identifier. */
  function FindById(pit: PitTable, id: uint32): (r: Option<PitEntry>)
    ensures r.Some? <==> exists j :: 0 <= j < |pit| && pit[j].identifier == id
    ensures r.Some? ==> r.value in pit && r.value.identifier == id
  {
    var k := IndexById(pit, id);
    if k < 0 then None else Some(pit[k])
  }

  /** PitData::FindEntry(const char *): the first entry with that name. */
  function FindByName(pit: PitTable, name: string): (r: Option<PitEntry>)
    ensures r.Some? <==> exists j :: 0 <= j < |pit| && pit[j].partitionName == name
    ensures r.Some? ==> r.value in pit && r.value.partitionName == name
  {
    var k := IndexByName(pit, name);
    if k < 0 then None else Some(pit[k])
  }

  /**
   * What MainWindow::ReadPit makes of a file: it could not be opened, PitData::Unpack
   * rejected its contents, or it held this table.
   */
  datatype PitRead = OpenFailed | Malformed | Unpacked(table: PitTable)

  /** The current table after ReadPit: kept when the file does not open, cleared when it does not unpack. */
  function PitAfterRead(current: PitTable, read: PitRead): (r: PitTable)
    ensures read.Unpacked? ==> r == read.table
    ensures read.Malformed? ==> r == []
    ensures read.OpenFailed? ==> r == current
  {
    match read
    case OpenFailed => current
    case Malformed => []
    case Unpacked(t) => t
  }

  predicate UniqueIdentifiers(pit: PitTable)
  {
    forall i, j :: 0 <= i < j < |pit| ==> pit[i].identifier != pit[j].identifier
  }

  predicate UniqueNames(pit: PitTable)
  {
    forall i, j :: 0 <= i < j < |pit| ==> pit[i].partitionName != pit[j].partitionName
  }

  /** In a table with unique identifiers, looking an entry up by its identifier finds that entry. */
  lemma FindByIdOwn(pit: PitTable, i: nat)
    requires UniqueIdentifiers(pit) && i < |pit|
    ensures FindById(pit, pit[i].identifier) == Some(pit[i])
  {
    var k := IndexById(pit, pit[i].identifier);
    assert k == i by {
      if k < i {
        assert pit[k].identifier == pit[i].identifier;
      }
    }
  }

  /** In a table with unique names, looking an entry up by its name finds that entry. */
  lemma FindByNameOwn(pit: PitTable, i: nat)
    requires UniqueNames(pit) && i < |pit|
    ensures FindByName(pit, pit[i].partitionName) == Some(pit[i])
  {
    var k := IndexByName(pit, pit[i].partitionName);
    assert k == i by {
      if k < i {
        assert pit[k].partitionName == pit[i].partitionName;
      }
    }
  }

  /** Lookup by identifier and lookup by name agree on every entry of a well-formed table. */
  lemma FindEntryAgrees(pit: PitTable, e: PitEntry)
    requires UniqueIdentifiers(pit) && UniqueNames(pit) && e in pit
    ensures FindById(pit, e.identifier) == FindByName(pit, e.partitionName) == Some(e)
  {
    var i :| 0 <= i < |pit| && pit[i] == e;
    FindByIdOwn(pit, i);
    FindByNameOwn(pit, i);
  }
}
