/**
 * The working set of partition bindings edited on the flash tab, and the list of
 * partition identifiers that are still free to bind (unusedPartitionIds).
 */
module Bindings {

  import opened Wrappers
  import opened Pit
  import opened Firmware

  // ---------------------------------------------------------------- specification functions

  /** An entry UpdateUnusedPartitionIds offers: flashable, and not the table's own PIT or PT entry. */
  predicate IsCandidate(e: PitEntry)
  {
    e.flashable && e.partitionName != "PIT" && e.partitionName != "PT"
  }

  /** The identifiers of the candidate entries, in table order. */
  function CandidateIds(pit: PitTable): (r: seq<uint32>)
    ensures forall u :: u in r ==> exists j :: 0 <= j < |pit| && pit[j].identifier == u && IsCandidate(pit[j])
  {
    if pit == [] then []
    else
      var init := pit[..|pit| - 1];
      var e := pit[|pit| - 1];
      assert forall j :: 0 <= j < |init| ==> init[j] == pit[j];
      CandidateIds(init) + (if IsCandidate(e) then [e.identifier] else [])
  }

  /** QList::removeOne: drop the first occurrence of x, if any. */
  function RemoveOne(s: seq<uint32>, x: uint32): (r: seq<uint32>)
    ensures multiset(r) == multiset(s) - multiset{x}
  {
    if s == [] then []
    else if s[0] == x then
      assert s == [s[0]] + s[1..];
      s[1..]
    else
      assert s == [s[0]] + s[1..];
      [s[0]] + RemoveOne(s[1..], x)
  }

  /** removeOne applied for each element of xs, first to last. */
  function RemoveEach(s: seq<uint32>, xs: seq<uint32>): (r: seq<uint32>)
    ensures multiset(r) == multiset(s) - multiset(xs)
  {
    if xs == [] then s
    else
      var init := xs[..|xs| - 1];
      var x := xs[|xs| - 1];
      assert xs == init + [x];
      DifferenceOfDifference(multiset(s), multiset(init), multiset{x});
      RemoveOne(RemoveEach(s, init), x)
  }

  lemma DifferenceOfDifference(a: multiset<uint32>, b: multiset<uint32>, c: multiset<uint32>)
    ensures a - b - c == a - (b + c)
  {
    assert forall z :: (a - b - c)[z] == (a - (b + c))[z];
  }

  /** The partition ids of the bindings, in list order. */
  function BoundIds(files: seq<FileInfo>): (r: seq<uint32>)
    ensures |r| == |files| && forall i :: 0 <= i < |files| ==> r[i] == files[i].partitionId
  {
    seq(|files|, i requires 0 <= i < |files| => files[i].partitionId)
  }

  /** What UpdateUnusedPartitionIds computes: the candidates, minus one occurrence per binding. */
  function UnusedIds(pit: PitTable, files: seq<FileInfo>): seq<uint32>
  {
    RemoveEach(CandidateIds(pit), BoundIds(files))
  }

  /** Every binding refers to an entry of the table (what FindEntry(...)->GetPartitionName() relies on). */
  predicate BindingsResolve(pit: PitTable, files: seq<FileInfo>)
  {
    forall i :: 0 <= i < |files| ==> FindById(pit, files[i].partitionId).Some?
  }

  /** The partition name each binding refers to. */
  function NamesOf(pit: PitTable, files: seq<FileInfo>): (r: seq<string>)
    requires BindingsResolve(pit, files)
    ensures |r| == |files|
  {
    seq(|files|, i requires 0 <= i < |files| && BindingsResolve(pit, files) =>
      FindById(pit, files[i].partitionId).value.partitionName)
  }

  /**
   * The remap loop of SelectPit: binding i is kept, with the identifier of the new
   * table's entry named names[i], when such an entry exists, and dropped otherwise.
   */
  function Remap(pit: PitTable, names: seq<string>, files: seq<FileInfo>): (r: seq<FileInfo>)
    requires |names| == |files|
    ensures |r| <= |files|
  {
    if files == [] then []
    else
      var n := |files| - 1;
      Remap(pit, names[..n], files[..n]) + RemapOne(pit, names[n], files[n])
  }

  /** One step of the remap: the binding with its new identifier, or nothing. */
  function RemapOne(pit: PitTable, name: string, f: FileInfo): seq<FileInfo>
  {
    match FindByName(pit, name)
    case Some(e) => [f.(partitionId := e.identifier)]
    case None => []
  }

  /** The names that the new table contains, in order. */
  function FoundNames(pit: PitTable, names: seq<string>): seq<string>
  {
    if names == [] then []
    else
      var n := |names| - 1;
      FoundNames(pit, names[..n]) + if FindByName(pit, names[n]).Some? then [names[n]] else []
  }

  /** The positions whose names the new table contains, in order. */
  function FoundIndices(pit: PitTable, names: seq<string>): (r: seq<nat>)
    ensures forall j :: 0 <= j < |r| ==> r[j] < |names| && FindByName(pit, names[r[j]]).Some?
  {
    if names == [] then []
    else
      var n := |names| - 1;
      var prev := FoundIndices(pit, names[..n]);
      assert forall j :: 0 <= j < |prev| ==> names[..n][prev[j]] == names[prev[j]];
      prev + if FindByName(pit, names[n]).Some? then [n] else []
  }

  /** Each position comes before the next one. */
  predicate Increasing(r: seq<nat>)
  {
    forall j, k :: 0 <= j < k < |r| ==> r[j] < r[k]
  }

  /** The found positions increase. */
  lemma {:induction false} FoundIndicesIncrease(pit: PitTable, names: seq<string>)
    ensures Increasing(FoundIndices(pit, names))
  {
    if names != [] {
      var n := |names| - 1;
      FoundIndicesIncrease(pit, names[..n]);
      var prev := FoundIndices(pit, names[..n]);
      assert forall a :: 0 <= a < |prev| ==> prev[a] < n;
      var r := FoundIndices(pit, names);
      assert r == prev + if FindByName(pit, names[n]).Some? then [n] else [];
      forall j, k | 0 <= j < k < |r| ensures r[j] < r[k] {
        assert r[j] == prev[j];
        if k >= |prev| {
          assert r[k] == n;
        } else {
          assert r[k] == prev[k];
        }
      }
    }
  }

  /** Every position whose name the table contains is among the found positions. */
  lemma {:induction false} FoundIndicesComplete(pit: PitTable, names: seq<string>)
    ensures var r := FoundIndices(pit, names);
      forall i :: 0 <= i < |names| && FindByName(pit, names[i]).Some? ==> i in r
  {
    if names != [] {
      var n := |names| - 1;
      FoundIndicesComplete(pit, names[..n]);
      var prev := FoundIndices(pit, names[..n]);
      var r := FoundIndices(pit, names);
      assert r == prev + if FindByName(pit, names[n]).Some? then [n] else [];
      forall i | 0 <= i < |names| && FindByName(pit, names[i]).Some? ensures i in r {
        if i == n {
          assert r[|r| - 1] == n;
        } else {
          assert names[..n][i] == names[i];
          assert i in prev;
        }
      }
    }
  }

  // ---------------------------------------------------------------- properties of the unused list

  /** Every unused identifier belongs to a flashable entry not named PIT or PT. */
  lemma UnusedIdsAreCandidates(pit: PitTable, files: seq<FileInfo>, u: uint32)
    requires u in UnusedIds(pit, files)
    ensures exists j :: 0 <= j < |pit| && pit[j].identifier == u && pit[j].flashable
                        && pit[j].partitionName != "PIT" && pit[j].partitionName != "PT"
  {
    var c: seq<uint32> := CandidateIds(pit);
    assert u in multiset(UnusedIds(pit, files));
    assert u in multiset(c);
    assert u in c;
  }

  /** The unused list, counted with multiplicity, is the candidates minus the bound ids. */
  lemma UnusedIdsCount(pit: PitTable, files: seq<FileInfo>)
    ensures multiset(UnusedIds(pit, files)) == multiset(CandidateIds(pit)) - multiset(BoundIds(files))
  {
  }

  /** With unique identifiers, no candidate id occurs twice. */
  lemma {:induction false} CandidateIdsAtMostOnce(pit: PitTable, u: uint32)
    requires UniqueIdentifiers(pit)
    ensures multiset(CandidateIds(pit))[u] <= 1
  {
    if pit != [] {
      var init := pit[..|pit| - 1];
      var e := pit[|pit| - 1];
      assert UniqueIdentifiers(init);
      CandidateIdsAtMostOnce(init, u);
      assert forall j :: 0 <= j < |init| ==> init[j].identifier != e.identifier;
      assert e.identifier !in CandidateIds(init);
    }
  }

  /** With unique identifiers in the table, no unused id is also bound. */
  lemma UnusedIdsDisjointFromBound(pit: PitTable, files: seq<FileInfo>, u: uint32, i: nat)
    requires UniqueIdentifiers(pit) && i < |files|
    requires u in UnusedIds(pit, files)
    ensures files[i].partitionId != u
  {
    CandidateIdsAtMostOnce(pit, u);
    UnusedIdsCount(pit, files);
    var b := BoundIds(files);
    assert b[i] in multiset(b);
  }

  /**
   * Swapping a binding's partition with an unused one, as SelectPartitionName does,
   * leaves the unused list equal, up to order, to what recomputation would give, as
   * long as every bound id was taken from the candidates.
   */
  lemma SwapMatchesRecomputation(pit: PitTable, files: seq<FileInfo>, unused: seq<uint32>, index: nat, row: nat)
    requires multiset(unused) == multiset(UnusedIds(pit, files))
    requires multiset(BoundIds(files)) <= multiset(CandidateIds(pit))
    requires index < |unused| && row < |files|
    ensures multiset(unused[..index] + unused[index + 1..] + [files[row].partitionId])
         == multiset(UnusedIds(pit, files[row := files[row].(partitionId := unused[index])]))
  {
    var n := unused[index];
    var o := files[row].partitionId;
    var files' := files[row := files[row].(partitionId := n)];
    var c := multiset(CandidateIds(pit));
    var b := multiset(BoundIds(files));
    RemoveAtCount(unused, index);
    BoundIdsUpdate(files, row, n);
    UnusedIdsCount(pit, files);
    UnusedIdsCount(pit, files');
    assert n in multiset(unused);
    SwapCounts(c, b, n, o);
  }

  lemma RemoveAtCount(s: seq<uint32>, i: nat)
    requires i < |s|
    ensures multiset(s[..i] + s[i + 1..]) == multiset(s) - multiset{s[i]}
  {
    assert s == s[..i] + [s[i]] + s[i + 1..];
  }

  /**
   * The swap of SelectPartitionName neither creates nor loses an identifier: the
   * unused and the bound ids together are the same, counted with multiplicity.
   */
  lemma SwapKeepsPool(unused: seq<uint32>, files: seq<FileInfo>, index: nat, row: nat)
    requires index < |unused| && row < |files|
    ensures multiset(unused[..index] + unused[index + 1..] + [files[row].partitionId])
            + multiset(BoundIds(files[row := files[row].(partitionId := unused[index])]))
         == multiset(unused) + multiset(BoundIds(files))
  {
    RemoveAtCount(unused, index);
    BoundIdsUpdate(files, row, unused[index]);
    assert unused[index] in multiset(unused);
  }

  /** Rebinding one row removes its old id from the bound ids and adds the new one. */
  lemma BoundIdsUpdate(files: seq<FileInfo>, row: nat, n: uint32)
    requires row < |files|
    ensures multiset(BoundIds(files[row := files[row].(partitionId := n)]))
         == multiset(BoundIds(files)) - multiset{files[row].partitionId} + multiset{n}
    ensures files[row].partitionId in multiset(BoundIds(files))
  {
    var b := BoundIds(files);
    assert BoundIds(files[row := files[row].(partitionId := n)]) == b[row := n];
    assert b == b[..row] + [b[row]] + b[row + 1..];
    assert b[row := n] == b[..row] + [n] + b[row + 1..];
  }

  /** The counting step of SwapMatchesRecomputation. */
  lemma SwapCounts(c: multiset<uint32>, b: multiset<uint32>, n: uint32, o: uint32)
    requires b <= c && c[n] > b[n] && o in b
    ensures c - b - multiset{n} + multiset{o} == c - (b - multiset{o} + multiset{n})
  {
    assert forall z :: (c - b - multiset{n} + multiset{o})[z] == (c - (b - multiset{o} + multiset{n}))[z];
  }

  // ---------------------------------------------------------------- properties of the remap

  /** A kept binding refers, in the new table, to an entry with the binding's old name. */
  lemma {:induction false} RemapKeepsNames(pit: PitTable, names: seq<string>, files: seq<FileInfo>)
    requires |names| == |files| && UniqueIdentifiers(pit)
    ensures BindingsResolve(pit, Remap(pit, names, files))
    ensures NamesOf(pit, Remap(pit, names, files)) == FoundNames(pit, names)
  {
    if files != [] {
      var n := |files| - 1;
      var prev := Remap(pit, names[..n], files[..n]);
      RemapKeepsNames(pit, names[..n], files[..n]);
      match FindByName(pit, names[n])
      case Some(e) =>
        var k :| 0 <= k < |pit| && pit[k] == e;
        FindByIdOwn(pit, k);
        NamesOfSnoc(pit, prev, files[n].(partitionId := e.identifier));
      case None =>
    }
  }

  lemma NamesOfSnoc(pit: PitTable, prev: seq<FileInfo>, f: FileInfo)
    requires BindingsResolve(pit, prev) && FindById(pit, f.partitionId).Some?
    ensures BindingsResolve(pit, prev + [f])
    ensures NamesOf(pit, prev + [f]) == NamesOf(pit, prev) + [FindById(pit, f.partitionId).value.partitionName]
  {
    var r := prev + [f];
    assert forall i :: 0 <= i < |prev| ==> r[i] == prev[i];
  }

  /**
   * The remap keeps exactly the bindings whose names the new table contains, in their
   * order: the j-th kept binding is the file of the j-th such position, with the
   * identifier of its name in the new table.
   */
  lemma {:induction false} RemapKeepsFound(pit: PitTable, names: seq<string>, files: seq<FileInfo>)
    requires |names| == |files|
    ensures var r := Remap(pit, names, files);
      var idx := FoundIndices(pit, names);
      && |r| == |idx|
      && forall j :: 0 <= j < |r| ==>
           r[j] == FileInfo(FindByName(pit, names[idx[j]]).value.identifier, files[idx[j]].filename)
  {
    if files != [] {
      var n := |files| - 1;
      RemapKeepsFound(pit, names[..n], files[..n]);
      var prev := Remap(pit, names[..n], files[..n]);
      var idx := FoundIndices(pit, names[..n]);
      RemapKeepsFoundPrefix(pit, names, files, prev, idx);
      assert Remap(pit, names, files) == prev + RemapOne(pit, names[n], files[n]);
      assert FoundIndices(pit, names) == idx + if FindByName(pit, names[n]).Some? then [n] else [];
    }
  }

  lemma RemapKeepsFoundPrefix(pit: PitTable, names: seq<string>, files: seq<FileInfo>, prev: seq<FileInfo>, idx: seq<nat>)
    requires |names| == |files| > 0 && |prev| == |idx|
    requires forall j :: 0 <= j < |idx| ==> idx[j] < |names| - 1 && FindByName(pit, names[idx[j]]).Some?
    requires forall j :: 0 <= j < |prev| ==>
      prev[j] == FileInfo(FindByName(pit, names[..|names| - 1][idx[j]]).value.identifier, files[..|names| - 1][idx[j]].filename)
    ensures forall j :: 0 <= j < |prev| ==>
      prev[j] == FileInfo(FindByName(pit, names[idx[j]]).value.identifier, files[idx[j]].filename)
  {
  }

  /** When every name is found, nothing is dropped and each file stays in its place. */
  lemma {:induction false} RemapAllFound(pit: PitTable, names: seq<string>, files: seq<FileInfo>)
    requires |names| == |files|
    requires forall i :: 0 <= i < |names| ==> FindByName(pit, names[i]).Some?
    ensures |Remap(pit, names, files)| == |files|
    ensures forall i :: 0 <= i < |files| ==>
      Remap(pit, names, files)[i] == FileInfo(FindByName(pit, names[i]).value.identifier, files[i].filename)
  {
    if files != [] {
      var n := |files| - 1;
      RemapAllFound(pit, names[..n], files[..n]);
    }
  }

  /** A binding whose name the new table lacks is dropped. */
  lemma {:induction false} RemapNoneFound(pit: PitTable, names: seq<string>, files: seq<FileInfo>)
    requires |names| == |files|
    requires forall i :: 0 <= i < |names| ==> FindByName(pit, names[i]).None?
    ensures Remap(pit, names, files) == []
  {
    if files != [] {
      var n := |files| - 1;
      RemapNoneFound(pit, names[..n], files[..n]);
    }
  }

  /**
   * SelectPit as written keeps the old identifiers. With an old table where 5 is BOOT
   * and a new one where BOOT is 7 and 5 is CACHE, the binding of boot.img ends up on
   * CACHE, while the remap it computes (and discards) would have moved it to BOOT.
   */
  lemma SelectPitAsWrittenRebinds()
    ensures var oldPit := [PitEntry(5, "BOOT", "boot.img", true)];
            var newPit := [PitEntry(7, "BOOT", "boot.img", true), PitEntry(5, "CACHE", "cache.img", true)];
            var files := [FileInfo(5, "boot.img")];
            && NamesOf(oldPit, files) == ["BOOT"]
            && NamesOf(newPit, files) == ["CACHE"]
            && Remap(newPit, NamesOf(oldPit, files), files) == [FileInfo(7, "boot.img")]
            && NamesOf(newPit, Remap(newPit, NamesOf(oldPit, files), files)) == ["BOOT"]
  {
    var oldPit := [PitEntry(5, "BOOT", "boot.img", true)];
    var newPit := [PitEntry(7, "BOOT", "boot.img", true), PitEntry(5, "CACHE", "cache.img", true)];
    var files := [FileInfo(5, "boot.img")];
    assert IndexById(oldPit, 5) == 0;
    assert IndexById(newPit, 5) == 1;
    assert IndexById(newPit, 7) == 0;
    assert IndexByName(newPit, "BOOT") == 0;
    assert files[..0] == [];
  }

  // ---------------------------------------------------------------- loops of the source

  lemma CandidateIdsSnoc(pit: PitTable, i: nat)
    requires i < |pit|
    ensures CandidateIds(pit[..i + 1]) == CandidateIds(pit[..i]) + (if IsCandidate(pit[i]) then [pit[i].identifier] else [])
  {
    assert pit[..i + 1][..i] == pit[..i];
  }

  lemma RemoveEachSnoc(s: seq<uint32>, files: seq<FileInfo>, i: nat)
    requires i < |files|
    ensures RemoveEach(s, BoundIds(files[..i + 1])) == RemoveOne(RemoveEach(s, BoundIds(files[..i])), files[i].partitionId)
  {
    assert BoundIds(files[..i + 1])[..i] == BoundIds(files[..i]);
  }

  /** Editing the element right after a prefix, as the remap loop does at its cursor. */
  lemma SpliceAt(done: seq<FileInfo>, x: FileInfo, rest: seq<FileInfo>, y: FileInfo)
    ensures (done + [x] + rest)[|done|] == x
    ensures (done + [x] + rest)[|done| := y] == (done + [y]) + rest
    ensures (done + [x] + rest)[..|done|] + (done + [x] + rest)[|done| + 1..] == done + rest
  {
    var s := done + [x] + rest;
    assert s[..|done|] == done && s[|done| + 1..] == rest;
  }

  /** The remap of the first i bindings, indexed rather than sliced, as the loop walks it. */
  function RemapPrefix(pit: PitTable, names: seq<string>, files: seq<FileInfo>, i: nat): seq<FileInfo>
    requires |names| == |files| && i <= |files|
  {
    if i == 0 then [] else RemapPrefix(pit, names, files, i - 1) + RemapOne(pit, names[i - 1], files[i - 1])
  }

  lemma {:induction false} RemapPrefixIsRemap(pit: PitTable, names: seq<string>, files: seq<FileInfo>, i: nat)
    requires |names| == |files| && i <= |files|
    ensures RemapPrefix(pit, names, files, i) == Remap(pit, names[..i], files[..i])
  {
    if i > 0 {
      RemapPrefixIsRemap(pit, names, files, i - 1);
      assert names[..i][..i - 1] == names[..i - 1] && files[..i][..i - 1] == files[..i - 1];
    }
  }

  /** One turn of the remap loop keeps the cursor right after the remapped prefix. */
  lemma RemapLoopStep(pit: PitTable, names: seq<string>, files: seq<FileInfo>, i: nat, done: seq<FileInfo>, r: seq<FileInfo>)
    requires |names| == |files| && i < |files|
    requires r == done + files[i..]
    ensures FindByName(pit, names[i]).Some? ==>
      var f := files[i].(partitionId := FindByName(pit, names[i]).value.identifier);
      && r[|done|] == files[i]
      && r[|done| := r[|done|].(partitionId := f.partitionId)] == (done + [f]) + files[i + 1..]
    ensures FindByName(pit, names[i]).None? ==> r[..|done|] + r[|done| + 1..] == done + files[i + 1..]
  {
    assert files[i..] == [files[i]] + files[i + 1..];
    assert r == done + [files[i]] + files[i + 1..];
    match FindByName(pit, names[i])
    case Some(e) =>
      SpliceAt(done, files[i], files[i + 1..], files[i].(partitionId := e.identifier));
    case None =>
      SpliceAt(done, files[i], files[i + 1..], files[i]);
  }

  /** The renaming loop of SelectPit, run over a copy of the bindings. */
  method RemapBindings(pit: PitTable, names: seq<string>, files: seq<FileInfo>) returns (r: seq<FileInfo>)
    requires |names| == |files|
    ensures r == Remap(pit, names, files)
  {
    r := files;
    var k := 0;
    var i := 0;
    while i < |names|
      invariant 0 <= i <= |names|
      invariant k == |RemapPrefix(pit, names, files, i)|
      invariant r == RemapPrefix(pit, names, files, i) + files[i..]
    {
      RemapLoopStep(pit, names, files, i, RemapPrefix(pit, names, files, i), r);
      var e := FindByName(pit, names[i]);
      if e.Some? {
        r := r[k := r[k].(partitionId := e.value.identifier)];
        k := k + 1;
      } else {
        r := r[..k] + r[k + 1..];
      }
      i := i + 1;
    }
    RemapPrefixIsRemap(pit, names, files, i);
    assert names[..i] == names && files[..i] == files;
  }

  /** The working bindings and the table they refer to, as the main window holds them. */
  class Workspace {
    var pit: PitTable
    var firmware: FirmwareInfo
    var unusedPartitionIds: seq<uint32>

    constructor ()
      ensures pit == [] && firmware == ClearedFirmware && unusedPartitionIds == []
    {
      pit := [];
      firmware := ClearedFirmware;
      unusedPartitionIds := [];
    }

    /** UpdateUnusedPartitionIds: refill with the candidates, then remove one occurrence per binding. */
    method UpdateUnusedPartitionIds()
      modifies this`unusedPartitionIds
      ensures unusedPartitionIds == UnusedIds(pit, firmware.fileInfos)
    {
      var ids: seq<uint32> := [];
      var i := 0;
      while i < |pit|
        invariant 0 <= i <= |pit|
        invariant ids == CandidateIds(pit[..i])
      {
        CandidateIdsSnoc(pit, i);
        if IsCandidate(pit[i]) {
          ids := ids + [pit[i].identifier];
        }
        i := i + 1;
      }
      assert pit[..i] == pit;
      var files := firmware.fileInfos;
      var unused := ids;
      i := 0;
      while i < |files|
        invariant 0 <= i <= |files|
        invariant unused == RemoveEach(ids, BoundIds(files[..i]))
      {
        RemoveEachSnoc(ids, files, i);
        unused := RemoveOne(unused, files[i].partitionId);
        i := i + 1;
      }
      assert files[..i] == files;
      unusedPartitionIds := unused;
    }

    /** ReadPit: install the table read from a file; report whether it unpacked. */
    method ReadPit(read: PitRead) returns (success: bool)
      modifies this`pit
      ensures success <==> read.Unpacked?
      ensures pit == PitAfterRead(old(pit), read)
    {
      success := false;
      match read {
        case OpenFailed =>
        case Malformed =>
          pit := [];
        case Unpacked(t) =>
          pit := t;
          success := true;
      }
    }

    /** AddPartition: bind the first unused partition, with no file yet. */
    method AddPartition()
      requires |unusedPartitionIds| > 0
      modifies this`firmware, this`unusedPartitionIds
      ensures firmware == old(firmware).(fileInfos := old(firmware.fileInfos) + [FileInfo(old(unusedPartitionIds[0]), "")])
      ensures unusedPartitionIds == UnusedIds(pit, firmware.fileInfos)
      ensures !ReadyToFlash(firmware.fileInfos)
    {
      var partitionInfo := FileInfo(unusedPartitionIds[0], "");
      firmware := firmware.(fileInfos := firmware.fileInfos + [partitionInfo]);
      UpdateUnusedPartitionIds();
      assert firmware.fileInfos[|firmware.fileInfos| - 1].filename == "";
    }

    /** RemovePartition: drop the binding on the selected row. */
    method RemovePartition(row: nat)
      requires row < |firmware.fileInfos|
      modifies this`firmware, this`unusedPartitionIds
      ensures firmware == old(firmware).(fileInfos := old(firmware.fileInfos[..row] + firmware.fileInfos[row + 1..]))
      ensures unusedPartitionIds == UnusedIds(pit, firmware.fileInfos)
    {
      firmware := firmware.(fileInfos := firmware.fileInfos[..row] + firmware.fileInfos[row + 1..]);
      UpdateUnusedPartitionIds();
    }

    /**
     * SelectPartitionName: the combo box lists the unused partitions and then the
     * current one; picking unused entry `index` moves it to the binding on `row` and
     * returns the binding's previous id to the end of the unused list. The guard on
     * `populatingPartitionNames`, which only mutes the slot while the combo box is
     * refilled, belongs to widget syncing and is not modelled.
     */
    method SelectPartitionName(index: int, row: int)
      requires -1 <= index <= |unusedPartitionIds|
      requires index != -1 && index != |unusedPartitionIds| ==> 0 <= row < |firmware.fileInfos|
      modifies this`firmware, this`unusedPartitionIds
      ensures index == -1 || index == old(|unusedPartitionIds|) ==>
        firmware == old(firmware) && unusedPartitionIds == old(unusedPartitionIds)
      ensures index != -1 && index != old(|unusedPartitionIds|) ==>
        && unusedPartitionIds == old(unusedPartitionIds[..index] + unusedPartitionIds[index + 1..])
                                 + [old(firmware.fileInfos[row].partitionId)]
        && firmware == old(firmware).(fileInfos := old(firmware.fileInfos)[row :=
             old(firmware.fileInfos[row]).(partitionId := old(unusedPartitionIds[index]))])
      ensures multiset(unusedPartitionIds) + multiset(BoundIds(firmware.fileInfos))
           == old(multiset(unusedPartitionIds) + multiset(BoundIds(firmware.fileInfos)))
    {
      if index != -1 && index != |unusedPartitionIds| {
        SwapKeepsPool(unusedPartitionIds, firmware.fileInfos, index, row);
        var newPartitionId := unusedPartitionIds[index];
        unusedPartitionIds := unusedPartitionIds[..index] + unusedPartitionIds[index + 1..];
        var fileInfo := firmware.fileInfos[row];
        unusedPartitionIds := unusedPartitionIds + [fileInfo.partitionId];
        firmware := firmware.(fileInfos := firmware.fileInfos[row := fileInfo.(partitionId := newPartitionId)]);
      }
    }

    /** The first loop of SelectPit: the partition name of every binding in the current table. */
    method BindingNames() returns (names: seq<string>)
      requires BindingsResolve(pit, firmware.fileInfos)
      ensures names == NamesOf(pit, firmware.fileInfos)
    {
      var fileInfos := firmware.fileInfos;
      names := [];
      var i := 0;
      while i < |fileInfos|
        invariant 0 <= i <= |fileInfos|
        invariant names == NamesOf(pit, fileInfos)[..i]
      {
        names := names + [FindById(pit, fileInfos[i].partitionId).value.partitionName];
        i := i + 1;
      }
    }

    /**
     * SelectPit with the remapped bindings stored back into the working firmware.
     * `path` is the file the dialog returned ("" when cancelled); `chosen` is what
     * ReadPit makes of it and `previous` what ReadPit makes of the previous PIT file.
     */
    method SelectPit(path: string, chosen: PitRead, previous: PitRead) returns (validPit: bool)
      requires path != "" ==> BindingsResolve(pit, firmware.fileInfos)
      modifies this
      ensures path == "" ==> !validPit && pit == old(pit) && firmware == old(firmware)
                              && unusedPartitionIds == old(unusedPartitionIds)
      ensures path != "" && chosen.Unpacked? ==>
        && validPit && pit == chosen.table
        && firmware == old(firmware).(pitFilename := path,
             fileInfos := Remap(chosen.table, NamesOf(old(pit), old(firmware.fileInfos)), old(firmware.fileInfos)))
      ensures path != "" && !chosen.Unpacked? ==> ReloadOutcome(validPit, old(firmware), previous)
      ensures path != "" ==> unusedPartitionIds == UnusedIds(pit, firmware.fileInfos)
    {
      validPit := false;
      if path != "" {
        var names := BindingNames();
        pit := [];
        validPit := ReadPit(chosen);
        if validPit {
          firmware := firmware.(pitFilename := path);
          var remapped := RemapBindings(pit, names, firmware.fileInfos);
          firmware := firmware.(fileInfos := remapped);
        } else {
          validPit := ReloadPreviousPit(previous);
        }
        UpdateUnusedPartitionIds();
      }
    }

    /**
     * SelectPit exactly as written: the remap runs on a copy of the bindings that is
     * then discarded, so the working bindings keep their old identifiers.
     */
    method SelectPitAsWritten(path: string, chosen: PitRead, previous: PitRead) returns (validPit: bool)
      requires path != "" ==> BindingsResolve(pit, firmware.fileInfos)
      modifies this
      ensures path == "" ==> !validPit && pit == old(pit) && firmware == old(firmware)
                              && unusedPartitionIds == old(unusedPartitionIds)
      ensures path != "" && chosen.Unpacked? ==>
        validPit && pit == chosen.table && firmware == old(firmware).(pitFilename := path)
      ensures path != "" && !chosen.Unpacked? ==> ReloadOutcome(validPit, old(firmware), previous)
      ensures path != "" ==> unusedPartitionIds == UnusedIds(pit, firmware.fileInfos)
    {
      validPit := false;
      if path != "" {
        var names := BindingNames();
        var fileInfos := firmware.fileInfos;
        pit := [];
        validPit := ReadPit(chosen);
        if validPit {
          firmware := firmware.(pitFilename := path);
          fileInfos := RemapBindings(pit, names, fileInfos);
        } else {
          validPit := ReloadPreviousPit(previous);
        }
        UpdateUnusedPartitionIds();
      }
    }

    /** What SelectPit leaves after the chosen file failed to read. */
    ghost predicate ReloadOutcome(validPit: bool, before: FirmwareInfo, previous: PitRead)
      reads this
    {
      if before.pitFilename == "" then !validPit && pit == [] && firmware == before
      else if previous.Unpacked? then validPit && pit == previous.table && firmware == before
      else !validPit && pit == [] && firmware == ClearedFirmware
    }

    /** The recovery branch of SelectPit: re-read the previous PIT file, or clear the working package. */
    method ReloadPreviousPit(previous: PitRead) returns (validPit: bool)
      requires pit == []
      modifies this`pit, this`firmware
      ensures ReloadOutcome(validPit, old(firmware), previous)
    {
      validPit := false;
      if firmware.pitFilename != "" {
        validPit := ReadPit(previous);
        if !validPit {
          firmware := ClearedFirmware;
        }
      }
    }
  }

  /** Every binding the remap keeps refers to an entry of the new table. */
  lemma {:induction false} RemapResolves(pit: PitTable, names: seq<string>, files: seq<FileInfo>)
    requires |names| == |files|
    ensures BindingsResolve(pit, Remap(pit, names, files))
  {
    if files != [] {
      var n := |files| - 1;
      RemapResolves(pit, names[..n], files[..n]);
      match FindByName(pit, names[n])
      case Some(e) =>
        var k :| 0 <= k < |pit| && pit[k] == e;
        assert FindById(pit, e.identifier).Some?;
      case None =>
    }
  }
}
