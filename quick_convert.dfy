/**
 * The quick conversion of extracted Samsung firmware images into a Heimdall
 * package: each chosen file is matched to a partition of the chosen PIT by its
 * lower-cased base name, first through a table of candidate partition names and
 * then through the entries' flash filenames; archives are skipped.
 */
module QuickConvert {

  import opened Text
  import opened Pit
  import opened Firmware
  import opened PackagePaths
  import opened Bindings

  // ---------------------------------------------------------------- file names

  /** QFileInfo::fileName with '/' as the separator: the text after the last '/'. */
  function FileName(path: string): (r: string)
    ensures EndsWith(path, r)
    ensures forall i :: 0 <= i < |r| ==> r[i] != '/'
    ensures |r| < |path| ==> path[|path| - |r| - 1] == '/'
  {
    path[LastIndexOf(path, '/') + 1..]
  }

  /** basenameLower: the file name of a path in lower case. */
  function BasenameLower(path: string): string
  {
    Lower(FileName(path))
  }

  /** The base name is no longer than the path and holds neither '/' nor an upper-case letter. */
  lemma BasenameLowerShape(path: string)
    ensures |BasenameLower(path)| <= |path|
    ensures forall i :: 0 <= i < |BasenameLower(path)| ==> BasenameLower(path)[i] != '/' && !('A' <= BasenameLower(path)[i] <= 'Z')
  {
    var name := FileName(path);
    assert forall i :: 0 <= i < |name| ==> BasenameLower(path)[i] == LowerChar(name[i]);
  }

  /** A file inside any directory has its own name, in lower case, as its base name. */
  lemma BasenameLowerInDirectory(dir: string, name: string)
    requires forall i :: 0 <= i < |name| ==> name[i] != '/'
    ensures BasenameLower(dir + "/" + name) == Lower(name)
  {
    var p := dir + "/" + name;
    var k := LastIndexOf(p, '/');
    assert p[|dir|] == '/';
    assert k == |dir| by {
      assert forall j :: |dir| < j < |p| ==> p[j] == name[j - |dir| - 1];
    }
    assert p[k + 1..] == name;
  }

  /** One round of stripExtensions: cut at the last '.', unless there is none or it is the first character. */
  function StripOnce(s: string): (r: string)
    ensures StartsWith(s, r)
    ensures r == s <==> LastIndexOf(s, '.') <= 0
    ensures r != s ==> 0 < |r| < |s| && s[|r|] == '.' && forall j :: |r| < j < |s| ==> s[j] != '.'
  {
    var idx := LastIndexOf(s, '.');
    if idx > 0 then s[..idx] else s
  }

  /** n rounds of StripOnce. */
  function StripTimes(s: string, n: nat): string
  {
    if n == 0 then s else StripOnce(StripTimes(s, n - 1))
  }

  /** stripExtensions: at most two trailing extensions removed (".img.lz4", ".tar.md5"). */
  function StripExtensions(name: string): string
  {
    StripTimes(name, 2)
  }

  lemma StartsWithTransitive(a: string, b: string, c: string)
    requires StartsWith(a, b) && StartsWith(b, c)
    ensures StartsWith(a, c)
  {
    assert a[..|c|] == a[..|b|][..|c|];
  }

  /** The stem is a prefix of the name and, when anything was stripped, is followed in the name by a '.'. */
  lemma StripExtensionsShape(name: string)
    ensures StartsWith(name, StripExtensions(name))
    ensures StripExtensions(name) != name ==> name[|StripExtensions(name)|] == '.'
  {
    var once := StripOnce(name);
    var twice := StripOnce(once);
    assert StripTimes(name, 1) == once;
    assert StripExtensions(name) == twice;
    StartsWithTransitive(name, once, twice);
    if twice != once {
      assert once[|twice|] == '.';
      assert name[|twice|] == once[|twice|];
    }
  }

  /** The loop of stripExtensions: two rounds of cutting at the last '.' beyond the first character. */
  method StripExtensionsLoop(name: string) returns (s: string)
    ensures s == StripExtensions(name)
  {
    s := name;
    var i := 0;
    while i < 2
      invariant 0 <= i <= 2
      invariant s == StripTimes(name, i)
    {
      var idx := LastIndexOf(s, '.');
      if idx > 0 {
        s := Left(s, idx);
      }
      i := i + 1;
    }
  }

  /** Image names with one and two extensions, and a name that starts with '.'. */
  lemma StripExtensionsExamples()
    ensures StripExtensions("boot.img") == "boot"
    ensures StripExtensions("cache.img.lz4") == "cache"
    ensures StripExtensions(".img") == ".img"
  {
    LastIndexOfAt("boot.img", '.', 4);
    assert "boot.img"[..4] == "boot";
    assert LastIndexOf("boot", '.') == -1;
    LastIndexOfAt("cache.img.lz4", '.', 9);
    assert "cache.img.lz4"[..9] == "cache.img";
    LastIndexOfAt("cache.img", '.', 5);
    assert "cache.img"[..5] == "cache";
    LastIndexOfAt(".img", '.', 0);
  }

  // ---------------------------------------------------------------- candidate names

  /** The number of rules in the candidate table of ConvertSamsungQuick. */
  const RuleCount: nat := 15

  /** Whether rule k of the candidate table applies to a lower-cased base name. */
  predicate RuleHit(lower: string, k: nat)
  {
    if k == 0 then Contains(lower, "home_csc")
    else if k == 1 then Contains(lower, "csc")
    else if k == 2 then Contains(lower, "modem") || StartsWith(lower, "cp_")
    else if k == 3 then Contains(lower, "bootloader") || Contains(lower, "sboot")
    else if k == 4 then Contains(lower, "boot") && !Contains(lower, "bootloader")
    else if k == 5 then Contains(lower, "recovery")
    else if k == 6 then Contains(lower, "system")
    else if k == 7 then Contains(lower, "vendor")
    else if k == 8 then Contains(lower, "product")
    else if k == 9 then Contains(lower, "userdata")
    else if k == 10 then Contains(lower, "cache")
    else if k == 11 then Contains(lower, "dtbo")
    else if k == 12 then Contains(lower, "vbmeta")
    else if k == 13 then Contains(lower, "param")
    else lower == "cm.bin" || Contains(lower, "cm")
  }

  /** The partition names rule k of the candidate table proposes. */
  function RuleNames(k: nat): seq<string>
  {
    if k <= 1 then ["CSC", "ODM", "OMC"]
    else if k == 2 then ["MODEM", "CP"]
    else if k == 3 then ["SBOOT", "BOOTLOADER"]
    else if k == 4 then ["BOOT"]
    else if k == 5 then ["RECOVERY"]
    else if k == 6 then ["SYSTEM"]
    else if k == 7 then ["VENDOR"]
    else if k == 8 then ["PRODUCT"]
    else if k == 9 then ["USERDATA"]
    else if k == 10 then ["CACHE"]
    else if k == 11 then ["DTBO"]
    else if k == 12 then ["VBMETA_SYSTEM", "VBMETA_VENDOR", "VBMETA"]
    else if k == 13 then ["PARAM"]
    else ["CM"]
  }

  /** Which rules of the candidate table apply to a lower-cased base name, rule by rule. */
  function RuleHits(lower: string): (hits: seq<bool>)
    ensures |hits| == RuleCount
  {
    seq(RuleCount, k requires 0 <= k < RuleCount => RuleHit(lower, k))
  }

  /**
   * The names proposed by the applicable rules among the last |rest| rules of the
   * table (rest[0] tells whether rule RuleCount - |rest| applies), then the stem.
   */
  function CandidatesFrom(rest: seq<bool>, stem: string): (r: seq<string>)
    requires |rest| <= RuleCount
    ensures |r| >= 1 && r[|r| - 1] == stem
  {
    if rest == [] then [stem]
    else (if rest[0] then RuleNames(RuleCount - |rest|) else []) + CandidatesFrom(rest[1..], stem)
  }

  /**
   * The candidate partition names for a lower-cased base name: the names of every
   * rule that applies, in rule order (each rule is tried on its own, so a name can
   * be listed twice), and the upper-cased stem last.
   */
  function Candidates(lower: string): seq<string>
  {
    CandidatesFrom(RuleHits(lower), Upper(StripExtensions(lower)))
  }

  /** Some applicable rule from k onwards proposes the name n. */
  predicate Proposed(hits: seq<bool>, k: nat, n: string)
    requires |hits| == RuleCount
  {
    exists q :: k <= q < RuleCount && hits[q] && n in RuleNames(q)
  }

  /** The candidates from rule k onwards: those of rule k, then those from rule k + 1. */
  lemma CandidatesFromStep(hits: seq<bool>, stem: string, k: nat)
    requires |hits| == RuleCount && k < RuleCount
    ensures CandidatesFrom(hits[k..], stem) == (if hits[k] then RuleNames(k) else []) + CandidatesFrom(hits[k + 1..], stem)
  {
    assert hits[k..][1..] == hits[k + 1..];
  }

  /** Every candidate but the last is proposed by some applicable rule, from k onwards. */
  lemma {:induction false} CandidatesFromRules(hits: seq<bool>, stem: string, k: nat)
    requires |hits| == RuleCount && k <= RuleCount
    ensures forall i :: 0 <= i < |CandidatesFrom(hits[k..], stem)| - 1 ==> Proposed(hits, k, CandidatesFrom(hits[k..], stem)[i])
    decreases RuleCount - k
  {
    if k < RuleCount {
      CandidatesFromRules(hits, stem, k + 1);
      CandidatesFromStep(hits, stem, k);
      var own := if hits[k] then RuleNames(k) else [];
      var rest := CandidatesFrom(hits[k + 1..], stem);
      var all := CandidatesFrom(hits[k..], stem);
      forall i | 0 <= i < |all| - 1
        ensures Proposed(hits, k, all[i])
      {
        if i < |own| {
          assert hits[k] && all[i] in RuleNames(k);
        } else {
          assert all[i] == rest[i - |own|];
          assert Proposed(hits, k + 1, rest[i - |own|]);
          var q :| k + 1 <= q < RuleCount && hits[q] && all[i] in RuleNames(q);
          assert k <= q;
        }
      }
    }
  }

  /** The names of an applicable rule q are all among the candidates from any earlier rule k. */
  lemma {:induction false} ApplicableRuleListed(hits: seq<bool>, stem: string, k: nat, q: nat)
    requires |hits| == RuleCount && k <= q < RuleCount && hits[q]
    ensures forall n :: n in RuleNames(q) ==> n in CandidatesFrom(hits[k..], stem)
    decreases q - k
  {
    CandidatesFromStep(hits, stem, k);
    if k < q {
      ApplicableRuleListed(hits, stem, k + 1, q);
    }
  }

  /** Only rule 4 of the candidate table proposes "BOOT". */
  lemma BootOnlyFromBootRule(q: nat, n: string)
    requires q < RuleCount && q != 4 && n in RuleNames(q)
    ensures n != "BOOT"
  {
  }

  /** When the boot rule does not apply, no candidate before the stem is "BOOT". */
  lemma NoBootBeforeStem(hits: seq<bool>, stem: string)
    requires |hits| == RuleCount && !hits[4]
    ensures forall i :: 0 <= i < |CandidatesFrom(hits, stem)| - 1 ==> CandidatesFrom(hits, stem)[i] != "BOOT"
  {
    var c := CandidatesFrom(hits, stem);
    CandidatesFromRules(hits, stem, 0);
    assert hits[0..] == hits;
    forall i | 0 <= i < |c| - 1 ensures c[i] != "BOOT" {
      assert Proposed(hits, 0, c[i]);
      var q :| 0 <= q < RuleCount && hits[q] && c[i] in RuleNames(q);
      BootOnlyFromBootRule(q, c[i]);
    }
  }

  /**
   * A base name that mentions "bootloader" gets the bootloader names and never "BOOT"
   * from the table: "BOOT" can then only be the last candidate, its upper-cased stem.
   */
  lemma BootloaderIsNotBoot(lower: string)
    requires Contains(lower, "bootloader")
    ensures forall n :: n in RuleNames(3) ==> n in Candidates(lower)
    ensures forall i :: 0 <= i < |Candidates(lower)| - 1 ==> Candidates(lower)[i] != "BOOT"
  {
    var hits := RuleHits(lower);
    var stem := Upper(StripExtensions(lower));
    assert hits[3] && !hits[4];
    ApplicableRuleListed(hits, stem, 0, 3);
    assert hits[0..] == hits;
    NoBootBeforeStem(hits, stem);
  }

  /** The candidates from rule k onwards when rule q is the only one that applies. */
  lemma {:induction false} CandidatesOfOneRule(hits: seq<bool>, stem: string, q: nat, k: nat)
    requires |hits| == RuleCount && k <= RuleCount && q < RuleCount && hits[q]
    requires forall j :: 0 <= j < RuleCount && j != q ==> !hits[j]
    ensures CandidatesFrom(hits[k..], stem) == (if k <= q then RuleNames(q) else []) + [stem]
    decreases RuleCount - k
  {
    if k < RuleCount {
      CandidatesOfOneRule(hits, stem, q, k + 1);
      CandidatesFromStep(hits, stem, k);
    }
  }

  /** A base name that exactly one rule applies to gets that rule's names, then its upper-cased stem. */
  lemma CandidatesOfName(lower: string, q: nat)
    requires q < RuleCount && RuleHit(lower, q)
    requires forall j :: 0 <= j < RuleCount && j != q ==> !RuleHit(lower, j)
    ensures Candidates(lower) == RuleNames(q) + [Upper(StripExtensions(lower))]
  {
    var hits := RuleHits(lower);
    CandidatesOfOneRule(hits, Upper(StripExtensions(lower)), q, 0);
    assert hits[0..] == hits;
  }

  // ---------------------------------------------------------------- matching

  /** The C++ conversion (int) of an unsigned 32-bit identifier: two's complement. */
  function AsInt(id: uint32): (r: int)
    ensures -0x8000_0000 <= r < 0x8000_0000
    ensures r >= 0 <==> id < 0x8000_0000
    ensures r >= 0 ==> r == id
    ensures r < 0 ==> r == id - 0x1_0000_0000
  {
    if id < 0x8000_0000 then id else id - 0x1_0000_0000
  }

  /** findPartitionIdByName: the (int) identifier of the first entry with that name, or -1. */
  function IdByName(pit: PitTable, cand: string): (r: int)
    ensures -0x8000_0000 <= r < 0x8000_0000
    ensures r >= 0 ==> exists j :: 0 <= j < |pit| && pit[j].partitionName == cand && pit[j].identifier == r
    ensures cand == "" || FindByName(pit, cand).None? ==> r == -1
  {
    if cand == "" then -1
    else match FindByName(pit, cand)
      case Some(e) => AsInt(e.identifier)
      case None => -1
  }

  /** The test of findPartitionIdByFlashFilename: a flashable entry whose flash filename, lowered, is or contains the stem. */
  predicate FlashMatches(e: PitEntry, stem: string)
  {
    var flash := Lower(e.flashFilename);
    e.flashable && flash != "" && (flash == stem || Contains(flash, stem))
  }

  /** The position of the first candidate name that yields a non-negative identifier, or -1. */
  function FirstNamed(pit: PitTable, cands: seq<string>): (k: int)
    ensures -1 <= k < |cands|
    ensures k >= 0 ==> IdByName(pit, cands[k]) >= 0 && forall j :: 0 <= j < k ==> IdByName(pit, cands[j]) < 0
    ensures k == -1 ==> forall j :: 0 <= j < |cands| ==> IdByName(pit, cands[j]) < 0
  {
    if cands == [] then -1
    else if IdByName(pit, cands[0]) >= 0 then 0
    else var k := FirstNamed(pit, cands[1..]); if k < 0 then -1 else k + 1
  }

  /** The position of the first entry whose flash filename matches the stem, or -1. */
  function FirstFlashMatch(pit: PitTable, stem: string): (k: int)
    ensures -1 <= k < |pit|
    ensures k >= 0 ==> FlashMatches(pit[k], stem) && forall j :: 0 <= j < k ==> !FlashMatches(pit[j], stem)
    ensures k == -1 ==> forall j :: 0 <= j < |pit| ==> !FlashMatches(pit[j], stem)
  {
    if pit == [] then -1
    else if FlashMatches(pit[0], stem) then 0
    else var k := FirstFlashMatch(pit[1..], stem); if k < 0 then -1 else k + 1
  }

  /** What findPartitionIdByFlashFilename returns. */
  function FlashId(pit: PitTable, stem: string): int
  {
    var k := FirstFlashMatch(pit, stem);
    if k < 0 then -1 else AsInt(pit[k].identifier)
  }

  /** What tryCandidates returns: the first candidate's identifier, else the flash-filename scan. */
  function MatchPartition(pit: PitTable, cands: seq<string>, stem: string): (r: int)
    ensures -0x8000_0000 <= r < 0x8000_0000
    ensures r >= 0 ==> exists j :: 0 <= j < |pit| && pit[j].identifier == r
  {
    var k := FirstNamed(pit, cands);
    if k >= 0 then IdByName(pit, cands[k]) else FlashId(pit, stem)
  }

  /**
   * The first candidate whose name is in the table (with an identifier below 2^31)
   * decides the match; the flash filenames are consulted only when no candidate does.
   */
  lemma MatchPartitionOrder(pit: PitTable, cands: seq<string>, stem: string)
    ensures forall k :: 0 <= k < |cands| && IdByName(pit, cands[k]) >= 0
              && (forall j :: 0 <= j < k ==> IdByName(pit, cands[j]) < 0)
              ==> MatchPartition(pit, cands, stem) == IdByName(pit, cands[k])
    ensures (forall j :: 0 <= j < |cands| ==> IdByName(pit, cands[j]) < 0)
              ==> MatchPartition(pit, cands, stem) == FlashId(pit, stem)
  {
    var f := FirstNamed(pit, cands);
    forall k | 0 <= k < |cands| && IdByName(pit, cands[k]) >= 0
                && (forall j :: 0 <= j < k ==> IdByName(pit, cands[j]) < 0)
      ensures MatchPartition(pit, cands, stem) == IdByName(pit, cands[k])
    {
      assert f >= 0;
      assert !(f < k) && !(k < f);
    }
  }

  /** findPartitionIdByFlashFilename: scan the entries in order, returning at the first match. */
  method FindIdByFlashFilename(pit: PitTable, stem: string) returns (id: int)
    ensures id == FlashId(pit, stem)
  {
    var i := 0;
    while i < |pit|
      invariant 0 <= i <= |pit|
      invariant forall j :: 0 <= j < i ==> !FlashMatches(pit[j], stem)
    {
      var pe := pit[i];
      var flash := Lower(pe.flashFilename);
      if pe.flashable && flash != "" && (flash == stem || Contains(flash, stem)) {
        assert FirstFlashMatch(pit, stem) == i;
        return AsInt(pe.identifier);
      }
      i := i + 1;
    }
    return -1;
  }

  /** tryCandidates: try the names in order, then fall back to the flash-filename scan. */
  method TryCandidates(pit: PitTable, cands: seq<string>, stem: string) returns (id: int)
    ensures id == MatchPartition(pit, cands, stem)
  {
    var i := 0;
    while i < |cands|
      invariant 0 <= i <= |cands|
      invariant forall j :: 0 <= j < i ==> IdByName(pit, cands[j]) < 0
    {
      var c := IdByName(pit, cands[i]);
      if c >= 0 {
        assert FirstNamed(pit, cands) == i;
        return c;
      }
      i := i + 1;
    }
    id := FindIdByFlashFilename(pit, stem);
  }

  // ---------------------------------------------------------------- the file loop

  /** What happens to one chosen file. */
  datatype FileOutcome = SkippedArchive(name: string) | Bound(info: FileInfo) | Unmatched

  /** The identifier tryCandidates finds for a lower-cased base name, or a negative value. */
  function PartitionFor(pit: PitTable, lower: string): (r: int)
    ensures -0x8000_0000 <= r < 0x8000_0000
    ensures r >= 0 ==> exists j :: 0 <= j < |pit| && pit[j].identifier == r
  {
    MatchPartition(pit, Candidates(lower), StripExtensions(lower))
  }

  /** The identifier belongs to an entry of the table. */
  predicate InTable(pit: PitTable, id: uint32)
  {
    exists j :: 0 <= j < |pit| && pit[j].identifier == id
  }

  /** Whether a lower-cased base name is an archive the conversion refuses. */
  predicate SkipsArchive(lower: string)
  {
    EndsWith(lower, ".tar") || EndsWith(lower, ".md5")
  }

  /** The decision of the file loop once the base name and the matched identifier are known. */
  function Classify(path: string, lower: string, partId: int): (r: FileOutcome)
    requires partId < 0x1_0000_0000
    ensures r.SkippedArchive? <==> SkipsArchive(lower)
    ensures r.SkippedArchive? ==> r.name == lower
    ensures r.Bound? <==> !SkipsArchive(lower) && partId >= 0
    ensures r.Bound? ==> r.info == FileInfo(partId as uint32, path)
  {
    if SkipsArchive(lower) then SkippedArchive(lower)
    else if partId >= 0 then Bound(FileInfo(partId as uint32, path))
    else Unmatched
  }

  /** The body of the file loop of ConvertSamsungQuick for one path. */
  function MapFile(pit: PitTable, path: string): FileOutcome
  {
    var lower := BasenameLower(path);
    Classify(path, lower, PartitionFor(pit, lower))
  }

  /**
   * An archive is skipped under its lower-cased base name; any other file is bound,
   * as itself, to an identifier of the table, or left out.
   */
  lemma MapFileOutcome(pit: PitTable, path: string)
    ensures MapFile(pit, path).SkippedArchive? <==> SkipsArchive(BasenameLower(path))
    ensures MapFile(pit, path).SkippedArchive? ==> MapFile(pit, path).name == BasenameLower(path)
    ensures MapFile(pit, path).Bound? ==>
              && MapFile(pit, path).info.filename == path
              && InTable(pit, MapFile(pit, path).info.partitionId)
  {
    var lower := BasenameLower(path);
    var id := PartitionFor(pit, lower);
    assert MapFile(pit, path) == Classify(path, lower, id);
  }

  /** The outcomes a per-file decision gives the chosen files, in order. */
  function Decisions(decide: string -> FileOutcome, paths: seq<string>): (r: seq<FileOutcome>)
    ensures |r| == |paths|
  {
    if paths == [] then [] else Decisions(decide, paths[..|paths| - 1]) + [decide(paths[|paths| - 1])]
  }

  /** The outcome at position i is the decision for the i-th file. */
  lemma {:induction false} DecisionsAt(decide: string -> FileOutcome, paths: seq<string>, i: nat)
    requires i < |paths|
    ensures Decisions(decide, paths)[i] == decide(paths[i])
  {
    var n := |paths| - 1;
    if i < n {
      DecisionsAt(decide, paths[..n], i);
      assert paths[..n][i] == paths[i];
    }
  }

  /** The outcomes of one more file extend those of the files before it. */
  lemma DecisionsStep(decide: string -> FileOutcome, paths: seq<string>, i: nat)
    requires i < |paths|
    ensures Decisions(decide, paths[..i + 1]) == Decisions(decide, paths[..i]) + [decide(paths[i])]
  {
    assert paths[..i + 1][..i] == paths[..i];
  }

  /** The decision of the file loop, as a function of the path. */
  function Decide(pit: PitTable): string -> FileOutcome
  {
    path => MapFile(pit, path)
  }

  /** What happens to each chosen file, in order. */
  function Outcomes(pit: PitTable, paths: seq<string>): (r: seq<FileOutcome>)
  {
    Decisions(Decide(pit), paths)
  }

  /** The outcome at position i is that of the i-th chosen file. */
  lemma OutcomesAt(pit: PitTable, paths: seq<string>, i: nat)
    requires i < |paths|
    ensures Outcomes(pit, paths)[i] == MapFile(pit, paths[i])
  {
    DecisionsAt(Decide(pit), paths, i);
  }

  /** The bindings among some outcomes, in order. */
  function BoundInfos(outs: seq<FileOutcome>): (r: seq<FileInfo>)
    ensures |r| <= |outs|
  {
    if outs == [] then []
    else
      var o := outs[|outs| - 1];
      BoundInfos(outs[..|outs| - 1]) + (if o.Bound? then [o.info] else [])
  }

  /** The skipped archive names among some outcomes, in order. */
  function SkippedNames(outs: seq<FileOutcome>): (r: seq<string>)
    ensures |r| <= |outs|
  {
    if outs == [] then []
    else
      var o := outs[|outs| - 1];
      SkippedNames(outs[..|outs| - 1]) + (if o.SkippedArchive? then [o.name] else [])
  }

  /** The bindings are exactly the bound outcomes. */
  lemma {:induction false} BoundInfosMembers(outs: seq<FileOutcome>)
    ensures forall f :: f in BoundInfos(outs) <==> Bound(f) in outs
  {
    if outs != [] {
      var n := |outs| - 1;
      BoundInfosMembers(outs[..n]);
      assert outs == outs[..n] + [outs[n]];
    }
  }

  /** The skipped names are exactly those of the skipped outcomes. */
  lemma {:induction false} SkippedNamesMembers(outs: seq<FileOutcome>)
    ensures forall s :: s in SkippedNames(outs) <==> SkippedArchive(s) in outs
  {
    if outs != [] {
      var n := |outs| - 1;
      SkippedNamesMembers(outs[..n]);
      assert outs == outs[..n] + [outs[n]];
    }
  }

  /** One more outcome adds at most its own binding or skipped name. */
  lemma OutcomeAppend(outs: seq<FileOutcome>, o: FileOutcome)
    ensures BoundInfos(outs + [o]) == BoundInfos(outs) + (if o.Bound? then [o.info] else [])
    ensures SkippedNames(outs + [o]) == SkippedNames(outs) + (if o.SkippedArchive? then [o.name] else [])
  {
    assert (outs + [o])[..|outs|] == outs;
  }

  /** One more file decided: its outcome extends the bindings or the skipped names. */
  lemma CollectStep(decide: string -> FileOutcome, paths: seq<string>, i: nat, o: FileOutcome)
    requires i < |paths| && o == decide(paths[i])
    ensures BoundInfos(Decisions(decide, paths[..i + 1])) == BoundInfos(Decisions(decide, paths[..i])) + (if o.Bound? then [o.info] else [])
    ensures SkippedNames(Decisions(decide, paths[..i + 1])) == SkippedNames(Decisions(decide, paths[..i])) + (if o.SkippedArchive? then [o.name] else [])
  {
    DecisionsStep(decide, paths, i);
    OutcomeAppend(Decisions(decide, paths[..i]), o);
  }

  /** The bindings the file loop collects, in the order of the chosen files. */
  function MappedFiles(pit: PitTable, paths: seq<string>): seq<FileInfo>
  {
    BoundInfos(Outcomes(pit, paths))
  }

  /** The names of the archives the file loop skips, in order. */
  function SkippedArchives(pit: PitTable, paths: seq<string>): seq<string>
  {
    SkippedNames(Outcomes(pit, paths))
  }

  /** Bindings that each name their own path and an identifier of the table stay so once collected. */
  lemma BoundInfosFromTable(pit: PitTable, paths: seq<string>, outs: seq<FileOutcome>)
    requires |outs| == |paths|
    requires forall i :: 0 <= i < |outs| && outs[i].Bound? ==>
               outs[i].info.filename == paths[i] && InTable(pit, outs[i].info.partitionId)
    ensures forall f :: f in BoundInfos(outs) ==> f.filename in paths && InTable(pit, f.partitionId)
  {
    BoundInfosMembers(outs);
    forall f | f in BoundInfos(outs) ensures f.filename in paths && InTable(pit, f.partitionId) {
      var i :| 0 <= i < |outs| && outs[i] == Bound(f);
      assert f.filename == paths[i];
    }
  }

  /** No binding is collected exactly when no outcome is a binding. */
  lemma BoundInfosEmpty(outs: seq<FileOutcome>)
    ensures BoundInfos(outs) == [] <==> forall o :: o in outs ==> !o.Bound?
  {
    BoundInfosMembers(outs);
    if BoundInfos(outs) != [] {
      assert Bound(BoundInfos(outs)[0]) in outs;
    }
    forall o | o in outs && o.Bound? ensures BoundInfos(outs) != [] {
      assert o.info in BoundInfos(outs);
    }
  }

  /** Every collected binding names a chosen file and an identifier of the table. */
  lemma MappedFilesFromTable(pit: PitTable, paths: seq<string>)
    ensures forall f :: f in MappedFiles(pit, paths) ==> f.filename in paths && InTable(pit, f.partitionId)
  {
    var outs := Outcomes(pit, paths);
    forall i | 0 <= i < |outs| && outs[i].Bound?
      ensures outs[i].info.filename == paths[i] && InTable(pit, outs[i].info.partitionId)
    {
      OutcomesAt(pit, paths, i);
      MapFileOutcome(pit, paths[i]);
    }
    BoundInfosFromTable(pit, paths, outs);
  }

  /** Every skipped name is that of a ".tar" or ".md5" file. */
  lemma SkippedAreArchives(pit: PitTable, paths: seq<string>)
    ensures forall s :: s in SkippedArchives(pit, paths) ==> SkipsArchive(s)
  {
    var outs := Outcomes(pit, paths);
    SkippedNamesMembers(outs);
    forall s | s in SkippedNames(outs) ensures SkipsArchive(s) {
      var i :| 0 <= i < |outs| && outs[i] == SkippedArchive(s);
      OutcomesAt(pit, paths, i);
      MapFileOutcome(pit, paths[i]);
    }
  }

  /** Nothing is collected exactly when no chosen file was bound. */
  lemma MappedFilesEmpty(pit: PitTable, paths: seq<string>)
    ensures MappedFiles(pit, paths) == [] <==> forall o :: o in Outcomes(pit, paths) ==> !o.Bound?
  {
    BoundInfosEmpty(Outcomes(pit, paths));
  }

  /** The body of the file loop of ConvertSamsungQuick: skip an archive, else look its stem up. */
  method MapOne(pit: PitTable, path: string) returns (o: FileOutcome)
    ensures o == MapFile(pit, path)
  {
    var lower := BasenameLower(path);
    if EndsWith(lower, ".tar") || EndsWith(lower, ".md5") {
      return SkippedArchive(lower);
    }
    var baseNoExt := StripExtensionsLoop(lower);
    var partId := TryCandidates(pit, Candidates(lower), baseNoExt);
    assert partId == PartitionFor(pit, lower);
    if partId >= 0 {
      o := Bound(FileInfo(partId as uint32, path));
    } else {
      o := Unmatched;
    }
  }

  /** The file loop of ConvertSamsungQuick. */
  method MapChosenFiles(pit: PitTable, srcFiles: seq<string>) returns (mapped: seq<FileInfo>, skipped: seq<string>)
    ensures mapped == MappedFiles(pit, srcFiles)
    ensures skipped == SkippedArchives(pit, srcFiles)
  {
    mapped, skipped := [], [];
    var i := 0;
    while i < |srcFiles|
      invariant 0 <= i <= |srcFiles|
      invariant mapped == BoundInfos(Outcomes(pit, srcFiles[..i]))
      invariant skipped == SkippedNames(Outcomes(pit, srcFiles[..i]))
    {
      var o := MapOne(pit, srcFiles[i]);
      CollectStep(Decide(pit), srcFiles, i, o);
      if o.SkippedArchive? {
        skipped := skipped + [o.name];
      } else if o.Bound? {
        mapped := mapped + [o.info];
      }
      i := i + 1;
    }
    assert srcFiles[..i] == srcFiles;
  }

  // ---------------------------------------------------------------- the conversion

  /** How a conversion ends: the alert it shows and the package it builds. */
  datatype ConvertOutcome =
    | Cancelled
    | PitUnreadable
    | NothingMapped(message: string)
    | Built(path: string, package: FirmwareInfo, succeeded: bool)

  const PitUnreadableMessage := "Failed to read PIT file. Please select a valid PIT."
  const NothingMappedText := "No files could be mapped. Ensure you select extracted images (not .tar/.md5)."
  const BuildFailedMessage := "Failed to build Heimdall package."

  /** The error text when no file could be mapped, naming the skipped archives if there were any. */
  function NothingMappedMessage(skipped: seq<string>): (m: string)
    ensures StartsWith(m, NothingMappedText)
    ensures skipped == [] <==> m == NothingMappedText
  {
    if skipped == [] then NothingMappedText
    else
      var m := NothingMappedText + "\nSkipped archives: " + Join(skipped, ", ");
      assert m[..|NothingMappedText|] == NothingMappedText;
      m
  }

  /** The alert a finished conversion shows, or "" when it shows none. */
  function AlertText(o: ConvertOutcome): string
  {
    match o
    case Cancelled => ""
    case PitUnreadable => PitUnreadableMessage
    case NothingMapped(m) => m
    case Built(path, _, ok) => if ok then "Package created:\n" + path else BuildFailedMessage
  }

  /** The package description the conversion builds around the mapped bindings; the version is the clock reading. */
  function ConvertedFirmware(pitPath: string, version: string, mapped: seq<FileInfo>): (fw: FirmwareInfo)
    ensures fw.fileInfos == mapped && fw.pitFilename == pitPath && !fw.repartition && !fw.noReboot
  {
    ClearedFirmware.(name := "Samsung Conversion", version := version,
      platform := PlatformInfo("Android", ""), pitFilename := pitPath, fileInfos := mapped)
  }

  /**
   * The conversion once the PIT has been read: `srcFiles` is the file selection,
   * `outPath` the save dialog's answer ("" when cancelled) and `buildSucceeds` what
   * Packaging::BuildPackage reports.
   */
  function Conversion(pit: PitTable, pitPath: string, srcFiles: seq<string>, version: string,
                      outPath: string, buildSucceeds: bool): ConvertOutcome
  {
    if srcFiles == [] then Cancelled
    else
      var mapped := MappedFiles(pit, srcFiles);
      if mapped == [] then NothingMapped(NothingMappedMessage(SkippedArchives(pit, srcFiles)))
      else if outPath == "" then Cancelled
      else Built(NormalizePackagePath(outPath), ConvertedFirmware(pitPath, version, mapped), buildSucceeds)
  }

  /**
   * A built package ends in ".tar.gz", names the chosen PIT, never repartitions or
   * suppresses the reboot, and binds at least one chosen file, each to a partition
   * of the table.
   */
  lemma ConversionBuildsValidPackage(pit: PitTable, pitPath: string, srcFiles: seq<string>, version: string,
                                     outPath: string, buildSucceeds: bool)
    ensures var o := Conversion(pit, pitPath, srcFiles, version, outPath, buildSucceeds);
      o.Built? ==>
        && EndsWithIgnoringCase(o.path, ".tar.gz")
        && o.package.name == "Samsung Conversion" && o.package.platform.name == "Android"
        && o.package.pitFilename == pitPath && !o.package.repartition && !o.package.noReboot
        && |o.package.fileInfos| > 0
        && forall f :: f in o.package.fileInfos ==> f.filename in srcFiles && InTable(pit, f.partitionId)
  {
    NormalizedEndsWithTarGz(outPath);
    MappedFilesFromTable(pit, srcFiles);
  }

  /** Only a selection in which nothing matched reports the mapping error. */
  lemma NothingMappedMeansNoMatch(pit: PitTable, pitPath: string, srcFiles: seq<string>, version: string,
                                  outPath: string, buildSucceeds: bool)
    ensures var o := Conversion(pit, pitPath, srcFiles, version, outPath, buildSucceeds);
      o.NothingMapped? <==> srcFiles != [] && forall f :: f in Outcomes(pit, srcFiles) ==> !f.Bound?
  {
    MappedFilesEmpty(pit, srcFiles);
  }

  /**
   * ConvertSamsungQuick: read the chosen PIT into the workspace, map the chosen
   * files, and build the package at the normalised path.
   */
  method ConvertSamsungQuick(ws: Workspace, pitPath: string, pitRead: PitRead, srcFiles: seq<string>,
                             version: string, outPath: string, buildSucceeds: bool) returns (outcome: ConvertOutcome)
    modifies ws`pit
    ensures pitPath == "" ==> outcome == Cancelled && ws.pit == old(ws.pit)
    ensures pitPath != "" ==> ws.pit == PitAfterRead(old(ws.pit), pitRead)
    ensures pitPath != "" && !pitRead.Unpacked? ==> outcome == PitUnreadable
    ensures pitPath != "" && pitRead.Unpacked? ==>
      outcome == Conversion(pitRead.table, pitPath, srcFiles, version, outPath, buildSucceeds)
  {
    if pitPath == "" {
      return Cancelled;
    }
    var ok := ws.ReadPit(pitRead);
    if !ok {
      return PitUnreadable;
    }
    if srcFiles == [] {
      return Cancelled;
    }
    var mapped, skipped := MapChosenFiles(ws.pit, srcFiles);
    if mapped == [] {
      return NothingMapped(NothingMappedMessage(skipped));
    }
    var fi := ConvertedFirmware(pitPath, version, mapped);
    if outPath == "" {
      return Cancelled;
    }
    var target := NormalizePackagePath(outPath);
    return Built(target, fi, buildSucceeds);
  }
}
