/**
 * The argument lists the frontend hands to the heimdall command-line tool: the flash
 * command built from the working firmware and the loaded PIT, and the four utility
 * commands (detect, close-pc-screen, download-pit, print-pit).
 */
module FlashCommand {

  import opened Wrappers
  import opened Pit
  import opened Firmware
  import opened Text

  /** An optional flag: present exactly when the setting is on. */
  function Flag(on: bool, flag: string): (r: seq<string>)
    ensures on ==> r == [flag]
    ensures !on ==> r == []
  {
    if on then [flag] else []
  }

  /**
   * The flag that selects a binding's partition: "--" and the partition name when the
   * loaded PIT has a flashable entry with that identifier, "--" and the identifier
   * in decimal otherwise.
   */
  function PartitionFlag(pit: PitTable, f: FileInfo): (r: string)
    ensures |r| >= 2 && r[..2] == "--"
  {
    match FindById(pit, f.partitionId)
    case Some(e) => if e.flashable then "--" + e.partitionName else "--" + NatToString(f.partitionId)
    case None => "--" + NatToString(f.partitionId)
  }

  /** The flag/file pairs, one pair per binding, in binding order. */
  function BindingArguments(pit: PitTable, files: seq<FileInfo>): (r: seq<string>)
    ensures |r| == 2 * |files|
  {
    if files == [] then []
    else
      var n := |files| - 1;
      BindingArguments(pit, files[..n]) + [PartitionFlag(pit, files[n]), files[n].filename]
  }

  /** Indexing into a sequence extended by one pair. */
  lemma PairAppendAt<T>(prev: seq<T>, a: T, b: T, i: nat)
    requires |prev| % 2 == 0 && 2 * i + 1 < |prev| + 2
    ensures 2 * i + 1 < |prev| ==> (prev + [a, b])[2 * i] == prev[2 * i] && (prev + [a, b])[2 * i + 1] == prev[2 * i + 1]
    ensures 2 * i == |prev| ==> (prev + [a, b])[2 * i] == a && (prev + [a, b])[2 * i + 1] == b
  {
  }

  /** Binding i sits at positions 2i (its flag) and 2i + 1 (its file). */
  lemma {:induction false} BindingArgumentsAt(pit: PitTable, files: seq<FileInfo>, i: nat)
    requires i < |files|
    ensures BindingArguments(pit, files)[2 * i] == PartitionFlag(pit, files[i])
    ensures BindingArguments(pit, files)[2 * i + 1] == files[i].filename
  {
    var n := |files| - 1;
    var prev := BindingArguments(pit, files[..n]);
    var flag := PartitionFlag(pit, files[n]);
    assert BindingArguments(pit, files) == prev + [flag, files[n].filename];
    PairAppendAt(prev, flag, files[n].filename, i);
    if i < n {
      BindingArgumentsAt(pit, files[..n], i);
      assert files[..n][i] == files[i];
    }
  }

  lemma BindingArgumentsSnoc(pit: PitTable, files: seq<FileInfo>, i: nat)
    requires i < |files|
    ensures BindingArguments(pit, files[..i + 1]) == BindingArguments(pit, files[..i]) + [PartitionFlag(pit, files[i]), files[i].filename]
  {
    assert files[..i + 1][..i] == files[..i];
  }

  /** "flash", the repartition flag when it applies, and the PIT file. */
  function FlashHead(fw: FirmwareInfo): seq<string>
  {
    ["flash"] + Flag(fw.repartition && |fw.fileInfos| != 1, "--repartition") + ["--PIT", fw.pitFilename]
  }

  /** The options after the bindings; --stdout-errors always comes last. */
  function FlashTail(noReboot: bool, resume: bool, verbose: bool): seq<string>
  {
    Flag(noReboot, "--no-reboot") + Flag(resume, "--resume") + Flag(verbose, "--verbose") + ["--stdout-errors"]
  }

  /** The whole flash command line of StartFlash. */
  function FlashArguments(fw: FirmwareInfo, pit: PitTable, resume: bool, verbose: bool): seq<string>
  {
    FlashHead(fw) + BindingArguments(pit, fw.fileInfos) + FlashTail(fw.noReboot, resume, verbose)
  }

  /** The argument loop of StartFlash. */
  method BuildFlashArguments(fw: FirmwareInfo, pit: PitTable, resume: bool, verbose: bool) returns (arguments: seq<string>)
    ensures arguments == FlashArguments(fw, pit, resume, verbose)
  {
    var fileInfos := fw.fileInfos;
    var singlePartitionFlash := |fileInfos| == 1;
    arguments := ["flash"];
    if fw.repartition && !singlePartitionFlash {
      arguments := arguments + ["--repartition"];
    }
    arguments := arguments + ["--PIT"];
    arguments := arguments + [fw.pitFilename];
    var i := 0;
    while i < |fileInfos|
      invariant 0 <= i <= |fileInfos|
      invariant arguments == FlashHead(fw) + BindingArguments(pit, fileInfos[..i])
    {
      BindingArgumentsSnoc(pit, fileInfos, i);
      var pe := FindById(pit, fileInfos[i].partitionId);
      var flag: string;
      if pe.Some? && pe.value.flashable {
        flag := "--" + pe.value.partitionName;
      } else {
        flag := "--" + NatToString(fileInfos[i].partitionId);
      }
      assert flag == PartitionFlag(pit, fileInfos[i]);
      ghost var before := arguments;
      arguments := arguments + [flag];
      arguments := arguments + [fileInfos[i].filename];
      AppendPair(FlashHead(fw), BindingArguments(pit, fileInfos[..i]), flag, fileInfos[i].filename);
      i := i + 1;
    }
    assert fileInfos[..i] == fileInfos;
    ghost var front := arguments;
    if fw.noReboot {
      arguments := arguments + ["--no-reboot"];
    }
    assert arguments == front + Flag(fw.noReboot, "--no-reboot");
    if resume {
      arguments := arguments + ["--resume"];
    }
    assert arguments == front + Flag(fw.noReboot, "--no-reboot") + Flag(resume, "--resume");
    if verbose {
      arguments := arguments + ["--verbose"];
    }
    assert arguments == front + Flag(fw.noReboot, "--no-reboot") + Flag(resume, "--resume") + Flag(verbose, "--verbose");
    arguments := arguments + ["--stdout-errors"];
    AppendTail(front, Flag(fw.noReboot, "--no-reboot"), Flag(resume, "--resume"), Flag(verbose, "--verbose"), ["--stdout-errors"]);
  }

  lemma AppendTail(front: seq<string>, a: seq<string>, b: seq<string>, c: seq<string>, d: seq<string>)
    ensures front + a + b + c + d == front + (a + b + c + d)
  {
  }

  lemma AppendPair(head: seq<string>, mid: seq<string>, a: string, b: string)
    ensures head + mid + [a] + [b] == head + (mid + [a, b])
  {
  }

  /**
   * The head of the flash command: "flash", then --repartition exactly when the
   * package asks for it and more than one (or no) partition is bound, then "--PIT"
   * and the PIT file.
   */
  lemma FlashHeadShape(fw: FirmwareInfo)
    ensures var h := FlashHead(fw);
            var repartition := fw.repartition && |fw.fileInfos| != 1;
            && |h| == (if repartition then 4 else 3)
            && h[0] == "flash"
            && h[1] == (if repartition then "--repartition" else "--PIT")
            && h[|h| - 2] == "--PIT" && h[|h| - 1] == fw.pitFilename
  {
  }

  /**
   * Where everything sits in the flash command: the head first, binding i at
   * positions h + 2i and h + 2i + 1, then the options, --stdout-errors last.
   */
  lemma FlashArgumentsLayout(fw: FirmwareInfo, pit: PitTable, resume: bool, verbose: bool)
    ensures var r := FlashArguments(fw, pit, resume, verbose);
            var h := |FlashHead(fw)|;
            var n := |fw.fileInfos|;
            && |r| == h + 2 * n + |FlashTail(fw.noReboot, resume, verbose)|
            && r[..h] == FlashHead(fw)
            && (forall i :: 0 <= i < n ==> r[h + 2 * i] == PartitionFlag(pit, fw.fileInfos[i])
                                           && r[h + 2 * i + 1] == fw.fileInfos[i].filename)
            && r[h + 2 * n..] == FlashTail(fw.noReboot, resume, verbose)
            && r[|r| - 1] == "--stdout-errors"
  {
    forall i | 0 <= i < |fw.fileInfos|
      ensures var r := FlashArguments(fw, pit, resume, verbose);
              var h := |FlashHead(fw)|;
              r[h + 2 * i] == PartitionFlag(pit, fw.fileInfos[i]) && r[h + 2 * i + 1] == fw.fileInfos[i].filename
    {
      FlashArgumentsAt(fw, pit, resume, verbose, i);
    }
    FlashArgumentsEnds(fw, pit, resume, verbose);
  }

  lemma FlashArgumentsEnds(fw: FirmwareInfo, pit: PitTable, resume: bool, verbose: bool)
    ensures var r := FlashArguments(fw, pit, resume, verbose);
            var h := |FlashHead(fw)|;
            var n := |fw.fileInfos|;
            && |r| == h + 2 * n + |FlashTail(fw.noReboot, resume, verbose)|
            && r[..h] == FlashHead(fw)
            && r[h + 2 * n..] == FlashTail(fw.noReboot, resume, verbose)
            && r[|r| - 1] == "--stdout-errors"
  {
    var head := FlashHead(fw);
    var mid := BindingArguments(pit, fw.fileInfos);
    var tail := FlashTail(fw.noReboot, resume, verbose);
    var r := head + mid + tail;
    assert r[..|head|] == head;
    assert r[|head| + |mid|..] == tail;
  }

  lemma FlashArgumentsAt(fw: FirmwareInfo, pit: PitTable, resume: bool, verbose: bool, i: nat)
    requires i < |fw.fileInfos|
    ensures var r := FlashArguments(fw, pit, resume, verbose);
            var h := |FlashHead(fw)|;
            r[h + 2 * i] == PartitionFlag(pit, fw.fileInfos[i]) && r[h + 2 * i + 1] == fw.fileInfos[i].filename
  {
    var head := FlashHead(fw);
    var mid := BindingArguments(pit, fw.fileInfos);
    var r := head + mid + FlashTail(fw.noReboot, resume, verbose);
    BindingArgumentsAt(pit, fw.fileInfos, i);
    assert r[|head| + 2 * i] == mid[2 * i] && r[|head| + 2 * i + 1] == mid[2 * i + 1];
  }

  /** A single-partition flash never carries --repartition, whatever the package asks. */
  lemma SinglePartitionSkipsRepartition(fw: FirmwareInfo, pit: PitTable, resume: bool, verbose: bool)
    requires |fw.fileInfos| == 1
    ensures FlashArguments(fw, pit, resume, verbose)[..5]
         == ["flash", "--PIT", fw.pitFilename, PartitionFlag(pit, fw.fileInfos[0]), fw.fileInfos[0].filename]
  {
    FlashHeadShape(fw);
    FlashArgumentsLayout(fw, pit, resume, verbose);
  }

  /** In a table with unique identifiers, a flashable entry is addressed by its own name. */
  lemma NamedFlagForFlashableEntry(pit: PitTable, k: nat, filename: string)
    requires UniqueIdentifiers(pit) && k < |pit| && pit[k].flashable
    ensures PartitionFlag(pit, FileInfo(pit[k].identifier, filename)) == "--" + pit[k].partitionName
  {
    FindByIdOwn(pit, k);
  }

  /**
   * A binding the table cannot name (no entry, or an entry that is not flashable) is
   * addressed as "--" and its identifier in decimal, which reads back as that identifier.
   */
  lemma NumericFlagDenotesIdentifier(pit: PitTable, f: FileInfo)
    requires FindById(pit, f.partitionId).None? || !FindById(pit, f.partitionId).value.flashable
    ensures var r := PartitionFlag(pit, f);
            && AllDigits(r[2..]) && DigitsValue(r[2..]) == f.partitionId
            && (r[2] == '0' <==> f.partitionId == 0)
  {
    var d := NatToString(f.partitionId);
    assert PartitionFlag(pit, f) == "--" + d;
    assert ("--" + d)[2..] == d;
    DigitsValueOfNatToString(f.partitionId);
    NatToStringNoLeadingZero(f.partitionId);
  }

  // ---------------------------------------------------------------- utility commands

  /** DetectDevice. */
  function DetectArguments(verbose: bool): seq<string>
  {
    ["detect"] + Flag(verbose, "--verbose") + ["--stdout-errors"]
  }

  /** ClosePcScreen. */
  function ClosePcScreenArguments(resume: bool, verbose: bool): seq<string>
  {
    ["close-pc-screen"] + Flag(resume, "--resume") + Flag(verbose, "--verbose") + ["--stdout-errors"]
  }

  /** DownloadPit: the destination comes from the PIT destination field and the device stays in download mode. */
  function DownloadPitArguments(destination: string, resume: bool, verbose: bool): seq<string>
  {
    ["download-pit", "--output", destination, "--no-reboot"] + Flag(resume, "--resume") + Flag(verbose, "--verbose")
      + ["--stdout-errors"]
  }

  /** PrintPit: from a local file when one is chosen, from the device otherwise. */
  function PrintPitArguments(localFile: Option<string>, resume: bool, verbose: bool): seq<string>
  {
    ["print-pit"] + (match localFile case Some(path) => ["--file", path] case None => [])
      + ["--stdout-errors", "--no-reboot"] + Flag(resume, "--resume") + Flag(verbose, "--verbose")
  }

  /** The session options a command line asks heimdall for. */
  datatype Options = Options(resume: bool, verbose: bool, noReboot: bool, stdoutErrors: bool)

  function OptionsOf(args: seq<string>): Options
  {
    Options("--resume" in args, "--verbose" in args, "--no-reboot" in args, "--stdout-errors" in args)
  }

  /** A user-chosen path is not mistaken for one of the option flags. */
  predicate NotAnOption(path: string)
  {
    path != "--resume" && path != "--verbose" && path != "--no-reboot" && path != "--stdout-errors"
  }

  /** No element of args is one of the option flags. */
  predicate FreeOfOptions(args: seq<string>)
  {
    forall j :: 0 <= j < |args| ==> NotAnOption(args[j])
  }

  /** Words that are not options do not change what a command line asks for. */
  lemma OptionsOfFreePrefix(a: seq<string>, b: seq<string>)
    requires FreeOfOptions(a)
    ensures OptionsOf(a + b) == OptionsOf(b)
  {
    assert forall x :: x in a + b <==> x in a || x in b;
  }

  /** The options the trailing flags of a command ask for. */
  lemma OptionsOfFlags(noReboot: bool, resume: bool, verbose: bool)
    ensures OptionsOf(Flag(noReboot, "--no-reboot") + Flag(resume, "--resume") + Flag(verbose, "--verbose") + ["--stdout-errors"])
         == Options(resume, verbose, noReboot, true)
  {
  }

  /*
   * Reading the options back from each utility command gives the settings it was
   * built from; every command routes errors to standard output, and exactly the
   * PIT commands keep the device from rebooting.
   */

  lemma DetectOptions(verbose: bool)
    ensures OptionsOf(DetectArguments(verbose)) == Options(false, verbose, false, true)
  {
    OptionsOfFreePrefix(["detect"], Flag(false, "--no-reboot") + Flag(false, "--resume") + Flag(verbose, "--verbose") + ["--stdout-errors"]);
    OptionsOfFlags(false, false, verbose);
  }

  lemma ClosePcScreenOptions(resume: bool, verbose: bool)
    ensures OptionsOf(ClosePcScreenArguments(resume, verbose)) == Options(resume, verbose, false, true)
  {
    OptionsOfFreePrefix(["close-pc-screen"], Flag(false, "--no-reboot") + Flag(resume, "--resume") + Flag(verbose, "--verbose") + ["--stdout-errors"]);
    OptionsOfFlags(false, resume, verbose);
  }

  lemma DownloadPitOptions(destination: string, resume: bool, verbose: bool)
    requires NotAnOption(destination)
    ensures OptionsOf(DownloadPitArguments(destination, resume, verbose)) == Options(resume, verbose, true, true)
  {
    var tail := Flag(true, "--no-reboot") + Flag(resume, "--resume") + Flag(verbose, "--verbose") + ["--stdout-errors"];
    assert DownloadPitArguments(destination, resume, verbose) == ["download-pit", "--output", destination] + tail;
    OptionsOfFreePrefix(["download-pit", "--output", destination], tail);
    OptionsOfFlags(true, resume, verbose);
  }

  lemma PrintPitOptions(localFile: Option<string>, resume: bool, verbose: bool)
    requires localFile.Some? ==> NotAnOption(localFile.value)
    ensures OptionsOf(PrintPitArguments(localFile, resume, verbose)) == Options(resume, verbose, true, true)
  {
    var p := ["print-pit"] + (match localFile case Some(path) => ["--file", path] case None => []);
    var tail := ["--stdout-errors", "--no-reboot"] + Flag(resume, "--resume") + Flag(verbose, "--verbose");
    assert PrintPitArguments(localFile, resume, verbose) == p + tail;
    OptionsOfFreePrefix(p, tail);
  }

  /** The flash command likewise carries exactly the chosen options. */
  lemma FlashOptionsFollowSettings(fw: FirmwareInfo, pit: PitTable, resume: bool, verbose: bool)
    requires NoOptionNames(pit) && NotAnOption(fw.pitFilename)
    requires forall i :: 0 <= i < |fw.fileInfos| ==> NotAnOption(fw.fileInfos[i].filename)
    ensures OptionsOf(FlashArguments(fw, pit, resume, verbose)) == Options(resume, verbose, fw.noReboot, true)
  {
    var mid := BindingArguments(pit, fw.fileInfos);
    forall j | 0 <= j < |mid|
      ensures NotAnOption(mid[j])
    {
      var i := j / 2;
      assert j == 2 * i || j == 2 * i + 1;
      BindingArgumentsAt(pit, fw.fileInfos, i);
      FlagIsNotAnOption(pit, fw.fileInfos[i]);
    }
    var front := FlashHead(fw) + mid;
    assert FreeOfOptions(front);
    OptionsOfFreePrefix(front, FlashTail(fw.noReboot, resume, verbose));
    OptionsOfFlags(fw.noReboot, resume, verbose);
  }

  /** No partition of the table is named after one of the option words. */
  predicate NoOptionNames(pit: PitTable)
  {
    forall k :: 0 <= k < |pit| ==> NotAnOption("--" + pit[k].partitionName)
  }

  /** A partition flag is never one of the option flags: numeric ones start with a digit. */
  lemma FlagIsNotAnOption(pit: PitTable, f: FileInfo)
    requires NoOptionNames(pit)
    ensures NotAnOption(PartitionFlag(pit, f))
  {
    var d := NatToString(f.partitionId);
    assert IsDigit(d[0]);
    assert ("--" + d)[2] == d[0];
    match FindById(pit, f.partitionId)
    case Some(e) =>
      var k :| 0 <= k < |pit| && pit[k] == e;
    case None =>
  }
}
