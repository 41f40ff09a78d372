/**
 * The argument lists the frontend hands to the adb executable: reboots into recovery,
 * download mode and the bootloader, shutdown, device listing, a root listing, recent
 * logcat, the root check, APK installation, getprop and a free-form command line.
 */
module Adb {

  import opened Wrappers
  import opened Text

  /** adbExecutable: the program every ADB action starts, one word on a command line. */
  function AdbExecutable(): (r: string)
    ensures IsWord(r)
  {
    "adb"
  }

  /** The log lines argsLogcatRecent asks for when the caller names no count. */
  const DefaultLogcatLines: int := 50

  /** One argument as adb receives it from a typed command line: not empty, without a space. */
  predicate IsWord(t: string)
  {
    t != [] && ' ' !in t
  }

  /** The command line a list of arguments stands for: the arguments with one space between. */
  function CommandLine(args: seq<string>): string
  {
    Join(args, " ")
  }

  // ---------------------------------------------------------------- the builders

  function ArgsRebootRecovery(): seq<string>
  {
    ["reboot", "recovery"]
  }

  function ArgsRebootDownload(): seq<string>
  {
    ["reboot", "download"]
  }

  function ArgsRebootFastboot(): seq<string>
  {
    ["reboot", "bootloader"]
  }

  function ArgsShutdown(): seq<string>
  {
    ["shell", "reboot", "-p"]
  }

  /** argsCustom: the command line split at single spaces, empty parts skipped. */
  function ArgsCustom(commandLine: string): (r: seq<string>)
    ensures forall i :: 0 <= i < |r| ==> IsWord(r[i])
  {
    SplitPartsLackSeparator(commandLine, ' ');
    NonEmptyParts(Split(commandLine, ' '))
  }

  function ArgsDevices(): seq<string>
  {
    ["devices", "-l"]
  }

  function ArgsShellLsRoot(): seq<string>
  {
    ["shell", "ls", "-la", "/"]
  }

  /** argsLogcatRecent: dump the last `lines` log lines; the count is written in decimal. */
  function ArgsLogcatRecent(lines: int): seq<string>
  {
    ["logcat", "-d", "-t", IntToString(lines)]
  }

  function ArgsCheckRoot(): seq<string>
  {
    ["shell", "which", "su"]
  }

  /** argsInstallApk: the path is passed as one argument, whatever it contains. */
  function ArgsInstallApk(apkPath: string): seq<string>
  {
    ["install", apkPath]
  }

  function ArgsGetprop(): seq<string>
  {
    ["shell", "getprop"]
  }

  // ---------------------------------------------------------------- argsCustom

  /** The words of argsCustom are the characters of the command line other than spaces, in order. */
  lemma ArgsCustomKeepsText(commandLine: string)
    ensures Concat(ArgsCustom(commandLine)) == RemoveChar(commandLine, ' ')
  {
    ConcatNonEmptyParts(Split(commandLine, ' '));
    ConcatSplit(commandLine, ' ');
  }

  /** Words written out with single spaces parse back, by argsCustom, into the same words. */
  lemma ArgsCustomOfCommandLine(args: seq<string>)
    requires forall i :: 0 <= i < |args| ==> IsWord(args[i])
    ensures ArgsCustom(CommandLine(args)) == args
  {
    if args == [] {
      assert Split([], ' ') == [[]];
    } else {
      SplitJoin(args, ' ');
      NonEmptyPartsKeepsAll(args);
    }
  }

  /** Parsing, writing the words out and parsing again gives the first parse. */
  lemma ArgsCustomIdempotent(commandLine: string)
    ensures ArgsCustom(CommandLine(ArgsCustom(commandLine))) == ArgsCustom(commandLine)
  {
    ArgsCustomOfCommandLine(ArgsCustom(commandLine));
  }

  // ---------------------------------------------------------------- the fixed lists

  // Each fixed list is what argsCustom makes of the command line the frontend echoes for
  // it ("Executing: adb reboot recovery" and so on); argsGetprop is argsCustom("shell getprop").

  lemma RebootRecoveryAsTyped()
    ensures ArgsRebootRecovery() == ArgsCustom("reboot recovery")
  {
    assert CommandLine(ArgsRebootRecovery()) == "reboot recovery";
    ArgsCustomOfCommandLine(ArgsRebootRecovery());
  }

  lemma RebootDownloadAsTyped()
    ensures ArgsRebootDownload() == ArgsCustom("reboot download")
  {
    assert CommandLine(ArgsRebootDownload()) == "reboot download";
    ArgsCustomOfCommandLine(ArgsRebootDownload());
  }

  lemma RebootFastbootAsTyped()
    ensures ArgsRebootFastboot() == ArgsCustom("reboot bootloader")
  {
    assert CommandLine(ArgsRebootFastboot()) == "reboot bootloader";
    ArgsCustomOfCommandLine(ArgsRebootFastboot());
  }

  lemma ShutdownAsTyped()
    ensures ArgsShutdown() == ArgsCustom("shell reboot -p")
  {
    assert CommandLine(ArgsShutdown()) == "shell reboot -p";
    ArgsCustomOfCommandLine(ArgsShutdown());
  }

  lemma DevicesAsTyped()
    ensures ArgsDevices() == ArgsCustom("devices -l")
  {
    assert CommandLine(ArgsDevices()) == "devices -l";
    ArgsCustomOfCommandLine(ArgsDevices());
  }

  lemma ShellLsRootAsTyped()
    ensures ArgsShellLsRoot() == ArgsCustom("shell ls -la /")
  {
    assert CommandLine(ArgsShellLsRoot()) == "shell ls -la /";
    ArgsCustomOfCommandLine(ArgsShellLsRoot());
  }

  lemma CheckRootAsTyped()
    ensures ArgsCheckRoot() == ArgsCustom("shell which su")
  {
    assert CommandLine(ArgsCheckRoot()) == "shell which su";
    ArgsCustomOfCommandLine(ArgsCheckRoot());
  }

  lemma GetpropAsTyped()
    ensures ArgsGetprop() == ArgsCustom("shell getprop")
  {
    assert CommandLine(ArgsGetprop()) == "shell getprop";
    ArgsCustomOfCommandLine(ArgsGetprop());
  }

  // ---------------------------------------------------------------- logcat and install

  /** The count argsLogcatRecent writes reads back as the count asked for. */
  lemma LogcatCountReadsBack(lines: int)
    ensures |ArgsLogcatRecent(lines)| == 4 && ArgsLogcatRecent(lines)[..3] == ["logcat", "-d", "-t"]
    ensures ParseInt(ArgsLogcatRecent(lines)[3]) == Some(lines)
  {
    IntToStringRoundTrip(lines);
  }

  /** With the default count the list is what argsCustom makes of "logcat -d -t 50". */
  lemma LogcatDefault()
    ensures ArgsLogcatRecent(DefaultLogcatLines) == ArgsCustom("logcat -d -t 50")
  {
    DefaultCountWritten();
    var args := ArgsLogcatRecent(DefaultLogcatLines);
    assert args == ["logcat", "-d", "-t", "50"];
    assert CommandLine(args) == "logcat -d -t 50";
    ArgsCustomOfCommandLine(args);
  }

  /** The default count is written "50". */
  lemma DefaultCountWritten()
    ensures IntToString(DefaultLogcatLines) == "50"
  {
    assert NatToString(5) == [DigitChar(5)] == "5";
    assert NatToString(50) == NatToString(5) + [DigitChar(0)] == "50";
  }

  /**
   * argsInstallApk passes the path as one argument, so it agrees with splitting the
   * echoed line "install <path>" exactly when the path is one word: a path with a space,
   * or an empty one, is kept whole where argsCustom would cut or drop it.
   */
  lemma InstallKeepsPath(apkPath: string)
    ensures |ArgsInstallApk(apkPath)| == 2 && ArgsInstallApk(apkPath)[1] == apkPath
    ensures ArgsInstallApk(apkPath) == ArgsCustom("install " + apkPath) <==> IsWord(apkPath)
  {
    assert ArgsInstallApk(apkPath)[1..] == [apkPath];
    assert Join([apkPath], " ") == apkPath;
    assert "install" + " " == "install ";
    assert CommandLine(ArgsInstallApk(apkPath)) == "install " + apkPath;
    if IsWord(apkPath) {
      ArgsCustomOfCommandLine(ArgsInstallApk(apkPath));
    }
  }
}
