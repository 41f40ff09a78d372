/**
 * The frontend's control of one heimdall run: the run kind with its sticky no-reboot bit,
 * the start of the process with the search-path fallback, and the slots that react to
 * output, to the process returning and to process errors. The widgets the frontend
 * updates (the flash label, the progress bar, the two consoles, the device-detected
 * indicator) are fields of the session; starting a process is decided by the set of
 * program paths that can be started.
 */
module ToolSession {

  import opened Wrappers
  import opened Text
  import opened Pit
  import opened Firmware
  import opened FlashCommand
  import opened OutputScan

  /** The command a run performs; the frontend's HeimdallState combines one of these with NoReboot. */
  datatype RunKind = Stopped | Flashing | DetectingDevice | ClosingPcScreen | DownloadingPit | PrintingPit

  datatype HeimdallState = HeimdallState(kind: RunKind, noReboot: bool)

  /** Assigning HeimdallState::Stopped clears the no-reboot bit as well. */
  const StoppedState := HeimdallState(Stopped, false)

  datatype ExitStatus = NormalExit | CrashExit

  datatype ProcessError = FailedToStart | Crashed | Timedout | ReadError | WriteError | UnknownError

  /** A started process: the program path and its arguments. */
  datatype Launch = Launch(program: string, arguments: seq<string>)

  /** What the frontend keeps about the run: its state, the start failure, resume and verbose output, the started process. */
  datatype Run = Run(state: HeimdallState, failed: bool, resume: bool, verbose: bool, launched: Option<Launch>)

  /** What the window shows: the flash label, the progress bar, the device indicator and the two consoles. */
  datatype Screen = Screen(
    flashLabel: string,
    progress: int,
    progressEnabled: bool,
    deviceDetected: bool,
    flashOutput: string,
    utilityOutput: string)

  /** Everything the session logic reads or writes. */
  datatype Session = Session(run: Run, screen: Screen)

  const SkippingRepartitionMessage := "Skipping repartition (single partition flash)"
  const FailedToStartMessage := "Failed to start Heimdall!"
  const CrashedMessage := "Heimdall crashed!"
  const UnknownErrorMessage := "Heimdall reported an unknown error!"
  const FlashCompletedMessage := "Flash completed successfully!"

  /** QPlainTextEdit::appendPlainText: the text becomes a new paragraph of the console. */
  function Paragraph(console: string, text: string): string
  {
    if console == [] then text else console + "\n" + text
  }

  /** The report a process error leaves in the utility console. */
  function FrontendError(message: string, stderr: string): string
  {
    "\nFRONTEND ERROR: " + message + "\n" + stderr
  }

  // ---------------------------------------------------------------- the slots

  /** HandleHeimdallStdout on one scanned chunk of output. */
  function AfterStdout(s: Session, c: Chunk): Session
  {
    var w := s.screen;
    var newLabel := match c.uploading case Some(l) => l case None => w.flashLabel;
    var progress := match c.percent case Some(v) => v case None => w.progress;
    if s.run.state.kind == Flashing then
      s.(screen := w.(flashLabel := newLabel, progress := progress, flashOutput := w.flashOutput + c.shown))
    else
      s.(screen := w.(flashLabel := newLabel, progress := progress, utilityOutput := w.utilityOutput + c.shown))
  }

  /** HandleHeimdallReturned: the remaining output is handled first, then the run's outcome. */
  function AfterReturned(s: Session, exitCode: int, status: ExitStatus, c: Chunk, stderr: string): Session
  {
    Finished(AfterStdout(s, c), exitCode, status, stderr)
  }

  /** The outcome part of HandleHeimdallReturned. */
  function Finished(t: Session, exitCode: int, status: ExitStatus, stderr: string): Session
  {
    var kind := t.run.state.kind;
    var u :=
      if status == NormalExit && exitCode == 0 then
        var r := t.run.(resume := t.run.state.noReboot);
        if kind == Flashing then Session(r, t.screen.(flashLabel := FlashCompletedMessage))
        else if kind == DetectingDevice then Session(r, t.screen.(deviceDetected := true))
        else Session(r, t.screen)
      else
        if kind == Flashing then t.(screen := t.screen.(flashLabel := ErrorLine(stderr)))
        else if kind == DetectingDevice then t.(screen := t.screen.(deviceDetected := false))
        else t;
    Session(u.run.(state := StoppedState), u.screen.(progress := 0, progressEnabled := false))
  }

  /** HandleHeimdallError. */
  function AfterError(s: Session, error: ProcessError, stderr: string): Session
  {
    var w := s.screen;
    if error == FailedToStart || error == Timedout then
      var shown :=
        if s.run.state.kind == Flashing then w.(flashLabel := FailedToStartMessage, progressEnabled := false)
        else w.(utilityOutput := FrontendError(FailedToStartMessage, stderr));
      Session(s.run.(failed := true, state := StoppedState), shown)
    else
      var message := if error == Crashed then CrashedMessage else UnknownErrorMessage;
      var shown :=
        if s.run.state.kind == Flashing then w.(flashLabel := message, progressEnabled := false)
        else w.(utilityOutput := Paragraph(w.utilityOutput, FrontendError(message, stderr)));
      Session(s.run.(state := StoppedState), shown)
  }

  // ---------------------------------------------------------------- starting heimdall

  /** The command echo of StartHeimdall, in the console of the run. */
  function Announced(s: Session, arguments: seq<string>): Session
  {
    var line := "Executing: " + "heimdall " + Join(arguments, " ") + "\n";
    if s.run.state.kind == Flashing then s.(screen := s.screen.(flashOutput := Paragraph(s.screen.flashOutput, line)))
    else s.(screen := s.screen.(utilityOutput := Paragraph(s.screen.utilityOutput, line)))
  }

  /**
   * QProcess::start followed by waitForStarted: the process starts when its program can
   * be started; otherwise the error slot runs with FailedToStart and no error output.
   */
  function Attempt(s: Session, program: string, arguments: seq<string>, launchable: set<string>): Session
  {
    if program in launchable then s.(run := s.run.(launched := Some(Launch(program, arguments))))
    else AfterError(s, FailedToStart, [])
  }

  /**
   * The fallback loop over the search path: while the start has failed, each non-empty
   * directory is tried in turn. With `intended`, the run's state is put back before each
   * try; without it, the state the failure left is kept.
   */
  function Retried(s: Session, intended: Option<HeimdallState>, paths: seq<string>, arguments: seq<string>, launchable: set<string>): Session
    decreases |paths|
  {
    if !s.run.failed || paths == [] then s
    else if paths[0] == [] then Retried(s, intended, paths[1..], arguments, launchable)
    else
      var state := match intended case Some(st) => st case None => s.run.state;
      var ready := Session(s.run.(failed := false, state := state), s.screen.(utilityOutput := []));
      Retried(Attempt(ready, Executable(paths[0]), arguments, launchable), intended, paths[1..], arguments, launchable)
  }

  /** StartHeimdall, given whether the fallback restores the run's state. */
  function StartWith(s: Session, restore: bool, arguments: seq<string>, environment: seq<string>, launchable: set<string>): Session
  {
    var a := Attempt(Announced(s, arguments), "heimdall", arguments, launchable);
    if !a.run.failed then a
    else
      var r := Retried(a, if restore then Some(s.run.state) else None, PathCandidates(environment), arguments, launchable);
      if r.run.failed then Session(r.run.(state := StoppedState), r.screen.(flashLabel := FailedToStartMessage)) else r
  }

  /** StartHeimdall as written: a run found through the fallback is monitored in the state the failure left. */
  function StartAsWritten(s: Session, arguments: seq<string>, environment: seq<string>, launchable: set<string>): Session
  {
    StartWith(s, false, arguments, environment, launchable)
  }

  /** StartHeimdall with the run's state restored before each fallback try. */
  function Start(s: Session, arguments: seq<string>, environment: seq<string>, launchable: set<string>): Session
  {
    StartWith(s, true, arguments, environment, launchable)
  }

  /** The first non-empty directory whose heimdall can be started, or -1. */
  function FirstLaunchable(paths: seq<string>, launchable: set<string>): (k: int)
    ensures -1 <= k < |paths|
    ensures k >= 0 ==> paths[k] != [] && Executable(paths[k]) in launchable
    ensures k >= 0 ==> forall j :: 0 <= j < k ==> paths[j] == [] || Executable(paths[j]) !in launchable
    ensures k < 0 ==> forall j :: 0 <= j < |paths| ==> paths[j] == [] || Executable(paths[j]) !in launchable
  {
    if paths == [] then -1
    else if paths[0] != [] && Executable(paths[0]) in launchable then 0
    else
      var k := FirstLaunchable(paths[1..], launchable);
      if k < 0 then -1 else k + 1
  }

  // ---------------------------------------------------------------- the commands

  /** A command's set-up before its start: the run state, the failure cleared and the console emptied. */
  function Prepared(s: Session, state: HeimdallState, screen: Screen): Session
  {
    Session(s.run.(state := state, failed := false), screen)
  }

  /** The state StartFlash sets up before building its command line. */
  function FlashPrepared(s: Session, fw: FirmwareInfo): Session
  {
    var w := s.screen;
    var newLabel := if fw.repartition && |fw.fileInfos| == 1 then SkippingRepartitionMessage else w.flashLabel;
    Prepared(s, HeimdallState(Flashing, fw.noReboot), w.(flashOutput := [], flashLabel := newLabel))
  }

  function FlashStarted(s: Session, fw: FirmwareInfo, pit: PitTable, environment: seq<string>, launchable: set<string>): Session
  {
    StartAsWritten(FlashPrepared(s, fw), FlashArguments(fw, pit, s.run.resume, s.run.verbose), environment, launchable)
  }

  function DetectStarted(s: Session, environment: seq<string>, launchable: set<string>): Session
  {
    var p := Prepared(s, HeimdallState(DetectingDevice, false), s.screen.(deviceDetected := false, utilityOutput := []));
    StartAsWritten(p, DetectArguments(s.run.verbose), environment, launchable)
  }

  function ClosePcScreenStarted(s: Session, environment: seq<string>, launchable: set<string>): Session
  {
    var p := Prepared(s, HeimdallState(ClosingPcScreen, false), s.screen.(utilityOutput := []));
    StartAsWritten(p, ClosePcScreenArguments(s.run.resume, s.run.verbose), environment, launchable)
  }

  function DownloadPitStarted(s: Session, destination: string, environment: seq<string>, launchable: set<string>): Session
  {
    var p := Prepared(s, HeimdallState(DownloadingPit, true), s.screen.(deviceDetected := false, utilityOutput := []));
    StartAsWritten(p, DownloadPitArguments(destination, s.run.resume, s.run.verbose), environment, launchable)
  }

  function PrintPitStarted(s: Session, localFile: Option<string>, environment: seq<string>, launchable: set<string>): Session
  {
    var p := Prepared(s, HeimdallState(PrintingPit, true), s.screen.(utilityOutput := []));
    StartAsWritten(p, PrintPitArguments(localFile, s.run.resume, s.run.verbose), environment, launchable)
  }

  // ---------------------------------------------------------------- properties of the slots

  /** However a run returns, the session is stopped, the no-reboot bit is gone and the progress bar is reset. */
  lemma ReturnedStops(s: Session, exitCode: int, status: ExitStatus, c: Chunk, stderr: string)
    ensures AfterReturned(s, exitCode, status, c, stderr).run.state == StoppedState
    ensures AfterReturned(s, exitCode, status, c, stderr).screen.progress == 0
    ensures !AfterReturned(s, exitCode, status, c, stderr).screen.progressEnabled
    ensures AfterReturned(s, exitCode, status, c, stderr).run.failed == s.run.failed
  {
  }

  /**
   * Only a normal exit with code 0 touches resume, and it then becomes exactly the
   * no-reboot bit of the run: a run that left the device in download mode can be resumed.
   */
  lemma ReturnedResume(s: Session, exitCode: int, status: ExitStatus, c: Chunk, stderr: string)
    ensures status == NormalExit && exitCode == 0 ==> AfterReturned(s, exitCode, status, c, stderr).run.resume == s.run.state.noReboot
    ensures !(status == NormalExit && exitCode == 0) ==> AfterReturned(s, exitCode, status, c, stderr).run.resume == s.run.resume
  {
  }

  /**
   * A flash ends with the success message or with heimdall's error line; a detection
   * ends with the indicator set exactly when the run succeeded.
   */
  lemma ReturnedReport(s: Session, exitCode: int, status: ExitStatus, c: Chunk, stderr: string)
    ensures s.run.state.kind == Flashing ==>
      AfterReturned(s, exitCode, status, c, stderr).screen.flashLabel
        == if status == NormalExit && exitCode == 0 then FlashCompletedMessage else ErrorLine(stderr)
    ensures s.run.state.kind == DetectingDevice ==>
      AfterReturned(s, exitCode, status, c, stderr).screen.deviceDetected == (status == NormalExit && exitCode == 0)
    ensures s.run.state.kind != Flashing ==>
      AfterReturned(s, exitCode, status, c, stderr).screen.flashLabel == AfterStdout(s, c).screen.flashLabel
  {
  }

  /** The message a process error reports. */
  function ErrorMessage(error: ProcessError): string
  {
    if error == FailedToStart || error == Timedout then FailedToStartMessage
    else if error == Crashed then CrashedMessage
    else UnknownErrorMessage
  }

  /** Every error stops the session; only a failed or timed-out start marks the start as failed. */
  lemma ErrorStops(s: Session, error: ProcessError, stderr: string)
    ensures AfterError(s, error, stderr).run.state == StoppedState
    ensures AfterError(s, error, stderr).run.failed == (s.run.failed || error == FailedToStart || error == Timedout)
    ensures AfterError(s, error, stderr).run.resume == s.run.resume && AfterError(s, error, stderr).run.launched == s.run.launched
  {
  }

  /** During a flash the error's message goes to the flash label and the progress bar is disabled. */
  lemma ErrorReportedOnLabel(s: Session, error: ProcessError, stderr: string)
    requires s.run.state.kind == Flashing
    ensures AfterError(s, error, stderr).screen.flashLabel == ErrorMessage(error)
    ensures !AfterError(s, error, stderr).screen.progressEnabled
    ensures AfterError(s, error, stderr).screen.utilityOutput == s.screen.utilityOutput
  {
  }

  /** Outside a flash the error's report, with heimdall's error output, ends the utility console. */
  lemma ErrorReportedInConsole(s: Session, error: ProcessError, stderr: string)
    requires s.run.state.kind != Flashing
    ensures AfterError(s, error, stderr).screen.flashLabel == s.screen.flashLabel
    ensures EndsWith(AfterError(s, error, stderr).screen.utilityOutput, FrontendError(ErrorMessage(error), stderr))
  {
    var report := FrontendError(ErrorMessage(error), stderr);
    if error == FailedToStart || error == Timedout {
      assert report[|report| - |report|..] == report;
    } else {
      ParagraphEnds(s.screen.utilityOutput, report);
    }
  }

  lemma ParagraphEnds(console: string, text: string)
    ensures EndsWith(Paragraph(console, text), text)
  {
    var p := Paragraph(console, text);
    assert p[|p| - |text|..] == text;
  }

  /**
   * A chunk of output sets the label to its last "Uploading" line and the progress to its
   * last percentage, when it has them, and its displayed form goes to the console of the run.
   */
  lemma StdoutOutcome(s: Session, c: Chunk)
    ensures AfterStdout(s, c).screen.flashLabel == (if c.uploading.Some? then c.uploading.value else s.screen.flashLabel)
    ensures AfterStdout(s, c).screen.progress == (if c.percent.Some? then c.percent.value else s.screen.progress)
    ensures s.run.state.kind == Flashing ==>
      AfterStdout(s, c).screen.flashOutput == s.screen.flashOutput + c.shown
      && AfterStdout(s, c).screen.utilityOutput == s.screen.utilityOutput
    ensures s.run.state.kind != Flashing ==>
      AfterStdout(s, c).screen.utilityOutput == s.screen.utilityOutput + c.shown
      && AfterStdout(s, c).screen.flashOutput == s.screen.flashOutput
    ensures AfterStdout(s, c).run == s.run
  {
  }

  /** The consoles show the same text whether output arrives in one chunk or in two. */
  lemma StdoutChunks(s: Session, a: string, b: string)
    ensures AfterStdout(AfterStdout(s, Scan(a)), Scan(b)).screen.flashOutput == AfterStdout(s, Scan(a + b)).screen.flashOutput
    ensures AfterStdout(AfterStdout(s, Scan(a)), Scan(b)).screen.utilityOutput == AfterStdout(s, Scan(a + b)).screen.utilityOutput
  {
    ScanAppend(a, b);
    ConsolesAppend(s, Scan(a), Scan(b), Scan(a + b));
  }

  lemma ConsolesAppend(s: Session, a: Chunk, b: Chunk, ab: Chunk)
    requires ab.shown == a.shown + b.shown
    ensures AfterStdout(AfterStdout(s, a), b).screen.flashOutput == AfterStdout(s, ab).screen.flashOutput
    ensures AfterStdout(AfterStdout(s, a), b).screen.utilityOutput == AfterStdout(s, ab).screen.utilityOutput
  {
  }

  // ---------------------------------------------------------------- properties of the start

  /**
   * When the first start succeeds, heimdall runs with the arguments in the state of the
   * command, whether or not the fallback would restore the state.
   */
  lemma StartDirect(s: Session, restore: bool, arguments: seq<string>, environment: seq<string>, launchable: set<string>)
    requires "heimdall" in launchable && !s.run.failed
    ensures StartWith(s, restore, arguments, environment, launchable).run == s.run.(launched := Some(Launch("heimdall", arguments)))
  {
  }

  /** The fallback loop tries the directories in order and stops at the first one whose heimdall starts. */
  lemma {:induction false} RetriedOutcome(s: Session, intended: Option<HeimdallState>, paths: seq<string>, arguments: seq<string>, launchable: set<string>)
    requires s.run.failed
    ensures Retried(s, intended, paths, arguments, launchable).run.failed <==> FirstLaunchable(paths, launchable) < 0
    ensures FirstLaunchable(paths, launchable) >= 0 ==>
      Retried(s, intended, paths, arguments, launchable).run.launched == Some(Launch(Executable(paths[FirstLaunchable(paths, launchable)]), arguments))
    ensures FirstLaunchable(paths, launchable) < 0 ==>
      Retried(s, intended, paths, arguments, launchable).run.launched == s.run.launched
    ensures intended.Some? && FirstLaunchable(paths, launchable) >= 0 ==>
      Retried(s, intended, paths, arguments, launchable).run.state == intended.value
    ensures intended.None? && s.run.state == StoppedState ==>
      Retried(s, intended, paths, arguments, launchable).run.state == StoppedState
    ensures s.screen.flashLabel == FailedToStartMessage ==>
      Retried(s, intended, paths, arguments, launchable).screen.flashLabel == FailedToStartMessage
    decreases |paths|
  {
    if paths != [] {
      if paths[0] == [] {
        RetriedOutcome(s, intended, paths[1..], arguments, launchable);
        FirstLaunchableTail(paths, launchable);
      } else {
        var state := match intended case Some(st) => st case None => s.run.state;
        var ready := Session(s.run.(failed := false, state := state), s.screen.(utilityOutput := []));
        var t := Attempt(ready, Executable(paths[0]), arguments, launchable);
        if Executable(paths[0]) !in launchable {
          assert t.run.failed && t.run.launched == s.run.launched && t.run.state == StoppedState;
          RetriedOutcome(t, intended, paths[1..], arguments, launchable);
          FirstLaunchableTail(paths, launchable);
        }
      }
    }
  }

  lemma FirstLaunchableTail(paths: seq<string>, launchable: set<string>)
    requires paths != [] && (paths[0] == [] || Executable(paths[0]) !in launchable)
    ensures FirstLaunchable(paths, launchable) < 0 <==> FirstLaunchable(paths[1..], launchable) < 0
    ensures FirstLaunchable(paths, launchable) >= 0 ==>
      FirstLaunchable(paths, launchable) == FirstLaunchable(paths[1..], launchable) + 1
      && paths[FirstLaunchable(paths, launchable)] == paths[1..][FirstLaunchable(paths[1..], launchable)]
  {
  }

  /**
   * When heimdall is not found on the default path, the search-path directories are tried
   * in order: the run starts from the first one whose heimdall starts, in the state of
   * the command; when none does, the session is stopped with the failure on the flash label.
   */
  lemma StartFallback(s: Session, arguments: seq<string>, environment: seq<string>, launchable: set<string>)
    requires "heimdall" !in launchable
    ensures var r := Start(s, arguments, environment, launchable);
      var paths := PathCandidates(environment);
      var k := FirstLaunchable(paths, launchable);
      && (r.run.failed <==> k < 0)
      && (k >= 0 ==> r.run.launched == Some(Launch(Executable(paths[k]), arguments)) && r.run.state == s.run.state)
      && (k < 0 ==> r.run.launched == s.run.launched && r.screen.flashLabel == FailedToStartMessage && r.run.state == StoppedState)
  {
    var a := Attempt(Announced(s, arguments), "heimdall", arguments, launchable);
    assert a.run.failed;
    RetriedOutcome(a, Some(s.run.state), PathCandidates(environment), arguments, launchable);
  }

  /**
   * As the code is written, the search-path directories are tried in the same order, but
   * the run is monitored in the stopped state that the failed first start left, whether
   * or not a directory's heimdall starts.
   */
  lemma StartFallbackAsWritten(s: Session, arguments: seq<string>, environment: seq<string>, launchable: set<string>)
    requires "heimdall" !in launchable
    ensures var r := StartAsWritten(s, arguments, environment, launchable);
      var paths := PathCandidates(environment);
      var k := FirstLaunchable(paths, launchable);
      && (r.run.failed <==> k < 0)
      && (k >= 0 ==> r.run.launched == Some(Launch(Executable(paths[k]), arguments)))
      && (k < 0 ==> r.run.launched == s.run.launched)
      && r.run.state == StoppedState
      && (s.run.state.kind == Flashing ==> r.screen.flashLabel == FailedToStartMessage)
  {
    var a := Attempt(Announced(s, arguments), "heimdall", arguments, launchable);
    assert a.run.failed && a.run.state == StoppedState;
    assert s.run.state.kind == Flashing ==> a.screen.flashLabel == FailedToStartMessage;
    RetriedOutcome(a, None, PathCandidates(environment), arguments, launchable);
  }

  /**
   * As written, a flash that asked for no reboot and starts through the fallback is
   * monitored as stopped: its output goes to the utility console, it completes with
   * resume off, and when no "Uploading" line arrives the flash label still says that
   * heimdall failed to start.
   */
  lemma FallbackFlashAsWritten(s: Session, arguments: seq<string>, environment: seq<string>, launchable: set<string>, c: Chunk, stderr: string)
    requires s.run.state == HeimdallState(Flashing, true)
    requires "heimdall" !in launchable && FirstLaunchable(PathCandidates(environment), launchable) >= 0
    ensures var r := StartAsWritten(s, arguments, environment, launchable);
      && !r.run.failed && r.run.state == StoppedState
      && AfterStdout(r, c).screen.flashOutput == r.screen.flashOutput
      && !AfterReturned(r, 0, NormalExit, c, stderr).run.resume
      && (c.uploading.None? ==> AfterReturned(r, 0, NormalExit, c, stderr).screen.flashLabel == FailedToStartMessage)
  {
    StartFallbackAsWritten(s, arguments, environment, launchable);
  }

  /**
   * With the state restored, the same flash shows its output in the flash console and
   * completes with resume on and the success message.
   */
  lemma FallbackFlash(s: Session, arguments: seq<string>, environment: seq<string>, launchable: set<string>, c: Chunk, stderr: string)
    requires s.run.state == HeimdallState(Flashing, true)
    requires "heimdall" !in launchable && FirstLaunchable(PathCandidates(environment), launchable) >= 0
    ensures var r := Start(s, arguments, environment, launchable);
      && !r.run.failed && r.run.state == s.run.state
      && AfterStdout(r, c).screen.flashOutput == r.screen.flashOutput + c.shown
      && AfterReturned(r, 0, NormalExit, c, stderr).run.resume
      && AfterReturned(r, 0, NormalExit, c, stderr).screen.flashLabel == FlashCompletedMessage
  {
    StartFallback(s, arguments, environment, launchable);
  }

  /** A flash runs in the flashing state, its no-reboot bit set exactly when the firmware asks for no reboot. */
  lemma FlashState(s: Session, fw: FirmwareInfo, pit: PitTable, environment: seq<string>, launchable: set<string>)
    requires "heimdall" in launchable
    ensures FlashStarted(s, fw, pit, environment, launchable).run.state == HeimdallState(Flashing, fw.noReboot)
    ensures FlashStarted(s, fw, pit, environment, launchable).run.launched
      == Some(Launch("heimdall", FlashArguments(fw, pit, s.run.resume, s.run.verbose)))
  {
    StartDirect(FlashPrepared(s, fw), false, FlashArguments(fw, pit, s.run.resume, s.run.verbose), environment, launchable);
  }

  /** Detection and closing the PC screen run without the no-reboot bit. */
  lemma UtilityStates(s: Session, environment: seq<string>, launchable: set<string>)
    requires "heimdall" in launchable
    ensures DetectStarted(s, environment, launchable).run.state == HeimdallState(DetectingDevice, false)
    ensures ClosePcScreenStarted(s, environment, launchable).run.state == HeimdallState(ClosingPcScreen, false)
  {
    StartDirect(Prepared(s, HeimdallState(DetectingDevice, false), s.screen.(deviceDetected := false, utilityOutput := [])), false,
      DetectArguments(s.run.verbose), environment, launchable);
    StartDirect(Prepared(s, HeimdallState(ClosingPcScreen, false), s.screen.(utilityOutput := [])), false,
      ClosePcScreenArguments(s.run.resume, s.run.verbose), environment, launchable);
  }

  /** The PIT commands always run with the no-reboot bit: the device stays in download mode. */
  lemma PitCommandStates(s: Session, destination: string, localFile: Option<string>, environment: seq<string>, launchable: set<string>)
    requires "heimdall" in launchable
    ensures DownloadPitStarted(s, destination, environment, launchable).run.state == HeimdallState(DownloadingPit, true)
    ensures PrintPitStarted(s, localFile, environment, launchable).run.state == HeimdallState(PrintingPit, true)
  {
    StartDirect(Prepared(s, HeimdallState(DownloadingPit, true), s.screen.(deviceDetected := false, utilityOutput := [])), false,
      DownloadPitArguments(destination, s.run.resume, s.run.verbose), environment, launchable);
    StartDirect(Prepared(s, HeimdallState(PrintingPit, true), s.screen.(utilityOutput := [])), false,
      PrintPitArguments(localFile, s.run.resume, s.run.verbose), environment, launchable);
  }

  /**
   * As written, a command whose heimdall is found only through the search path runs in
   * the stopped state, with the no-reboot bit gone, whatever the command set up.
   */
  lemma FallbackCommandsStopped(s: Session, fw: FirmwareInfo, pit: PitTable, environment: seq<string>, launchable: set<string>)
    requires "heimdall" !in launchable
    ensures FlashStarted(s, fw, pit, environment, launchable).run.state == StoppedState
    ensures DetectStarted(s, environment, launchable).run.state == StoppedState
    ensures FlashStarted(s, fw, pit, environment, launchable).run.failed
      <==> FirstLaunchable(PathCandidates(environment), launchable) < 0
  {
    StartFallbackAsWritten(FlashPrepared(s, fw), FlashArguments(fw, pit, s.run.resume, s.run.verbose), environment, launchable);
    StartFallbackAsWritten(Prepared(s, HeimdallState(DetectingDevice, false), s.screen.(deviceDetected := false, utilityOutput := [])),
      DetectArguments(s.run.verbose), environment, launchable);
  }

  // ---------------------------------------------------------------- the session object

  class HeimdallSession {
    var state: HeimdallState
    var failed: bool
    var resume: bool
    var verbose: bool
    var flashLabel: string
    var progress: int
    var progressEnabled: bool
    var deviceDetected: bool
    var flashOutput: string
    var utilityOutput: string
    var launched: Option<Launch>

    function Snapshot(): Session
      reads this
    {
      Session(Run(state, failed, resume, verbose, launched),
        Screen(flashLabel, progress, progressEnabled, deviceDetected, flashOutput, utilityOutput))
    }

    /** The window starts stopped, with resume and verbose output off. */
    constructor()
      ensures state == StoppedState && !failed && !resume && !verbose && launched == None
    {
      state := StoppedState;
      failed := false;
      resume := false;
      verbose := false;
      flashLabel := [];
      progress := 0;
      progressEnabled := false;
      deviceDetected := false;
      flashOutput := [];
      utilityOutput := [];
      launched := None;
    }

    method HandleHeimdallError(error: ProcessError, stderr: string)
      modifies this
      ensures Snapshot() == AfterError(old(Snapshot()), error, stderr)
    {
      if error == FailedToStart || error == Timedout {
        if state.kind == Flashing {
          flashLabel := FailedToStartMessage;
          progressEnabled := false;
        } else {
          utilityOutput := FrontendError(FailedToStartMessage, stderr);
        }
        failed := true;
        state := StoppedState;
      } else if error == Crashed {
        if state.kind == Flashing {
          flashLabel := CrashedMessage;
          progressEnabled := false;
        } else {
          utilityOutput := Paragraph(utilityOutput, FrontendError(CrashedMessage, stderr));
        }
        state := StoppedState;
      } else {
        if state.kind == Flashing {
          flashLabel := UnknownErrorMessage;
          progressEnabled := false;
        } else {
          utilityOutput := Paragraph(utilityOutput, FrontendError(UnknownErrorMessage, stderr));
        }
        state := StoppedState;
      }
    }

    method HandleHeimdallStdout(output: string)
      modifies this
      ensures Snapshot() == AfterStdout(old(Snapshot()), Scan(output))
    {
      ShowOutput(Scan(output));
    }

    /** The updates HandleHeimdallStdout makes for a scanned chunk. */
    method ShowOutput(chunk: Chunk)
      modifies this
      ensures Snapshot() == AfterStdout(old(Snapshot()), chunk)
    {
      if chunk.uploading.Some? {
        flashLabel := chunk.uploading.value;
      }
      if chunk.percent.Some? {
        progress := chunk.percent.value;
      }
      if state.kind == Flashing {
        flashOutput := flashOutput + chunk.shown;
      } else {
        utilityOutput := utilityOutput + chunk.shown;
      }
    }

    method HandleHeimdallReturned(exitCode: int, status: ExitStatus, output: string, stderr: string)
      modifies this
      ensures Snapshot() == AfterReturned(old(Snapshot()), exitCode, status, Scan(output), stderr)
    {
      HandleHeimdallStdout(output);
      Finish(exitCode, status, stderr);
    }

    /** The outcome part of HandleHeimdallReturned, once the remaining output is shown. */
    method Finish(exitCode: int, status: ExitStatus, stderr: string)
      modifies this
      ensures Snapshot() == Finished(old(Snapshot()), exitCode, status, stderr)
    {
      if status == NormalExit && exitCode == 0 {
        resume := state.noReboot;
        if state.kind == Flashing {
          flashLabel := FlashCompletedMessage;
        } else if state.kind == DetectingDevice {
          deviceDetected := true;
        }
      } else {
        if state.kind == Flashing {
          flashLabel := ErrorLine(stderr);
        } else if state.kind == DetectingDevice {
          deviceDetected := false;
        }
      }
      state := StoppedState;
      progress := 0;
      progressEnabled := false;
    }

    /** heimdallProcess.start and waitForStarted. */
    method StartProcess(program: string, arguments: seq<string>, launchable: set<string>)
      modifies this
      ensures Snapshot() == Attempt(old(Snapshot()), program, arguments, launchable)
    {
      if program in launchable {
        launched := Some(Launch(program, arguments));
      } else {
        HandleHeimdallError(FailedToStart, []);
      }
    }

    /**
     * The fallback loop of StartHeimdall. Only the failure flag is cleared before each
     * try, so the run keeps the state the failed start left.
     */
    method TryPaths(paths: seq<string>, arguments: seq<string>, launchable: set<string>)
      modifies this
      ensures Snapshot() == Retried(old(Snapshot()), None, paths, arguments, launchable)
    {
      var pathIndex := 0;
      while failed && pathIndex < |paths|
        invariant 0 <= pathIndex <= |paths|
        invariant Retried(Snapshot(), None, paths[pathIndex..], arguments, launchable)
          == Retried(old(Snapshot()), None, paths, arguments, launchable)
        decreases |paths| - pathIndex
      {
        assert paths[pathIndex..][1..] == paths[pathIndex + 1..];
        var heimdallPath := paths[pathIndex];
        if |heimdallPath| > 0 {
          utilityOutput := [];
          failed := false;
          if heimdallPath[|heimdallPath| - 1] != '/' {
            heimdallPath := heimdallPath + "/";
          }
          heimdallPath := heimdallPath + "heimdall";
          StartProcess(heimdallPath, arguments, launchable);
        }
        pathIndex := pathIndex + 1;
      }
    }

    /** StartHeimdall as written: a run found through the fallback keeps the stopped state. */
    method StartHeimdall(arguments: seq<string>, environment: seq<string>, launchable: set<string>)
      modifies this
      ensures Snapshot() == StartAsWritten(old(Snapshot()), arguments, environment, launchable)
    {
      var line := "Executing: " + "heimdall " + Join(arguments, " ") + "\n";
      if state.kind == Flashing {
        flashOutput := Paragraph(flashOutput, line);
      } else {
        utilityOutput := Paragraph(utilityOutput, line);
      }
      StartProcess("heimdall", arguments, launchable);
      if failed {
        var paths := PathList(environment);
        TryPaths(paths, arguments, launchable);
        if failed {
          flashLabel := FailedToStartMessage;
          state := StoppedState;
        }
      }
    }

    /**
     * The fallback loop as evidently intended: the state the command set up is put back
     * before each try, together with the cleared failure flag.
     */
    method TryPathsRestoring(paths: seq<string>, arguments: seq<string>, launchable: set<string>, launchState: HeimdallState)
      modifies this
      ensures Snapshot() == Retried(old(Snapshot()), Some(launchState), paths, arguments, launchable)
    {
      var pathIndex := 0;
      while failed && pathIndex < |paths|
        invariant 0 <= pathIndex <= |paths|
        invariant Retried(Snapshot(), Some(launchState), paths[pathIndex..], arguments, launchable)
          == Retried(old(Snapshot()), Some(launchState), paths, arguments, launchable)
        decreases |paths| - pathIndex
      {
        assert paths[pathIndex..][1..] == paths[pathIndex + 1..];
        var heimdallPath := paths[pathIndex];
        if |heimdallPath| > 0 {
          utilityOutput := [];
          failed := false;
          state := launchState;
          if heimdallPath[|heimdallPath| - 1] != '/' {
            heimdallPath := heimdallPath + "/";
          }
          heimdallPath := heimdallPath + "heimdall";
          StartProcess(heimdallPath, arguments, launchable);
        }
        pathIndex := pathIndex + 1;
      }
    }

    /** StartHeimdall as evidently intended: a run found through the fallback runs in the command's state. */
    method StartHeimdallRestoring(arguments: seq<string>, environment: seq<string>, launchable: set<string>)
      modifies this
      ensures Snapshot() == Start(old(Snapshot()), arguments, environment, launchable)
    {
      var launchState := state;
      var line := "Executing: " + "heimdall " + Join(arguments, " ") + "\n";
      if state.kind == Flashing {
        flashOutput := Paragraph(flashOutput, line);
      } else {
        utilityOutput := Paragraph(utilityOutput, line);
      }
      StartProcess("heimdall", arguments, launchable);
      if failed {
        var paths := PathList(environment);
        TryPathsRestoring(paths, arguments, launchable, launchState);
        if failed {
          flashLabel := FailedToStartMessage;
          state := StoppedState;
        }
      }
    }

    method StartFlash(fw: FirmwareInfo, pit: PitTable, environment: seq<string>, launchable: set<string>)
      modifies this
      ensures Snapshot() == FlashStarted(old(Snapshot()), fw, pit, environment, launchable)
    {
      ghost var s0 := Snapshot();
      flashOutput := [];
      state := HeimdallState(Flashing, false);
      failed := false;
      if fw.repartition && |fw.fileInfos| == 1 {
        flashLabel := SkippingRepartitionMessage;
      }
      var arguments := BuildFlashArguments(fw, pit, resume, verbose);
      if fw.noReboot {
        state := state.(noReboot := true);
      }
      assert Snapshot() == FlashPrepared(s0, fw);
      StartHeimdall(arguments, environment, launchable);
    }

    method DetectDevice(environment: seq<string>, launchable: set<string>)
      modifies this
      ensures Snapshot() == DetectStarted(old(Snapshot()), environment, launchable)
    {
      deviceDetected := false;
      utilityOutput := [];
      state := HeimdallState(DetectingDevice, false);
      failed := false;
      StartHeimdall(DetectArguments(verbose), environment, launchable);
    }

    method ClosePcScreen(environment: seq<string>, launchable: set<string>)
      modifies this
      ensures Snapshot() == ClosePcScreenStarted(old(Snapshot()), environment, launchable)
    {
      utilityOutput := [];
      state := HeimdallState(ClosingPcScreen, false);
      failed := false;
      StartHeimdall(ClosePcScreenArguments(resume, verbose), environment, launchable);
    }

    method DownloadPit(destination: string, environment: seq<string>, launchable: set<string>)
      modifies this
      ensures Snapshot() == DownloadPitStarted(old(Snapshot()), destination, environment, launchable)
    {
      deviceDetected := false;
      utilityOutput := [];
      state := HeimdallState(DownloadingPit, true);
      failed := false;
      StartHeimdall(DownloadPitArguments(destination, resume, verbose), environment, launchable);
    }

    method PrintPit(localFile: Option<string>, environment: seq<string>, launchable: set<string>)
      modifies this
      ensures Snapshot() == PrintPitStarted(old(Snapshot()), localFile, environment, launchable)
    {
      utilityOutput := [];
      state := HeimdallState(PrintingPit, true);
      failed := false;
      StartHeimdall(PrintPitArguments(localFile, resume, verbose), environment, launchable);
    }
  }
}
