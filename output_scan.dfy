/**
 * What the frontend reads out of heimdall's output: the "Uploading ..." status line and the
 * percentage of the last progress report in a chunk of standard output, the text shown in
 * the console, the error line taken from standard error, and the list of directories tried
 * when the heimdall executable is not found on the default search path.
 */
module OutputScan {

  import opened Wrappers
  import opened Text

  /** The backspace character heimdall writes before each progress report. */
  const Backspace: char := 8 as char

  // ---------------------------------------------------------------- last regular-expression match

  /**
   * QString::lastIndexOf(QRegExp): the greatest start position below n at which the
   * expression matches, or -1. `end(p)` is the end of the match starting at p, negative
   * when there is none.
   */
  function LastMatch(end: nat -> int, n: nat): (r: int)
    ensures -1 <= r < n
    ensures r >= 0 ==> end(r) >= 0
    ensures forall p :: r < p < n ==> end(p) < 0
  {
    if n == 0 then -1
    else if end(n - 1) >= 0 then n - 1
    else LastMatch(end, n - 1)
  }

  // ---------------------------------------------------------------- "Uploading [^\n]+\n"

  const UploadingPrefix := "Uploading "

  /** `Uploading [^\n]+\n` matches s[p..q + 1]: the prefix, at least one non-newline, a newline at q. */
  predicate UploadingMatch(s: string, p: nat, q: nat)
  {
    p + |UploadingPrefix| < q < |s| && s[p..p + |UploadingPrefix|] == UploadingPrefix && s[q] == '\n'
    && forall j :: p + |UploadingPrefix| <= j < q ==> s[j] != '\n'
  }

  /** Where the match at p ends (its newline), or -1; the greedy run stops at the first newline. */
  function UploadingEnd(s: string, p: nat): (r: int)
    ensures r >= 0 ==> UploadingMatch(s, p, r)
    ensures r < 0 ==> forall q :: !UploadingMatch(s, p, q)
  {
    if p + |UploadingPrefix| <= |s| && s[p..p + |UploadingPrefix|] == UploadingPrefix then
      var q := IndexOfFrom(s, '\n', p + |UploadingPrefix|);
      if q > p + |UploadingPrefix| then q else -1
    else -1
  }

  /** The flash label set from a chunk: the last "Uploading ..." line without its newline. */
  function UploadingLabel(s: string): (r: Option<string>)
  {
    var p := LastMatch((q: nat) => UploadingEnd(s, q), |s|);
    if p < 0 then None else Some(s[p..UploadingEnd(s, p)])
  }

  /**
   * The label is a whole status line of the chunk, from "Uploading " up to (not including)
   * its newline, and no later position of the chunk starts such a line; there is no
   * label exactly when no position does.
   */
  lemma UploadingLabelIsLastLine(s: string)
    ensures UploadingLabel(s).None? <==> forall p: nat, q: nat :: !UploadingMatch(s, p, q)
    ensures UploadingLabel(s).Some? ==>
      exists p: nat, q: nat :: UploadingMatch(s, p, q) && UploadingLabel(s).value == s[p..q]
        && forall p': nat, q': nat :: p < p' && UploadingMatch(s, p', q') ==> false
  {
    var end := (q: nat) => UploadingEnd(s, q);
    var p := LastMatch(end, |s|);
    if p < 0 {
      forall p': nat, q: nat
        ensures !UploadingMatch(s, p', q)
      {
        if p' < |s| {
          assert end(p') < 0;
        }
      }
    } else {
      var q := UploadingEnd(s, p);
      assert UploadingMatch(s, p, q);
      assert UploadingLabel(s) == Some(s[p..q]);
      forall p': nat, q': nat | p < p'
        ensures !UploadingMatch(s, p', q')
      {
        if p' < |s| {
          assert end(p') < 0;
        }
      }
    }
  }

  /** Properties of the label line itself. */
  lemma UploadingLabelShape(s: string)
    requires UploadingLabel(s).Some?
    ensures StartsWith(UploadingLabel(s).value, UploadingPrefix)
    ensures |UploadingLabel(s).value| > |UploadingPrefix|
    ensures forall i :: 0 <= i < |UploadingLabel(s).value| ==> UploadingLabel(s).value[i] != '\n'
  {
    var p := LastMatch((q: nat) => UploadingEnd(s, q), |s|);
    var q := UploadingEnd(s, p);
    assert UploadingMatch(s, p, q);
    var l := s[p..q];
    assert l[..|UploadingPrefix|] == s[p..p + |UploadingPrefix|];
    assert forall i :: 0 <= i < |l| ==> l[i] == s[p + i];
  }

  // ---------------------------------------------------------------- "[\b\n][0-9]+%"

  /** The end of the run of digits that starts at i. */
  function DigitRunEnd(s: string, i: nat): (r: nat)
    requires i <= |s|
    ensures i <= r <= |s|
    ensures forall j :: i <= j < r ==> IsDigit(s[j])
    ensures r < |s| ==> !IsDigit(s[r])
    decreases |s| - i
  {
    if i < |s| && IsDigit(s[i]) then DigitRunEnd(s, i + 1) else i
  }

  /** `[\b\n][0-9]+%` matches s[p..q + 1]: a backspace or newline, digits, a percent sign at q. */
  predicate PercentMatch(s: string, p: nat, q: nat)
  {
    p + 1 < q < |s| && (s[p] == Backspace || s[p] == '\n') && s[q] == '%'
    && forall j :: p < j < q ==> IsDigit(s[j])
  }

  /** Where the match at p ends (its percent sign), or -1. */
  function PercentEnd(s: string, p: nat): (r: int)
    ensures r >= 0 ==> PercentMatch(s, p, r)
    ensures r < 0 ==> forall q :: !PercentMatch(s, p, q)
  {
    if p < |s| && (s[p] == Backspace || s[p] == '\n') then
      var q := DigitRunEnd(s, p + 1);
      if p + 1 < q < |s| && s[q] == '%' then q else -1
    else -1
  }

  /** The largest value of a signed 32-bit int. */
  const IntMax: nat := 0x7fff_ffff

  /** QString::toInt on a run of digits: its decimal value, or 0 when that overflows an int. */
  function ToInt(digits: string): (v: int)
    requires AllDigits(digits)
    ensures 0 <= v <= IntMax
    ensures v == 0 || v == DigitsValue(digits)
  {
    if DigitsValue(digits) <= IntMax then DigitsValue(digits) else 0
  }

  /** The progress value set from a chunk: the digits of the last percentage report, as an int. */
  function ProgressValue(s: string): (r: Option<int>)
  {
    var p := LastMatch((q: nat) => PercentEnd(s, q), |s|);
    if p < 0 then None
    else
      var q := PercentEnd(s, p);
      Some(ToInt(s[p + 1..q]))
  }

  /**
   * The progress comes from the last percentage report of the chunk: the value of the
   * digits between its backspace or newline and its percent sign (0 when they overflow
   * an int); there is none exactly when the chunk holds no report.
   */
  lemma ProgressIsLastReport(s: string)
    ensures ProgressValue(s).None? <==> forall p: nat, q: nat :: !PercentMatch(s, p, q)
    ensures ProgressValue(s).Some? ==>
      exists p: nat, q: nat :: PercentMatch(s, p, q) && AllDigits(s[p + 1..q]) && ProgressValue(s).value == ToInt(s[p + 1..q])
        && forall p': nat, q': nat :: p < p' && PercentMatch(s, p', q') ==> false
  {
    var end := (q: nat) => PercentEnd(s, q);
    var p := LastMatch(end, |s|);
    if p < 0 {
      forall p': nat, q: nat
        ensures !PercentMatch(s, p', q)
      {
        if p' < |s| {
          assert end(p') < 0;
        }
      }
    } else {
      var q := PercentEnd(s, p);
      assert PercentMatch(s, p, q);
      assert AllDigits(s[p + 1..q]);
      forall p': nat, q': nat | p < p'
        ensures !PercentMatch(s, p', q')
      {
        if p' < |s| {
          assert end(p') < 0;
        }
      }
    }
  }

  /** The progress value always fits the progress bar's int and is never negative. */
  lemma ProgressInRange(s: string)
    requires ProgressValue(s).Some?
    ensures 0 <= ProgressValue(s).value <= IntMax
  {
  }

  /** A report of 45% after a backspace sets the progress to 45; a later report wins over an earlier one. */
  lemma ProgressExamples()
    ensures ProgressValue([Backspace] + "45%") == Some(45)
    ensures ProgressValue("\n7%" + [Backspace] + "12%") == Some(12)
    ensures ProgressValue("45%") == None
  {
    var a := [Backspace] + "45%";
    assert PercentEnd(a, 0) == 3 by {
      assert DigitRunEnd(a, 3) == 3;
      assert DigitRunEnd(a, 2) == 3;
      assert DigitRunEnd(a, 1) == 3;
    }
    assert PercentEnd(a, 3) == -1 && PercentEnd(a, 2) == -1 && PercentEnd(a, 1) == -1;
    assert a[1..3] == "45";
    assert DigitsValue("45") == 45 by {
      assert "45"[..1] == "4";
      assert DigitsValue("4") == 4 by { assert "4"[..0] == ""; }
    }
    var b := "\n7%" + [Backspace] + "12%";
    assert PercentEnd(b, 3) == 6 by {
      assert DigitRunEnd(b, 6) == 6;
      assert DigitRunEnd(b, 5) == 6;
      assert DigitRunEnd(b, 4) == 6;
    }
    assert PercentEnd(b, 6) == -1 && PercentEnd(b, 5) == -1 && PercentEnd(b, 4) == -1;
    var end := (q: nat) => PercentEnd(b, q);
    assert LastMatch(end, 4) == 3;
    assert LastMatch(end, |b|) == 3;
    assert b[4..6] == "12";
    assert DigitsValue("12") == 12 by {
      assert "12"[..1] == "1";
      assert DigitsValue("1") == 1 by { assert "1"[..0] == ""; }
    }
    var c := "45%";
    assert PercentEnd(c, 0) == -1 && PercentEnd(c, 1) == -1 && PercentEnd(c, 2) == -1;
  }

  // ---------------------------------------------------------------- the displayed text

  /** What a chunk becomes on screen: every backspace removed, every '%' followed by a newline. */
  function Display(s: string): string
  {
    ReplaceCode(RemoveChar(s, Backspace), '%' as int, "%\n")
  }

  lemma {:induction false} ReplaceCodeAppend(a: string, b: string, code: int, rep: string)
    ensures ReplaceCode(a + b, code, rep) == ReplaceCode(a, code, rep) + ReplaceCode(b, code, rep)
    decreases |a|
  {
    if a != [] {
      assert (a + b)[0] == a[0];
      assert (a + b)[1..] == a[1..] + b;
      ReplaceCodeAppend(a[1..], b, code, rep);
      var head := if a[0] as int == code then rep else [a[0]];
      assert ReplaceCode(a + b, code, rep) == head + ReplaceCode(a[1..] + b, code, rep);
      assert ReplaceCode(a, code, rep) == head + ReplaceCode(a[1..], code, rep);
    } else {
      assert a + b == b;
    }
  }

  /** Every '%' of t starts a new line: a newline follows it. */
  predicate PercentsEndLines(t: string)
  {
    forall i :: 0 <= i < |t| && t[i] == '%' ==> i + 1 < |t| && t[i + 1] == '\n'
  }

  /** The character c does not occur in t. */
  predicate Lacks(t: string, c: char)
  {
    forall i :: 0 <= i < |t| ==> t[i] != c
  }

  /** In the result of putting "%\n" for every '%', each '%' is followed by a newline and no backspace remains. */
  lemma {:induction false} PercentFollowedByNewline(s: string)
    requires Lacks(s, Backspace)
    ensures PercentsEndLines(ReplaceCode(s, '%' as int, "%\n"))
    ensures Lacks(ReplaceCode(s, '%' as int, "%\n"), Backspace)
    decreases |s|
  {
    if s != [] {
      PercentFollowedByNewline(s[1..]);
    }
  }

  /**
   * The console text holds no backspace and every '%' in it starts a new line; a chunk
   * without backspaces or percent signs is shown as it is.
   */
  lemma DisplayShape(s: string)
    ensures Lacks(Display(s), Backspace)
    ensures PercentsEndLines(Display(s))
    ensures Lacks(s, Backspace) && Lacks(s, '%') ==> Display(s) == s
  {
    PercentFollowedByNewline(RemoveChar(s, Backspace));
    if Lacks(s, Backspace) && Lacks(s, '%') {
      RemoveCharAbsent(s, Backspace);
    }
  }

  /** Output split into chunks in any way is displayed as the whole output would be. */
  lemma DisplayAppend(a: string, b: string)
    ensures Display(a + b) == Display(a) + Display(b)
  {
    RemoveCharAppend(a, b, Backspace);
    ReplaceCodeAppend(RemoveChar(a, Backspace), RemoveChar(b, Backspace), '%' as int, "%\n");
  }

  // ---------------------------------------------------------------- the error line

  const ErrorPrefix := "ERROR: "

  /**
   * The message shown after a failed flash: standard error up to its last newline (after
   * it, when that newline is the first character), with every "ERROR: " removed.
   */
  function ErrorLine(stderr: string): (r: string)
    ensures |r| <= |stderr|
  {
    var lastNewLineChar := LastIndexOf(stderr, '\n');
    if lastNewLineChar == 0 then RemoveAll(stderr[1..], ErrorPrefix)
    else RemoveAll(Left(stderr, lastNewLineChar), ErrorPrefix)
  }

  /** The error line is the text before the final line break of standard error, with "ERROR: " removed. */
  lemma ErrorLineBeforeLastBreak(body: string, tail: string)
    requires body != [] && forall i :: 0 <= i < |tail| ==> tail[i] != '\n'
    ensures ErrorLine(body + "\n" + tail) == RemoveAll(body, ErrorPrefix)
  {
    var s := body + "\n" + tail;
    assert forall j :: |body| < j < |s| ==> s[j] == tail[j - |body| - 1];
    LastIndexOfAt(s, '\n', |body|);
    assert s[..|body|] == body;
  }

  /** When the only line break comes first, the message is the text after it. */
  lemma ErrorLineAfterLeadingBreak(tail: string)
    requires forall i :: 0 <= i < |tail| ==> tail[i] != '\n'
    ensures ErrorLine("\n" + tail) == RemoveAll(tail, ErrorPrefix)
  {
    var s := "\n" + tail;
    assert s[1..] == tail;
    LastIndexOfAt(s, '\n', 0);
    assert ErrorLine(s) == RemoveAll(s[1..], ErrorPrefix);
  }

  /** Without any line break, all of standard error is the message. */
  lemma ErrorLineWithoutBreak(stderr: string)
    requires forall i :: 0 <= i < |stderr| ==> stderr[i] != '\n'
    ensures ErrorLine(stderr) == RemoveAll(stderr, ErrorPrefix)
  {
  }

  // ---------------------------------------------------------------- the search path fallback

  const PathKey := "PATH="

  /** The value of the first "PATH=" entry of the environment, if there is one. */
  function PathValue(environment: seq<string>): (r: Option<string>)
    ensures r.None? ==> forall i :: 0 <= i < |environment| ==> !StartsWith(environment[i], PathKey)
    ensures r.Some? ==> exists i :: (0 <= i < |environment| && environment[i] == PathKey + r.value
      && forall j :: 0 <= j < i ==> !StartsWith(environment[j], PathKey))
  {
    if environment == [] then None
    else if Left(environment[0], |PathKey|) == PathKey then
      assert environment[0] == PathKey + environment[0][|PathKey|..];
      Some(environment[0][|PathKey|..])
    else
      var r := PathValue(environment[1..]);
      assert forall i :: 1 <= i < |environment| ==> environment[i] == environment[1..][i - 1];
      r
  }

  /** The directories of the PATH value with /usr/local/bin and then /usr/bin put in front when missing. */
  function WithStandardDirectories(paths: seq<string>): seq<string>
  {
    var withLocal := if "/usr/local/bin" in paths then paths else ["/usr/local/bin"] + paths;
    if "/usr/bin" in withLocal then withLocal else ["/usr/bin"] + withLocal
  }

  /** The directories tried, in order; empty when the environment has no PATH entry. */
  function PathCandidates(environment: seq<string>): seq<string>
  {
    match PathValue(environment)
    case None => []
    case Some(value) => WithStandardDirectories(Split(value, ':'))
  }

  /**
   * The list is empty exactly when there is no PATH entry; otherwise it holds
   * /usr/local/bin and /usr/bin, it ends with the PATH directories in their order, and
   * when neither standard directory was listed it starts with /usr/bin, /usr/local/bin.
   */
  lemma PathCandidatesShape(environment: seq<string>)
    ensures PathCandidates(environment) == [] <==> PathValue(environment).None?
    ensures PathValue(environment).Some? ==>
      var dirs := Split(PathValue(environment).value, ':');
      && "/usr/local/bin" in PathCandidates(environment)
      && "/usr/bin" in PathCandidates(environment)
      && |dirs| <= |PathCandidates(environment)|
      && PathCandidates(environment)[|PathCandidates(environment)| - |dirs|..] == dirs
      && ("/usr/local/bin" !in dirs && "/usr/bin" !in dirs ==> PathCandidates(environment) == ["/usr/bin", "/usr/local/bin"] + dirs)
  {
    if PathValue(environment).Some? {
      var dirs := Split(PathValue(environment).value, ':');
      var c := PathCandidates(environment);
      var withLocal := if "/usr/local/bin" in dirs then dirs else ["/usr/local/bin"] + dirs;
      assert withLocal[|withLocal| - |dirs|..] == dirs;
      assert c[|c| - |withLocal|..] == withLocal;
      assert c[|c| - |dirs|..] == withLocal[|withLocal| - |dirs|..];
    }
  }

  /** The PATH search of StartHeimdall: the first entry whose first five characters are "PATH=". */
  method PathList(environment: seq<string>) returns (paths: seq<string>)
    ensures paths == PathCandidates(environment)
  {
    paths := [];
    var i := 0;
    while i < |environment|
      invariant 0 <= i <= |environment|
      invariant paths == []
      invariant PathValue(environment) == PathValue(environment[i..])
    {
      assert environment[i..][1..] == environment[i + 1..];
      if Left(environment[i], 5) == PathKey {
        paths := Split(environment[i][5..], ':');
        if "/usr/local/bin" !in paths {
          paths := ["/usr/local/bin"] + paths;
        }
        if "/usr/bin" !in paths {
          paths := ["/usr/bin"] + paths;
        }
        return;
      }
      i := i + 1;
    }
  }

  /** The program started from a directory: a separator is added unless the directory ends in one. */
  function Executable(directory: string): string
    requires directory != []
  {
    var withSeparator := if directory[|directory| - 1] != '/' then directory + "/" else directory;
    withSeparator + "heimdall"
  }

  /** The program is the directory followed by "/heimdall", with no separator doubled. */
  lemma ExecutableShape(directory: string)
    requires directory != []
    ensures StartsWith(Executable(directory), directory) && EndsWith(Executable(directory), "/heimdall")
    ensures |Executable(directory)| <= |directory| + |"/heimdall"|
    ensures directory[|directory| - 1] == '/' ==> Executable(directory) == directory + "heimdall"
  {
    var withSeparator := if directory[|directory| - 1] != '/' then directory + "/" else directory;
    assert withSeparator[|withSeparator| - 1] == '/';
    var r := withSeparator + "heimdall";
    assert r[..|directory|] == directory;
    assert r[|r| - |"/heimdall"|..] == withSeparator[|withSeparator| - 1..] + "heimdall";
  }

  // ---------------------------------------------------------------- a scanned chunk

  /** What HandleHeimdallStdout takes from a chunk: the label, the progress value and the text to show. */
  datatype Chunk = Chunk(uploading: Option<string>, percent: Option<int>, shown: string)

  function Scan(output: string): Chunk
  {
    Chunk(UploadingLabel(output), ProgressValue(output), Display(output))
  }

  /** A chunk with nothing in it changes nothing. */
  lemma ScanEmpty()
    ensures Scan([]) == Chunk(None, None, [])
  {
  }

  /** The text shown for two chunks is the text shown for their concatenation. */
  lemma ScanAppend(a: string, b: string)
    ensures Scan(a + b).shown == Scan(a).shown + Scan(b).shown
  {
    DisplayAppend(a, b);
  }
}
