/**
 * The TEE classifier: case-insensitive substring checks over the device's properties,
 * device nodes, kernel log and vendor libraries collect a list of hints; each TEE family
 * is scored by the hints collected so far that mention one of its keywords; the family
 * with the strictly highest score wins and the confidence is twelve points per hint,
 * at most 100.
 */
module Tee {

  import opened Text

  datatype TeeType =
    | Unknown
    | QualcommQSEE
    | OPTEE
    | TrustonicKinibi
    | SamsungTEEgris
    | MediaTekMicrotrust
    | HuaweiiTEE
    | GoogleStrongBoxTitanM

  datatype TeeAnalysisResult = TeeAnalysisResult(tee: TeeType, typeName: string, confidence: int, indicators: seq<string>)

  /** The four inputs of the analysis. */
  datatype Evidence = Evidence(props: string, devNodes: string, kernelLog: string, vendorLibs: seq<string>)

  // ---------------------------------------------------------------- filtering

  /** The elements of xs that keep holds for, in order (QStringList::filter and the add loops). */
  function Filter<T>(keep: T -> bool, xs: seq<T>): (r: seq<T>)
    ensures |r| <= |xs|
  {
    if xs == [] then []
    else
      var init := Filter(keep, xs[..|xs| - 1]);
      if keep(xs[|xs| - 1]) then init + [xs[|xs| - 1]] else init
  }

  lemma {:induction false} FilterAppend<T>(keep: T -> bool, a: seq<T>, b: seq<T>)
    ensures Filter(keep, a + b) == Filter(keep, a) + Filter(keep, b)
    decreases |b|
  {
    if b == [] {
      assert a + b == a;
    } else {
      var b' := b[..|b| - 1];
      assert (a + b)[..|a + b| - 1] == a + b';
      FilterAppend(keep, a, b');
    }
  }

  /** Every element is kept as often as it occurs, or not at all. */
  lemma {:induction false} FilterMultiset<T>(keep: T -> bool, xs: seq<T>, x: T)
    ensures multiset(Filter(keep, xs))[x] == if keep(x) then multiset(xs)[x] else 0
    decreases |xs|
  {
    if xs != [] {
      var init := xs[..|xs| - 1];
      FilterMultiset(keep, init, x);
      assert xs == init + [xs[|xs| - 1]];
    }
  }

  /** Nothing is dropped exactly when everything is kept. */
  lemma {:induction false} FilterKeepsAll<T>(keep: T -> bool, xs: seq<T>)
    ensures |Filter(keep, xs)| == |xs| <==> forall i :: 0 <= i < |xs| ==> keep(xs[i])
    decreases |xs|
  {
    if xs != [] {
      var init := xs[..|xs| - 1];
      FilterKeepsAll(keep, init);
      assert forall i :: 0 <= i < |init| ==> init[i] == xs[i];
    }
  }

  /** Nothing is kept exactly when nothing qualifies. */
  lemma {:induction false} FilterKeepsNone<T>(keep: T -> bool, xs: seq<T>)
    ensures Filter(keep, xs) == [] <==> forall i :: 0 <= i < |xs| ==> !keep(xs[i])
    decreases |xs|
  {
    if xs != [] {
      var init := xs[..|xs| - 1];
      FilterKeepsNone(keep, init);
      assert forall i :: 0 <= i < |init| ==> init[i] == xs[i];
    }
  }

  lemma FilterStep<T>(keep: T -> bool, xs: seq<T>, i: nat)
    requires i < |xs|
    ensures Filter(keep, xs[..i + 1]) == Filter(keep, xs[..i]) + (if keep(xs[i]) then [xs[i]] else [])
  {
    assert xs[..i + 1][..i] == xs[..i];
  }

  // ---------------------------------------------------------------- the checks

  /** Whether s contains one of the keys, ignoring case (a QRegExp alternation of plain words). */
  predicate MentionsAny(s: string, keys: seq<string>)
  {
    keys != [] && (ContainsIgnoringCase(s, keys[0]) || MentionsAny(s, keys[1..]))
  }

  lemma {:induction false} MentionsAnyExactly(s: string, keys: seq<string>)
    ensures MentionsAny(s, keys) <==> exists i :: 0 <= i < |keys| && ContainsIgnoringCase(s, keys[i])
  {
    if keys != [] {
      MentionsAnyExactly(s, keys[1..]);
      if MentionsAny(s, keys[1..]) {
        var i :| 0 <= i < |keys[1..]| && ContainsIgnoringCase(s, keys[1..][i]);
        assert ContainsIgnoringCase(s, keys[i + 1]);
      }
      if exists i :: 0 <= i < |keys| && ContainsIgnoringCase(s, keys[i]) {
        var i :| 0 <= i < |keys| && ContainsIgnoringCase(s, keys[i]);
        if i > 0 {
          assert keys[1..][i - 1] == keys[i];
        }
      }
    }
  }

  function FoundIn(haystack: string): string -> bool
  {
    needle => ContainsIgnoringCase(haystack, needle)
  }

  function MentioningAny(keys: seq<string>): string -> bool
  {
    s => MentionsAny(s, keys)
  }

  /** The needles the haystack contains, in check order: what addIfAny appends. */
  function Found(haystack: string, needles: seq<string>): seq<string>
  {
    Filter(FoundIn(haystack), needles)
  }

  /** The vendor libraries that mention one of the markers, whole: what a library loop appends. */
  function LibraryHints(libs: seq<string>, markers: seq<string>): seq<string>
  {
    Filter(MentioningAny(markers), libs)
  }

  /** hints.filter(QRegExp(keywords, Qt::CaseInsensitive)).size(). */
  function Score(hints: seq<string>, keywords: seq<string>): nat
  {
    |Filter(MentioningAny(keywords), hints)|
  }

  /** A needle is appended once for each time it is checked, exactly when the haystack contains it. */
  lemma FoundExactly(haystack: string, needles: seq<string>, needle: string)
    ensures multiset(Found(haystack, needles))[needle]
      == if ContainsIgnoringCase(haystack, needle) then multiset(needles)[needle] else 0
  {
    FilterMultiset(FoundIn(haystack), needles, needle);
  }

  /** Checks append their hints in the order they are made. */
  lemma FoundInOrder(haystack: string, a: seq<string>, b: seq<string>)
    ensures Found(haystack, a + b) == Found(haystack, a) + Found(haystack, b)
  {
    FilterAppend(FoundIn(haystack), a, b);
  }

  /** A library is appended whole, once per occurrence, exactly when it mentions a marker. */
  lemma LibraryHintsExactly(libs: seq<string>, markers: seq<string>, lib: string)
    ensures multiset(LibraryHints(libs, markers))[lib]
      == if exists i :: 0 <= i < |markers| && ContainsIgnoringCase(lib, markers[i]) then multiset(libs)[lib] else 0
  {
    FilterMultiset(MentioningAny(markers), libs, lib);
    MentionsAnyExactly(lib, markers);
  }

  /** A score adds up over consecutive parts of the hint list. */
  lemma ScoreAppend(a: seq<string>, b: seq<string>, keywords: seq<string>)
    ensures Score(a + b, keywords) == Score(a, keywords) + Score(b, keywords)
  {
    FilterAppend(MentioningAny(keywords), a, b);
  }

  /** A score is 0 exactly when no hint mentions a keyword, and the number of hints exactly when all do. */
  lemma ScoreExtremes(hints: seq<string>, keywords: seq<string>)
    ensures Score(hints, keywords) <= |hints|
    ensures Score(hints, keywords) == 0 <==> forall i :: 0 <= i < |hints| ==> !MentionsAny(hints[i], keywords)
    ensures Score(hints, keywords) == |hints| <==> forall i :: 0 <= i < |hints| ==> MentionsAny(hints[i], keywords)
  {
    FilterKeepsNone(MentioningAny(keywords), hints);
    FilterKeepsAll(MentioningAny(keywords), hints);
  }

  // ---------------------------------------------------------------- the families

  /** A family as the candidate list names it, with the keywords that score it. */
  datatype Family = Family(tee: TeeType, name: string, keywords: seq<string>)

  // The needles, library markers and scoring keywords of each family, as analyze lists them.
  const QseeProps := ["qcom", "qsee", "qtee", "keymaster.qcom"]
  const QseeDevNode := "qseecom"
  const QseeKernelLog := ["qseecom", "qsee", "qtee"]
  const QseeLibraries := ["QSEE", "QTEE", "QSEECom"]
  const QseeKeywords := ["qsee", "qtee", "qcom", "QSEE", "QTEE"]

  const OpteeDevNodes := ["/dev/tee0", "/dev/teepriv0"]
  const OpteeKernelLog := ["optee", "tee core"]
  const OpteeProps := ["optee", "keymaster.optee"]
  const OpteeKeywords := ["optee", "teepriv", "/dev/tee"]

  const TrustonicNeedles := ["trustonic", "mobicore", "kinibi"]
  const TrustonicLibraries := ["McClient", "trustonic", "mobicore"]
  const TrustonicKeywords := ["trustonic", "mobicore", "kinibi", "McClient"]

  const TeegrisNeedles := ["teegris", "tima"]

  const MtkProps := ["mtk", "microtrust"]
  const MtkKernelLog := ["microtrust", "mtk tee"]
  const MtkKeywords := ["microtrust", "mtk"]

  const HisiProps := ["hisi", "huawei", "itee"]
  const HisiKernelLog := ["hisi", "itee"]
  const HisiKeywords := ["itee", "hisi", "huawei"]

  const StrongBoxProps := ["strongbox", "titan_m"]
  const StrongBoxKernelLog := ["strongbox"]
  const StrongBoxKeywords := ["strongbox", "titan"]

  /** The families in the order analyze checks and ranks them. */
  const Families: seq<Family> := [
    Family(QualcommQSEE, "Qualcomm QSEE (QTEE)", QseeKeywords),
    Family(OPTEE, "OP-TEE", OpteeKeywords),
    Family(TrustonicKinibi, "Trustonic Kinibi (Mobicore)", TrustonicKeywords),
    Family(SamsungTEEgris, "Samsung TEEgris (TIMA)", TeegrisNeedles),
    Family(MediaTekMicrotrust, "MediaTek Microtrust", MtkKeywords),
    Family(HuaweiiTEE, "Huawei iTEE", HisiKeywords),
    Family(GoogleStrongBoxTitanM, "Google StrongBox (Titan M)", StrongBoxKeywords)
  ]

  // The hints each family's checks append, in the order analyze makes them, from the inputs
  // those checks read.

  function QseeHints(props: string, devNodes: string, kernelLog: string, vendorLibs: seq<string>): seq<string>
  {
    Found(props, QseeProps) + Found(devNodes, [QseeDevNode]) + Found(kernelLog, QseeKernelLog)
      + LibraryHints(vendorLibs, QseeLibraries)
  }

  function OpteeHints(props: string, devNodes: string, kernelLog: string): seq<string>
  {
    Found(devNodes, OpteeDevNodes) + Found(kernelLog, OpteeKernelLog) + Found(props, OpteeProps)
  }

  function TrustonicHints(props: string, kernelLog: string, vendorLibs: seq<string>): seq<string>
  {
    Found(props, TrustonicNeedles) + Found(kernelLog, TrustonicNeedles) + LibraryHints(vendorLibs, TrustonicLibraries)
  }

  function TeegrisHints(props: string, kernelLog: string, vendorLibs: seq<string>): seq<string>
  {
    Found(props, TeegrisNeedles) + Found(kernelLog, TeegrisNeedles) + LibraryHints(vendorLibs, TeegrisNeedles)
  }

  /** The MediaTek, Huawei and StrongBox families each check the properties and then the kernel log. */
  function PropsAndLogHints(props: string, kernelLog: string, propNeedles: seq<string>, logNeedles: seq<string>): seq<string>
  {
    Found(props, propNeedles) + Found(kernelLog, logNeedles)
  }

  /** The hints the checks of family k append. */
  function Stage(e: Evidence, k: nat): seq<string>
    requires k < 7
  {
    if k == 0 then QseeHints(e.props, e.devNodes, e.kernelLog, e.vendorLibs)
    else if k == 1 then OpteeHints(e.props, e.devNodes, e.kernelLog)
    else if k == 2 then TrustonicHints(e.props, e.kernelLog, e.vendorLibs)
    else if k == 3 then TeegrisHints(e.props, e.kernelLog, e.vendorLibs)
    else if k == 4 then PropsAndLogHints(e.props, e.kernelLog, MtkProps, MtkKernelLog)
    else if k == 5 then PropsAndLogHints(e.props, e.kernelLog, HisiProps, HisiKernelLog)
    else PropsAndLogHints(e.props, e.kernelLog, StrongBoxProps, StrongBoxKernelLog)
  }

  /** The hints of every family, family by family. */
  function Stages(e: Evidence): (r: seq<seq<string>>)
    ensures |r| == 7
  {
    seq(7, k requires 0 <= k < 7 => Stage(e, k))
  }

  /** The hint list once the first n families have made their checks. */
  function HintsUpTo(stages: seq<seq<string>>, n: nat): seq<string>
    requires n <= |stages|
  {
    if n == 0 then [] else HintsUpTo(stages, n - 1) + stages[n - 1]
  }

  /** A family's score, taken right after its own checks. */
  function FamilyScore(fams: seq<Family>, stages: seq<seq<string>>, i: nat): nat
    requires i < |fams| && i < |stages|
  {
    Score(HintsUpTo(stages, i + 1), fams[i].keywords)
  }

  // ---------------------------------------------------------------- the choice

  datatype Candidate = Candidate(tee: TeeType, name: string, score: nat)

  const NoCandidate := Candidate(Unknown, "Unknown", 0)

  /** The candidate list of analyze: each family with its score. */
  function Candidates(fams: seq<Family>, stages: seq<seq<string>>): (r: seq<Candidate>)
    requires |fams| == |stages|
    ensures |r| == |fams|
    ensures forall i :: 0 <= i < |fams| ==> r[i] == Candidate(fams[i].tee, fams[i].name, FamilyScore(fams, stages, i))
  {
    seq(|fams|, i requires 0 <= i < |fams| => Candidate(fams[i].tee, fams[i].name, FamilyScore(fams, stages, i)))
  }

  /** The candidate loop: a later candidate replaces the best so far only with a strictly higher score. */
  function BestOf(cands: seq<Candidate>): Candidate
  {
    if cands == [] then NoCandidate
    else
      var b := BestOf(cands[..|cands| - 1]);
      if cands[|cands| - 1].score > b.score then cands[|cands| - 1] else b
  }

  /** qBound(lo, v, hi). */
  function Clamp(lo: int, v: int, hi: int): (r: int)
    requires lo <= hi
    ensures lo <= r <= hi
    ensures lo <= v <= hi ==> r == v
  {
    if v < lo then lo else if v > hi then hi else v
  }

  /** What analyze returns, given the families it ranks and the hints each family's checks append. */
  function AnalysisOf(fams: seq<Family>, stages: seq<seq<string>>): TeeAnalysisResult
    requires |fams| == |stages|
  {
    var best := BestOf(Candidates(fams, stages));
    TeeAnalysisResult(best.tee, best.name, Clamp(0, best.score * 12, 100), HintsUpTo(stages, |stages|))
  }

  /** What analyze returns for the evidence. */
  function Analysis(e: Evidence): TeeAnalysisResult
  {
    AnalysisOf(Families, Stages(e))
  }

  // ---------------------------------------------------------------- properties of the choice

  /** The winner's score is the highest one, and no candidate at all is also a possible winner. */
  lemma {:induction false} BestOfIsMaximal(cands: seq<Candidate>)
    ensures forall i :: 0 <= i < |cands| ==> cands[i].score <= BestOf(cands).score
    ensures BestOf(cands) == NoCandidate || BestOf(cands) in cands
  {
    if cands != [] {
      var init := cands[..|cands| - 1];
      BestOfIsMaximal(init);
      assert forall i :: 0 <= i < |init| ==> init[i] == cands[i];
    }
  }

  /** A winner beats every earlier candidate strictly: ties go to the earliest family. */
  lemma {:induction false} BestOfIsEarliest(cands: seq<Candidate>)
    ensures BestOf(cands).score == 0 ==> BestOf(cands) == NoCandidate
    ensures BestOf(cands).score > 0 ==>
      exists i :: (0 <= i < |cands| && cands[i] == BestOf(cands)
        && forall j :: 0 <= j < i ==> cands[j].score < cands[i].score)
  {
    if cands != [] {
      var init := cands[..|cands| - 1];
      BestOfIsEarliest(init);
      BestOfIsMaximal(init);
      var b := BestOf(init);
      var last := |cands| - 1;
      assert BestOf(cands) == if cands[last].score > b.score then cands[last] else b;
      if cands[last].score > b.score {
        assert forall j :: 0 <= j < last ==> cands[j] == init[j];
        assert cands[last] == BestOf(cands) && forall j :: 0 <= j < last ==> cands[j].score < cands[last].score;
      } else if b.score > 0 {
        var i :| 0 <= i < |init| && init[i] == b && forall j :: 0 <= j < i ==> init[j].score < init[i].score;
        assert forall j :: 0 <= j < i ==> cands[j] == init[j];
        assert cands[i] == BestOf(cands) && forall j :: 0 <= j < i ==> cands[j].score < cands[i].score;
      }
    }
  }

  // ---------------------------------------------------------------- properties of the analysis

  /**
   * The confidence is twelve points per hint of the best-scoring family, at most 100,
   * where the best score is the highest family score (0 without families).
   */
  lemma ConfidenceScaled(fams: seq<Family>, stages: seq<seq<string>>)
    requires |fams| == |stages|
    ensures var best := BestOf(Candidates(fams, stages)).score;
      && 0 <= AnalysisOf(fams, stages).confidence <= 100
      && AnalysisOf(fams, stages).confidence == (if 12 * best < 100 then 12 * best else 100)
      && (forall i :: 0 <= i < |fams| ==> FamilyScore(fams, stages, i) <= best)
      && (best == 0 || exists i :: 0 <= i < |fams| && FamilyScore(fams, stages, i) == best)
  {
    var cands := Candidates(fams, stages);
    BestOfIsMaximal(cands);
    BestOfIsEarliest(cands);
  }

  /** Without a scoring hint the result is Unknown with confidence 0, and only then is the confidence 0. */
  lemma UnknownExactlyWithoutScores(fams: seq<Family>, stages: seq<seq<string>>)
    requires |fams| == |stages|
    ensures (forall i :: 0 <= i < |fams| ==> FamilyScore(fams, stages, i) == 0) <==> AnalysisOf(fams, stages).confidence == 0
    ensures AnalysisOf(fams, stages).confidence == 0 ==>
      AnalysisOf(fams, stages).tee == Unknown && AnalysisOf(fams, stages).typeName == "Unknown"
  {
    var cands := Candidates(fams, stages);
    BestOfIsMaximal(cands);
    BestOfIsEarliest(cands);
    if AnalysisOf(fams, stages).confidence != 0 {
      var i :| 0 <= i < |cands| && cands[i] == BestOf(cands) && forall j :: 0 <= j < i ==> cands[j].score < cands[i].score;
      assert FamilyScore(fams, stages, i) != 0;
    }
  }

  /** Family i scores highest, and every earlier family strictly lower. */
  predicate EarliestBest(fams: seq<Family>, stages: seq<seq<string>>, i: nat)
    requires i < |fams| == |stages|
  {
    && (forall j :: 0 <= j < |fams| ==> FamilyScore(fams, stages, j) <= FamilyScore(fams, stages, i))
    && (forall j :: 0 <= j < i ==> FamilyScore(fams, stages, j) < FamilyScore(fams, stages, i))
  }

  /**
   * With a positive confidence the result names the family with the highest score, and
   * every earlier family scores strictly lower: ties go to the earliest family.
   */
  lemma WinnerIsEarliestBest(fams: seq<Family>, stages: seq<seq<string>>)
    requires |fams| == |stages|
    ensures AnalysisOf(fams, stages).confidence > 0 ==>
      exists i: nat :: i < |fams| && EarliestBest(fams, stages, i)
        && AnalysisOf(fams, stages).tee == fams[i].tee && AnalysisOf(fams, stages).typeName == fams[i].name
  {
    var cands := Candidates(fams, stages);
    BestOfIsMaximal(cands);
    BestOfIsEarliest(cands);
    if AnalysisOf(fams, stages).confidence > 0 {
      var i :| 0 <= i < |cands| && cands[i] == BestOf(cands) && forall j :: 0 <= j < i ==> cands[j].score < cands[i].score;
      assert EarliestBest(fams, stages, i) by {
        forall j | 0 <= j < |fams| ensures FamilyScore(fams, stages, j) <= FamilyScore(fams, stages, i) {
          assert cands[j].score <= BestOf(cands).score;
        }
        forall j | 0 <= j < i ensures FamilyScore(fams, stages, j) < FamilyScore(fams, stages, i) {
          assert cands[j].score < cands[i].score;
        }
      }
      assert AnalysisOf(fams, stages).tee == fams[i].tee && AnalysisOf(fams, stages).typeName == fams[i].name;
    }
  }

  /** The hint list grows by appending only. */
  lemma {:induction false} HintsGrow(stages: seq<seq<string>>, m: nat, n: nat)
    requires m <= n <= |stages|
    ensures HintsUpTo(stages, m) <= HintsUpTo(stages, n)
    decreases n - m
  {
    if m < n {
      HintsGrow(stages, m, n - 1);
    }
  }

  /**
   * The indicators are the whole hint list, and each family's score counts the hints of
   * that list up to the family's own checks: hints of later families do not change it.
   */
  lemma ScoresCountEarlierHints(fams: seq<Family>, stages: seq<seq<string>>, i: nat)
    requires i < |fams| == |stages|
    ensures AnalysisOf(fams, stages).indicators == HintsUpTo(stages, |stages|)
    ensures |HintsUpTo(stages, i + 1)| <= |AnalysisOf(fams, stages).indicators|
    ensures FamilyScore(fams, stages, i)
      == Score(AnalysisOf(fams, stages).indicators[..|HintsUpTo(stages, i + 1)|], fams[i].keywords)
  {
    HintsGrow(stages, i + 1, |stages|);
    var all := HintsUpTo(stages, |stages|);
    assert all[..|HintsUpTo(stages, i + 1)|] == HintsUpTo(stages, i + 1);
  }

  /** Hints appended one check after another form one family's part of the list. */
  lemma Appended2(prev: seq<string>, a: seq<string>, b: seq<string>, h: seq<string>)
    requires h == prev + a + b
    ensures h == prev + (a + b)
  {
  }

  lemma Appended3(prev: seq<string>, a: seq<string>, b: seq<string>, c: seq<string>, h: seq<string>)
    requires h == prev + a + b + c
    ensures h == prev + (a + b + c)
  {
  }

  lemma Appended4(prev: seq<string>, a: seq<string>, b: seq<string>, c: seq<string>, d: seq<string>, h: seq<string>)
    requires h == prev + a + b + c + d
    ensures h == prev + (a + b + c + d)
  {
  }

  // ---------------------------------------------------------------- analyze

  /** addIfContains. */
  method AddIfContains(hints: seq<string>, haystack: string, needle: string) returns (r: seq<string>)
    ensures r == hints + Found(haystack, [needle])
  {
    r := hints;
    if ContainsIgnoringCase(haystack, needle) {
      r := r + [needle];
    }
    assert [needle][..0] == [];
    assert Filter(FoundIn(haystack), [needle][..0]) == [];
  }

  /** addIfAny. */
  method AddIfAny(hints: seq<string>, haystack: string, needles: seq<string>) returns (r: seq<string>)
    ensures r == hints + Found(haystack, needles)
  {
    r := hints;
    for i := 0 to |needles|
      invariant r == hints + Found(haystack, needles[..i])
    {
      FilterStep(FoundIn(haystack), needles, i);
      r := AddIfContains(r, haystack, needles[i]);
    }
    assert needles[..|needles|] == needles;
  }

  /** A vendor-library loop of analyze: each library mentioning a marker is appended. */
  method AddLibraries(hints: seq<string>, vendorLibs: seq<string>, markers: seq<string>) returns (r: seq<string>)
    ensures r == hints + LibraryHints(vendorLibs, markers)
  {
    r := hints;
    for i := 0 to |vendorLibs|
      invariant r == hints + LibraryHints(vendorLibs[..i], markers)
    {
      FilterStep(MentioningAny(markers), vendorLibs, i);
      if MentionsAny(vendorLibs[i], markers) {
        r := r + [vendorLibs[i]];
      }
    }
    assert vendorLibs[..|vendorLibs|] == vendorLibs;
  }

  /** The candidate loop of analyze. */
  method ChooseBest(cands: seq<Candidate>) returns (best: Candidate)
    ensures best == BestOf(cands)
  {
    best := NoCandidate;
    for i := 0 to |cands|
      invariant best == BestOf(cands[..i])
    {
      assert cands[..i + 1][..i] == cands[..i];
      if cands[i].score > best.score {
        best := cands[i];
      }
    }
    assert cands[..|cands|] == cands;
  }

  // The checks of each family, in the order analyze makes them.

  method AddQseeHints(hints: seq<string>, e: Evidence) returns (r: seq<string>)
    ensures r == hints + Stage(e, 0)
  {
    r := AddIfAny(hints, e.props, QseeProps);
    r := AddIfContains(r, e.devNodes, QseeDevNode);
    r := AddIfAny(r, e.kernelLog, QseeKernelLog);
    r := AddLibraries(r, e.vendorLibs, QseeLibraries);
    Appended4(hints, Found(e.props, QseeProps), Found(e.devNodes, [QseeDevNode]), Found(e.kernelLog, QseeKernelLog),
      LibraryHints(e.vendorLibs, QseeLibraries), r);
  }

  method AddOpteeHints(hints: seq<string>, e: Evidence) returns (r: seq<string>)
    ensures r == hints + Stage(e, 1)
  {
    r := AddIfAny(hints, e.devNodes, OpteeDevNodes);
    r := AddIfAny(r, e.kernelLog, OpteeKernelLog);
    r := AddIfAny(r, e.props, OpteeProps);
    Appended3(hints, Found(e.devNodes, OpteeDevNodes), Found(e.kernelLog, OpteeKernelLog), Found(e.props, OpteeProps), r);
  }

  method AddTrustonicHints(hints: seq<string>, e: Evidence) returns (r: seq<string>)
    ensures r == hints + Stage(e, 2)
  {
    r := AddIfAny(hints, e.props, TrustonicNeedles);
    r := AddIfAny(r, e.kernelLog, TrustonicNeedles);
    r := AddLibraries(r, e.vendorLibs, TrustonicLibraries);
    Appended3(hints, Found(e.props, TrustonicNeedles), Found(e.kernelLog, TrustonicNeedles),
      LibraryHints(e.vendorLibs, TrustonicLibraries), r);
  }

  method AddTeegrisHints(hints: seq<string>, e: Evidence) returns (r: seq<string>)
    ensures r == hints + Stage(e, 3)
  {
    r := AddIfAny(hints, e.props, TeegrisNeedles);
    r := AddIfAny(r, e.kernelLog, TeegrisNeedles);
    r := AddLibraries(r, e.vendorLibs, TeegrisNeedles);
    Appended3(hints, Found(e.props, TeegrisNeedles), Found(e.kernelLog, TeegrisNeedles),
      LibraryHints(e.vendorLibs, TeegrisNeedles), r);
  }

  method AddPropsAndLogHints(hints: seq<string>, props: string, kernelLog: string, propNeedles: seq<string>, logNeedles: seq<string>)
    returns (r: seq<string>)
    ensures r == hints + PropsAndLogHints(props, kernelLog, propNeedles, logNeedles)
  {
    r := AddIfAny(hints, props, propNeedles);
    r := AddIfAny(r, kernelLog, logNeedles);
    Appended2(hints, Found(props, propNeedles), Found(kernelLog, logNeedles), r);
  }

  method AddMtkHints(hints: seq<string>, e: Evidence) returns (r: seq<string>)
    ensures r == hints + Stage(e, 4)
  {
    r := AddPropsAndLogHints(hints, e.props, e.kernelLog, MtkProps, MtkKernelLog);
  }

  method AddHisiHints(hints: seq<string>, e: Evidence) returns (r: seq<string>)
    ensures r == hints + Stage(e, 5)
  {
    r := AddPropsAndLogHints(hints, e.props, e.kernelLog, HisiProps, HisiKernelLog);
  }

  method AddStrongBoxHints(hints: seq<string>, e: Evidence) returns (r: seq<string>)
    ensures r == hints + Stage(e, 6)
  {
    r := AddPropsAndLogHints(hints, e.props, e.kernelLog, StrongBoxProps, StrongBoxKernelLog);
  }

  /**
   * The hint list after each family's checks is the list HintsUpTo describes, and each
   * score analyze takes right then is that family's FamilyScore.
   */
  lemma StagesAppended(e: Evidence, h1: seq<string>, h2: seq<string>, h3: seq<string>, h4: seq<string>,
                       h5: seq<string>, h6: seq<string>, h7: seq<string>)
    requires h1 == [] + Stage(e, 0) && h2 == h1 + Stage(e, 1) && h3 == h2 + Stage(e, 2)
    requires h4 == h3 + Stage(e, 3) && h5 == h4 + Stage(e, 4) && h6 == h5 + Stage(e, 5)
    requires h7 == h6 + Stage(e, 6)
    ensures h7 == HintsUpTo(Stages(e), 7)
    ensures Score(h1, QseeKeywords) == FamilyScore(Families, Stages(e), 0)
    ensures Score(h2, OpteeKeywords) == FamilyScore(Families, Stages(e), 1)
    ensures Score(h3, TrustonicKeywords) == FamilyScore(Families, Stages(e), 2)
    ensures Score(h4, TeegrisNeedles) == FamilyScore(Families, Stages(e), 3)
    ensures Score(h5, MtkKeywords) == FamilyScore(Families, Stages(e), 4)
    ensures Score(h6, HisiKeywords) == FamilyScore(Families, Stages(e), 5)
    ensures Score(h7, StrongBoxKeywords) == FamilyScore(Families, Stages(e), 6)
  {
    HintsChain(Stages(e), h1, h2, h3, h4, h5, h6, h7);
    FamiliesListed();
  }

  /** The seven families, entry by entry. */
  lemma FamiliesListed()
    ensures |Families| == 7
    ensures Families[0] == Family(QualcommQSEE, "Qualcomm QSEE (QTEE)", QseeKeywords)
    ensures Families[1] == Family(OPTEE, "OP-TEE", OpteeKeywords)
    ensures Families[2] == Family(TrustonicKinibi, "Trustonic Kinibi (Mobicore)", TrustonicKeywords)
    ensures Families[3] == Family(SamsungTEEgris, "Samsung TEEgris (TIMA)", TeegrisNeedles)
    ensures Families[4] == Family(MediaTekMicrotrust, "MediaTek Microtrust", MtkKeywords)
    ensures Families[5] == Family(HuaweiiTEE, "Huawei iTEE", HisiKeywords)
    ensures Families[6] == Family(GoogleStrongBoxTitanM, "Google StrongBox (Titan M)", StrongBoxKeywords)
  {
  }

  /** Seven stages appended one after another give HintsUpTo at every step. */
  lemma HintsChain(stages: seq<seq<string>>, h1: seq<string>, h2: seq<string>, h3: seq<string>, h4: seq<string>,
                   h5: seq<string>, h6: seq<string>, h7: seq<string>)
    requires |stages| == 7
    requires h1 == [] + stages[0] && h2 == h1 + stages[1] && h3 == h2 + stages[2] && h4 == h3 + stages[3]
    requires h5 == h4 + stages[4] && h6 == h5 + stages[5] && h7 == h6 + stages[6]
    ensures h1 == HintsUpTo(stages, 1) && h2 == HintsUpTo(stages, 2) && h3 == HintsUpTo(stages, 3)
    ensures h4 == HintsUpTo(stages, 4) && h5 == HintsUpTo(stages, 5) && h6 == HintsUpTo(stages, 6)
    ensures h7 == HintsUpTo(stages, 7)
  {
  }

  /** The candidate list analyze writes out is Candidates of the families and their hints. */
  lemma CandidatesListed(e: Evidence, s0: nat, s1: nat, s2: nat, s3: nat, s4: nat, s5: nat, s6: nat)
    requires s0 == FamilyScore(Families, Stages(e), 0) && s1 == FamilyScore(Families, Stages(e), 1)
    requires s2 == FamilyScore(Families, Stages(e), 2) && s3 == FamilyScore(Families, Stages(e), 3)
    requires s4 == FamilyScore(Families, Stages(e), 4) && s5 == FamilyScore(Families, Stages(e), 5)
    requires s6 == FamilyScore(Families, Stages(e), 6)
    ensures [Candidate(QualcommQSEE, "Qualcomm QSEE (QTEE)", s0),
             Candidate(OPTEE, "OP-TEE", s1),
             Candidate(TrustonicKinibi, "Trustonic Kinibi (Mobicore)", s2),
             Candidate(SamsungTEEgris, "Samsung TEEgris (TIMA)", s3),
             Candidate(MediaTekMicrotrust, "MediaTek Microtrust", s4),
             Candidate(HuaweiiTEE, "Huawei iTEE", s5),
             Candidate(GoogleStrongBoxTitanM, "Google StrongBox (Titan M)", s6)]
      == Candidates(Families, Stages(e))
  {
    FamiliesListed();
    CandidatesOfSeven(Families, Stages(e));
  }

  /** Candidates of seven families, written out. */
  lemma CandidatesOfSeven(fams: seq<Family>, stages: seq<seq<string>>)
    requires |fams| == |stages| == 7
    ensures Candidates(fams, stages) == [
      Candidate(fams[0].tee, fams[0].name, FamilyScore(fams, stages, 0)),
      Candidate(fams[1].tee, fams[1].name, FamilyScore(fams, stages, 1)),
      Candidate(fams[2].tee, fams[2].name, FamilyScore(fams, stages, 2)),
      Candidate(fams[3].tee, fams[3].name, FamilyScore(fams, stages, 3)),
      Candidate(fams[4].tee, fams[4].name, FamilyScore(fams, stages, 4)),
      Candidate(fams[5].tee, fams[5].name, FamilyScore(fams, stages, 5)),
      Candidate(fams[6].tee, fams[6].name, FamilyScore(fams, stages, 6))]
  {
    var listed := [
      Candidate(fams[0].tee, fams[0].name, FamilyScore(fams, stages, 0)),
      Candidate(fams[1].tee, fams[1].name, FamilyScore(fams, stages, 1)),
      Candidate(fams[2].tee, fams[2].name, FamilyScore(fams, stages, 2)),
      Candidate(fams[3].tee, fams[3].name, FamilyScore(fams, stages, 3)),
      Candidate(fams[4].tee, fams[4].name, FamilyScore(fams, stages, 4)),
      Candidate(fams[5].tee, fams[5].name, FamilyScore(fams, stages, 5)),
      Candidate(fams[6].tee, fams[6].name, FamilyScore(fams, stages, 6))];
    forall i | 0 <= i < 7
      ensures Candidates(fams, stages)[i] == listed[i]
    {
      assert i == 0 || i == 1 || i == 2 || i == 3 || i == 4 || i == 5 || i == 6;
    }
  }

  method Analyze(props: string, devNodes: string, kernelLog: string, vendorLibs: seq<string>) returns (res: TeeAnalysisResult)
    ensures res == Analysis(Evidence(props, devNodes, kernelLog, vendorLibs))
  {
    var e := Evidence(props, devNodes, kernelLog, vendorLibs);
    var hints: seq<string> := [];

    hints := AddQseeHints(hints, e);
    ghost var h1 := hints;
    var qseeScore := Score(hints, QseeKeywords);

    hints := AddOpteeHints(hints, e);
    ghost var h2 := hints;
    var opteeScore := Score(hints, OpteeKeywords);

    hints := AddTrustonicHints(hints, e);
    ghost var h3 := hints;
    var trustonicScore := Score(hints, TrustonicKeywords);

    hints := AddTeegrisHints(hints, e);
    ghost var h4 := hints;
    var teegrisScore := Score(hints, TeegrisNeedles);

    hints := AddMtkHints(hints, e);
    ghost var h5 := hints;
    var mtkScore := Score(hints, MtkKeywords);

    hints := AddHisiHints(hints, e);
    ghost var h6 := hints;
    var hisiScore := Score(hints, HisiKeywords);

    hints := AddStrongBoxHints(hints, e);
    var strongboxScore := Score(hints, StrongBoxKeywords);

    StagesAppended(e, h1, h2, h3, h4, h5, h6, hints);
    CandidatesListed(e, qseeScore, opteeScore, trustonicScore, teegrisScore, mtkScore, hisiScore, strongboxScore);
    var cands := [
      Candidate(QualcommQSEE, "Qualcomm QSEE (QTEE)", qseeScore),
      Candidate(OPTEE, "OP-TEE", opteeScore),
      Candidate(TrustonicKinibi, "Trustonic Kinibi (Mobicore)", trustonicScore),
      Candidate(SamsungTEEgris, "Samsung TEEgris (TIMA)", teegrisScore),
      Candidate(MediaTekMicrotrust, "MediaTek Microtrust", mtkScore),
      Candidate(HuaweiiTEE, "Huawei iTEE", hisiScore),
      Candidate(GoogleStrongBoxTitanM, "Google StrongBox (Titan M)", strongboxScore)
    ];
    var best := ChooseBest(cands);

    res := TeeAnalysisResult(best.tee, best.name, Clamp(0, best.score * 12, 100), hints);
  }
}
