/**
 * File-name rules of the frontend: the archive test that warns against flashing
 * archives directly, the ".tar.gz" normalisation of a package path chosen for
 * saving, and the ".pit" suffix of a PIT download destination.
 */
module PackagePaths {

  import opened Wrappers
  import opened Text

  /** The extensions MainWindow::IsArchive treats as archives, in the order it tests them. */
  const ArchiveExtensions: seq<string> := [".tar", ".gz", ".zip", ".bz2", ".7z", ".rar"]

  /** MainWindow::IsArchive: the path ends with an archive extension, ignoring ASCII case. */
  predicate IsArchive(path: string)
  {
    EndsWithIgnoringCase(path, ".tar") || EndsWithIgnoringCase(path, ".gz") || EndsWithIgnoringCase(path, ".zip")
    || EndsWithIgnoringCase(path, ".bz2") || EndsWithIgnoringCase(path, ".7z") || EndsWithIgnoringCase(path, ".rar")
  }

  /** A lower-case literal is its own lower-case form. */
  lemma LowerOfLowerLiteral(e: string)
    requires forall i :: 0 <= i < |e| ==> !('A' <= e[i] <= 'Z')
    ensures Lower(e) == e
  {
  }

  /** Appending ext to any text gives a text that ends with ext, whatever the case of the text. */
  lemma EndsWithIgnoringCaseAppend(stem: string, ext: string)
    ensures EndsWithIgnoringCase(stem + ext, ext)
  {
    LowerAppend(stem, ext);
    assert Lower(stem + ext)[|Lower(stem + ext)| - |Lower(ext)|..] == Lower(ext);
  }

  /** A path is an archive exactly when it ends, ignoring case, with one of ArchiveExtensions. */
  lemma IsArchiveByExtension(path: string)
    ensures IsArchive(path) <==> exists e :: e in ArchiveExtensions && EndsWithIgnoringCase(path, e)
  {
    if IsArchive(path) {
      if EndsWithIgnoringCase(path, ".tar") { assert ".tar" in ArchiveExtensions; }
      else if EndsWithIgnoringCase(path, ".gz") { assert ".gz" in ArchiveExtensions; }
      else if EndsWithIgnoringCase(path, ".zip") { assert ".zip" in ArchiveExtensions; }
      else if EndsWithIgnoringCase(path, ".bz2") { assert ".bz2" in ArchiveExtensions; }
      else if EndsWithIgnoringCase(path, ".7z") { assert ".7z" in ArchiveExtensions; }
      else { assert ".rar" in ArchiveExtensions; }
    }
  }

  /** Any file name followed by an archive extension, in any mix of case, is an archive. */
  lemma ArchiveExtensionMakesArchive(stem: string, ext: string)
    requires Lower(ext) in ArchiveExtensions
    ensures IsArchive(stem + ext)
  {
    EndsWithIgnoringCaseAppend(stem, ext);
    LowerOfLowerLiteral(Lower(ext));
    assert EndsWithIgnoringCase(stem + ext, Lower(ext));
    IsArchiveByExtension(stem + ext);
  }

  // ---------------------------------------------------------------- package paths

  /**
   * The normalisation of a package path before Packaging::BuildPackage in the
   * quick-conversion flow: a path already ending in ".tar.gz" is kept; ".tar" gets
   * ".gz"; a final ".gz" or ".tgz" is replaced by ".tar.gz"; anything else gets
   * ".tar.gz" appended. Every test ignores ASCII case.
   */
  function NormalizePackagePath(p: string): (r: string)
    ensures |p| <= |r| <= |p| + 7
  {
    if EndsWithIgnoringCase(p, ".tar.gz") then p
    else if EndsWithIgnoringCase(p, ".tar") then p + ".gz"
    else if EndsWithIgnoringCase(p, ".gz") then p[..|p| - 3] + ".tar.gz"
    else if EndsWithIgnoringCase(p, ".tgz") then p[..|p| - 4] + ".tar.gz"
    else p + ".tar.gz"
  }

  /** How much of the chosen path survives normalisation: all but the recognised extension. */
  function StemLength(p: string): (n: nat)
    ensures n <= |p|
  {
    if EndsWithIgnoringCase(p, ".tar.gz") then |p| - 7
    else if EndsWithIgnoringCase(p, ".tar") then |p| - 4
    else if EndsWithIgnoringCase(p, ".gz") then |p| - 3
    else if EndsWithIgnoringCase(p, ".tgz") then |p| - 4
    else |p|
  }

  /** A normalised package path always ends with ".tar.gz", ignoring case. */
  lemma NormalizedEndsWithTarGz(p: string)
    ensures EndsWithIgnoringCase(NormalizePackagePath(p), ".tar.gz")
  {
    LowerOfLowerLiteral(".tar.gz");
    LowerOfLowerLiteral(".tar");
    if EndsWithIgnoringCase(p, ".tar.gz") {
    } else if EndsWithIgnoringCase(p, ".tar") {
      LowerAppend(p, ".gz");
      var lp := Lower(p);
      assert lp[|lp| - 4..] == ".tar";
      assert (lp + ".gz")[|lp| - 4..] == lp[|lp| - 4..] + ".gz";
    } else if EndsWithIgnoringCase(p, ".gz") {
      EndsWithIgnoringCaseAppend(p[..|p| - 3], ".tar.gz");
    } else if EndsWithIgnoringCase(p, ".tgz") {
      EndsWithIgnoringCaseAppend(p[..|p| - 4], ".tar.gz");
    } else {
      EndsWithIgnoringCaseAppend(p, ".tar.gz");
    }
  }

  /** The paths normalisation leaves alone are exactly those that already end with ".tar.gz". */
  lemma NormalizeFixedPoints(p: string)
    ensures NormalizePackagePath(p) == p <==> EndsWithIgnoringCase(p, ".tar.gz")
  {
    NormalizedEndsWithTarGz(p);
  }

  /** Normalising twice is normalising once. */
  lemma NormalizeIdempotent(p: string)
    ensures NormalizePackagePath(NormalizePackagePath(p)) == NormalizePackagePath(p)
  {
    NormalizedEndsWithTarGz(p);
  }

  /** Normalisation keeps the path up to its recognised extension and puts seven characters after it. */
  lemma NormalizeKeepsStem(p: string)
    ensures |NormalizePackagePath(p)| == StemLength(p) + 7
    ensures NormalizePackagePath(p)[..StemLength(p)] == p[..StemLength(p)]
  {
    LowerOfLowerLiteral(".tar.gz");
  }

  /** A normalised package path is recognised as an archive. */
  lemma NormalizedIsArchive(p: string)
    ensures IsArchive(NormalizePackagePath(p))
  {
    NormalizedEndsWithTarGz(p);
    LowerOfLowerLiteral(".tar.gz");
    LowerOfLowerLiteral(".gz");
    var lr := Lower(NormalizePackagePath(p));
    assert lr[|lr| - 7..] == ".tar.gz";
    assert lr[|lr| - 3..] == lr[|lr| - 7..][4..];
  }

  /** A text whose last character differs from the last character of p does not end with p. */
  lemma LastCharRulesOut(s: string, p: string)
    requires |p| > 0 && (|s| < |p| || s[|s| - 1] != p[|p| - 1])
    ensures !EndsWith(s, p)
  {
    if |p| <= |s| {
      assert s[|s| - |p|..][|p| - 1] == s[|s| - 1];
    }
  }

  /** The lower-case extensions the normalisation tests are their own lower-case forms. */
  lemma ExtensionLiteralsLower()
    ensures Lower(".tar.gz") == ".tar.gz" && Lower(".tar") == ".tar"
    ensures Lower(".gz") == ".gz" && Lower(".tgz") == ".tgz"
  {
    LowerOfLowerLiteral(".tar.gz");
    LowerOfLowerLiteral(".tar");
    LowerOfLowerLiteral(".gz");
    LowerOfLowerLiteral(".tgz");
  }

  lemma NormalizePlainExample()
    ensures NormalizePackagePath("pkg") == "pkg.tar.gz"
  {
    var a := "pkg";
    assert !EndsWithIgnoringCase(a, ".tar.gz") && !EndsWithIgnoringCase(a, ".tar") && !EndsWithIgnoringCase(a, ".tgz") by {
      assert |Lower(a)| == 3;
    }
    assert !EndsWithIgnoringCase(a, ".gz") by {
      LowerOfLowerLiteral(a);
      LowerOfLowerLiteral(".gz");
      LastCharRulesOut(a, ".gz");
    }
    assert NormalizePackagePath(a) == a + ".tar.gz";
    assert a + ".tar.gz" == "pkg.tar.gz";
  }

  lemma NormalizeTarExample()
    ensures NormalizePackagePath("pkg.tar") == "pkg.tar.gz"
  {
    ExtensionLiteralsLower();
    var b := "pkg.tar";
    LowerOfLowerLiteral(b);
    LastCharRulesOut(b, ".tar.gz");
    assert b[|b| - 4..] == ".tar";
    assert b + ".gz" == "pkg.tar.gz";
  }

  lemma NormalizeGzExample()
    ensures NormalizePackagePath("pkg.gz") == "pkg.tar.gz"
  {
    ExtensionLiteralsLower();
    var c := "pkg.gz";
    LowerOfLowerLiteral(c);
    LastCharRulesOut(c, ".tar.gz");
    LastCharRulesOut(c, ".tar");
    assert c[|c| - 3..] == ".gz";
    assert c[..|c| - 3] + ".tar.gz" == "pkg.tar.gz";
  }

  lemma NormalizeTgzExample()
    ensures NormalizePackagePath("pkg.tgz") == "pkg.tar.gz"
  {
    ExtensionLiteralsLower();
    var d := "pkg.tgz";
    LowerOfLowerLiteral(d);
    assert d[|d| - 7..] != ".tar.gz" by { assert d[|d| - 7..][4] == 't'; }
    LastCharRulesOut(d, ".tar");
    assert d[|d| - 3..] != ".gz" by { assert d[|d| - 3..][0] == 't'; }
    assert d[|d| - 4..] == ".tgz";
    assert d[..|d| - 4] + ".tar.gz" == "pkg.tar.gz";
  }

  lemma NormalizeTarGzExample()
    ensures NormalizePackagePath("pkg.tar.gz") == "pkg.tar.gz"
  {
    ExtensionLiteralsLower();
    var e := "pkg.tar.gz";
    LowerOfLowerLiteral(e);
    assert e[|e| - 7..] == ".tar.gz";
  }

  /** The documented normalisation examples. */
  lemma NormalizeExamples()
    ensures NormalizePackagePath("pkg") == "pkg.tar.gz"
    ensures NormalizePackagePath("pkg.tar") == "pkg.tar.gz"
    ensures NormalizePackagePath("pkg.gz") == "pkg.tar.gz"
    ensures NormalizePackagePath("pkg.tgz") == "pkg.tar.gz"
    ensures NormalizePackagePath("pkg.tar.gz") == "pkg.tar.gz"
  {
    NormalizePlainExample();
    NormalizeTarExample();
    NormalizeGzExample();
    NormalizeTgzExample();
    NormalizeTarGzExample();
  }

  /**
   * The same normalisation as MainWindow::BuildPackage writes it. Its ".gz" and
   * ".tgz" branches call the two-argument QString::replace with a length and a
   * string; the only two-argument overload that accepts them is
   * replace(QChar, QString), so the length is converted to a 16-bit character code
   * and every character with that code is replaced, instead of the extension.
   */
  function BuildPackagePathAsWritten(p: string): (r: string)
    ensures EndsWithIgnoringCase(p, ".tar.gz") ==> r == p
  {
    if EndsWithIgnoringCase(p, ".tar.gz") then p
    else if EndsWithIgnoringCase(p, ".tar") then p + ".gz"
    else if EndsWithIgnoringCase(p, ".gz") then ReplaceCode(p, (|p| - 3) % 0x1_0000, ".tar.gz")
    else if EndsWithIgnoringCase(p, ".tgz") then ReplaceCode(p, (|p| - 4) % 0x1_0000, ".tar.gz")
    else p + ".tar.gz"
  }

  /**
   * A ".gz" path none of whose characters has the code of its length minus three is
   * saved unchanged by BuildPackage, so the package does not end with ".tar.gz".
   */
  lemma BuildPackageKeepsPlainGz(p: string)
    requires EndsWithIgnoringCase(p, ".gz") && !EndsWithIgnoringCase(p, ".tar.gz")
    requires forall i :: 0 <= i < |p| ==> p[i] as int != (|p| - 3) % 0x1_0000
    ensures BuildPackagePathAsWritten(p) == p
    ensures !EndsWithIgnoringCase(BuildPackagePathAsWritten(p), ".tar.gz")
  {
    LowerOfLowerLiteral(".tar");
    LowerOfLowerLiteral(".gz");
    var lp := Lower(p);
    assert lp[|lp| - 3..] == ".gz";
    assert lp[|lp| - 1] == 'z';
    assert !EndsWith(lp, ".tar");
  }

  /** "pkg.gz" is saved as "pkg.gz" by BuildPackage and as "pkg.tar.gz" by the normalisation. */
  lemma BuildPackageGzExample()
    ensures BuildPackagePathAsWritten("pkg.gz") == "pkg.gz"
    ensures !EndsWithIgnoringCase(BuildPackagePathAsWritten("pkg.gz"), ".tar.gz")
    ensures NormalizePackagePath("pkg.gz") == "pkg.tar.gz"
  {
    LowerOfLowerLiteral(".tar.gz");
    LowerOfLowerLiteral(".gz");
    assert Lower("pkg.gz") == "pkg.gz";
    BuildPackageKeepsPlainGz("pkg.gz");
    NormalizeGzExample();
  }

  /**
   * MainWindow::BuildPackage with the normalisation it evidently intends: an empty
   * choice (the dialog was cancelled) builds nothing, any other is normalised.
   */
  function PackageTarget(chosen: string): (r: Option<string>)
    ensures r.None? <==> chosen == ""
    ensures r.Some? ==> EndsWithIgnoringCase(r.value, ".tar.gz")
  {
    NormalizedEndsWithTarGz(chosen);
    if chosen == "" then None else Some(NormalizePackagePath(chosen))
  }

  // ---------------------------------------------------------------- PIT destination

  /**
   * MainWindow::SelectPitDestination: an empty choice changes nothing; otherwise
   * ".pit" is appended unless the path already ends with it (case-sensitively).
   */
  function PitDestination(chosen: string): (r: Option<string>)
    ensures r.None? <==> chosen == ""
    ensures r.Some? ==> EndsWith(r.value, ".pit") && StartsWith(r.value, chosen)
    ensures r.Some? ==> (r.value == chosen <==> EndsWith(chosen, ".pit"))
    ensures r.Some? ==> |r.value| <= |chosen| + 4
  {
    if chosen == "" then None
    else if EndsWith(chosen, ".pit") then Some(chosen)
    else
      assert (chosen + ".pit")[..|chosen|] == chosen;
      Some(chosen + ".pit")
  }

  /** Choosing the same destination again keeps it. */
  lemma PitDestinationIdempotent(chosen: string)
    requires chosen != ""
    ensures PitDestination(PitDestination(chosen).value) == PitDestination(chosen)
  {
  }
}
