/**
 * Worked examples of the Samsung quick conversion's matcher. The matching lemmas are
 * stated for every base name that has the letters of the example and not those of the
 * other rules; the name lemmas show that the example's own file name is such a name.
 */
module QuickConvertExamples {

  import opened Text
  import opened Pit
  import opened Firmware
  import opened QuickConvert

  /** A name that exactly one rule applies to is matched through that rule's names, then its stem. */
  lemma SingleRuleMatch(pit: PitTable, path: string, q: nat)
    requires q < RuleCount && RuleHit(BasenameLower(path), q)
    requires forall j :: 0 <= j < RuleCount && j != q ==> !RuleHit(BasenameLower(path), j)
    requires !SkipsArchive(BasenameLower(path))
    ensures var lower := BasenameLower(path);
      MapFile(pit, path) == Classify(path, lower, MatchPartition(pit, RuleNames(q) + [Upper(StripExtensions(lower))], StripExtensions(lower)))
  {
    CandidatesOfName(BasenameLower(path), q);
  }

  /** A base name with "boot" and none of the letters of the other rules is bound to BOOT when the table has it. */
  lemma BootNameBindsToBoot(pit: PitTable, path: string)
    requires var lower := BasenameLower(path);
      && Contains(lower, "boot") && !SkipsArchive(lower)
      && Avoids(lower, "cdhlprsuv")
    requires FindByName(pit, "BOOT").Some? && FindByName(pit, "BOOT").value.identifier < 0x8000_0000
    ensures MapFile(pit, path) == Bound(FileInfo(FindByName(pit, "BOOT").value.identifier, path))
  {
    var lower := BasenameLower(path);
    OnlyBootRule(lower);
    SingleRuleMatch(pit, path, 4);
    assert FirstNamed(pit, RuleNames(4) + [Upper(StripExtensions(lower))]) == 0;
  }

  /**
   * A base name with "modem" and none of the letters of the other rules is bound to
   * MODEM when the table has it, whether or not the table also has CP.
   */
  lemma ModemNameBindsToModem(pit: PitTable, path: string)
    requires var lower := BasenameLower(path);
      && Contains(lower, "modem") && !SkipsArchive(lower)
      && Avoids(lower, "chprstuv")
    requires FindByName(pit, "MODEM").Some? && FindByName(pit, "MODEM").value.identifier < 0x8000_0000
    ensures MapFile(pit, path) == Bound(FileInfo(FindByName(pit, "MODEM").value.identifier, path))
  {
    var lower := BasenameLower(path);
    OnlyModemRule(lower);
    SingleRuleMatch(pit, path, 2);
    assert FirstNamed(pit, RuleNames(2) + [Upper(StripExtensions(lower))]) == 0;
  }

  /**
   * A base name with "cache", without "cm" and none of the letters of the other rules,
   * is left unbound by a table that has neither CACHE nor its stem's name and whose
   * flash filenames do not mention the stem.
   */
  lemma CacheNameUnmatched(pit: PitTable, path: string)
    requires var lower := BasenameLower(path);
      && Contains(lower, "cache") && !Contains(lower, "cm") && !SkipsArchive(lower)
      && Avoids(lower, "bdoprsuv")
    requires FindByName(pit, "CACHE").None? && FindByName(pit, Upper(StripExtensions(BasenameLower(path)))).None?
    requires forall j :: 0 <= j < |pit| ==> !FlashMatches(pit[j], StripExtensions(BasenameLower(path)))
    ensures MapFile(pit, path) == Unmatched
  {
    var lower := BasenameLower(path);
    OnlyCacheRule(lower);
    SingleRuleMatch(pit, path, 10);
    var stem := StripExtensions(lower);
    assert FirstNamed(pit, RuleNames(10) + [Upper(stem)]) == -1;
    assert FirstFlashMatch(pit, stem) == -1;
  }

  /** A name that mentions "boot" and lacks the letters of every other rule is matched by the boot rule alone. */
  lemma OnlyBootRule(lower: string)
    requires Contains(lower, "boot")
    requires Avoids(lower, "cdhlprsuv")
    ensures RuleHit(lower, 4)
    ensures forall k :: 0 <= k < RuleCount && k != 4 ==> !RuleHit(lower, k)
  {
    MissingCharNotContained(lower, "bootloader", 4);
    forall k | 0 <= k < RuleCount && k != 4 ensures !RuleHit(lower, k) {
      if k == 0 { MissingCharNotContained(lower, "home_csc", 0); }
      else if k == 1 { MissingCharNotContained(lower, "csc", 0); }
      else if k == 2 { MissingCharNotContained(lower, "modem", 2); MissingCharNotContained(lower, "cp_", 0); }
      else if k == 3 { MissingCharNotContained(lower, "sboot", 0); }
      else if k == 5 { MissingCharNotContained(lower, "recovery", 0); }
      else if k == 6 { MissingCharNotContained(lower, "system", 0); }
      else if k == 7 { MissingCharNotContained(lower, "vendor", 0); }
      else if k == 8 { MissingCharNotContained(lower, "product", 0); }
      else if k == 9 { MissingCharNotContained(lower, "userdata", 0); }
      else if k == 10 { MissingCharNotContained(lower, "cache", 0); }
      else if k == 11 { MissingCharNotContained(lower, "dtbo", 0); }
      else if k == 12 { MissingCharNotContained(lower, "vbmeta", 0); }
      else if k == 13 { MissingCharNotContained(lower, "param", 0); }
      else { MissingCharNotContained(lower, "cm", 0); assert 'c' in "cm.bin"; }
    }
  }

  /** A name that mentions "modem" and lacks the letters of every other rule is matched by the modem rule alone. */
  lemma OnlyModemRule(lower: string)
    requires Contains(lower, "modem")
    requires Avoids(lower, "chprstuv")
    ensures RuleHit(lower, 2)
    ensures forall k :: 0 <= k < RuleCount && k != 2 ==> !RuleHit(lower, k)
  {
    forall k | 0 <= k < RuleCount && k != 2 ensures !RuleHit(lower, k) {
      if k == 0 { MissingCharNotContained(lower, "home_csc", 0); }
      else if k == 1 { MissingCharNotContained(lower, "csc", 0); }
      else if k == 3 { MissingCharNotContained(lower, "bootloader", 3); MissingCharNotContained(lower, "sboot", 0); }
      else if k == 4 { MissingCharNotContained(lower, "boot", 3); }
      else if k == 5 { MissingCharNotContained(lower, "recovery", 0); }
      else if k == 6 { MissingCharNotContained(lower, "system", 0); }
      else if k == 7 { MissingCharNotContained(lower, "vendor", 0); }
      else if k == 8 { MissingCharNotContained(lower, "product", 0); }
      else if k == 9 { MissingCharNotContained(lower, "userdata", 0); }
      else if k == 10 { MissingCharNotContained(lower, "cache", 0); }
      else if k == 11 { MissingCharNotContained(lower, "dtbo", 1); }
      else if k == 12 { MissingCharNotContained(lower, "vbmeta", 0); }
      else if k == 13 { MissingCharNotContained(lower, "param", 0); }
      else { MissingCharNotContained(lower, "cm", 0); assert 'c' in "cm.bin"; }
    }
  }

  /** A name that mentions "cache", not "cm", and lacks the letters of every other rule is matched by the cache rule alone. */
  lemma OnlyCacheRule(lower: string)
    requires Contains(lower, "cache") && !Contains(lower, "cm")
    requires Avoids(lower, "bdoprsuv")
    ensures RuleHit(lower, 10)
    ensures forall k :: 0 <= k < RuleCount && k != 10 ==> !RuleHit(lower, k)
  {
    forall k | 0 <= k < RuleCount && k != 10 ensures !RuleHit(lower, k) {
      if k == 0 { MissingCharNotContained(lower, "home_csc", 1); }
      else if k == 1 { MissingCharNotContained(lower, "csc", 1); }
      else if k == 2 { MissingCharNotContained(lower, "modem", 1); MissingCharNotContained(lower, "cp_", 1); }
      else if k == 3 { MissingCharNotContained(lower, "bootloader", 0); MissingCharNotContained(lower, "sboot", 0); }
      else if k == 4 { MissingCharNotContained(lower, "boot", 0); }
      else if k == 5 { MissingCharNotContained(lower, "recovery", 0); }
      else if k == 6 { MissingCharNotContained(lower, "system", 0); }
      else if k == 7 { MissingCharNotContained(lower, "vendor", 0); }
      else if k == 8 { MissingCharNotContained(lower, "product", 0); }
      else if k == 9 { MissingCharNotContained(lower, "userdata", 0); }
      else if k == 11 { MissingCharNotContained(lower, "dtbo", 0); }
      else if k == 12 { MissingCharNotContained(lower, "vbmeta", 0); }
      else if k == 13 { MissingCharNotContained(lower, "param", 0); }
      else { assert 'b' in "cm.bin"; }
    }
  }

  /** A name without '/' and without upper-case letters is its own lower-cased base name. */
  lemma PlainNameIsBasename(name: string)
    requires forall i :: 0 <= i < |name| ==> name[i] != '/' && !('A' <= name[i] <= 'Z')
    ensures BasenameLower(name) == name
  {
    assert LastIndexOf(name, '/') == -1;
  }

  /** "boot.img" is its own lower-cased base name. */
  lemma BootImageName(name: string)
    requires name == "boot.img"
    ensures BasenameLower(name) == name
  {
    PlainNameIsBasename(name);
  }

  /** "boot.img" has the letters of the boot rule only, and is no archive. */
  lemma BootImageLetters(name: string)
    requires name == "boot.img"
    ensures Contains(name, "boot") && !SkipsArchive(name) && Avoids(name, "cdhlprsuv")
  {
    ContainsAt(name, "boot", 0);
  }

  /** "modem.bin" is its own lower-cased base name. */
  lemma ModemImageName(name: string)
    requires name == "modem.bin"
    ensures BasenameLower(name) == name
  {
    PlainNameIsBasename(name);
  }

  /** "modem.bin" has the letters of the modem rule only, and is no archive. */
  lemma ModemImageLetters(name: string)
    requires name == "modem.bin"
    ensures Contains(name, "modem") && !SkipsArchive(name) && Avoids(name, "chprstuv")
  {
    ContainsAt(name, "modem", 0);
  }

  /** "cache.img.lz4" is its own lower-cased base name. */
  lemma CacheImageName(name: string)
    requires name == "cache.img.lz4"
    ensures BasenameLower(name) == name
  {
    PlainNameIsBasename(name);
  }

  /** "cache.img.lz4" has the letters of the cache rule only, and is no archive. */
  lemma CacheImageLetters(name: string)
    requires name == "cache.img.lz4"
    ensures Contains(name, "cache") && !SkipsArchive(name) && Avoids(name, "bdoprsuv")
  {
    ContainsAt(name, "cache", 0);
  }

  /** "cache.img.lz4" does not contain "cm", so the CM rule does not apply to it. */
  lemma CacheImageLacksCm(name: string)
    requires name == "cache.img.lz4"
    ensures !Contains(name, "cm")
  {
    PairNotContained(name, "cm");
  }

  /** "update.tar" is its own lower-cased base name, and an archive. */
  lemma UpdateTarName(name: string)
    requires name == "update.tar"
    ensures BasenameLower(name) == name && SkipsArchive(name)
  {
    PlainNameIsBasename(name);
    assert name[|name| - 4..] == ".tar";
  }

  /** "update.md5" is its own lower-cased base name, and an archive. */
  lemma UpdateMd5Name(name: string)
    requires name == "update.md5"
    ensures BasenameLower(name) == name && SkipsArchive(name)
  {
    PlainNameIsBasename(name);
    assert name[|name| - 4..] == ".md5";
  }

  /** Whatever the table holds, "update.tar" and "update.md5" are skipped as archives. */
  lemma UpdateArchivesSkipped(pit: PitTable, tar: string, md5: string)
    requires tar == "update.tar" && md5 == "update.md5"
    ensures MapFile(pit, tar) == SkippedArchive(tar)
    ensures MapFile(pit, md5) == SkippedArchive(md5)
  {
    UpdateTarName(tar);
    UpdateMd5Name(md5);
    MapFileOutcome(pit, tar);
    MapFileOutcome(pit, md5);
  }
}
