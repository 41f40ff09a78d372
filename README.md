# Heimdall frontend: decision logic, TEE classifier and ADB argument builders

Heimdall flashes firmware onto Samsung devices in download mode. Its Qt frontend keeps
three kinds of state:

- a working package: the selected PIT (Partition Information Table) and a list of
  bindings, each tying a partition identifier to a source file;
- the list of partition identifiers that are still free to bind;
- the state of the current heimdall run: what it does, whether the device must stay in
  download mode afterwards, and whether the start failed.

This project models the logic that decides what the frontend does with that state.
It also models two small helper modules: the TEE (trusted execution environment)
classifier and the ADB argument builders.

- **Pit**: the PIT as an ordered list of entries, each with an identifier, a name, a
  flash filename and a flashable flag. `FindEntry` by identifier and by name is a
  first-match scan, and `ReadPit` keeps, clears or replaces the table.
- **Firmware**: package metadata and bindings (`FileInfo`), and the rule that enables
  flashing.
- **Bindings**: the `Workspace` class holds the table, the working firmware and
  `unusedPartitionIds`. Its methods recompute the unused list, add, remove and rebind a
  binding, and load a new PIT, remapping the bindings by partition name.
- **FlashCommand**: the argument vectors of `flash`, `detect`, `close-pc-screen`,
  `download-pit` and `print-pit`.
- **PackagePaths**: `IsArchive`, the `.tar.gz` normalisation of a package path, and the
  `.pit` suffix of a PIT destination.
- **QuickConvert**: the Samsung quick conversion. It takes lower-cased base names,
  strips up to two extensions, and applies the candidate-name table in the code's order,
  then the flash-filename fallback. It skips archives and collects the matched files
  into a package.
- **OutputScan**: the `Uploading …` line and the last percentage in a chunk of
  standard output, the text shown in the console, the error line taken from standard
  error, and the directories tried when `heimdall` is not on the default path.
- **ToolSession**: the `HeimdallSession` class with the run state (kind plus a sticky
  no-reboot bit), the start with its search-path fallback, and the stdout, returned and
  error slots.
- **Tee**: `addIfContains`, `addIfAny` and `analyze`.
- **Adb**: every `args*` builder and `adbExecutable`.
- **QuickConvertExamples**: the matcher on "boot.img", "modem.bin", "cache.img.lz4",
  "update.tar" and "update.md5". Each matching fact is stated for every base name with
  the example's letters, and a name lemma shows that the example's own name is one.
- **Text** and **Wrappers**: the QString/QStringList operations the code relies on
  (ASCII case mapping, affixes, containment, `lastIndexOf`, `left`, `remove`, `replace`,
  `split`, `join`, decimal numbers), and `Option`.

The model follows the code as written, also where it departs from its own comments:

- `flash` gets `--repartition` when the package asks for it and the binding count is
  not 1 (mainwindow.cpp:1188), so an empty list also gets it. The comment right above
  the test (1187) says repartition is allowed only when flashing several partitions.
- The quick conversion casts identifiers to `int`, so an identifier of 2^31 or more
  becomes negative and counts as "no match".
- The search-path fallback of `StartHeimdall` clears only the failure flag before each
  try (96-113). The failed first start has already set the run to Stopped (1750), so a
  run found on the search path is monitored as stopped. `HeimdallSession` and the
  `*Started` functions follow this (`StartAsWritten`). `Start`, `StartHeimdallRestoring`
  and `FallbackFlash` state the start with the command's state put back, which the
  code evidently intends (see "## Findings").

## Model

| member | source | states |
|---|---|---|
| Pit.IndexById | heimdall-frontend/source/mainwindow.cpp:922 | the position of the first entry with that identifier, or -1 exactly when no entry has it |
| Pit.IndexByName | heimdall-frontend/source/mainwindow.cpp:1086 | the position of the first entry with that name, byte for byte, or -1 exactly when none has it |
| Pit.FindById | heimdall-frontend/source/mainwindow.cpp:1203 | an entry is found exactly when one has the identifier, and the entry found belongs to the table and has it |
| Pit.FindByName | heimdall-frontend/source/mainwindow.cpp:1409 | an entry is found exactly when one has the name, and the entry found belongs to the table and has it |
| Pit.PitAfterRead | heimdall-frontend/source/mainwindow.cpp:145-162 | a file that does not open leaves the table unchanged, one that does not unpack clears it, a valid one installs its table |
| Pit.FindByIdOwn | heimdall-frontend/source/mainwindow.cpp:1071 | with unique identifiers, looking up an entry's identifier finds that entry |
| Pit.FindByNameOwn | heimdall-frontend/source/mainwindow.cpp:1086 | with unique names, looking up an entry's name finds that entry |
| Pit.FindEntryAgrees | heimdall-frontend/source/mainwindow.cpp:1071-1086 | in a well-formed table, lookup by identifier and lookup by name find the same entry |
| Firmware.ValidFlashSettings | heimdall-frontend/source/mainwindow.cpp:269-287 | flashing is enabled exactly when there is at least one binding and every binding has a file |
| Firmware.ReadyToFlash | heimdall-frontend/source/mainwindow.cpp:269-287 | the rule that enables flashing: at least one binding, and no binding without a file; ValidFlashSettings computes it |
| Firmware.FieldsPopulated | heimdall-frontend/source/mainwindow.cpp:312-313 | the rule that enables building a package: name, version, platform name and platform version are filled in, and there is at least one developer and one device |
| Bindings.CandidateIds | heimdall-frontend/source/mainwindow.cpp:130-136 | every identifier offered belongs to a flashable entry not named PIT or PT |
| Bindings.RemoveOne | heimdall-frontend/source/mainwindow.cpp:142 | removeOne takes one occurrence of the value out, counted with multiplicity |
| Bindings.RemoveEach | heimdall-frontend/source/mainwindow.cpp:141-142 | removing each bound id leaves the candidates minus the bound ids, as multisets |
| Bindings.BoundIds | heimdall-frontend/source/mainwindow.cpp:139-142 | the bound ids are the bindings' partition ids, position by position |
| Bindings.UnusedIds | heimdall-frontend/source/mainwindow.cpp:125-143 | the unused list: the candidate ids in table order, with one occurrence removed per binding; UnusedIdsCount gives its counts and UpdateUnusedPartitionIds computes it |
| Bindings.NamesOf | heimdall-frontend/source/mainwindow.cpp:1070-1071 | one partition name per binding |
| Bindings.Remap | heimdall-frontend/source/mainwindow.cpp:1084-1097 | the remap never adds a binding |
| Bindings.RemapOne | heimdall-frontend/source/mainwindow.cpp:1086-1096 | one turn of the remap: the binding with the identifier of the entry its name finds, or nothing when the new table lacks the name |
| Bindings.FoundNames | heimdall-frontend/source/mainwindow.cpp:1086-1088 | the old partition names that the new table contains, in order; RemapKeepsNames shows they are the names of the kept bindings |
| Bindings.FoundIndices | heimdall-frontend/source/mainwindow.cpp:1084-1088 | the positions the remap keeps, in order: each one's name is in the new table |
| Bindings.FoundIndicesIncrease | heimdall-frontend/source/mainwindow.cpp:1084-1088 | the kept positions are strictly increasing, so the remap keeps the bindings' order |
| Bindings.FoundIndicesComplete | heimdall-frontend/source/mainwindow.cpp:1084-1088 | every position whose name the new table contains is kept |
| Bindings.UnusedIdsAreCandidates | heimdall-frontend/source/mainwindow.cpp:125-143 | every unused id belongs to a flashable entry of the table |
| Bindings.UnusedIdsCount | heimdall-frontend/source/mainwindow.cpp:125-143 | the unused list, with multiplicity, is the candidate ids minus the bound ids |
| Bindings.CandidateIdsAtMostOnce | heimdall-frontend/source/mainwindow.cpp:130-136 | with unique identifiers, no candidate id is offered twice |
| Bindings.UnusedIdsDisjointFromBound | heimdall-frontend/source/mainwindow.cpp:125-143 | with unique identifiers, no unused id is the id of any binding |
| Bindings.SwapMatchesRecomputation | heimdall-frontend/source/mainwindow.cpp:913-920 | after the swap, the unused list equals, up to order, what recomputing it for the new bindings gives |
| Bindings.SwapKeepsPool | heimdall-frontend/source/mainwindow.cpp:913-920 | the swap keeps the unused ids and the bound ids together the same, with multiplicity |
| Bindings.RemapKeepsNames | heimdall-frontend/source/mainwindow.cpp:1084-1097 | every kept binding refers to an entry of the new table with the binding's old partition name, in order |
| Bindings.RemapKeepsFound | heimdall-frontend/source/mainwindow.cpp:1084-1097 | the remap keeps, in order, exactly the bindings whose names the new table contains, each with its own file and the identifier its name finds |
| Bindings.RemapAllFound | heimdall-frontend/source/mainwindow.cpp:1084-1097 | when every name is in the new table, no binding is dropped and each keeps its file and gets its name's identifier |
| Bindings.RemapNoneFound | heimdall-frontend/source/mainwindow.cpp:1093-1096 | when no name is in the new table, every binding is dropped |
| Bindings.SelectPitAsWrittenRebinds | heimdall-frontend/source/mainwindow.cpp:1066 | a concrete old and new table where the bindings as written end up on another partition than the remap would give |
| Bindings.RemapBindings | heimdall-frontend/source/mainwindow.cpp:1082-1097 | the in-place loop with its cursor and removeAt computes Remap |
| Bindings.Workspace.constructor | heimdall-frontend/source/mainwindow.cpp:436 | the window starts with no table, a cleared package and no unused ids |
| Bindings.Workspace.UpdateUnusedPartitionIds | heimdall-frontend/source/mainwindow.cpp:125-143 | the two loops leave exactly the candidates minus one occurrence per binding; nothing else changes |
| Bindings.Workspace.ReadPit | heimdall-frontend/source/mainwindow.cpp:145-162 | reports success exactly when the file unpacked, and the table becomes PitAfterRead |
| Bindings.Workspace.AddPartition | heimdall-frontend/source/mainwindow.cpp:1027-1031 | appends a binding of the first unused id with no file, recomputes the unused list, and flashing is then disabled |
| Bindings.Workspace.RemovePartition | heimdall-frontend/source/mainwindow.cpp:1043-1046 | removes exactly the selected binding and recomputes the unused list |
| Bindings.Workspace.SelectPartitionName | heimdall-frontend/source/mainwindow.cpp:911-920 | index -1 or the current entry changes nothing; otherwise the chosen unused id moves to the binding, its old id goes to the end of the unused list, the other bindings stay, and the pool of ids is kept |
| Bindings.Workspace.BindingNames | heimdall-frontend/source/mainwindow.cpp:1066-1071 | the names are the partition names of the bindings in the current table |
| Bindings.Workspace.SelectPit | heimdall-frontend/source/mainwindow.cpp:1058-1127 | a cancel changes nothing; a valid table is installed with the bindings remapped by name; an invalid one triggers the reload of the previous PIT; the unused list is recomputed |
| Bindings.Workspace.SelectPitAsWritten | heimdall-frontend/source/mainwindow.cpp:1058-1127 | the same, with the bindings left as they were after a valid table, because the remap edits a discarded copy |
| Bindings.Workspace.ReloadPreviousPit | heimdall-frontend/source/mainwindow.cpp:1104-1125 | the previous PIT file is read again; when there is none or it fails, the package is cleared or the table stays empty |
| Bindings.RemapResolves | heimdall-frontend/source/mainwindow.cpp:1084-1097 | every binding the remap keeps refers to an entry of the new table |
| FlashCommand.Flag | heimdall-frontend/source/mainwindow.cpp:1218-1228 | an optional flag is present exactly when its setting is on |
| FlashCommand.PartitionFlag | heimdall-frontend/source/mainwindow.cpp:1203-1212 | a partition flag always starts with "--" |
| FlashCommand.BindingArguments | heimdall-frontend/source/mainwindow.cpp:1200-1216 | two arguments per binding |
| FlashCommand.BindingArgumentsAt | heimdall-frontend/source/mainwindow.cpp:1214-1215 | binding i puts its flag at position 2i and its file right after it |
| FlashCommand.FlashHead | heimdall-frontend/source/mainwindow.cpp:1185-1198 | the start of the flash command line; FlashHeadShape states its parts |
| FlashCommand.FlashTail | heimdall-frontend/source/mainwindow.cpp:1218-1230 | the options after the bindings; OptionsOfFlags and FlashArgumentsEnds state what they ask for and in which order |
| FlashCommand.FlashArguments | heimdall-frontend/source/mainwindow.cpp:1184-1230 | the whole flash command line; FlashArgumentsLayout places every part and BuildFlashArguments computes it |
| FlashCommand.BuildFlashArguments | heimdall-frontend/source/mainwindow.cpp:1184-1230 | the appending loop builds exactly FlashArguments |
| FlashCommand.FlashHeadShape | heimdall-frontend/source/mainwindow.cpp:1185-1198 | "flash", then "--repartition" exactly when repartition is set and the count is not 1, then "--PIT" and the PIT file |
| FlashCommand.FlashArgumentsLayout | heimdall-frontend/source/mainwindow.cpp:1184-1230 | the head comes first, binding i sits at head+2i and head+2i+1, then the optional flags in order |
| FlashCommand.FlashArgumentsEnds | heimdall-frontend/source/mainwindow.cpp:1218-1230 | "--no-reboot", "--resume" and "--verbose" appear in that order as set, and "--stdout-errors" is last |
| FlashCommand.FlashArgumentsAt | heimdall-frontend/source/mainwindow.cpp:1200-1216 | binding i's flag and file appear at fixed positions after the head |
| FlashCommand.SinglePartitionSkipsRepartition | heimdall-frontend/source/mainwindow.cpp:1182-1194 | a single-binding flash never carries "--repartition" |
| FlashCommand.NamedFlagForFlashableEntry | heimdall-frontend/source/mainwindow.cpp:1205-1207 | a flashable entry is addressed by "--" and its own name |
| FlashCommand.NumericFlagDenotesIdentifier | heimdall-frontend/source/mainwindow.cpp:1209-1212 | a binding with no flashable entry is addressed by "--" and a decimal numeral that reads back as its identifier |
| FlashCommand.OptionsOfFreePrefix | heimdall-frontend/source/mainwindow.cpp:1197-1216 | arguments that are not option flags do not change the options a command line asks for |
| FlashCommand.OptionsOfFlags | heimdall-frontend/source/mainwindow.cpp:1218-1230 | the trailing flags ask for exactly the settings they were appended for |
| FlashCommand.DetectOptions | heimdall-frontend/source/mainwindow.cpp:1520-1526 | detect asks for verbose output as set, errors on stdout, no reboot suppression |
| FlashCommand.ClosePcScreenOptions | heimdall-frontend/source/mainwindow.cpp:1538-1547 | close-pc-screen asks for resume and verbose as set, errors on stdout |
| FlashCommand.DownloadPitOptions | heimdall-frontend/source/mainwindow.cpp:1575-1589 | download-pit always runs without reboot, with resume and verbose as set |
| FlashCommand.PrintPitOptions | heimdall-frontend/source/mainwindow.cpp:1638-1654 | print-pit always runs without reboot, from the device or a local file, with resume and verbose as set |
| FlashCommand.FlashOptionsFollowSettings | heimdall-frontend/source/mainwindow.cpp:1184-1230 | the flash command asks for exactly the chosen resume, verbose and no-reboot settings |
| FlashCommand.FlagIsNotAnOption | heimdall-frontend/source/mainwindow.cpp:1203-1212 | a partition flag is never mistaken for an option flag |
| FlashCommand.DetectArguments | heimdall-frontend/source/mainwindow.cpp:1520-1526 | the detect command line; DetectOptions states what it asks for |
| FlashCommand.ClosePcScreenArguments | heimdall-frontend/source/mainwindow.cpp:1538-1547 | the close-pc-screen command line; ClosePcScreenOptions states what it asks for |
| FlashCommand.DownloadPitArguments | heimdall-frontend/source/mainwindow.cpp:1575-1589 | the download-pit command line with the chosen destination; DownloadPitOptions states what it asks for |
| FlashCommand.PrintPitArguments | heimdall-frontend/source/mainwindow.cpp:1638-1654 | the print-pit command line, with "--file" only for a local file; PrintPitOptions states what it asks for |
| PackagePaths.IsArchiveByExtension | heimdall-frontend/source/mainwindow.cpp:220-225 | a path is an archive exactly when it ends, ignoring case, with .tar, .gz, .zip, .bz2, .7z or .rar |
| PackagePaths.IsArchive | heimdall-frontend/source/mainwindow.cpp:220-225 | MainWindow::IsArchive; IsArchiveByExtension characterises it by the six extensions |
| PackagePaths.ArchiveExtensionMakesArchive | heimdall-frontend/source/mainwindow.cpp:220-225 | any name followed by an archive extension in any case is an archive |
| PackagePaths.NormalizePackagePath | heimdall-frontend/source/mainwindow.cpp:1495-1501 | normalisation adds at most seven characters and never shortens the path |
| PackagePaths.StemLength | heimdall-frontend/source/mainwindow.cpp:1495-1501 | the kept part is never longer than the path |
| PackagePaths.NormalizedEndsWithTarGz | heimdall-frontend/source/mainwindow.cpp:1495-1501 | a normalised package path always ends with ".tar.gz", ignoring case |
| PackagePaths.NormalizeFixedPoints | heimdall-frontend/source/mainwindow.cpp:1495 | normalisation leaves a path unchanged exactly when it already ends with ".tar.gz" |
| PackagePaths.NormalizeIdempotent | heimdall-frontend/source/mainwindow.cpp:1495-1501 | normalising twice is normalising once |
| PackagePaths.NormalizeKeepsStem | heimdall-frontend/source/mainwindow.cpp:1497-1500 | the path is kept up to its recognised extension, followed by seven characters |
| PackagePaths.NormalizedIsArchive | heimdall-frontend/source/mainwindow.cpp:220-225 | a normalised package path counts as an archive |
| PackagePaths.NormalizePlainExample | heimdall-frontend/source/mainwindow.cpp:1500 | "pkg" becomes "pkg.tar.gz" |
| PackagePaths.NormalizeTarExample | heimdall-frontend/source/mainwindow.cpp:1497 | "pkg.tar" becomes "pkg.tar.gz" |
| PackagePaths.NormalizeGzExample | heimdall-frontend/source/mainwindow.cpp:1498 | "pkg.gz" becomes "pkg.tar.gz" |
| PackagePaths.NormalizeTgzExample | heimdall-frontend/source/mainwindow.cpp:1499 | "pkg.tgz" becomes "pkg.tar.gz" |
| PackagePaths.NormalizeTarGzExample | heimdall-frontend/source/mainwindow.cpp:1495 | "pkg.tar.gz" is kept |
| PackagePaths.NormalizeExamples | heimdall-frontend/source/mainwindow.cpp:1495-1501 | the five rules on one stem each |
| PackagePaths.BuildPackagePathAsWritten | heimdall-frontend/source/mainwindow.cpp:1353-1363 | the save path as BuildPackage computes it keeps a ".tar.gz" path as it is |
| PackagePaths.BuildPackageKeepsPlainGz | heimdall-frontend/source/mainwindow.cpp:1357-1358 | a ".gz" path with no character whose code is its length minus 3 is saved unchanged, so it does not end with ".tar.gz" |
| PackagePaths.BuildPackageGzExample | heimdall-frontend/source/mainwindow.cpp:1358 | "pkg.gz" is saved as "pkg.gz" as written, where the normalisation gives "pkg.tar.gz" |
| PackagePaths.PackageTarget | heimdall-frontend/source/mainwindow.cpp:1349-1365 | a cancelled dialog builds nothing; any chosen path is built at a path ending in ".tar.gz" |
| PackagePaths.PitDestination | heimdall-frontend/source/mainwindow.cpp:1552-1561 | a cancel changes nothing; otherwise the result starts with the chosen path, ends with ".pit", adds at most 4 characters, and equals the choice exactly when it already ends with ".pit" |
| PackagePaths.PitDestinationIdempotent | heimdall-frontend/source/mainwindow.cpp:1558-1559 | choosing the resulting destination again keeps it |
| QuickConvert.FileName | heimdall-frontend/source/mainwindow.cpp:1371 | the file name is a suffix of the path without '/', preceded in the path by a '/' when shorter |
| QuickConvert.BasenameLower | heimdall-frontend/source/mainwindow.cpp:1369-1373 | basenameLower; BasenameLowerShape and BasenameLowerInDirectory state what it yields |
| QuickConvert.BasenameLowerShape | heimdall-frontend/source/mainwindow.cpp:1369-1373 | the base name is no longer than the path and holds neither '/' nor an upper-case letter |
| QuickConvert.BasenameLowerInDirectory | heimdall-frontend/source/mainwindow.cpp:1369-1373 | a file in any directory has its own name, lower-cased, as base name |
| QuickConvert.StripOnce | heimdall-frontend/source/mainwindow.cpp:1381-1382 | one round cuts at the last '.' exactly when it is past the first character, keeping a prefix |
| QuickConvert.StripExtensionsShape | heimdall-frontend/source/mainwindow.cpp:1375-1385 | the stem is a prefix of the name, followed there by '.' when anything was cut |
| QuickConvert.StripExtensions | heimdall-frontend/source/mainwindow.cpp:1375-1385 | stripExtensions; StripExtensionsShape states what it keeps and StripExtensionsLoop computes it |
| QuickConvert.StripExtensionsLoop | heimdall-frontend/source/mainwindow.cpp:1375-1385 | the two-round loop computes StripExtensions |
| QuickConvert.StripExtensionsExamples | heimdall-frontend/source/mainwindow.cpp:1379-1383 | "boot.img" gives "boot", "cache.img.lz4" gives "cache", ".img" stays |
| QuickConvert.RuleHit | heimdall-frontend/source/mainwindow.cpp:1448-1462 | the test of each of the fifteen rules of the candidate table, in the code's order |
| QuickConvert.RuleNames | heimdall-frontend/source/mainwindow.cpp:1448-1462 | the partition names each rule of the candidate table appends |
| QuickConvert.RuleHits | heimdall-frontend/source/mainwindow.cpp:1448-1462 | one applicability bit for each of the fifteen rules of the table |
| QuickConvert.CandidatesFrom | heimdall-frontend/source/mainwindow.cpp:1465 | the upper-cased stem is always the last candidate |
| QuickConvert.Candidates | heimdall-frontend/source/mainwindow.cpp:1446-1465 | the candidate list of one file; CandidatesFromRules, ApplicableRuleListed and CandidatesOfName state what it holds |
| QuickConvert.CandidatesFromRules | heimdall-frontend/source/mainwindow.cpp:1448-1462 | every candidate before the stem is proposed by an applicable rule |
| QuickConvert.ApplicableRuleListed | heimdall-frontend/source/mainwindow.cpp:1448-1462 | every name of an applicable rule is among the candidates |
| QuickConvert.BootOnlyFromBootRule | heimdall-frontend/source/mainwindow.cpp:1452 | only the boot rule proposes "BOOT" |
| QuickConvert.NoBootBeforeStem | heimdall-frontend/source/mainwindow.cpp:1452 | when the boot rule does not apply, "BOOT" appears only as the stem |
| QuickConvert.BootloaderIsNotBoot | heimdall-frontend/source/mainwindow.cpp:1451-1452 | a "bootloader" name gets the bootloader names and never "BOOT" from the table |
| QuickConvert.CandidatesOfName | heimdall-frontend/source/mainwindow.cpp:1446-1465 | a base name that exactly one rule applies to gets that rule's names, then its upper-cased stem |
| QuickConvert.AsInt | heimdall-frontend/source/mainwindow.cpp:1410 | the (int) cast is two's complement: identifiers of 2^31 and up become negative |
| QuickConvert.IdByName | heimdall-frontend/source/mainwindow.cpp:1407-1412 | a non-negative result is the identifier of an entry with that name; an empty or unknown name gives -1 |
| QuickConvert.FlashMatches | heimdall-frontend/source/mainwindow.cpp:1417-1421 | the test of the flash-filename scan: a flashable entry with a non-empty lowered flash filename that is or contains the stem |
| QuickConvert.FirstNamed | heimdall-frontend/source/mainwindow.cpp:1427-1431 | the first candidate whose name yields an identifier, with none before it, or -1 when none does |
| QuickConvert.FirstFlashMatch | heimdall-frontend/source/mainwindow.cpp:1415-1423 | the first flashable entry with a non-empty flash filename that is or contains the stem, or -1 |
| QuickConvert.FlashId | heimdall-frontend/source/mainwindow.cpp:1414-1424 | what findPartitionIdByFlashFilename returns: the (int) identifier of the entry FirstFlashMatch finds, or -1 |
| QuickConvert.MatchPartition | heimdall-frontend/source/mainwindow.cpp:1426-1433 | a non-negative match is the identifier of an entry of the table |
| QuickConvert.MatchPartitionOrder | heimdall-frontend/source/mainwindow.cpp:1426-1433 | the first named candidate decides; the flash-filename scan is consulted only when no candidate name matches |
| QuickConvert.FindIdByFlashFilename | heimdall-frontend/source/mainwindow.cpp:1414-1424 | the early-return loop computes the flash-filename match |
| QuickConvert.TryCandidates | heimdall-frontend/source/mainwindow.cpp:1426-1433 | the loop computes MatchPartition |
| QuickConvert.PartitionFor | heimdall-frontend/source/mainwindow.cpp:1444-1467 | a non-negative result is an identifier of the table |
| QuickConvert.SkipsArchive | heimdall-frontend/source/mainwindow.cpp:1438 | the archive test of the file loop: the lower-cased base name ends with ".tar" or ".md5" |
| QuickConvert.Classify | heimdall-frontend/source/mainwindow.cpp:1437-1471 | ".tar"/".md5" names are skipped under their name; any other file is bound, as itself, exactly when an identifier was found |
| QuickConvert.MapFile | heimdall-frontend/source/mainwindow.cpp:1437-1471 | the body of the file loop for one path; MapFileOutcome states its outcomes and MapOne computes it |
| QuickConvert.MapFileOutcome | heimdall-frontend/source/mainwindow.cpp:1437-1471 | an archive is skipped under its lower-cased base name; a bound file keeps its path and gets a table identifier |
| QuickConvert.Decisions | heimdall-frontend/source/mainwindow.cpp:1435 | one outcome per chosen file |
| QuickConvert.DecisionsAt | heimdall-frontend/source/mainwindow.cpp:1435 | outcome i is the decision for file i |
| QuickConvert.OutcomesAt | heimdall-frontend/source/mainwindow.cpp:1435-1472 | outcome i is what the loop body does with file i |
| QuickConvert.BoundInfos | heimdall-frontend/source/mainwindow.cpp:1467-1471 | no more bindings than files |
| QuickConvert.SkippedNames | heimdall-frontend/source/mainwindow.cpp:1438-1442 | no more skipped names than files |
| QuickConvert.BoundInfosMembers | heimdall-frontend/source/mainwindow.cpp:1467-1471 | the bindings are exactly the bound outcomes |
| QuickConvert.SkippedNamesMembers | heimdall-frontend/source/mainwindow.cpp:1438-1442 | the skipped names are exactly those of the skipped outcomes |
| QuickConvert.MappedFiles | heimdall-frontend/source/mainwindow.cpp:1435-1472 | the bindings the file loop collects; MapChosenFiles computes them and MappedFilesFromTable bounds them |
| QuickConvert.BoundInfosFromTable | heimdall-frontend/source/mainwindow.cpp:1467-1471 | collected bindings name chosen files and identifiers of the table |
| QuickConvert.BoundInfosEmpty | heimdall-frontend/source/mainwindow.cpp:1474 | nothing is collected exactly when no outcome is a binding |
| QuickConvert.MappedFilesFromTable | heimdall-frontend/source/mainwindow.cpp:1435-1472 | every mapped binding names a chosen file and an identifier of the table |
| QuickConvert.SkippedAreArchives | heimdall-frontend/source/mainwindow.cpp:1438-1442 | every skipped name is that of a ".tar" or ".md5" file |
| QuickConvert.MappedFilesEmpty | heimdall-frontend/source/mainwindow.cpp:1474 | nothing is mapped exactly when no chosen file was bound |
| QuickConvert.MapOne | heimdall-frontend/source/mainwindow.cpp:1437-1471 | the loop body computes MapFile |
| QuickConvert.MapChosenFiles | heimdall-frontend/source/mainwindow.cpp:1404-1472 | the file loop collects the mapped bindings and the skipped archive names, in file order |
| QuickConvert.NothingMappedMessage | heimdall-frontend/source/mainwindow.cpp:1476-1477 | the message starts with the fixed text and is exactly that text when nothing was skipped |
| QuickConvert.ConvertedFirmware | heimdall-frontend/source/mainwindow.cpp:1482-1490 | the package holds the mapped bindings and the chosen PIT, without repartition or no-reboot |
| QuickConvert.Conversion | heimdall-frontend/source/mainwindow.cpp:1399-1509 | the conversion once the PIT is read; ConversionBuildsValidPackage and NothingMappedMeansNoMatch state its outcomes |
| QuickConvert.AlertText | heimdall-frontend/source/mainwindow.cpp:1476-1509 | the alert each outcome shows: the PIT error, the mapping error, the build error or the created package's path |
| QuickConvert.ConversionBuildsValidPackage | heimdall-frontend/source/mainwindow.cpp:1474-1503 | a built package ends in ".tar.gz", names the PIT, is "Samsung Conversion" for "Android", and binds at least one chosen file, each to a table partition |
| QuickConvert.NothingMappedMeansNoMatch | heimdall-frontend/source/mainwindow.cpp:1474-1480 | the mapping error is shown exactly when files were chosen and none was bound |
| QuickConvert.ConvertSamsungQuick | heimdall-frontend/source/mainwindow.cpp:1387-1510 | a cancelled PIT choice changes nothing; an unreadable PIT reports the error; otherwise the PIT is installed and the outcome is the conversion |
| QuickConvertExamples.SingleRuleMatch | heimdall-frontend/source/mainwindow.cpp:1444-1471 | a file that exactly one rule applies to is matched through that rule's names, then its upper-cased stem, then the flash-filename scan |
| QuickConvertExamples.OnlyBootRule | heimdall-frontend/source/mainwindow.cpp:1448-1462 | a name with "boot" and none of the letters c, d, h, l, p, r, s, u, v hits the boot rule and no other |
| QuickConvertExamples.OnlyModemRule | heimdall-frontend/source/mainwindow.cpp:1448-1462 | a name with "modem" and none of the letters c, h, p, r, s, t, u, v hits the modem rule and no other |
| QuickConvertExamples.OnlyCacheRule | heimdall-frontend/source/mainwindow.cpp:1448-1462 | a name with "cache", without "cm" and none of the letters b, d, o, p, r, s, u, v hits the cache rule and no other |
| QuickConvertExamples.BootNameBindsToBoot | heimdall-frontend/source/mainwindow.cpp:1452 | such a boot name is bound to BOOT's identifier whenever the table has BOOT |
| QuickConvertExamples.ModemNameBindsToModem | heimdall-frontend/source/mainwindow.cpp:1450 | such a modem name is bound to MODEM's identifier whenever the table has MODEM, whatever else it has (CP included) |
| QuickConvertExamples.CacheNameUnmatched | heimdall-frontend/source/mainwindow.cpp:1458-1471 | such a cache name is left unmatched when the table has neither CACHE nor its upper-cased stem and no flash filename matches |
| QuickConvertExamples.BootImageName | heimdall-frontend/source/mainwindow.cpp:1369-1373 | "boot.img" is its own lower-cased base name |
| QuickConvertExamples.BootImageLetters | heimdall-frontend/source/mainwindow.cpp:1438-1452 | "boot.img" contains "boot", is no archive and lacks the other rules' letters |
| QuickConvertExamples.ModemImageName | heimdall-frontend/source/mainwindow.cpp:1369-1373 | "modem.bin" is its own lower-cased base name |
| QuickConvertExamples.ModemImageLetters | heimdall-frontend/source/mainwindow.cpp:1438-1450 | "modem.bin" contains "modem", is no archive and lacks the other rules' letters |
| QuickConvertExamples.CacheImageName | heimdall-frontend/source/mainwindow.cpp:1369-1373 | "cache.img.lz4" is its own lower-cased base name |
| QuickConvertExamples.CacheImageLetters | heimdall-frontend/source/mainwindow.cpp:1438-1458 | "cache.img.lz4" contains "cache", is no archive and lacks the other rules' letters |
| QuickConvertExamples.CacheImageLacksCm | heimdall-frontend/source/mainwindow.cpp:1462 | "cache.img.lz4" does not contain "cm", so the CM rule does not apply |
| QuickConvertExamples.UpdateTarName | heimdall-frontend/source/mainwindow.cpp:1437-1438 | "update.tar" is its own lower-cased base name and ends in ".tar" |
| QuickConvertExamples.UpdateMd5Name | heimdall-frontend/source/mainwindow.cpp:1437-1438 | "update.md5" is its own lower-cased base name and ends in ".md5" |
| QuickConvertExamples.UpdateArchivesSkipped | heimdall-frontend/source/mainwindow.cpp:1437-1442 | for every table, "update.tar" and "update.md5" are skipped as archives under their own names |
| OutputScan.LastMatch | heimdall-frontend/source/mainwindow.cpp:1666 | lastIndexOf gives a matching position with no match after it, or -1 |
| OutputScan.UploadingEnd | heimdall-frontend/source/mainwindow.cpp:1665 | "Uploading [^\n]+\n" matches at a position exactly when this finds its end |
| OutputScan.UploadingLabel | heimdall-frontend/source/mainwindow.cpp:1665-1667 | the flash label a chunk sets; UploadingLabelIsLastLine and UploadingLabelShape state which line it is |
| OutputScan.UploadingLabelIsLastLine | heimdall-frontend/source/mainwindow.cpp:1665-1667 | the label is the last "Uploading …" line of the chunk without its newline, and there is none exactly when no line matches |
| OutputScan.UploadingLabelShape | heimdall-frontend/source/mainwindow.cpp:1667 | the label starts with "Uploading ", has more after it and holds no newline |
| OutputScan.DigitRunEnd | heimdall-frontend/source/mainwindow.cpp:1669 | the maximal run of digits from a position |
| OutputScan.PercentEnd | heimdall-frontend/source/mainwindow.cpp:1669 | "[\b\n][0-9]+%" matches at a position exactly when this finds its end |
| OutputScan.ToInt | heimdall-frontend/source/mainwindow.cpp:1673 | toInt gives the digits' value, or 0 when it overflows an int |
| OutputScan.ProgressValue | heimdall-frontend/source/mainwindow.cpp:1669-1674 | the progress a chunk sets; ProgressIsLastReport and ProgressInRange state which report and its range |
| OutputScan.ProgressIsLastReport | heimdall-frontend/source/mainwindow.cpp:1669-1674 | the progress is the value of the digits of the last report, and there is none exactly when the chunk has no report |
| OutputScan.ProgressInRange | heimdall-frontend/source/mainwindow.cpp:1673 | the progress value is between 0 and the largest int |
| OutputScan.ProgressExamples | heimdall-frontend/source/mainwindow.cpp:1669-1674 | a report after a backspace counts, a later report wins, a bare "45%" does not count |
| OutputScan.PercentFollowedByNewline | heimdall-frontend/source/mainwindow.cpp:1677 | after the replacement every '%' is followed by a newline |
| OutputScan.Display | heimdall-frontend/source/mainwindow.cpp:1676-1677 | the text a chunk shows; DisplayShape and DisplayAppend state its form |
| OutputScan.DisplayShape | heimdall-frontend/source/mainwindow.cpp:1676-1677 | the shown text has no backspace and every '%' ends a line; other text is shown as it is |
| OutputScan.DisplayAppend | heimdall-frontend/source/mainwindow.cpp:1676-1677 | output split into chunks in any way is shown as the whole output would be |
| OutputScan.ErrorLine | heimdall-frontend/source/mainwindow.cpp:1714-1719 | the message is never longer than standard error |
| OutputScan.ErrorLineBeforeLastBreak | heimdall-frontend/source/mainwindow.cpp:1719 | the message is the text before the last line break with "ERROR: " removed |
| OutputScan.ErrorLineAfterLeadingBreak | heimdall-frontend/source/mainwindow.cpp:1716-1717 | when the only break is first, the message is the text after it |
| OutputScan.ErrorLineWithoutBreak | heimdall-frontend/source/mainwindow.cpp:1719 | without a break (left(-1) keeps everything), all of standard error is the message |
| OutputScan.PathValue | heimdall-frontend/source/mainwindow.cpp:78-92 | the value of the first "PATH=" entry, or none exactly when no entry starts with it |
| OutputScan.WithStandardDirectories | heimdall-frontend/source/mainwindow.cpp:84-88 | /usr/local/bin, then /usr/bin, put in front of the PATH directories when missing |
| OutputScan.PathCandidates | heimdall-frontend/source/mainwindow.cpp:73-92 | the directories the fallback tries; PathCandidatesShape states what they are and PathList computes them |
| OutputScan.PathCandidatesShape | heimdall-frontend/source/mainwindow.cpp:73-92 | the list is empty exactly without a PATH entry; otherwise it holds both standard directories, ends with the PATH directories and starts with /usr/bin when both were missing |
| OutputScan.PathList | heimdall-frontend/source/mainwindow.cpp:75-92 | the search loop computes PathCandidates |
| OutputScan.Executable | heimdall-frontend/source/mainwindow.cpp:105-108 | the program tried in a directory; ExecutableShape states its form |
| OutputScan.ExecutableShape | heimdall-frontend/source/mainwindow.cpp:105-108 | the program is the directory followed by "/heimdall", without a doubled separator |
| OutputScan.Scan | heimdall-frontend/source/mainwindow.cpp:1661-1677 | what HandleHeimdallStdout reads from one chunk: label, progress and shown text; ScanEmpty and ScanAppend state how chunks combine |
| OutputScan.ScanEmpty | heimdall-frontend/source/mainwindow.cpp:1661-1677 | an empty chunk sets neither label nor progress and shows nothing |
| OutputScan.ScanAppend | heimdall-frontend/source/mainwindow.cpp:1676-1677 | the text shown for two chunks is that of their concatenation |
| ToolSession.FirstLaunchable | heimdall-frontend/source/mainwindow.cpp:96-113 | the first non-empty directory whose heimdall starts, with none before it, or -1 when none does |
| ToolSession.AfterStdout | heimdall-frontend/source/mainwindow.cpp:1659-1689 | HandleHeimdallStdout on a scanned chunk; StdoutOutcome, StdoutChunks and ConsolesAppend state its effect |
| ToolSession.AfterReturned | heimdall-frontend/source/mainwindow.cpp:1691-1733 | HandleHeimdallReturned: the remaining output, then the outcome; ReturnedStops, ReturnedResume and ReturnedReport state its effect |
| ToolSession.Finished | heimdall-frontend/source/mainwindow.cpp:1695-1731 | the outcome part of HandleHeimdallReturned |
| ToolSession.AfterError | heimdall-frontend/source/mainwindow.cpp:1735-1783 | HandleHeimdallError; ErrorStops, ErrorReportedOnLabel and ErrorReportedInConsole state its effect |
| ToolSession.Announced | heimdall-frontend/source/mainwindow.cpp:56-65 | the command echo, in the console of the run |
| ToolSession.Attempt | heimdall-frontend/source/mainwindow.cpp:67-68 | one start: the program is launched when it can start, otherwise HandleHeimdallError runs with FailedToStart |
| ToolSession.Retried | heimdall-frontend/source/mainwindow.cpp:94-113 | the fallback loop, with or without the command's state put back before each try; RetriedOutcome states its outcome |
| ToolSession.StartWith | heimdall-frontend/source/mainwindow.cpp:50-123 | StartHeimdall, given whether the fallback puts the state back; StartDirect states the first start |
| ToolSession.StartAsWritten | heimdall-frontend/source/mainwindow.cpp:50-123 | StartHeimdall as written; StartFallbackAsWritten states its fallback |
| ToolSession.Start | heimdall-frontend/source/mainwindow.cpp:50-123 | StartHeimdall with the state put back, as evidently intended; StartFallback states its fallback |
| ToolSession.Prepared | heimdall-frontend/source/mainwindow.cpp:1512-1518 | a command's set-up: its run state, the failure flag cleared, its screen changes |
| ToolSession.FlashPrepared | heimdall-frontend/source/mainwindow.cpp:1172-1222 | the set-up of StartFlash: flashing, no-reboot as the firmware asks, the flash console cleared, the skipping notice for a single-partition repartition |
| ToolSession.FlashStarted | heimdall-frontend/source/mainwindow.cpp:1172-1233 | StartFlash as written; FlashState and FallbackCommandsStopped state its run |
| ToolSession.DetectStarted | heimdall-frontend/source/mainwindow.cpp:1512-1529 | DetectDevice as written; UtilityStates and FallbackCommandsStopped state its run |
| ToolSession.ClosePcScreenStarted | heimdall-frontend/source/mainwindow.cpp:1531-1550 | ClosePcScreen as written; UtilityStates states its run |
| ToolSession.DownloadPitStarted | heimdall-frontend/source/mainwindow.cpp:1567-1592 | DownloadPit as written; PitCommandStates states its run |
| ToolSession.PrintPitStarted | heimdall-frontend/source/mainwindow.cpp:1631-1657 | PrintPit as written; PitCommandStates states its run |
| ToolSession.ReturnedStops | heimdall-frontend/source/mainwindow.cpp:1729-1731 | however a run returns, it is stopped, the no-reboot bit is gone and the progress bar is reset and disabled |
| ToolSession.ReturnedResume | heimdall-frontend/source/mainwindow.cpp:1695-1697 | only a normal exit with code 0 changes resume, to exactly the run's no-reboot bit |
| ToolSession.ReturnedReport | heimdall-frontend/source/mainwindow.cpp:1695-1727 | a flash ends with the success message or the error line; a detection sets the indicator exactly on success |
| ToolSession.ErrorStops | heimdall-frontend/source/mainwindow.cpp:1735-1782 | every process error stops the run; only FailedToStart and Timedout mark the start as failed |
| ToolSession.ErrorReportedOnLabel | heimdall-frontend/source/mainwindow.cpp:1739-1774 | during a flash the error's message goes to the flash label and the progress bar is disabled |
| ToolSession.ErrorReportedInConsole | heimdall-frontend/source/mainwindow.cpp:1744-1778 | outside a flash the report with standard error ends the utility console |
| ToolSession.StdoutOutcome | heimdall-frontend/source/mainwindow.cpp:1659-1689 | a chunk sets the label and the progress when it has them, and its shown text goes to the console of the run |
| ToolSession.StdoutChunks | heimdall-frontend/source/mainwindow.cpp:1676-1688 | the consoles show the same text whether output comes in one chunk or two |
| ToolSession.ConsolesAppend | heimdall-frontend/source/mainwindow.cpp:1679-1688 | console contents depend only on the concatenated shown text |
| ToolSession.StartDirect | heimdall-frontend/source/mainwindow.cpp:67-71 | when the first start succeeds, heimdall runs with the arguments in the command's state |
| ToolSession.RetriedOutcome | heimdall-frontend/source/mainwindow.cpp:94-121 | the directories are tried in order up to the first whose heimdall starts; the start fails exactly when none does |
| ToolSession.StartFallback | heimdall-frontend/source/mainwindow.cpp:71-121 | with the state put back before each try, the run starts from the first usable directory in the command's state, or stops with the failure on the flash label |
| ToolSession.StartFallbackAsWritten | heimdall-frontend/source/mainwindow.cpp:71-121 | as written, the start fails exactly when no directory works, the first usable directory is launched otherwise, and either way the run is stopped; a flash shows "Failed to start Heimdall!" |
| ToolSession.FallbackFlashAsWritten | heimdall-frontend/source/mainwindow.cpp:96-113 | as written, a no-reboot flash started through the fallback is monitored as stopped: its output misses the flash console, it finishes with resume off, and when no "Uploading" line arrives the label still says "Failed to start Heimdall!" |
| ToolSession.FallbackFlash | heimdall-frontend/source/mainwindow.cpp:96-113 | with the state put back, the same flash shows its output in the flash console and finishes with resume on and the success message |
| ToolSession.FlashState | heimdall-frontend/source/mainwindow.cpp:1176-1221 | a flash runs in the flashing state with the no-reboot bit exactly as the firmware asks, launched with FlashArguments |
| ToolSession.UtilityStates | heimdall-frontend/source/mainwindow.cpp:1517-1535 | detect and close-pc-screen run without the no-reboot bit |
| ToolSession.PitCommandStates | heimdall-frontend/source/mainwindow.cpp:1572-1635 | download-pit and print-pit always run with the no-reboot bit |
| ToolSession.FallbackCommandsStopped | heimdall-frontend/source/mainwindow.cpp:96-113 | as written, a flash or detection found only through the search path runs stopped, and a flash fails to start exactly when no directory works |
| ToolSession.HeimdallSession.constructor | heimdall-frontend/source/mainwindow.cpp:436 | the window starts stopped, with resume, verbose output and the failure flag off |
| ToolSession.HeimdallSession.HandleHeimdallError | heimdall-frontend/source/mainwindow.cpp:1735-1783 | the fields become AfterError of the old session |
| ToolSession.HeimdallSession.HandleHeimdallStdout | heimdall-frontend/source/mainwindow.cpp:1659-1689 | the fields become AfterStdout of the old session and the scanned chunk |
| ToolSession.HeimdallSession.ShowOutput | heimdall-frontend/source/mainwindow.cpp:1666-1688 | the label, progress and console updates for a scanned chunk |
| ToolSession.HeimdallSession.HandleHeimdallReturned | heimdall-frontend/source/mainwindow.cpp:1691-1733 | the remaining output is handled, then the outcome, as AfterReturned |
| ToolSession.HeimdallSession.Finish | heimdall-frontend/source/mainwindow.cpp:1695-1731 | the outcome part of HandleHeimdallReturned, as Finished |
| ToolSession.HeimdallSession.StartProcess | heimdall-frontend/source/mainwindow.cpp:67-68 | a start either launches the program or runs the error slot with FailedToStart |
| ToolSession.HeimdallSession.TryPaths | heimdall-frontend/source/mainwindow.cpp:94-113 | the fallback loop as written: only the failure flag and the utility console are reset before each try, as Retried without a restored state |
| ToolSession.HeimdallSession.StartHeimdall | heimdall-frontend/source/mainwindow.cpp:50-123 | the echo, the first start and the fallback as written, as StartAsWritten |
| ToolSession.HeimdallSession.TryPathsRestoring | heimdall-frontend/source/mainwindow.cpp:94-113 | the fallback loop with the command's state put back before each try, as Retried with that state |
| ToolSession.HeimdallSession.StartHeimdallRestoring | heimdall-frontend/source/mainwindow.cpp:50-123 | StartHeimdall with that loop, as Start |
| ToolSession.HeimdallSession.StartFlash | heimdall-frontend/source/mainwindow.cpp:1172-1233 | the set-up of a flash and its start as written with the built arguments, as FlashStarted |
| ToolSession.HeimdallSession.DetectDevice | heimdall-frontend/source/mainwindow.cpp:1512-1529 | the set-up of detect and its start as written, as DetectStarted |
| ToolSession.HeimdallSession.ClosePcScreen | heimdall-frontend/source/mainwindow.cpp:1531-1550 | the set-up of close-pc-screen and its start as written, as ClosePcScreenStarted |
| ToolSession.HeimdallSession.DownloadPit | heimdall-frontend/source/mainwindow.cpp:1567-1592 | the set-up of download-pit and its start as written, as DownloadPitStarted |
| ToolSession.HeimdallSession.PrintPit | heimdall-frontend/source/mainwindow.cpp:1631-1657 | the set-up of print-pit and its start as written, as PrintPitStarted |
| Tee.Filter | heimdall/source/TEEAnalyzer.cpp:41 | a filter never yields more elements than it is given |
| Tee.FilterAppend | heimdall/source/TEEAnalyzer.cpp:41-86 | filtering distributes over concatenation |
| Tee.FilterMultiset | heimdall/source/TEEAnalyzer.cpp:41 | every element is kept as often as it occurs, or not at all |
| Tee.FilterKeepsAll | heimdall/source/TEEAnalyzer.cpp:41 | nothing is dropped exactly when every element qualifies |
| Tee.FilterKeepsNone | heimdall/source/TEEAnalyzer.cpp:41 | nothing is kept exactly when no element qualifies |
| Tee.MentionsAnyExactly | heimdall/source/TEEAnalyzer.cpp:41 | the case-insensitive alternation matches exactly when some keyword occurs, ignoring case |
| Tee.Found | heimdall/source/TEEAnalyzer.cpp:14-18 | the needles addIfAny appends; FoundExactly and FoundInOrder state which |
| Tee.LibraryHints | heimdall/source/TEEAnalyzer.cpp:37-40 | the libraries a vendor-library loop appends; LibraryHintsExactly states which |
| Tee.Score | heimdall/source/TEEAnalyzer.cpp:41 | a family score: the hints matching the family's pattern, ignoring case; ScoreAppend and ScoreExtremes state its range |
| Tee.FoundExactly | heimdall/source/TEEAnalyzer.cpp:8-18 | a needle is appended once per check, exactly when the haystack contains it ignoring case |
| Tee.FoundInOrder | heimdall/source/TEEAnalyzer.cpp:14-18 | checks append their hints in the order they are made |
| Tee.LibraryHintsExactly | heimdall/source/TEEAnalyzer.cpp:37-40 | a library is appended whole, once per occurrence, exactly when it mentions a marker |
| Tee.ScoreAppend | heimdall/source/TEEAnalyzer.cpp:41-86 | a score adds up over consecutive parts of the hint list |
| Tee.ScoreExtremes | heimdall/source/TEEAnalyzer.cpp:41 | a score is at most the hint count, 0 exactly when no hint mentions a keyword, full exactly when all do |
| Tee.Stage | heimdall/source/TEEAnalyzer.cpp:32-86 | the hints the checks of one family append, in order |
| Tee.FamilyScore | heimdall/source/TEEAnalyzer.cpp:41-86 | a family's score on the hint list as it stands right after its own checks; ScoresCountEarlierHints states what it counts |
| Tee.Stages | heimdall/source/TEEAnalyzer.cpp:32-86 | the checks fall into seven families |
| Tee.Candidates | heimdall/source/TEEAnalyzer.cpp:89-98 | one candidate per family, with the family's type, name and score |
| Tee.BestOf | heimdall/source/TEEAnalyzer.cpp:100-103 | the candidate loop; BestOfIsMaximal and BestOfIsEarliest state which candidate wins, and ChooseBest computes it |
| Tee.Clamp | heimdall/source/TEEAnalyzer.cpp:107 | qBound stays within its bounds and keeps a value already within them |
| Tee.AnalysisOf | heimdall/source/TEEAnalyzer.cpp:88-109 | the result for the families and their hints; ConfidenceScaled, UnknownExactlyWithoutScores and WinnerIsEarliestBest state it |
| Tee.Analysis | heimdall/source/TEEAnalyzer.cpp:20-110 | what analyze returns for the evidence; Analyze computes it |
| Tee.BestOfIsMaximal | heimdall/source/TEEAnalyzer.cpp:100-103 | the winner's score is at least every candidate's, and the winner is a candidate or Unknown |
| Tee.BestOfIsEarliest | heimdall/source/TEEAnalyzer.cpp:100-103 | a score of 0 means Unknown; a positive winner beats every earlier candidate strictly |
| Tee.ConfidenceScaled | heimdall/source/TEEAnalyzer.cpp:105-107 | the confidence is min(100, 12 × best score), always within 0..100 |
| Tee.UnknownExactlyWithoutScores | heimdall/source/TEEAnalyzer.cpp:100-107 | the confidence is 0 exactly when every family scores 0, and then the result is Unknown, "Unknown" |
| Tee.WinnerIsEarliestBest | heimdall/source/TEEAnalyzer.cpp:88-106 | with a positive confidence the result names the highest-scoring family, every earlier one scoring strictly lower |
| Tee.HintsGrow | heimdall/source/TEEAnalyzer.cpp:30-86 | the hint list grows by appending only |
| Tee.ScoresCountEarlierHints | heimdall/source/TEEAnalyzer.cpp:41-108 | the indicators are the whole hint list, and a family's score counts only hints up to its own checks |
| Tee.AddIfContains | heimdall/source/TEEAnalyzer.cpp:8-12 | appends the needle exactly when the haystack contains it |
| Tee.AddIfAny | heimdall/source/TEEAnalyzer.cpp:14-18 | appends the contained needles in order |
| Tee.AddLibraries | heimdall/source/TEEAnalyzer.cpp:37-40 | appends the libraries that mention a marker, whole, in order |
| Tee.ChooseBest | heimdall/source/TEEAnalyzer.cpp:100-103 | the candidate loop computes BestOf |
| Tee.AddQseeHints | heimdall/source/TEEAnalyzer.cpp:34-40 | appends the Qualcomm checks' hints |
| Tee.AddOpteeHints | heimdall/source/TEEAnalyzer.cpp:45-47 | appends the OP-TEE checks' hints |
| Tee.AddTrustonicHints | heimdall/source/TEEAnalyzer.cpp:52-57 | appends the Trustonic checks' hints |
| Tee.AddTeegrisHints | heimdall/source/TEEAnalyzer.cpp:62-67 | appends the TEEgris checks' hints |
| Tee.AddPropsAndLogHints | heimdall/source/TEEAnalyzer.cpp:72-73 | appends the property hints, then the kernel-log hints |
| Tee.AddMtkHints | heimdall/source/TEEAnalyzer.cpp:72-73 | appends the MediaTek checks' hints |
| Tee.AddHisiHints | heimdall/source/TEEAnalyzer.cpp:78-79 | appends the Huawei checks' hints |
| Tee.AddStrongBoxHints | heimdall/source/TEEAnalyzer.cpp:84-85 | appends the StrongBox checks' hints |
| Tee.Analyze | heimdall/source/TEEAnalyzer.cpp:20-110 | analyze returns the Analysis of its four inputs, so every property above holds of its result |
| Adb.ArgsCustom | heimdall/source/AdbCommands.cpp:41-44 | every argument is non-empty and has no space |
| Adb.AdbExecutable | heimdall/source/AdbCommands.cpp:8-11 | the program every ADB action starts is one word of a command line |
| Adb.ArgsRebootRecovery | heimdall/source/AdbCommands.cpp:13-18 | argsRebootRecovery; RebootRecoveryAsTyped ties it to its command line |
| Adb.ArgsRebootDownload | heimdall/source/AdbCommands.cpp:20-25 | argsRebootDownload; RebootDownloadAsTyped ties it to its command line |
| Adb.ArgsRebootFastboot | heimdall/source/AdbCommands.cpp:27-32 | argsRebootFastboot; RebootFastbootAsTyped ties it to its command line |
| Adb.ArgsShutdown | heimdall/source/AdbCommands.cpp:34-39 | argsShutdown; ShutdownAsTyped ties it to its command line |
| Adb.ArgsDevices | heimdall/source/AdbCommands.cpp:46-51 | argsDevices; DevicesAsTyped ties it to its command line |
| Adb.ArgsShellLsRoot | heimdall/source/AdbCommands.cpp:53-58 | argsShellLsRoot; ShellLsRootAsTyped ties it to its command line |
| Adb.ArgsLogcatRecent | heimdall/source/AdbCommands.cpp:60-65 | argsLogcatRecent; LogcatCountReadsBack and LogcatDefault state its count argument |
| Adb.ArgsCheckRoot | heimdall/source/AdbCommands.cpp:67-72 | argsCheckRoot; CheckRootAsTyped ties it to its command line |
| Adb.ArgsInstallApk | heimdall/source/AdbCommands.cpp:74-79 | argsInstallApk; InstallKeepsPath states how the path is passed |
| Adb.ArgsGetprop | heimdall/source/AdbCommands.cpp:81-86 | argsGetprop; GetpropAsTyped ties it to its command line |
| Adb.ArgsCustomKeepsText | heimdall/source/AdbCommands.cpp:41-44 | the arguments, put together, are the command line with its spaces deleted, in order |
| Adb.ArgsCustomOfCommandLine | heimdall/source/AdbCommands.cpp:41-44 | words written out with single spaces split back into the same words |
| Adb.ArgsCustomIdempotent | heimdall/source/AdbCommands.cpp:41-44 | splitting, writing out and splitting again gives the first split |
| Adb.RebootRecoveryAsTyped | heimdall/source/AdbCommands.cpp:13-18 | [reboot, recovery], the split of the echoed command line |
| Adb.RebootDownloadAsTyped | heimdall/source/AdbCommands.cpp:20-25 | [reboot, download], the split of the echoed command line |
| Adb.RebootFastbootAsTyped | heimdall/source/AdbCommands.cpp:27-32 | [reboot, bootloader], the split of the echoed command line |
| Adb.ShutdownAsTyped | heimdall/source/AdbCommands.cpp:34-39 | [shell, reboot, -p], the split of the echoed command line |
| Adb.DevicesAsTyped | heimdall/source/AdbCommands.cpp:46-51 | [devices, -l], the split of the echoed command line |
| Adb.ShellLsRootAsTyped | heimdall/source/AdbCommands.cpp:53-58 | [shell, ls, -la, /], the split of the echoed command line |
| Adb.CheckRootAsTyped | heimdall/source/AdbCommands.cpp:67-72 | [shell, which, su], the split of the echoed command line |
| Adb.GetpropAsTyped | heimdall/source/AdbCommands.cpp:81-86 | argsGetprop equals argsCustom("shell getprop") |
| Adb.LogcatCountReadsBack | heimdall/source/AdbCommands.cpp:60-65 | [logcat, -d, -t, n], with the count written so that it reads back as n |
| Adb.LogcatDefault | heimdall/source/AdbCommands.h:26 | with the default 50 lines the list is the split of "logcat -d -t 50" |
| Adb.InstallKeepsPath | heimdall/source/AdbCommands.cpp:74-79 | the path is one argument whatever it holds; this equals splitting "install <path>" exactly when the path is one word |
| Text.Lower | heimdall-frontend/source/mainwindow.cpp:1372 | toLower maps each character by its ASCII lower case, keeping the length |
| Text.Upper | heimdall-frontend/source/mainwindow.cpp:1465 | toUpper maps each character by its ASCII upper case, keeping the length |
| Text.LastIndexOf | heimdall-frontend/source/mainwindow.cpp:1381 | the last position holding the character, or -1 exactly when there is none |
| Text.IndexOfFrom | heimdall-frontend/source/mainwindow.cpp:82 | the first position from `from` holding the character, or -1 when there is none |
| Text.Left | heimdall-frontend/source/mainwindow.cpp:1719 | left(n) is the first n characters, or the whole text when n is negative or too large |
| Text.RemoveChar | heimdall-frontend/source/mainwindow.cpp:1676 | remove(c) leaves no c and never lengthens the text |
| Text.RemoveCharAppend | heimdall-frontend/source/mainwindow.cpp:1676 | remove(c) distributes over concatenation |
| Text.ReplaceCode | heimdall-frontend/source/mainwindow.cpp:1677 | a text without the character is left unchanged |
| Text.RemoveAll | heimdall-frontend/source/mainwindow.cpp:1719 | remove("ERROR: ") never lengthens the text |
| Text.RemoveAllAbsent | heimdall-frontend/source/mainwindow.cpp:1719 | a text without the pattern is left unchanged |
| Text.NatToString | heimdall/source/AdbCommands.cpp:63 | QString::number writes at least one decimal digit |
| Text.DigitsValueOfNatToString | heimdall/source/AdbCommands.cpp:63 | the digits written read back as the number |
| Text.NatToStringNoLeadingZero | heimdall-frontend/source/mainwindow.cpp:1211 | a leading zero is written only for zero |
| Text.IntToStringRoundTrip | heimdall/source/AdbCommands.cpp:63 | any int, negative included, is written so that it parses back |
| Text.Split | heimdall-frontend/source/mainwindow.cpp:82 | split always yields at least one part |
| Text.NonEmptyParts | heimdall/source/AdbCommands.cpp:43 | SkipEmptyParts keeps only non-empty parts of the split |
| Text.JoinSplit | heimdall-frontend/source/mainwindow.cpp:82 | joining the parts of a split with the separator gives the text back |
| Text.SplitWithoutSeparator | heimdall-frontend/source/mainwindow.cpp:82 | a text without the separator is one part |
| Text.SplitAtSeparator | heimdall-frontend/source/mainwindow.cpp:82 | the text before the first separator is the first part |
| Text.SplitJoin | heimdall/source/AdbCommands.cpp:43 | parts free of the separator, joined, split back into the same parts |
| Text.NonEmptyPartsKeepsAll | heimdall/source/AdbCommands.cpp:43 | without empty parts, SkipEmptyParts changes nothing |
| Text.SplitPartsLackSeparator | heimdall/source/AdbCommands.cpp:43 | no part of a split contains the separator |
| Text.ConcatSplit | heimdall/source/AdbCommands.cpp:43 | the parts of a split together are the text without its separators |
| Text.ConcatNonEmptyParts | heimdall/source/AdbCommands.cpp:43 | dropping empty parts does not change the concatenation |

## Left out

- Widgets are not modelled: enabling buttons and tabs, syncing list widgets, tooltips
  and alert dialogs. Only their observable results are kept: the flash label, the
  progress bar, the device indicator, the two consoles and the alert texts of the quick
  conversion. Widget syncing includes the `populatingPartitionNames` flag, which mutes
  SelectPartitionName at mainwindow.cpp:913 while the combo box is refilled; the model
  has no such flag.
- The QProcess machinery is left out: spawning, `waitForStarted`, `readAll` and the
  asynchronous signals. Whether a program can be started is a parameter (a set of
  launchable paths), and output and standard error are parameters of the slots.
- A start that fails runs the error slot with empty standard error, because reading
  the standard error of a process that never started gives nothing here.
- The ADB process slots (mainwindow.cpp 1787-2064) are left out. They are process I/O
  and HTML colouring; only the command lines they echo are used, to state each fixed
  ADB list.
- The network manifest and download code (575-701) is left out: HTTP, JSON and files.
  So are `AnalyzeTEE`'s synchronous adb calls (704-745). The classifier takes the four
  inputs those calls would collect.
- Theming (2068-2375) and resize handling (2378-2431) are left out: they are UI-only
  and use floating point.
- The PIT binary layout, `PitData::Unpack` and `Packaging::BuildPackage` /
  `ExtractPackage` are not modelled, because their sources are not part of this model.
  A read PIT is an abstract outcome (could not open, malformed, or a table). Building a
  package is a boolean parameter.
- `LoadFirmwarePackage` (801-909) is not modelled: temporary-file ownership and archive
  extraction.
- The conversion's version string (1484) reads the clock, so it is a parameter.
- Case mapping and case-insensitive tests are ASCII only. Qt's Unicode case folding is
  not modelled.
- `QFileInfo::fileName` uses '/' as the only directory separator, and so does the
  search-path fallback's `QDir::separator()`.
- `appendPlainText` is modelled as putting the text after a line break, and `setPlainText`
  as replacing the text. `insertPlainText` is modelled as appending at the end: the text
  cursor is taken to stay at the end, so a click or a selection in a console that moves
  it while output streams in (Qt then inserts the chunk at the cursor) is not modelled.
- The progress bar's range check is not modelled: any value `toInt` yields is stored.
- Adb.ArgsLogcatRecent: the count is an unbounded integer, not a 32-bit int; every int
  value is covered, and nothing in the call depends on the width.
- Bindings.Workspace.AddPartition requires a non-empty unused list, because
  `QList::first` on an empty list is undefined. The window enables the add button
  only when a partition is free.
- Bindings.Workspace.SelectPit requires every binding to resolve in the current table,
  because the name loop dereferences the `FindEntry` result without checking it.
- Bindings.Workspace.SelectPartitionName requires a valid index and row, because the
  code indexes both lists without checking.
- Bindings.Workspace.ReloadPreviousPit requires an empty table, because SelectPit
  clears the table before it reads the new file.
- The title and extension warning that SelectPartitionName shows (922-952) are display
  only and are left out.
- FlashCommand.DownloadPitOptions and FlashCommand.PrintPitOptions require that the
  user's path is not itself an option word. Without that, heimdall would read such a
  path as an option.
- The effect of a QRegExp with CaseInsensitive is "contains one of the keywords,
  ignoring ASCII case". The keywords are plain words, with no regex metacharacters
  other than '|'.

## Findings

| source | as written | input that shows it | evidently intended | confidence | as-written member | corrected member |
|---|---|---|---|---|---|---|
| heimdall-frontend/source/mainwindow.cpp:1358 | `packagePath.replace(packagePath.length() - 3, ".tar.gz")` resolves to `replace(QChar, QString)`: every character whose code is the length minus 3 is replaced, and the extension stays. Line 1360 does the same for ".tgz". | saving a package as "pkg.gz" builds "pkg.gz" | the final ".gz" (".tgz") is replaced by ".tar.gz", as the quick conversion does at 1498-1499 | not executed | PackagePaths.BuildPackageGzExample | PackagePaths.PackageTarget |
| heimdall-frontend/source/mainwindow.cpp:1066 | SelectPit remaps a local copy of the bindings and discards it, so the bindings keep their old identifiers under the new table | old table 5=BOOT, new table 7=BOOT and 5=CACHE, binding 5 to boot.img: after selecting the new table, boot.img is bound to CACHE | the remapped bindings are stored back into the working firmware | not executed | Bindings.SelectPitAsWrittenRebinds | Bindings.RemapResolves |
| heimdall-frontend/source/mainwindow.cpp:96-113 | the first failed start runs HandleHeimdallError, which sets the state to Stopped; the fallback loop retries without restoring it, so the run is then monitored as Stopped | a no-reboot flash where "heimdall" is not startable but /usr/bin/heimdall is: its output goes to the utility console, on success resume stays off, and when no "Uploading" line arrives the label still says "Failed to start Heimdall!" | the command's state is put back before each fallback try (StartHeimdallRestoring), so the flash completes with resume on and the success message | not executed | ToolSession.FallbackFlashAsWritten | ToolSession.FallbackFlash |
