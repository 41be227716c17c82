# appimage-builder core, modelled in Dafny

This project models the parts of appimage-builder that decide what ends up in an
AppImage bundle, and proves properties of that model:

- **The primer** (`Primer`, class `AppImagePrimer`) assembles the bundle. It takes
  the AppImageKit runtime, the "carrier", which is downloaded when not cached. It
  appends the squashfs payload to it, writes the update information into the
  `.upd_info` section of the carrier, and computes MD5 and SHA-256 over the bundle
  in 1024-byte chunks. It writes the GPG signature of the SHA-256 digest's hex text
  into `.sha256_sig` and the exported key into `.sig_key`, runs zsyncmake when update
  information is set, and finally sets the owner-execute bit. The files involved are
  the object's fields. The external tools are the oracles of a `Toolchain`: download,
  mksquashfs, lief's section table, the hashes, GnuPG and zsyncmake.
- **ELF probing** (`Elf`): the `\x7fELF` magic and the architecture name taken
  from the `e_machine` byte at offset 18.
- **Recipe variable substitution** (`Roamer`): every `{{ NAME }}` placeholder in the
  strings of a recipe value is replaced by the environment variable NAME. Lists and
  dicts are processed recursively, and a missing variable is an error.
- **Icon selection** (`Icons`): the icon name is normalised. The search covers the
  AppDir's `usr/share` and `usr/local/share`, then every `XDG_DATA_DIRS` entry, in
  their `icons` and `pixmaps` subdirectories. Within one directory tree an SVG wins
  at once, otherwise the PNG with the largest `<W>x<H>` size in its path wins.
- **The interpreter-chain scanner** (`ExecutablesScanner`) follows shebangs from a
  file to the ELF binary that finally runs it, at most five files deep. It links the
  `Executable` objects it creates.
- **Qt configuration** (`QtHelper`, class `Qt`) locates the Qt 4, 5 and 6 directories
  in the AppDir and writes a `qt.conf` or `qt6.conf` into every directory that holds
  executables. Every path in that file is relative: the `Prefix` leads back to the
  AppDir, and every other entry is relative to the AppDir.

Shared modules model the Python library behaviour the core relies on:
- `Wrappers`: `Option`, `Result`, and `Outcome`, a step that passes or fails with an
  error.
- `Bytes`: bytes, and positioned reads and writes.
- `Encoding`: UTF-8 encoding of text and lowercase hex.
- `Text`: `find`, `replace(…, 1)`, `strip`, `split` and `join`.
- `Paths`: `os.path.join` and `basename` on strings, and `pathlib` paths as lists of
  segments with `parent`, `relative_to` and `relpath`.

Where the code and its documentation disagree, the model follows the code:
- **Make executable**: only the owner-execute bit (`stat.S_IEXEC`, 0o100) is set, not
  group and other.
- **Patching** does not check that the data fits its section. A longer write spills
  into the following bytes, as `Primer.PatchOverflowsSection` shows. The fit
  properties are proved under an explicit `Fits` precondition.
- **`scan_file`** returns at most four executables. A fifth iteration raises
  "Loop found", even when the fifth file is a binary.
- **Replacement**: `str.replace(item, value, 1)` is applied to the string as
  rewritten so far. So a value that itself contains a placeholder can be rewritten
  by a later item. `Roamer.ReplaceEnvVariablesIsExpand` proves that the loop equals
  in-place substitution when no value contains `{` and every `{` of the input
  belongs to a placeholder. `Roamer.SubstitutedTextCanBeRewritten` gives an input
  where the two differ.
- **Qt 4**:
  - `Libraries` is stored before `paths[0]` raises on an empty qmake search, so that
    entry survives the exception.
  - `Binaries` is the parent of the first directory reported to contain `qmake`.
- **Icons**: an unset or empty `XDG_DATA_DIRS` splits into one empty entry, so
  `/icons` and `/pixmaps` are searched as well.

## Model

| member | source | states |
|---|---|---|
| Elf.HasMagicBytes | appimagebuilder/utils/elf.py:18-24 | true exactly when the file has at least four bytes and they are 0x7F 'E' 'L' 'F'; a shorter file never has the magic |
| Elf.GetArch | appimagebuilder/utils/elf.py:70-91 | succeeds exactly when the file has a byte at offset 18 and it is 0xB7, 0x28, 0x03 or 0x3E, naming aarch64, gnueabihf, i386 and x86_64 respectively; otherwise the error carries the bytes read, none for a file shorter than 19 bytes |
| Elf.GetArchReadsOnlyMachineByte | appimagebuilder/utils/elf.py:83-87 | two files with the same byte at offset 18 get the same answer, whatever else they hold |
| Elf.GetArchShortFile | appimagebuilder/utils/elf.py:83-91 | a file of at most 18 bytes is always an unknown architecture with nothing read |
| Elf.KnownArchitecturesInjective | appimagebuilder/utils/elf.py:76-81 | distinct machine bytes of the table give distinct architecture names |
| Primer.ResolveAppImageFileName | appimagebuilder/modules/prime/appimage_primer.py:63-68 | a configured, non-empty `file_name` is used verbatim; otherwise the name is the application name, then `-`, the version, `-`, the architecture, then `.AppImage`, each part in its place and nothing else |
| Primer.SignedMessage | appimagebuilder/modules/prime/appimage_primer.py:124 | the text signed is 64 lowercase hex digits that decode back to the digest, so no digest information is lost |
| Primer.WithOwnerExecuteBits | appimagebuilder/modules/prime/appimage_primer.py:105-107 | finalising sets the owner-execute bit, keeps every bit already set and changes no other bit |
| Primer.PatchInsideSection | appimagebuilder/modules/prime/appimage_primer.py:150-154 | a patch that fits its section leaves the data at the section offset, and the file length and every byte outside the section unchanged |
| Primer.PatchOverflowsSection | appimagebuilder/modules/prime/appimage_primer.py:150-154 | without a fit check, data longer than its section overwrites the byte after the section |
| Primer.PatchCarrierSection | appimagebuilder/modules/prime/appimage_primer.py:52-58 | section offsets read from the carrier may be applied to the bundle: patching carrier+payload inside a carrier section equals patching the carrier and appending the payload untouched |
| Primer.UpdateInformationExample | appimagebuilder/modules/prime/appimage_primer.py:109-115 | a 64-byte zero carrier with `.upd_info` at offset 40 and update information "zs" gets 0x7A 0x73 at bytes 40-41 and zeros everywhere else |
| Primer.NoUpdateInformationNoPatch | appimagebuilder/modules/prime/appimage_primer.py:109-110 | with no (or empty) update information the stage passes and the bundle is byte-for-byte unchanged |
| Primer.NoSignKeyNoPatch | appimagebuilder/modules/prime/appimage_primer.py:117-120 | with no signing key the signing stage passes and the bundle is byte-for-byte unchanged |
| Primer.SignedBundleLayout | appimagebuilder/modules/prime/appimage_primer.py:117-131 | with a key and two disjoint sections that hold the data, the signature of the digest's hex text lands in `.sha256_sig`, the exported key in `.sig_key`, and every other byte and the length are unchanged |
| Primer.ExpectedBundleLayout | appimagebuilder/modules/prime/appimage_primer.py:41-61 | on a runtime whose sections are present, inside the carrier and large enough, the finished bundle is as long as carrier plus payload, ends with the payload unchanged, and differs from the carrier only inside the reserved sections |
| Primer.AppImagePrimer.constructor | appimagebuilder/modules/prime/appimage_primer.py:29-39 | keeps the recipe settings, resolves the bundle file name, and starts with an empty bundle and no payload file |
| Primer.AppImagePrimer.GetAppImageKitRuntime | appimagebuilder/modules/prime/appimage_primer.py:88-93 | fetches `…/continuous/runtime-<arch>` into the cache; on success the cached carrier is what was fetched; on failure the error names the URL, and the cache holds the bytes received before the failure when the file was already opened (a truncated runtime), or is unchanged when the failure came first |
| Primer.AppImagePrimer.AddPayload | appimagebuilder/modules/prime/appimage_primer.py:95-103 | a missing payload is an error with the bundle unchanged; otherwise the whole payload is appended, or only the bytes copied before the copy failed; the payload file is deleted in every case |
| Primer.AppImagePrimer.PatchAppImage | appimagebuilder/modules/prime/appimage_primer.py:150-154 | the bundle after the seek-and-write is the old bundle overwritten at the offset, as `Bytes.WriteAt` defines and the patch lemmas characterise |
| Primer.AppImagePrimer.AddAppImageUpdateInformation | appimagebuilder/modules/prime/appimage_primer.py:109-115 | bundle and outcome are those of the update-information stage function (errors on a missing `.upd_info` section), whose properties are the lemmas above |
| Primer.AppImagePrimer.GenerateChecksums | appimagebuilder/modules/prime/appimage_primer.py:133-144 | for any positive chunk size the chunked loop feeds every byte of the bundle exactly once, in order, so both digests are the digests of the whole file |
| Primer.AppImagePrimer.SignBundleSha256Digest | appimagebuilder/modules/prime/appimage_primer.py:117-131 | bundle and outcome are those of the signing stage function (errors on a missing `.sha256_sig` or `.sig_key`, after any earlier write), characterised by the lemmas above |
| Primer.AppImagePrimer.GenerateZsyncFile | appimagebuilder/modules/prime/appimage_primer.py:156-166 | fails exactly when update information is configured and zsyncmake fails; the bundle is not touched |
| Primer.AppImagePrimer.MakeAppImageExecutable | appimagebuilder/modules/prime/appimage_primer.py:105-107 | the new mode is the old one with the owner-execute bit ORed in |
| Primer.AppImagePrimer.Prime | appimagebuilder/modules/prime/appimage_primer.py:41-61 | on success: the runtime was cached or downloaded, the bundle is the carrier plus payload patched with the update information and then signed over the SHA-256 of that patched image, the mode gains owner-execute and the payload file is gone; on failure the mode is unchanged, and a payload failure leaves no payload file; a failed download leaves at most the truncated bytes in the cache, which a later run would take for the runtime, as only the file's existence is checked |
| Roamer.MatchAt | appimagebuilder/recipe/roamer.py:57 | a match of `{{\s?\w+\s?}}` at a position ends at least five characters later, inside the string |
| Roamer.MatchAtIsPlaceholder | appimagebuilder/recipe/roamer.py:57 | every match is `{{`, at most one whitespace, a non-empty word run, at most one whitespace, `}}` |
| Roamer.PlaceholderIsMatched | appimagebuilder/recipe/roamer.py:57 | conversely, every text of that form at a position is matched there, ending exactly where it ends |
| Roamer.NoMatchWithTwoLeadingSpaces | appimagebuilder/recipe/roamer.py:57 | two whitespace characters after `{{` never match |
| Roamer.NoMatchWithTwoTrailingSpaces | appimagebuilder/recipe/roamer.py:57 | no match has two whitespace characters before its `}}` |
| Roamer.FindAll | appimagebuilder/recipe/roamer.py:57 | each item found starts with `{{` and is at least five characters long |
| Roamer.FindAllNone | appimagebuilder/recipe/roamer.py:57 | a string with no match anywhere yields no items |
| Roamer.PlaceholderNameIsWord | appimagebuilder/recipe/roamer.py:58-59 | the variable name taken from a match is exactly its run of word characters |
| Roamer.NameInsidePadding | appimagebuilder/recipe/roamer.py:58-59 | cutting `{{`/`}}` and stripping whitespace removes exactly the optional padding around the name |
| Roamer.ReplaceEnvVariablesInStr | appimagebuilder/recipe/roamer.py:55-65 | the loop's result is the fold that replaces the leftmost occurrence of each found item, in order, in the string as rewritten so far |
| Roamer.NoPlaceholderUnchanged | appimagebuilder/recipe/roamer.py:55-65 | a string without placeholders comes back unchanged, whatever the environment |
| Roamer.ReplaceItemsFails | appimagebuilder/recipe/roamer.py:60-61 | the rewriting fails exactly when some item names an unset variable, and the error names the first such item's variable |
| Roamer.ReplaceItemsIsExpand | appimagebuilder/recipe/roamer.py:63 | from any position, with brace-free values and no stray `{`, the replace-first fold agrees with in-place substitution of the rest of the string |
| Roamer.ReplaceEnvVariablesIsExpand | appimagebuilder/recipe/roamer.py:55-65 | under the same conditions the result is the in-place substitution of every placeholder by its value |
| Roamer.SubstitutedTextCanBeRewritten | appimagebuilder/recipe/roamer.py:63 | with A = `{{B}}` and B = x, `{{A}}{{B}}` becomes x + `{{B}}`, where in-place substitution gives `{{B}}` + x |
| Roamer.Collect | appimagebuilder/recipe/roamer.py:50-52 | the elementwise results succeed exactly when each element does, keeping every value in order |
| Roamer.Call | appimagebuilder/recipe/roamer.py:26-39 | with `resolve_variables` false the value is returned untouched |
| Roamer.ResolveVariablesKeepsShape | appimagebuilder/recipe/roamer.py:45-53 | resolution keeps the shape: strings stay strings, lists keep their length, dicts keep their keys in order, other scalars stay equal |
| Roamer.ResolveVariablesSucceeds | appimagebuilder/recipe/roamer.py:45-53 | resolving a value succeeds exactly when every string inside it can be rewritten |
| Roamer.ScalarsUnchanged | appimagebuilder/recipe/roamer.py:53 | numbers, booleans and null come back as they are |
| Icons.NewIconBundler | appimagebuilder/modules/setup/icon_bundler.py:22-34 | the bundler keeps the AppDir; an icon name ending in `.ico`, `.png` or `.svg` loses exactly those four characters, any other name is kept whole |
| Icons.DigitRunEnd | appimagebuilder/modules/setup/icon_bundler.py:101-107 | the run of `\d+` from a position is maximal: all digits up to its end, and the end is the string's end or a non-digit |
| Icons.NormaliseIconName | appimagebuilder/modules/setup/icon_bundler.py:22-34 | the kept name is a prefix of the given one, either all of it or four characters shorter |
| Icons.NormaliseRemovesExtension | appimagebuilder/modules/setup/icon_bundler.py:25-34 | a name followed by `.ico`, `.png` or `.svg` normalises to the name |
| Icons.NormaliseKeepsOtherNames | appimagebuilder/modules/setup/icon_bundler.py:22-34 | a name with none of those extensions is kept as given |
| Icons.SizeFromFirstLineWithComponent | appimagebuilder/modules/setup/icon_bundler.py:101-103 | the size is the width of the last `/<W>x<H>/` component on the first line that has one |
| Icons.LineWithoutComponentSkipped | appimagebuilder/modules/setup/icon_bundler.py:102 | a line without such a component is passed over and the search resumes after its newline |
| Icons.SizeWithoutComponent | appimagebuilder/modules/setup/icon_bundler.py:101-107 | a path without such a component has size 0 |
| Icons.IconBundler.Kept | appimagebuilder/modules/setup/icon_bundler.py:91-97 | the kept PNG is replaced only by a PNG of the entry at least as large as it |
| Icons.IconBundler.SearchIcon | appimagebuilder/modules/setup/icon_bundler.py:78-99 | the loop over the walk, with its early return, computes the reference search result |
| Icons.IconBundler.SvgWins | appimagebuilder/modules/setup/icon_bundler.py:86-89 | the first walk entry holding the SVG gives the result, whatever PNGs come before or after |
| Icons.IconBundler.LargestPngWins | appimagebuilder/modules/setup/icon_bundler.py:91-99 | without an SVG the result is the largest PNG, ties going to the one found last |
| Icons.IconBundler.SearchFindsNothingIffNoHit | appimagebuilder/modules/setup/icon_bundler.py:78-99 | nothing is found exactly when no walk entry holds the SVG or the PNG |
| Icons.IconBundler.SearchResultNotEmpty | appimagebuilder/modules/setup/icon_bundler.py:89-92 | a hit is never the empty (falsy) path |
| Icons.IconBundler.SearchRoots | appimagebuilder/modules/setup/icon_bundler.py:58-67 | the roots are the AppDir's `usr/share` and `usr/local/share`, then the `:`-separated entries of `XDG_DATA_DIRS` in order, an unset variable reading as the empty string (one empty entry) |
| Icons.IconDirs | appimagebuilder/modules/setup/icon_bundler.py:69-71 | root k gives directory 2k, its `icons`, and 2k+1, its `pixmaps` |
| Icons.RefineSearchPaths | appimagebuilder/modules/setup/icon_bundler.py:69-71 | the loop builds exactly the `icons`/`pixmaps` list of every root, in order |
| Icons.IconBundler.SearchInTurn | appimagebuilder/modules/setup/icon_bundler.py:72-76 | nothing exactly when no directory yields a hit; otherwise the hit of the first directory that yields one |
| Icons.IconBundler.GetIconPath | appimagebuilder/modules/setup/icon_bundler.py:58-76 | the same over the search order of the AppDir roots and `XDG_DATA_DIRS` |
| Icons.IconBundler.NoEmptyHit | appimagebuilder/modules/setup/icon_bundler.py:37-39 | the returned path is non-empty whenever it is a hit, so the "not found" test is exactly "no hit" |
| Icons.IconBundler.BundleIcon | appimagebuilder/modules/setup/icon_bundler.py:36-56 | "not found" exactly when no searched directory holds the icon; with a hit and working file operations the result is success; the source, on success and on a copy error alike, is what the first directory in search order holding the icon gives; the copy goes to AppDir/basename(source) and `.DirIcon` links to that basename; any other error is a copy error, only when file operations fail, naming the source and that target |
| ExecutablesScanner.InterpreterWord | appimagebuilder/modules/setup/apprun_2/executables_scanner.py:77-80 | the word after `/usr/bin/env`, or the first word; none only for a bare `/usr/bin/env` |
| ExecutablesScanner.ResolveInterpreterPath | appimagebuilder/modules/setup/apprun_2/executables_scanner.py:76-96 | an index error exactly for a bare `/usr/bin/env`; success gives the non-empty relative path of the AppDir file named like the stripped basename; a missing interpreter error names that basename |
| ExecutablesScanner.EnvResolvesItsArgument | appimagebuilder/modules/setup/apprun_2/executables_scanner.py:77-80 | `#!/usr/bin/env w …` resolves the same as `#!w` |
| ExecutablesScanner.ResolutionByFileName | appimagebuilder/modules/setup/apprun_2/executables_scanner.py:82-85 | interpreters with the same stripped basename resolve alike, whatever their directory |
| ExecutablesScanner.ScanAtMostFour | appimagebuilder/modules/setup/apprun_2/executables_scanner.py:50-72 | a successful scan lists at most four executables |
| ExecutablesScanner.ScanIsChain | appimagebuilder/modules/setup/apprun_2/executables_scanner.py:50-69 | the first listed file is the one scanned; every listed file but the last is a script whose shebang resolves to the next |
| ExecutablesScanner.ScanBinaryIsLast | appimagebuilder/modules/setup/apprun_2/executables_scanner.py:58-61 | a binary can only be the last executable listed |
| ExecutablesScanner.SelfInterpretedLoops | appimagebuilder/modules/setup/apprun_2/executables_scanner.py:50-72 | a script whose interpreter resolves to itself raises "Loop found" |
| ExecutablesScanner.ScanStopsUnlisted | appimagebuilder/modules/setup/apprun_2/executables_scanner.py:55-63 | a file that is neither a script nor a runnable ELF, or a script with a missing interpreter, ends the scan with nothing listed |
| ExecutablesScanner.ScanOfBinary | appimagebuilder/modules/setup/apprun_2/executables_scanner.py:58-61 | an ELF executable with `_start` is listed alone, with its architecture |
| ExecutablesScanner.Executable.constructor | appimagebuilder/modules/setup/apprun_2/executables_scanner.py:53-60 | a new executable keeps its path and kind and has no interpreter yet |
| ExecutablesScanner.Append | appimagebuilder/modules/setup/apprun_2/executables_scanner.py:65-68 | the new executable becomes the previous last one's interpreter and goes last; the list stays linked and duplicate-free, and its steps grow by one |
| ExecutablesScanner.Inspect | appimagebuilder/modules/setup/apprun_2/executables_scanner.py:51-63 | each decision of one turn of the loop (follow, last, stop, raise) is the matching step of the reference scan |
| ExecutablesScanner.ScanFile | appimagebuilder/modules/setup/apprun_2/executables_scanner.py:46-74 | succeeds exactly when the reference scan does, returning linked executables whose paths and kinds are the scan's steps, and otherwise the same error |
| QtHelper.LookupStore | appimagebuilder/modules/setup/helpers/qt.py:85 | after `d[key] = value` the key maps to the value and every other key keeps its value |
| QtHelper.StoreNewKey | appimagebuilder/modules/setup/helpers/qt.py:75-77 | a key not yet present is stored last, as a dict keeps insertion order |
| QtHelper.CoreMissingLocatesNothing | appimagebuilder/modules/setup/helpers/qt.py:82-88 | without the core library nothing is located for that Qt version (also lines 120-126, 167-173), and Qt 4 does not raise |
| QtHelper.CoreFoundGivesLibraries | appimagebuilder/modules/setup/helpers/qt.py:82-85 | with the core library found (also lines 120-123, 167-170), `Libraries` is its directory and the located set is not empty |
| QtHelper.PluginsIsGrandparent | appimagebuilder/modules/setup/helpers/qt.py:104-107 | `Plugins` is the grandparent of the marker plugin, here and at lines 138-141 and 185-188 |
| QtHelper.Qt6QmlImportsAgree | appimagebuilder/modules/setup/helpers/qt.py:190-194 | Qt 6's `QmlImports` and `Qml2Imports` are both the directory of `builtins.qmltypes` |
| QtHelper.Qt4BinariesFromQmakeDir | appimagebuilder/modules/setup/helpers/qt.py:90-102 | Qt 4's `Binaries` is the parent of the first directory reported to contain `qmake` |
| QtHelper.RelativeEntriesAt | appimagebuilder/modules/setup/helpers/qt.py:76-77 | entry k of the conf is located key k with its directory relative to the AppDir |
| QtHelper.StoreKeys | appimagebuilder/modules/setup/helpers/qt.py:119-154 | `d[key] = value` adds that key to the dict's keys and no other |
| QtHelper.StoreDistinct | appimagebuilder/modules/setup/helpers/qt.py:119-154 | `d[key] = value` never makes a key appear twice |
| QtHelper.StoreAllWellFormed | appimagebuilder/modules/setup/helpers/qt.py:119-154 | a run of stores keeps the keys distinct and adds no key the run does not store |
| QtHelper.LocatedWellFormed | appimagebuilder/modules/setup/helpers/qt.py:81-202 | locating Qt 4, 5 or 6 keeps the directories free of duplicate keys and of a `Prefix` key |
| QtHelper.LocatedConf | appimagebuilder/modules/setup/helpers/qt.py:74-79 | for the directories located from the constructor's empty dicts, generation succeeds exactly when all lie inside the AppDir, and the conf is then `Prefix` followed by one relative entry per located directory |
| QtHelper.GeneratedConfMeaning | appimagebuilder/modules/setup/helpers/qt.py:74-79 | generation fails exactly when a located directory is outside the AppDir, naming the first such one; otherwise the conf is `Prefix` followed by one relative entry per located directory, in order |
| QtHelper.GeneratedConfResolves | appimagebuilder/modules/setup/helpers/qt.py:75-77 | following `Prefix` from the conf's directory reaches the AppDir, and each relative entry appended to the AppDir gives back its directory |
| QtHelper.GeneratedConfErrorIgnoresBase | appimagebuilder/modules/setup/helpers/qt.py:74-79 | whether generation raises does not depend on the directory it is generated for |
| QtHelper.ParseConfText | appimagebuilder/modules/setup/helpers/qt.py:66-72 | the written text starts with `[Paths]` and reads back as exactly the conf's entries, in order |
| QtHelper.DeployedFails | appimagebuilder/modules/setup/helpers/qt.py:40-42 | deployment fails exactly when there is an executable directory and generation raises, and then no file is written |
| QtHelper.DeployedWrites | appimagebuilder/modules/setup/helpers/qt.py:40-42 | a successful deployment writes into every executable directory the conf generated for it, and adds no other file |
| QtHelper.DeployedKeeps | appimagebuilder/modules/setup/helpers/qt.py:40-42 | every file other than the written confs keeps its content |
| QtHelper.Qt.constructor | appimagebuilder/modules/setup/helpers/qt.py:23-28 | the three located-directory dicts start empty |
| QtHelper.Qt.LocateQt4Dirs | appimagebuilder/modules/setup/helpers/qt.py:81-117 | the Qt 4 dict becomes the located Qt 4 directories; it raises exactly when the core library is found but no `qmake` directory is |
| QtHelper.Qt.LocateQt5Dirs | appimagebuilder/modules/setup/helpers/qt.py:119-154 | the Qt 5 dict becomes the located Qt 5 directories |
| QtHelper.Qt.LocateQt6Dirs | appimagebuilder/modules/setup/helpers/qt.py:166-202 | the Qt 6 dict becomes the located Qt 6 directories |
| QtHelper.Qt.GenerateConf | appimagebuilder/modules/setup/helpers/qt.py:74-79 | the loop builds the conf that `GeneratedConfMeaning` characterises, or its error |
| QtHelper.Qt.WriteQtConf | appimagebuilder/modules/setup/helpers/qt.py:66-72 | `target_dir/qt.conf` holds the `[Paths]` text of the conf (read back by `ParseConfText`); no other file changes |
| QtHelper.Qt.WriteQt6Conf | appimagebuilder/modules/setup/helpers/qt.py:58-64 | the same text in `target_dir/qt6.conf` |
| QtHelper.Qt.ConfigureQt4 | appimagebuilder/modules/setup/helpers/qt.py:35-42 | locates Qt 4; the qmake error writes nothing; an empty result writes nothing; otherwise the files are those of deploying `qt.conf` to every executable directory |
| QtHelper.Qt.ConfigureQt5 | appimagebuilder/modules/setup/helpers/qt.py:44-51 | locates Qt 5; an empty result writes nothing; otherwise `qt.conf` is deployed to every executable directory |
| QtHelper.Qt.ConfigureQt6 | appimagebuilder/modules/setup/helpers/qt.py:156-164 | locates Qt 6; an empty result writes nothing; otherwise `qt6.conf` is deployed to every executable directory |
| QtHelper.Qt.Configure | appimagebuilder/modules/setup/helpers/qt.py:30-33 | Qt 4, then 5, then 6: the Qt 4 `qmake` error stops the rest with no file written and the Qt 5 and 6 dicts untouched; otherwise each version in turn deploys its `qt.conf` (Qt 6: `qt6.conf`) into every executable directory when it located anything, starting from the files the previous version left; the first deployment that fails ends the run with its error and its files, leaving the later versions' dicts untouched; nothing located means nothing written |
| Encoding.HexRoundTrip | appimagebuilder/modules/prime/appimage_primer.py:124 | `bytes.hex()` loses nothing: decoding the hex text gives the bytes back |
| Encoding.Utf8EncodeAscii | appimagebuilder/modules/prime/appimage_primer.py:114 | ASCII text encodes to one byte per character, each the character's code |
| Bytes.WriteAtWindow | appimagebuilder/modules/prime/appimage_primer.py:152-154 | a write inside the file keeps its length, puts the data in its window and leaves every other byte |
| Paths.RelPathResolves | appimagebuilder/modules/setup/helpers/qt.py:75 | following `relpath(target, start)` from `start` reaches `target` |
| Paths.BasenameOfJoin | appimagebuilder/modules/setup/icon_bundler.py:41-43 | the basename of a directory joined with a file name is that name |
| Text.JoinSplit | appimagebuilder/modules/setup/icon_bundler.py:66-67 | splitting `XDG_DATA_DIRS` at `:` loses nothing: joining the parts gives the text back |

## Left out

- The file system, network and child processes become parameters, each a total
  function or a success flag:
  - `urlretrieve`, whose outcome is the whole runtime, a failure before the
    target file is opened, or a failure that leaves the bytes received so far;
  - `mksquashfs`, `zsyncmake` and `readelf`;
  - `lief.parse`, hashlib, GnuPG and `os.walk`;
  - `read_shebang`, `Finder.find_one` and `find_dirs_containing`;
  - `os.path.relpath` against the working directory.
- The MD5 and SHA-256 algorithms are opaque functions of the bytes fed to them.
  Signatures and exported keys are whatever GnuPG returns.
- Logging is left out throughout. It has no effect on results, except the
  `relative_to` in the log line of `_write_qt_conf` and `_write_qt6_conf`, which
  would raise for a target directory outside the AppDir. The finder only reports
  directories inside the AppDir, so this case is not modelled.
- `finder.py`, `base_helper.py`, `executables.py`, `apprun_utils.py`, `shell.py` and
  the `roam` library are not part of this model. Only what the core asks of them
  appears: the finder's file checks are folded into its pattern lookups, and the
  `Executable` class keeps only path, kind and interpreter.
- `\d`, `\s` and `\w` cover only characters below 0x80 here. Within that range they are
  exactly Python's classes, and `\s` includes 0x1C to 0x1F. Python also accepts the
  Unicode digits, whitespace and word characters above it, which the model leaves out
  to keep the character classes finite.
- `configure(env, preserve_files)` ignores both parameters, so the model takes neither.
- `pathlib` paths are normalised absolute segment lists: no `.`, no symlinks, no
  trailing slashes.
- `_add_md5_digest` is never called by `prime`. Its MD5 digest is computed and
  discarded, as in the source.
- `_generate_zsync_file` tests `self.config["update-information"]` without calling
  it. Its truthiness depends on the `roam` library, which is not part of this model;
  the model treats it as the update-information setting being configured.
- Primer.AppImagePrimer.Prime: it does not state what a stage that fails part-way
  leaves in the bundle. Each stage's own contract states that.
- Primer.AppImagePrimer.AddPayload: it does not model exceptions other than a
  missing payload file and a copy that stops after some number of bytes.
- ExecutablesScanner.ScanFile: it does not state that the returned executables are
  freshly allocated. The loop invariant carries that fact, but it is kept out of
  the postcondition.
- Icons.IconBundler.BundleIcon: the copy and the `.DirIcon` symlink succeed or fail
  together, as one flag. Removing an existing `.DirIcon` is not modelled.
- Exceptions are modelled only where the core raises or lets them escape, as
  `Result` or `Outcome` errors.
- Python's `IndexError` on a bare `#!/usr/bin/env` shebang escapes `scan_file`. It is
  modelled as its own error, `InterpreterIndexError`.
