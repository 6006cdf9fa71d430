# Chinese-named audio renaming tools, modelled in Dafny

This project models three scripts that prepare a Ren'Py game's audio assets.

- `audio_rename_tool.py` transliterates CJK file and directory names to pinyin and renames them on disk. It then rewrites the references to them in the game's `.rpy` scripts.
- `rename.py` does the same renaming with its own, index-driven name cleaner. It first writes a preview log of the planned renames.
- `fix_rpy.py` reads the file renames back from that preview log. It records every script line that mentions an old name, and later writes the rewritten lines back in place.

The model is split into modules:

- `Text`: the pieces of Python's `str` and `os.path` that the scripts use (`replace`, `split`, `strip`, `splitext`, `dirname`, `join`, string ordering), with their laws.
- `Dicts`: Python's insertion-ordered dict, as an association list.
- `Sorting`: the stable `list.sort`, as a stable insertion sort.
- `FileSystem`: a directory tree as a `FileTree` object holding the set of existing paths. Its methods are `exists`, `makedirs`, `shutil.move` and `os.rename`.
- `AudioNames`, `AudioScan`, `AudioRename`, `AudioRpy`: `audio_rename_tool.py`.
- `RenameSymbols`, `RenameScript`: `rename.py`.
- `FixRpy`: `fix_rpy.py`.

Pure computations are functions. Each loop of the scripts is a method with loop invariants, proved equal to its specification function. Renaming changes a `FileTree` in place, and `fix_rpy.py`'s line updates change an `array` in place. The properties the scripts rely on are proved as lemmas about the specification functions. These properties include:

- which names are renamed, and to what;
- moving directories deepest first never loses a pending source;
- the preview log reads back as the file rename pairs;
- scanning and then updating rewrites exactly the lines that mention an old name.

Modelling choices:

- Paths are relative to the scanned base, and the separator is `/`. `audio_rename_tool.py`'s `replace('/', os.sep)` is then an identity. Its `replace('\\', '/')` is not, for a name that contains `\`: see "## Left out".
  - `rename.py` counts the depth on the full path and sorts on its full tuple.
  - Every full path is the base followed by `/` and the relative path. The depth therefore differs by a constant and the string comparisons do not change, so the relative form sorts the same.
- An `os.walk` is an input sequence of `WalkEntry(root, name)` in walk order. `root` is relative to the scanned base.
- Both pinyin tables are parameters of type `map<char, string>`, and so is Python's Unicode `\w` class (`isWord`).
  - `audio_rename_tool.py` defines its table in the script, at lines 16-156.
  - `rename.py` loads its table from JSON.
- The four quote entries at `rename.py:45` and `audio_rename_tool.py:155` are the curly quotes U+201C, U+201D, U+2018 and U+2019.
- Source behaviours that look unintended are stated as lemmas about the code as it is, not corrected:
  - `AudioScan.RebaseHitsSibling`: the folder prefix test is a plain string test;
  - `AudioRename.FileBelowRenamedFolderSkipped`: file moves are looked up under old directory paths;
  - `FixRpy.EmptyNewNameNotRead`: a rename to an empty name is lost in the log;
  - `FixRpy.NumberZeroWritesLastLine`: line number 0 writes index -1;
  - `RenameScript.EmDashSurvives`: the two-character `——` entry never matches;
  - `RenameScript.DotRuns`: `...` runs are removed three at a time.

## Model

| member | source | states |
|---|---|---|
| Text.ExtractChineseCharacters | rename.py:91-97 | the result is exactly the set of characters of the text in U+4E00..U+9FFF |
| Text.CjkSetNonEmpty | rename.py:149-150 | the extracted set is non-empty exactly when the text holds a CJK character |
| Text.SplitExtShape | audio_rename_tool.py:185 | stem and extension concatenate to the name; the extension is empty or one `.` followed by no `.` and no `/` |
| Text.DirnameBasenameJoin | audio_rename_tool.py:228 | `dirname` and `basename` of `join(root, name)` give back the walk directory and the name |
| Dicts.GetPutAll | audio_rename_tool.py:241-242 | after assigning pairs in turn, each key holds the value of the last pair with that key (or its old value) |
| Dicts.HasKeyPutAll | audio_rename_tool.py:241-242 | the keys after assigning pairs are the old keys and the pairs' keys |
| Dicts.PutShape | audio_rename_tool.py:385 | assigning an existing key keeps every key in place; a new key goes to the end |
| Dicts.PutAllDistinct | audio_rename_tool.py:241-242 | pairs with distinct keys assigned to an empty dict give exactly those pairs in order |
| Dicts.PutEach | audio_rename_tool.py:388-389 | the assignment loop leaves the dict that assigning the pairs in turn defines |
| Sorting.Sort | audio_rename_tool.py:238 | the sorted list is a permutation of the input |
| Sorting.SortSorted | audio_rename_tool.py:238 | under a total preorder the result is ordered |
| Sorting.SortStable | audio_rename_tool.py:238 | elements that tie keep their relative order |
| FileSystem.FileTree.Exists | audio_rename_tool.py:304 | true exactly when the path exists |
| FileSystem.FileTree.MakeDirs | audio_rename_tool.py:307 | the directory and all its ancestors exist afterwards, nothing else changes |
| FileSystem.FileTree.Move | audio_rename_tool.py:310 | the source and everything below it are relocated under the target |
| FileSystem.FileTree.Rename | rename.py:224-229 | a rename whose source is missing fails and changes nothing; otherwise it moves the subtree |
| FileSystem.MoveSparesShallower | audio_rename_tool.py:296-300 | a move leaves in place every other path no deeper than its source |
| FileSystem.MoveVacatesBelow | audio_rename_tool.py:333 | after a directory move no path below the old directory remains (unless it also lies below the target) |
| AudioNames.ChineseToPinyin | audio_rename_tool.py:158-174 | the result is each character's table entry, or the character itself; the unknown set is the CJK characters without an entry |
| AudioNames.PinyinConcat | audio_rename_tool.py:163-171 | transliteration is piecewise: the result for `a + b` is the result for `a` followed by that for `b` |
| AudioNames.PinyinDropsSymbol | audio_rename_tool.py:153-155 | a character whose entry is empty (the symbol entries) disappears |
| AudioNames.UnknownCharsKept | audio_rename_tool.py:166-169 | every unknown character appears unchanged in the result |
| AudioNames.PinyinKnownHasNoCjk | audio_rename_tool.py:163-165 | when every character is in the table and no entry holds CJK, the result holds no CJK |
| AudioNames.RemoveCharMember | audio_rename_tool.py:191 | deleting spaces removes exactly the space character |
| AudioNames.KeepNameCharsMember | audio_rename_tool.py:194 | the clean-up keeps exactly the `\w`, `-` and `.` characters |
| AudioNames.NormalizeFilenameShape | audio_rename_tool.py:176-196 | the extension is kept verbatim; the new stem has no space and only `\w`, `-`, `.`; the unknown set is the stem's unknown CJK characters |
| AudioNames.UnknownSurvivesNormalize | audio_rename_tool.py:188-196 | since `\w` matches CJK, every reported unknown character remains in the new name |
| AudioNames.CleanupKeepsWordName | audio_rename_tool.py:191-194 | a name made only of `\w` non-space characters passes the clean-up unchanged |
| AudioNames.NormalizeFilenameExample | audio_rename_tool.py:176-196 | with {店: dian, 长: zhang}, `店长.flac` becomes `dianzhang.flac` with nothing unknown |
| AudioScan.CollectFolders | audio_rename_tool.py:218-235 | the first walk yields the folder pairs and unknown characters of the CJK-named directories, in walk order |
| AudioScan.RebaseDirectory | audio_rename_tool.py:266-271 | the loop with `break` rewrites the directory by the first matching folder key |
| AudioScan.CollectFiles | audio_rename_tool.py:248-283 | the second walk yields the file mapping and unknown characters of the recorded files |
| AudioScan.ScanAudioFiles | audio_rename_tool.py:198-285 | a missing base gives three empty results; otherwise the folder mapping, the file mapping built on it, and the union of unknown characters |
| AudioScan.FolderKeysAreCjkDirectories | audio_rename_tool.py:218-242 | a path is a folder key exactly when the walk reported a directory there whose name holds CJK |
| AudioScan.FolderMappingDeepestFirst | audio_rename_tool.py:237-242 | the folder mapping lists its keys in non-increasing depth |
| AudioScan.FolderTargetShape | audio_rename_tool.py:223-228 | a renamed directory keeps its parent; only its last component changes, to the normalized name |
| AudioScan.FolderMappingValues | audio_rename_tool.py:223-242 | every folder value is its key with the last component normalized |
| AudioScan.FileKeysAreCjkAudioFiles | audio_rename_tool.py:248-279 | a path is a file key exactly when the walk reported a file there with an audio extension and a CJK character |
| AudioScan.FileMappingValues | audio_rename_tool.py:255-279 | every file value is its key with the directory rebased and the name normalized |
| AudioScan.RebaseFirstMatch | audio_rename_tool.py:266-271 | the first key prefixing the directory decides, and that prefix is replaced by its value |
| AudioScan.RebaseNoMatch | audio_rename_tool.py:262-271 | a directory no key prefixes is kept |
| AudioScan.RebaseHitsSibling | audio_rename_tool.py:269-270 | the prefix test is on strings: renaming `音` also rewrites the sibling `音乐` to `yin乐` |
| AudioScan.NormalizedLeafHasNoSlash | audio_rename_tool.py:194 | a normalized name holds no `/` |
| AudioScan.FolderUnknownMember | audio_rename_tool.py:227-231 | a character is reported from the directories exactly when it is an unknown character of some CJK directory name's stem |
| AudioScan.FileUnknownMember | audio_rename_tool.py:259-276 | a character is reported from the files exactly when it is an unknown character of some recorded file's stem |
| AudioRename.MoveEntries | audio_rename_tool.py:300-316 | the loop reports and moves as the specification of processing the entries in order says |
| AudioRename.RenameFolders | audio_rename_tool.py:287-318 | the folder mapping is stably sorted deepest first and then processed in that order |
| AudioRename.RenameFiles | audio_rename_tool.py:320-347 | the file mapping is processed in its own order |
| AudioRename.PreviewChangesNothing | audio_rename_tool.py:305-314 | a dry run moves nothing and reports nothing |
| AudioRename.RenamedAreEntries | audio_rename_tool.py:311 | only entries of the plan are reported, and no more reports than entries |
| AudioRename.DeepestFirstMovesAll | audio_rename_tool.py:296-312 | a plan with distinct, existing sources in deepest-first order moves every entry |
| AudioRename.RenameFoldersMovesAll | audio_rename_tool.py:297-312 | committing the scan's folder mapping renames every directory in it when all exist |
| AudioRename.FileBelowRenamedFolderSkipped | audio_rename_tool.py:329-345 | a file below a renamed directory is looked up under its old path, which the directory's move emptied, so it is skipped |
| AudioRpy.StepFolder | audio_rename_tool.py:381-385 | the inner loop over the snapshot rebases the value of every key below the folder |
| AudioRpy.CombineMappings | audio_rename_tool.py:373-389 | the merged mapping is the file mapping, rebased for each folder in turn, with the folder entries added |
| AudioRpy.CombinedKeys | audio_rename_tool.py:373-389 | the merged keys are exactly the file keys and the folder keys |
| AudioRpy.CombinedFolderValue | audio_rename_tool.py:388-389 | each folder key maps to its new folder |
| AudioRpy.CombinedFileValue | audio_rename_tool.py:376-385 | a file key that is not a folder key gets its new path rebased by every folder it lies below, in folder order |
| AudioRpy.ApplyPatterns | audio_rename_tool.py:419-421 | the guarded replacement loop over a pattern list |
| AudioRpy.RewriteContent | audio_rename_tool.py:399-425 | one script's text after the six patterns of every mapping entry, in mapping order |
| AudioRpy.GuardIsRedundant | audio_rename_tool.py:419-421 | with non-empty patterns the `in` test changes nothing |
| AudioRpy.EntryReplacesAll | audio_rename_tool.py:401-421 | every pattern of an entry is replaced at every occurrence |
| AudioRpy.RewriteUntouched | audio_rename_tool.py:399-428 | a script mentioning no pattern is left exactly as it was |
| AudioRpy.UpdateRpyFiles | audio_rename_tool.py:349-449 | a missing game path gives nothing; otherwise the written scripts and their new texts, `updated_files` being their paths; a script whose write fails is neither written nor listed |
| AudioRpy.PreviewWritesNothing | audio_rename_tool.py:428-441 | a dry run writes and lists no script |
| AudioRpy.WritesAreChangedScripts | audio_rename_tool.py:361-443 | on commit a script is written exactly when it is a readable and writable `.rpy` file whose text the rewrite changes, with that rewritten text |
| RenameSymbols.SymbolCharMatch | rename.py:44-52 | the set-membership test on one character is the `SymbolChar` predicate |
| RenameScript.IsSymbol | rename.py:73 | the test `char in symbols_to_remove` |
| RenameScript.CleanStemAt | rename.py:62-86 | the three cases of one loop turn (three dots, dropped character, kept character) match the cleaned-stem function |
| RenameScript.ScanStep | rename.py:59-86 | one loop turn advances the index and appends the piece the cleaned stem begins with |
| RenameScript.ScanStem | rename.py:57-86 | the pieces the loop appends join to the cleaned stem |
| RenameScript.NormalizeFilename | rename.py:33-89 | the result is the cleaned stem followed by the extension |
| RenameScript.NameKeepsExtension | rename.py:41-89 | the extension comes back verbatim and only the stem is transformed |
| RenameScript.DotRuns | rename.py:63-66 | a run of `n` dots leaves `n % 3` dots |
| RenameScript.FourDotsKeepOne | rename.py:63-66 | `....` becomes `.` |
| RenameScript.EmDashSurvives | rename.py:47 | one or two em dashes are kept, because only the two-character `——` is listed |
| RenameScript.CleanStemConcat | rename.py:59-86 | without dots the clean-up is piecewise over concatenation |
| RenameScript.CleanStemChar | rename.py:67-84 | one character: a dropped one vanishes, a CJK one is looked up, any other is kept |
| RenameScript.CleanStemChars | rename.py:79-84 | every output character is an input character not looked up, or comes from a CJK character's entry |
| RenameScript.CleanStemDropsAll | rename.py:67-76 | when no entry holds one, no dropped character survives |
| RenameScript.CleanStemNoCjk | rename.py:79-84 | with CJK-free entries and every CJK character known, the result has no CJK |
| RenameScript.NormalizePath | rename.py:128-135 | the loop yields the normalized non-empty components joined by `/` |
| RenameScript.NormalizedPartsAreNames | rename.py:130-134 | the normalized components are exactly the non-empty components, each normalized, in order |
| RenameScript.NormalizedPathComponents | rename.py:130-135 | splitting the normalized path at `/` gives back the normalized components |
| RenameScript.CollectMissing | rename.py:107-122 | the dictionary check yields the CJK characters of the walked names that the dictionary lacks |
| RenameScript.MissingCharsEmpty | rename.py:107-125 | nothing is missing exactly when every CJK character of every walked name has an entry |
| RenameScript.RecordEntry | rename.py:146-154 | an entry is recorded exactly when its relative path holds CJK and normalizing changes it |
| RenameScript.CollectRenames | rename.py:142-154 | the scan records the rename pairs in walk order |
| RenameScript.RenamePairsSound | rename.py:148-154 | every recorded pair comes from a recorded walked entry |
| RenameScript.RenamePairsComplete | rename.py:148-154 | every walked entry that qualifies has its pair recorded |
| RenameScript.ListChars | rename.py:124 | the warning lists each missing character exactly once |
| RenameScript.GeneratePreviewLog | rename.py:99-195 | the preview chunks, the missing-character warning, and the result pair, which is `(False, False)` when writing fails |
| RenameScript.DescendingIsTotalPreorder | rename.py:220 | the reversed tuple order is total and transitive |
| RenameScript.CollectFolders | rename.py:204-217 | the tuples of the directories with CJK names whose normalized path differs, in walk order |
| RenameScript.FolderPlanSound | rename.py:206-217 | each tuple renames a walked CJK name to its normalized name, to a different path, with depth equal to its separator count |
| RenameScript.SortedDeepestFirst | rename.py:219-220 | after the sort the tuples are a permutation of the collected ones in non-increasing depth |
| RenameScript.RenameFolders | rename.py:222-229 | the folder loop attempts each rename in order and counts the successes |
| RenameScript.PlanFile | rename.py:232-240 | a walked file is renamed exactly when it holds CJK and its normalized path differs |
| RenameScript.RenameWalkedFiles | rename.py:231-246 | the file loop attempts the file renames in walk order and counts the successes |
| RenameScript.RenameFiles | rename.py:197-250 | the folders sorted deepest first, then the files of the second walk; the total count |
| RenameScript.ApplyRenamesCount | rename.py:227 | the count never exceeds the number of attempts |
| RenameScript.ApplyRenamesAppend | rename.py:224-229 | a failed rename does not stop the ones after it |
| RenameScript.DeepestFirstRenamesAll | rename.py:219-229 | distinct existing sources in deepest-first order all rename successfully |
| RenameScript.FolderPlanDistinct | rename.py:204-217 | a walk listing each directory once gives tuples with distinct old paths |
| RenameScript.RenameFoldersAll | rename.py:204-229 | when every walked directory exists and is listed once, the folder pass renames all collected directories |
| FixRpy.LoadRenameMappingFromLog | fix_rpy.py:41-65 | a missing log gives the empty mapping; otherwise the pairs its lines yield, assigned in order |
| FixRpy.AssignedGet | fix_rpy.py:59 | a key is present exactly when some line yields it, with the value of the last such line |
| FixRpy.LoadedGet | fix_rpy.py:51-59 | an old name is in the mapping exactly when some log line names it, with the last such line's new name |
| FixRpy.FileLineRoundTrip | fix_rpy.py:52-58 | a `文件: old -> new` line, as `rename.py` writes it, reads back as `(old, new)` |
| FixRpy.FolderLineIgnored | fix_rpy.py:53 | a `文件夹` line is never read as a rename |
| FixRpy.FolderLinesIgnored | fix_rpy.py:53 | the preview log's folder lines contribute nothing |
| FixRpy.LogRoundTrip | fix_rpy.py:49-59 | the folder and file lines of the preview log read back as the file pairs assigned in order |
| FixRpy.HeadIgnored | rename.py:104-125 | the header and the missing-character warning of the preview log yield no rename |
| FixRpy.TotalsIgnored | rename.py:182-183 | the two totals lines of the preview log yield no rename |
| FixRpy.LoadedFileLines | fix_rpy.py:51-59 | file lines read after any others assign their pairs in order |
| FixRpy.EntryChunksRoundTrip | fix_rpy.py:49-59 | lines that yield nothing, folder lines, file lines and more lines that yield nothing read back as the file pairs in order |
| FixRpy.PreviewLogRoundTrip | rename.py:103-189 | the whole preview log that `generate_preview_log` writes reads back as the scan's file rename pairs, each assigned in turn |
| FixRpy.EmptyNewNameNotRead | fix_rpy.py:52-53 | a rename to an empty name strips to a line without ` -> ` and is lost |
| FixRpy.RewriteLine | fix_rpy.py:92-98 | the rewritten line, and `line_changed` exactly when some old name occurs in the line |
| FixRpy.RewrittenUnmentioned | fix_rpy.py:95-98 | a line mentioning no old name is unchanged |
| FixRpy.ScanFileLines | fix_rpy.py:89-105 | the records of one file's lines |
| FixRpy.ScanLinesSound | fix_rpy.py:90-105 | every record describes its 1-based line, and the line numbers strictly increase |
| FixRpy.ScanLinesComplete | fix_rpy.py:100-105 | every line mentioning an old name has a record |
| FixRpy.RecordedUnchanged | fix_rpy.py:96-101 | a line is recorded even when its rewrite is the same text |
| FixRpy.ScanRpyFiles | fix_rpy.py:73-113 | a missing directory gives nothing; otherwise each readable `.rpy` file with records, keyed by its path |
| FixRpy.ScanResultSound | fix_rpy.py:81-108 | only readable `.rpy` files appear, each with its own non-empty record list |
| FixRpy.GenerateRpyMapping | fix_rpy.py:115-144 | succeeds exactly when the log gives a rename, the scan finds a file and the mapping file is written |
| FixRpy.Slot | fix_rpy.py:172 | the list position written: a negative index counts from the end, and one below `-n` is an error |
| FixRpy.FailedStops | fix_rpy.py:169-183 | once an `IndexError` stops the loop, later updates change nothing |
| FixRpy.ApplyUpdates | fix_rpy.py:168-173 | the in-place update loop over the updates sorted by line number, descending |
| FixRpy.ApplyAllFails | fix_rpy.py:170-172 | the loop fails exactly when some index is below minus the number of lines |
| FixRpy.ApplyAllUntargeted | fix_rpy.py:169-173 | a line no update lands on keeps its text |
| FixRpy.ApplyAllCount | fix_rpy.py:171-173 | without an error, the count is the number of updates the guard lets through |
| FixRpy.ApplyAllTargets | fix_rpy.py:169-173 | with distinct positive numbers, the loop never fails and each in-file update sets its line to `new_line` plus a line end |
| FixRpy.NumberZeroWritesLastLine | fix_rpy.py:170-172 | number 0 writes the last line, and on an empty file raises `IndexError` |
| FixRpy.UpdateFileLines | fix_rpy.py:165-173 | one file's lines after the update loop, the count, and whether it failed |
| FixRpy.ProcessEntry | fix_rpy.py:163-183 | one mapping-file entry: an unreadable file is skipped; one that hits `IndexError` or cannot be opened for writing is not written and not counted as written, but its applied lines are counted |
| FixRpy.UpdateRpyFiles | fix_rpy.py:146-185 | a missing or unreadable mapping file changes nothing; otherwise the files and counts after the entries in order; which files are writable does not change |
| FixRpy.UpdateAllFrame | fix_rpy.py:162-183 | only writable files named in the mapping file change, every file keeps its line count, and at most one file is written per entry |
| FixRpy.SortedRecordNumbers | fix_rpy.py:169 | the sorted records of a scan have distinct numbers within `1..len(lines)` |
| FixRpy.ScanThenUpdateCount | fix_rpy.py:169-173 | applying a file's own scan never fails and counts one update per record |
| FixRpy.ScanThenUpdate | fix_rpy.py:169-172 | applying a file's own scan rewrites exactly the lines mentioning an old name, each to its stripped rewrite plus a line end |

## Left out

- Console output and the copies of messages written to log files (`log_print`), `input()`, `main()` and `load_dictionary`: I/O and interaction. The tables and `\w` are parameters.
- JSON reading and writing of the dictionary and the mapping file: the mapping file's content is an input (`None` when missing or unreadable), and `line_num` is an `int` whatever JSON held.
- The order in which `os.walk` lists entries and the file system behind it: the walks are input sequences. For `rename.py`'s `rename_files` the second walk is a separate input taken after the folder renames.
- `shutil.move` onto an existing directory, cross-device moves and `os.rename` failures other than a missing source: the tree model moves a subtree to its target.
- Exceptions other than those modelled (a missing path, an unreadable file, a file that cannot be opened for writing, `IndexError`): they become flags, `Option` inputs and the `writable` parts of `AudioRpy.GameFile` and `FixRpy.RpyStore`.
- A write that fails after `open` has truncated the file (partway through `write` or `writelines`): the model keeps such a file unchanged.
- The scanned base as a path prefix and `os.sep`: paths are relative, with separator `/`.
- AudioScan.FolderMapping, AudioScan.FileMapping: keys and values are the walked paths as written. For a name that contains `\`, the script keys the mapping with `/` in its place (`audio_rename_tool.py:242`, `:279`), so the later move of that path (`:301`, `:330`) looks up a different file; this is not modelled.
- RenameScript.ListChars: the order of the characters in the warning follows Python's set order, which the model leaves open.
- FixRpy.LoadRenameMappingFromLog: the log is read as its lines after `\r\n` and `\r` become `\n`, not byte by byte.
- FixRpy.LogRoundTrip, FixRpy.PreviewLogRoundTrip: they are stated on the chunks `preview_content` holds, each read as one line, not on the text `writelines` produces. Splitting that text instead adds only the blank lines of `\n\n` and of the leading `\n` of the totals, which yield nothing, as long as no walked name contains a line break.
- `normalize_text` in `fix_rpy.py` (lines 67-71): a deprecated identity that nothing calls.
- `extract_chinese_characters` of `fix_rpy.py` (33-39) is the same function as `rename.py`'s, modelled once as `Text.ExtractChineseCharacters`.
- The concrete pinyin table of `audio_rename_tool.py`: only its symbol entries (mapped to the empty string) matter to the proved properties.
