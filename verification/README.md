# file_system_flatten in Dafny

A model of `FileSystemFlatten.open_fs` from `file_system_flatten.py`, with
proofs about it. `open_fs(folder)` does four things, in order:

1. It lists the paths below `folder` that two recursive `glob` calls
   report, and splits the listing into regular files and folders, each
   sorted. The globs never enter a folder whose name starts with `.`: such
   a folder is listed, but what it holds is not.
2. It opens `folder/#restore.sh` for appending. If nothing exists at that
   path yet, it first writes a header: a shebang, a line that binds `$p` to
   the script's folder, and one `mkdir "$p/<rel>"` line per folder. A
   folder at that path makes the `open` fail before anything is done.
3. It flattens the tree. Each file whose relative path holds a `/` is moved
   to `folder/<flat name>`, where every `/` of the relative path becomes
   `__`. The line `mv "$p/<flat>" "$p/<rel>"` that undoes the move is
   appended to the script first.
4. It runs `rm -R` on the folders in reverse sorted order.

The model has eight modules, one per concern:

- `Paths` (`paths.dfy`): the constants `#restore.sh` and `__`, `add_quote`,
  `os.path.join`, the slice `file[len(folder) + 1:]`, the flat-name scheme
  and the guard `file != target_path`.
- `PathOrder` (`order.dfy`): Python's string order and `list.sort()` and
  `list.reverse()` on lists of paths. It proves that a folder sorts before
  everything below it.
- `RestoreScript` (`script.dfy`): the text of each line of the restore
  script, and an abstract reader that turns a line back into the command
  it names, taking each quoted word literally.
- `FileSystem` (`disk.dfy`): the disk as a value (`Tree`: files by absolute
  path, folders, restore scripts) and the primitive steps (`mv`, `rm -R`,
  `mkdir`, appending a line). It also holds the class `Disk`, which the
  flattener updates in place and which keeps a ghost trace of every step
  taken. `Replay` is an abstract reader of a restore script: it takes each
  quoted word literally and applies the `mkdir` or `mv` the line names. It
  is faithful to `bash` only for the words `Quotable` admits.
- `Flattener` (`flatten.dfy`): `OpenFs` and its three loops as
  module-level methods that take a `Disk` and update it in place. Each is
  proved equal to a specification function of the steps it takes
  (`Effects`, `Run`), together with the properties of those steps.
- `Restore` (`restore.dfy`): what the restore script achieves.
  - Crash safety: wherever a first run stops, replaying the script as it
    stands gives back every file, with its contents, and every folder. This
    takes each appended line to be on disk before the next command runs;
    see `CrashSafe` under "Left out".
  - The round trip after a complete run.
  - The shape of the flattened folder.
  - Idempotence: a second run does nothing.
- `Listing` (`listing.dfy`): what the two `glob` calls report, and a disk
  on which a run loses a file inside a hidden folder (see "Findings").
- `Sequences` (`seqs.dfy`): generic facts about sequences (regrouping,
  splitting and indexing concatenations) that the proofs of the other
  modules use.

## Model

| member | source | states |
|---|---|---|
| Paths.AddQuote | file_system_flatten.py:24 | the result is the input with one double quote added at each end, so it is two characters longer |
| Paths.RestoreScriptNameChars | file_system_flatten.py:13 | the restore script's name is non-empty and has neither a slash nor an underscore |
| Paths.FlatName | file_system_flatten.py:65 | the flat name has no slash, and its length is that of the relative path plus one per slash, because each `/` becomes the two-character separator `__` |
| Paths.FlatNameFixed | file_system_flatten.py:65 | the flat name equals the relative path exactly when the relative path has no slash |
| Paths.FlatNameAvoids | file_system_flatten.py:65 | a character other than `_` absent from the relative path is absent from its flat name |
| Paths.FlatNameMarks | file_system_flatten.py:65 | a relative path with a slash has a flat name with an underscore |
| Paths.FlatNameConcat | file_system_flatten.py:65 | the flat name of a concatenation is the concatenation of the flat names |
| Paths.FlatNameCollision | file_system_flatten.py:65-66 | a top-level file `d__n` and the file `n` in folder `d` are different paths with the same flat name, so two files can have the same target |
| Paths.RelPathOfJoin | file_system_flatten.py:65 | for `folder + "/" + r`, the slice `file[len(folder) + 1:]` gives back exactly `r`, and `os.path.join(folder, r)` builds that path |
| Paths.UnderShape | file_system_flatten.py:65-66 | a listed path is `folder`, a slash and its relative path; its target is `folder`, a slash and the flat name |
| Paths.TargetFlat | file_system_flatten.py:65-66 | a target path lies directly in `folder`: its relative path is the flat name and has no slash |
| Paths.NeedsMoveIff | file_system_flatten.py:66-67 | `file != target_path` holds exactly when the relative path contains a slash |
| Paths.Join | file_system_flatten.py:59 | definition without a contract: `os.path.join` on POSIX, used at lines 59, 66 and 69-70; characterised by `RelPathOfJoin`, `UnderShape` and `TargetFlat` |
| Paths.RelPath | file_system_flatten.py:65 | definition without a contract: the slice `f[len(folder) + 1:]` of lines 59, 65 and 70; characterised by `RelPathOfJoin` and `UnderShape` |
| Paths.Target | file_system_flatten.py:66 | definition without a contract: `os.path.join(folder, file_name)`; characterised by `UnderShape` and `TargetFlat` |
| Paths.NeedsMove | file_system_flatten.py:67 | definition without a contract: the guard `file != target_path`; characterised by `NeedsMoveIff` |
| Paths.Inside | file_system_flatten.py:80-81 | definition without a contract: `x` lies strictly below folder `d` (`d`, then `/`, then more); characterised by `InsideListed` and `PathOrder.SortedInsideFirst` |
| Paths.Covered | file_system_flatten.py:80-81 | definition without a contract: what `rm -R d` deletes, `d` itself or anything below it; characterised by `FileSystem.RemoveTree`, `Restore.NoFileCovered` and `Restore.RemovalsSpareScripts` |
| PathOrder.Below | file_system_flatten.py:44-45 | definition without a contract: Python's string order, by code point; characterised by `BelowTotal`, `BelowTransitive`, `BelowAntisymmetric` and `PrefixBelow` |
| PathOrder.BelowTotal | file_system_flatten.py:44-45 | any two strings are comparable in Python's string order |
| PathOrder.BelowTransitive | file_system_flatten.py:44-45 | Python's string order is transitive |
| PathOrder.BelowAntisymmetric | file_system_flatten.py:44-45 | two strings each no greater than the other are equal |
| PathOrder.PrefixBelow | file_system_flatten.py:44-45 | a string sorts no later than every string it is a prefix of |
| PathOrder.Sort | file_system_flatten.py:44-45 | `list.sort()` gives a sorted permutation of the list |
| PathOrder.Reverse | file_system_flatten.py:78 | `list.reverse()`: the same length, and element `i` is element `n - 1 - i` of the input |
| PathOrder.ReverseMembers | file_system_flatten.py:78 | `list.reverse()` keeps exactly the same elements |
| PathOrder.SortedInsideFirst | file_system_flatten.py:45 | in a sorted listing, a folder comes before every path below it |
| RestoreScript.MkdirLine | file_system_flatten.py:59-60 | definition without a contract: the text of a `mkdir` line; characterised by `ParseMkdirLine` |
| RestoreScript.MvLine | file_system_flatten.py:69-72 | definition without a contract: the text of a restore line; characterised by `MvLineShape` and `ParseMvLine` |
| RestoreScript.Parse | file_system_flatten.py:94 | definition without a contract: the reader that turns a script line back into a command, each quoted word taken literally; characterised by `ParseHeader`, `ParseMkdirLine` and `ParseMvLine` |
| RestoreScript.SplitQuote | file_system_flatten.py:24 | splitting at the first double quote succeeds exactly when there is one, and the two parts put back together with the quote give the input |
| RestoreScript.ParseHeader | file_system_flatten.py:54-56 | the shebang and the `p=` line read back as themselves |
| RestoreScript.ParseMkdirLine | file_system_flatten.py:59-60 | a `mkdir` line reads back as the `mkdir` of the same relative path |
| RestoreScript.ParseMvLine | file_system_flatten.py:69-70 | a restore line reads back as the `mv` from the flat name to the relative path it was built from |
| FileSystem.Exists | file_system_flatten.py:49 | definition without a contract: `os.path.exists`, true for a file, a folder or a script at the path; used by `Effects` |
| FileSystem.MoveFile | file_system_flatten.py:75 | `mv src dst`: the source is gone, the target holds the source's contents, other paths are unchanged, and a missing source changes nothing |
| FileSystem.RemoveTree | file_system_flatten.py:80-81 | `rm -R d`: exactly the files and folders at or below `d` are gone, and the rest keep their contents |
| FileSystem.TouchesSnoc | file_system_flatten.py:64-75 | one more move touches exactly its own source and target in addition to what the earlier moves touched |
| FileSystem.StepOutcome | file_system_flatten.py:64-75 | a move of an existing file to a free target, touching nothing the earlier moves touched, extends their outcome |
| FileSystem.MoveAll | file_system_flatten.py:64-75 | definition without a contract: the `mv` calls of the loop, one after the other; characterised by `MoveAllSpec`, `MovedKey` and `MoveAllUndo` |
| FileSystem.MoveAllSpec | file_system_flatten.py:64-75 | after independent moves, untouched paths keep their files, every source is gone, and every target holds its source's contents |
| FileSystem.MovedKey | file_system_flatten.py:64-75 | a path present after independent moves was there before and was not a source, or it is the target of one of the moves |
| FileSystem.SwapsIndependent | file_system_flatten.py:69-70 | after independent moves, the reversed moves are independent too |
| FileSystem.MoveAllUndo | file_system_flatten.py:68-70 | replaying the reversed moves, in the same order, after independent moves gives back the original files |
| FileSystem.UndoPrefix | file_system_flatten.py:71-75 | a run stopped after `c` moves, possibly with the next restore line already logged, is undone by replaying the logged reversals |
| FileSystem.MakeDir | file_system_flatten.py:94 | definition without a contract: `mkdir` as the restore script runs it, doing nothing when the path exists; characterised by `Restore.MakeDirAdds` |
| FileSystem.ReplayLine | file_system_flatten.py:94 | definition without a contract: one line of the restore script read and applied, with `$p` standing for the folder; characterised by `Restore.ReplayMkdirLine` and `Restore.ReplayRestoreLine` |
| FileSystem.Replay | file_system_flatten.py:94 | definition without a contract: `bash #restore.sh` as an abstract reader of its lines, first to last; characterised by `ReplayConcat`, `Restore.ReplayHeader`, `Restore.ReplayRestoreLines` and `Restore.Recover` |
| FileSystem.ApplyAllConcat | file_system_flatten.py:42-81 | taking two runs of steps one after the other is taking their concatenation |
| FileSystem.Apply | file_system_flatten.py:51-81 | definition without a contract: one step on the disk; an append adds the line to the script and creates the script when it is missing, as `'a+'` does; `mv` is `MoveFile`; `rm -R` is `RemoveTree`; characterised by `Disk.WriteLine`, `Disk.RunMv` and `Disk.RunRm` |
| FileSystem.ApplyAll | file_system_flatten.py:42-81 | definition without a contract: the steps applied first to last; characterised by `ApplyAllConcat`, `Flattener.ScriptOfApplyAll` and `Restore.ApplyWrites` |
| FileSystem.ReplayConcat | file_system_flatten.py:51 | replaying two runs of script lines one after the other is replaying their concatenation |
| FileSystem.Disk.WriteLine | file_system_flatten.py:72-73 | appending a line adds it to the end of the script and records one step |
| FileSystem.Disk.RunMv | file_system_flatten.py:75 | the disk after `mv` is the disk before with the move applied, and one step is recorded |
| FileSystem.Disk.RunRm | file_system_flatten.py:80-81 | the disk after `rm -R` is the disk before with the tree removed, and one step is recorded |
| Flattener.Select | file_system_flatten.py:42-43 | the comprehension keeps exactly the entries that pass the test, each as often as the listing reports it |
| Flattener.ScriptPath | file_system_flatten.py:49-51 | definition without a contract: `os.path.join(folder, restore_script)`; characterised by `ScriptNeverMoved` and `TargetNotScript` |
| Flattener.FilesListed | file_system_flatten.py:42-44 | definition without a contract: `fs_file` after `sort()`, the listed regular files in string order; characterised by `Select`, `PathOrder.Sort` and `Restore.MovedByMembers` |
| Flattener.FoldersListed | file_system_flatten.py:43-45 | definition without a contract: `fs_folder` after `sort()`, the listed folders in string order; characterised by `Select`, `PathOrder.Sort` and `Restore.FoldersListedFacts` |
| Flattener.MkdirLines | file_system_flatten.py:58-61 | the `mkdir` lines, one per folder: line `i` creates the `i`-th folder's relative path; characterised further by `Restore.ReplayMkdirs` |
| Flattener.HeaderLines | file_system_flatten.py:54-61 | definition without a contract: the shebang, the `p=` line and the `mkdir` lines; characterised by `HeaderMkdirAt` and `MkdirParentsFirst` |
| Flattener.RestoreLine | file_system_flatten.py:69-72 | definition without a contract: the restore line of a moved file, from its flat name back to its relative path; characterised by `Restore.ReplayRestoreLine` |
| Flattener.RestoreLines | file_system_flatten.py:69-73 | one restore line per moved file, line `k` for the `k`-th file; characterised further by `Restore.ReplayRestoreLines` |
| Flattener.MovedFiles | file_system_flatten.py:64-67 | its own contract only bounds the length; what it holds is stated by `MovedFilesMembers`, `MovedFilesIff` and `MovedFilesSorted` |
| Flattener.MovedFilesMembers | file_system_flatten.py:64-67 | a file is moved exactly when it is listed and passes the guard, and as often as it is listed |
| Flattener.MovedFilesIff | file_system_flatten.py:66-67 | a listed file is moved exactly when its relative path contains a slash |
| Flattener.MovedFilesSorted | file_system_flatten.py:64-67 | moved files keep the sorted order of the listing |
| Flattener.ScriptNeverMoved | file_system_flatten.py:66-67 | the folder's own `#restore.sh`, at the top level, is never moved when the listing reports it |
| Flattener.TargetNotScript | file_system_flatten.py:65-68 | no file is ever moved onto the restore script |
| Flattener.PairsAt | file_system_flatten.py:71-75 | in the flattening loop the `k`-th restore line is step `2k` and the `k`-th move is step `2k + 1` |
| Flattener.WriteHeader | file_system_flatten.py:52-61 | the disk and its trace grow by exactly the header: the shebang, the `p=` line, and one `mkdir` line per folder in listing order |
| Flattener.FlattenFiles | file_system_flatten.py:64-75 | the disk and its trace grow by exactly the flattening loop's steps: for each file the guard lets through, its restore line and then its move |
| Flattener.RemoveFolders | file_system_flatten.py:79-81 | the disk and its trace grow by exactly one `rm -R` per folder, in the given order |
| Flattener.OpenFs | file_system_flatten.py:42-81 | the trace grows by exactly `Effects`, and the disk is `Effects` applied to the disk before. `Effects` is empty when a folder sits at the script's path; otherwise it is the header when nothing exists at that path, then the flattening loop over the sorted files, then the removals in reverse sorted folder order |
| Flattener.MoveEffects | file_system_flatten.py:64-75 | definition without a contract: the steps of the flattening loop; characterised by `MoveEffectsPairs` and `MoveEffectsMovedAt` |
| Flattener.HeaderEffects | file_system_flatten.py:48-61 | definition without a contract: the header lines appended to the script when `restore_have` is false, nothing otherwise; characterised by `LinesToRun` and `Restore.DuringHeader` |
| Flattener.RemoveEffects | file_system_flatten.py:78-81 | step `i` is the `rm -R` of the `i`-th folder given; characterised further by `RemovalAt`, `RemovalChildrenFirst` and `Restore.ApplyRemovals` |
| Flattener.Run | file_system_flatten.py:52-81 | definition without a contract: header, loop and removals in that order; characterised by `LinesToRun` and `Restore.FirstRunShape` |
| Flattener.Effects | file_system_flatten.py:42-81 | definition without a contract: every step of `open_fs`; characterised by `OpenFs`, `ScriptAfterRun`, `LogPrecedesMove` and `Restore.CrashSafe` |
| Flattener.MoveEffectsPairs | file_system_flatten.py:64-75 | the loop's steps are the restore-line and move pairs of the moved files, in order |
| Flattener.MoveEffectsMovedAt | file_system_flatten.py:71-75 | each move of the loop directly follows the restore line that undoes it, and moves a listed file to its target |
| Flattener.LogPrecedesMove | file_system_flatten.py:71-75 | in a whole run, every move directly follows the append of its own restore line to the run's script, and moves a listed file to its flat name |
| Flattener.ScriptOfApplyAll | file_system_flatten.py:51 | the steps change a script only by appending their lines to it |
| Flattener.LinesToRun | file_system_flatten.py:48-73 | a run appends the header if and only if it is a first run, then exactly one restore line per moved file, in listing order |
| Flattener.ScriptAfterRun | file_system_flatten.py:48-61 | after a run the script holds its old lines, then the header exactly when nothing existed at its path (`os.path.exists`), then the restore lines; a folder at its path leaves the disk as it was |
| Flattener.HeaderMkdirAt | file_system_flatten.py:58-61 | header line `2 + i` is the `mkdir` line of the `i`-th folder |
| Flattener.MkdirParentsFirst | file_system_flatten.py:58-61 | the `mkdir` line of a folder comes before that of every folder below it |
| Flattener.RemovalAt | file_system_flatten.py:78-81 | removal step `n - 1 - i` removes the `i`-th folder of the sorted listing |
| Flattener.RemovalChildrenFirst | file_system_flatten.py:78-81 | every folder is removed after every folder below it |
| Flattener.FlatIsFixed | file_system_flatten.py:48-81 | on a folder that is already flat, with its script in place, `open_fs` takes no step |
| Restore.ReplayPreamble | file_system_flatten.py:54-56 | replaying the shebang and the `p=` line changes nothing |
| Restore.ReplayMkdirLine | file_system_flatten.py:59-60 | replaying a folder's `mkdir` line creates that folder |
| Restore.ReplayDirs | file_system_flatten.py:58-61 | replaying lines that each create one folder, none of them a file, adds exactly those folders |
| Restore.ReplayMkdirs | file_system_flatten.py:58-61 | replaying the `mkdir` lines of listed folders adds exactly those folders |
| Restore.ReplayHeader | file_system_flatten.py:52-61 | replaying the whole header adds exactly the listed folders and moves no file |
| Restore.HeaderPrefix | file_system_flatten.py:58-61 | the first `j + 2` header lines are the header of the first `j` folders |
| Restore.ReplayHeaderPrefix | file_system_flatten.py:52-61 | any prefix of the header changes nothing while the listed folders exist |
| Restore.ReplayRestoreLine | file_system_flatten.py:68-70 | replaying a file's restore line moves it from its target back to where it was |
| Restore.ReplayMoves | file_system_flatten.py:72-73 | replaying lines that each make one move makes those moves in order |
| Restore.ReplayRestoreLines | file_system_flatten.py:68-73 | replaying the restore lines makes the reversed moves, in order |
| Restore.ReplayRun | file_system_flatten.py:51-73 | replaying the header and a prefix of the restore lines adds the folders and makes that prefix of the reversed moves |
| Restore.Restored | file_system_flatten.py:71-81 | undoing a prefix of the moves, and adding back the listed folders, gives back the original files and folders |
| Restore.Recover | file_system_flatten.py:51-81 | replaying the header and the restore lines logged so far on a disk part-way through a run gives back the original files and folders |
| Restore.RemovalsSpareScripts | file_system_flatten.py:79-81 | on a disk that satisfies `Flattenable`, no `rm -R` of a listed folder reaches a restore script, so keeping the scripts is what `rm -R` does there |
| Restore.FoldersListedFacts | file_system_flatten.py:43-45 | the sorted folder listing holds exactly the listed folders, and every folder below `folder` among them |
| Restore.MovedBy | file_system_flatten.py:64-67 | definition without a contract: the files a run moves, the sorted listed files that pass the guard; characterised by `MovedByMembers`, `MovedByDistinct` and `MovesIndependent` |
| Restore.MovedByMembers | file_system_flatten.py:64-67 | the moved files are exactly the listed files that pass the guard |
| Restore.MovedByDistinct | file_system_flatten.py:42-44 | no file is moved twice when the listing reports each path once |
| Restore.MovesIndependent | file_system_flatten.py:64-75 | a run's moves each take an existing file to a free name, and no two share a source or a target |
| Restore.ApplyWrites | file_system_flatten.py:52-61 | appending lines changes no file and no folder |
| Restore.ApplyPairs | file_system_flatten.py:64-75 | the loop's pairs make the moves in order and keep the folders |
| Restore.PairsPrefixDisk | file_system_flatten.py:64-75 | after the first `i` steps of the loop, the first `i / 2` moves are done and the folders are unchanged |
| Restore.PairsPrefixLines | file_system_flatten.py:71-73 | after the first `i` steps of the loop, the first `(i + 1) / 2` restore lines are written |
| Restore.RemoveStepState | file_system_flatten.py:80-81 | `rm -R` of a listed folder that holds no file removes no file, and only removes that folder and folders below `folder` |
| Restore.ApplyRemovals | file_system_flatten.py:78-81 | the removal phase keeps every file, removes every listed folder, and removes no folder outside `folder` |
| Restore.NoFileCovered | file_system_flatten.py:64-81 | once the files have moved, no listed folder holds a file, so `rm -R` deletes no data |
| Restore.DirNotFileMidway | file_system_flatten.py:64-75 | no listed folder becomes a file at any point of the loop |
| Restore.DuringHeader | file_system_flatten.py:52-61 | while the header is being written, files and folders are unchanged and the script holds the lines written so far |
| Restore.DuringMovesDisk | file_system_flatten.py:64-75 | after the first `i` steps of the loop, the first `i / 2` moves are done and the folders are unchanged |
| Restore.DuringMovesScript | file_system_flatten.py:71-73 | partway through the loop, the script holds the header and the restore lines written so far |
| Restore.AfterMoves | file_system_flatten.py:64-75 | after the loop, every move is done, the folders are unchanged, and the script holds the header and all restore lines |
| Restore.DuringRemovals | file_system_flatten.py:78-81 | partway through the removals, the files are all moved, the removed folders are listed ones, and the script is complete |
| Restore.CrashInHeader | file_system_flatten.py:52-61 | a run stopped while writing the header is undone by its script |
| Restore.CrashInMoves | file_system_flatten.py:71-75 | a run stopped in the flattening loop, at any step, is undone by its script |
| Restore.CrashInRemovals | file_system_flatten.py:78-81 | a run stopped while removing folders is undone by its script |
| Restore.FirstRunShape | file_system_flatten.py:48-81 | a first run is the header, the pairs of the moved files, then the removals |
| Restore.CrashSafe | file_system_flatten.py:51-81 | wherever a first run stops, replaying the script as it stands gives back every file, with its contents, and every folder |
| Restore.RoundTrip | file_system_flatten.py:51-81 | after a complete first run, replaying the script gives back the files and folders as they were |
| Restore.FlatFile | file_system_flatten.py:64-75 | after the moves, every file below `folder` sits at its top level |
| Restore.FlattenedLayout | file_system_flatten.py:42-81 | after a complete first run, no folder is left below `folder`, every file below it is at the top level, and the restore script exists |
| Restore.SecondRunNoOp | file_system_flatten.py:48-81 | a second run over any listing of the flattened folder takes no step, and in particular writes no second header |
| Listing.GlobReports | file_system_flatten.py:38-40 | definition without a contract: the two globs report a path unless a folder whose name starts with `.` lies above it |
| Listing.AppendsKeepFiles | file_system_flatten.py:52-61 | steps that only append lines leave the files as they were |
| Listing.ReplayNoFiles | file_system_flatten.py:94 | replaying any script on a disk without files leaves it without files |
| Listing.OneFolderEmpties | file_system_flatten.py:78-81 | a run over a listing of one folder that holds every file, and of no file, leaves no file |
| Listing.HiddenGlob | file_system_flatten.py:38-40 | on a disk holding `/r/.c/a`, the globs report `/r/.c` and not `/r/.c/a` |
| Listing.HiddenFolderLoss | file_system_flatten.py:38-81 | on that disk, a run over what the globs report deletes `/r/.c/a`, and replaying the restore script does not bring it back |

## Left out

- The directory listing is an input parameter (`fs`, the result of the two
  `glob.glob` calls at lines 38-40). `Listing.GlobReports` states which
  paths the globs report; the run takes `fs` as given. `os.path.isfile` and
  `os.path.isdir` become membership in the disk's files and folders.
- Flattenable: requires the listing to report every file and folder below
  `folder`. The two globs do not report what a hidden folder holds, and
  `rm -R` then deletes it with no restore line (`HiddenFolderLoss`, under
  "Findings"). `CrashSafe` and `RoundTrip` therefore say nothing about a
  disk with a non-empty hidden folder below `folder`.
- `os.path.abspath` (line 32) is not modelled. Its result is assumed to be
  non-empty and to have no trailing slash (`RootOk`), which excludes the
  filesystem root.
- The `print` progress messages and the command-line entry point are not
  modelled.
- `close_fs` (lines 86-97) runs the script with `bash` and then deletes it.
  It is modelled by `Replay`, which reads each line back into a command and
  applies it, with `$p` standing for the folder. The final `rm` of the
  script is not modelled.
- `subprocess.run` is not modelled as a process. `mv` and `rm -R` are
  updates of the disk value. A failing `mv`, one whose source is missing,
  changes nothing. `mv` onto an existing folder is not modelled.
- Replay: `MakeDir` and the `mv` of `ReplayLine` do not check that the
  parent folder exists, while bash's `mkdir` and `mv` fail without it.
  `MkdirParentsFirst` shows that the header creates each folder's parent
  first, and every restore line comes after the whole header.
- Replay: it takes each quoted word literally. Bash still expands `$`,
  `` ` `` and `\` inside double quotes, so `Quotable` (through
  `ShellLiteral`) excludes relative paths holding them, as well as the
  double quote that `add_quote` does not escape.
- File contents are opaque bytes. The restore script is kept in its own map
  of lines, not among the data files, so the model does not capture the
  listing reporting a script as a file to move. For the folder's own
  script this changes nothing: `ScriptNeverMoved` shows that the guard at
  line 67 keeps it where it is.
- RemoveTree: `rm -R d` also deletes every restore script at or below `d`,
  but `RemoveTree` keeps all scripts. Likewise a `#restore.sh` left in a
  sub-folder by an earlier run is a regular file to the code (line 42): it
  is listed, logged and moved to `folder/<sub>__#restore.sh`. The model
  neither lists nor moves it. `Flattenable` therefore requires that no
  restore script lies below `folder`, so `CrashSafe`, `RoundTrip` and
  `FlattenedLayout` say nothing about a disk with a nested script.
  `RemovalsSpareScripts` shows that on the disks `Flattenable` admits,
  keeping the scripts agrees with `rm -R`.
- Writes are line-granular: a line and its `\n` form one step. A stop
  between `shell.write(line)` and `shell.write('\n')` is not modelled.
- The file object of `open(..., 'a+')` is not modelled. The script is its
  sequence of lines, and each appended line is on disk at once.
- CrashSafe, CrashInHeader, CrashInMoves, CrashInRemovals: assume each
  appended line is on disk before the next `mv` or `rm -R` runs. The code
  writes through a buffered file object and does not flush before
  `subprocess.run` (lines 51, 72-75), so after a crash the last lines
  written, or the whole header, may be missing from the script.
- A regular file at the script's path counts as existing, so no header is
  written, as in the code. The model then appends the lines to a script
  kept apart from that file, not after its contents.
- `open(..., 'a+')` on a folder raises an exception. The model takes no
  step in that case (`Effects` is empty and `OpenFs` returns); the
  exception itself, and other failures of `open`, are not modelled.
- `list.sort()` and `list.reverse()` (lines 44-45, 78) are the value
  functions `Sort` and `Reverse`, whose results `OpenFs` assigns back to its
  local listings. The in-place update of the Python list is not modelled.
- Flat-name collisions are not handled by the code. `Flattenable` requires
  that the flat names of moved files are distinct and free.
  `FlatNameCollision` exhibits a pair of paths that violates this.
- `CrashSafe` and `RoundTrip` are stated for a first run. A later run
  appends to a script that already exists; only its shape is proved for
  that case (`ScriptAfterRun`, `SecondRunNoOp`), not its replay.

## Findings

| source | as written | input that shows it | evidently intended | confidence | as-written member | corrected member |
|---|---|---|---|---|---|---|
| file_system_flatten.py:38-40 | the recursive globs `**/*` and `**/.*` never enter a folder whose name starts with `.`, so a hidden folder is listed but its contents are not, and `rm -R` of that folder (line 80) deletes them with no restore line | folder `/r` holding only the folder `/r/.c` with the file `/r/.c/a` | the listing reports every file and folder below `folder`, so that the restore script brings everything back | high, not executed | Listing.HiddenFolderLoss | Restore.RoundTrip |
