/** `FileSystemFlatten.open_fs`: every file below the target folder is moved
    to the top level under its flat name, each move logged beforehand in the
    restore script, and the emptied sub-folders are removed. */
module Flattener {
  import opened Sequences
  import opened Paths
  import opened PathOrder
  import opened RestoreScript
  import opened FileSystem

  /** `os.path.join(folder, restore_script)`. */
  function ScriptPath(folder: Path): Path
  {
    Join(folder, RestoreScriptName)
  }

  /** `[x for x in fs if p(x)]` for a test `p` that holds on `keep`. */
  function Select(fs: seq<Path>, keep: set<Path>): (r: seq<Path>)
    ensures forall x :: x in r <==> x in fs && x in keep
    ensures forall x :: multiset(r)[x] == if x in keep then multiset(fs)[x] else 0
  {
    if fs == [] then []
    else
      assert fs == [fs[0]] + fs[1..];
      (if fs[0] in keep then [fs[0]] else []) + Select(fs[1..], keep)
  }

  /** `fs_file` after `fs_file.sort()`: the listed regular files, sorted.
      Restore scripts are not among `t.files`, so a listed script is not
      selected here. */
  function FilesListed(t: Tree, fs: seq<Path>): seq<Path>
  {
    Sort(Select(fs, t.files.Keys))
  }

  /** `fs_folder` after `fs_folder.sort()`: the listed folders, sorted. */
  function FoldersListed(t: Tree, fs: seq<Path>): seq<Path>
  {
    Sort(Select(fs, t.dirs))
  }

  /** The `mkdir` line for each listed folder, in listing order. */
  function MkdirLines(folder: Path, ds: seq<Path>): (r: seq<string>)
    ensures |r| == |ds|
    ensures forall i :: 0 <= i < |ds| ==> r[i] == MkdirLine(RelPath(folder, ds[i]))
  {
    seq(|ds|, i requires 0 <= i < |ds| => MkdirLine(RelPath(folder, ds[i])))
  }

  /** What a first run writes before any move: the shebang, the line that
      binds `$p`, and one `mkdir` line per folder. */
  function HeaderLines(folder: Path, ds: seq<Path>): seq<string>
  {
    [ShebangLine, SetDirLine] + MkdirLines(folder, ds)
  }

  /** The restore line logged for a moved file: from its flat name back to
      its relative path. */
  function RestoreLine(folder: Path, file: Path): string
  {
    MvLine(FlatName(RelPath(folder, file)), RelPath(folder, file))
  }

  /** The files of `fs` that the guard `file != target_path` lets through,
      in listing order. */
  function MovedFiles(folder: Path, fs: seq<Path>): (r: seq<Path>)
    ensures |r| <= |fs|
  {
    if fs == [] then []
    else
      var n := |fs| - 1;
      MovedFiles(folder, fs[..n]) + (if NeedsMove(folder, fs[n]) then [fs[n]] else [])
  }

  /** A file is moved exactly when it is listed and the guard lets it
      through, and it is moved as often as it is listed. */
  lemma {:induction false} MovedFilesMembers(folder: Path, fs: seq<Path>)
    ensures forall x :: x in MovedFiles(folder, fs) <==> x in fs && NeedsMove(folder, x)
    ensures forall x :: multiset(MovedFiles(folder, fs))[x] == if NeedsMove(folder, x) then multiset(fs)[x] else 0
  {
    if fs != [] {
      var n := |fs| - 1;
      assert fs == fs[..n] + [fs[n]];
      MovedFilesMembers(folder, fs[..n]);
    }
  }

  /** The restore lines for the moved files `m`, in order. */
  function RestoreLines(folder: Path, m: seq<Path>): (r: seq<string>)
    ensures |r| == |m|
    ensures forall k :: 0 <= k < |m| ==> r[k] == RestoreLine(folder, m[k])
  {
    seq(|m|, k requires 0 <= k < |m| => RestoreLine(folder, m[k]))
  }

  /** The moves of the moved files `m` to their flat names, in order. */
  function MoveList(folder: Path, m: seq<Path>): (r: seq<Move>)
    ensures |r| == |m|
    ensures forall k :: 0 <= k < |m| ==> r[k] == Move(m[k], Target(folder, m[k]))
  {
    seq(|m|, k requires 0 <= k < |m| => Move(m[k], Target(folder, m[k])))
  }

  /** Each line of `lines` appended to the script at `sp`, each followed by
      the move at the same position of `moves`. */
  function Pairs(sp: Path, lines: seq<string>, moves: seq<Move>): (r: seq<Effect>)
    requires |lines| == |moves|
    ensures |r| == 2 * |lines|
  {
    if lines == [] then []
    else
      var n := |lines| - 1;
      Pairs(sp, lines[..n], moves[..n]) + [Appended(sp, lines[n]), Moved(moves[n])]
  }

  /** The `k`-th line sits at step `2k` of the pairs, the `k`-th move right
      after it. */
  lemma {:induction false} PairsAt(sp: Path, lines: seq<string>, moves: seq<Move>, k: nat)
    requires |lines| == |moves| && k < |lines|
    ensures Pairs(sp, lines, moves)[2 * k] == Appended(sp, lines[k])
    ensures Pairs(sp, lines, moves)[2 * k + 1] == Moved(moves[k])
  {
    var n := |lines| - 1;
    if k < n {
      PairsAt(sp, lines[..n], moves[..n], k);
    }
  }

  /** Lines appended to the script at `sp`, one step each. */
  function Writes(sp: Path, lines: seq<string>): (r: seq<Effect>)
    ensures |r| == |lines|
    ensures forall i :: 0 <= i < |lines| ==> r[i] == Appended(sp, lines[i])
  {
    seq(|lines|, i requires 0 <= i < |lines| => Appended(sp, lines[i]))
  }

  /** The steps of the flattening loop over the sorted files `fs`. */
  function MoveEffects(folder: Path, sp: Path, fs: seq<Path>): seq<Effect>
  {
    if fs == [] then []
    else
      var n := |fs| - 1;
      MoveEffects(folder, sp, fs[..n]) +
      (if NeedsMove(folder, fs[n])
       then [Appended(sp, RestoreLine(folder, fs[n])), Moved(Move(fs[n], Target(folder, fs[n])))]
       else [])
  }

  /** `rm -R` of each folder, in the given order. */
  function RemoveEffects(ds: seq<Path>): (r: seq<Effect>)
    ensures |r| == |ds|
    ensures forall i :: 0 <= i < |ds| ==> r[i] == Removed(ds[i])
  {
    seq(|ds|, i requires 0 <= i < |ds| => Removed(ds[i]))
  }

  /** The header steps: the header lines when the script is new (`firstRun`),
      nothing otherwise. */
  function HeaderEffects(folder: Path, firstRun: bool, ds: seq<Path>): seq<Effect>
  {
    if firstRun then Writes(ScriptPath(folder), HeaderLines(folder, ds)) else []
  }

  /** The steps of a run over the sorted file listing `fs` and the sorted
      folder listing `ds`: the header, the flattening loop, and the removal
      of the folders in reverse order. */
  function Run(folder: Path, firstRun: bool, fs: seq<Path>, ds: seq<Path>): seq<Effect>
  {
    HeaderEffects(folder, firstRun, ds)
    + MoveEffects(folder, ScriptPath(folder), fs)
    + RemoveEffects(Reverse(ds))
  }

  /** Every step of `open_fs(folder)` on disk `t` whose recursive listing of
      `folder` is `fs`, in order. The header is written when nothing exists
      at the script's path; a folder there makes `open(..., 'a+')` fail
      before any step is taken. */
  function Effects(folder: Path, t: Tree, fs: seq<Path>): seq<Effect>
  {
    if ScriptPath(folder) in t.dirs then []
    else Run(folder, !Exists(t, ScriptPath(folder)), FilesListed(t, fs), FoldersListed(t, fs))
  }

  /** Appending one step to those already taken. */
  lemma ApplySnoc(t: Tree, done: seq<Effect>, e: Effect)
    ensures ApplyAll(t, done + [e]) == Apply(ApplyAll(t, done), e)
  {
    assert (done + [e])[..|done|] == done;
  }

  /** The header steps before any `mkdir` line. */
  lemma HeaderStart(folder: Path, sp: Path, ds: seq<Path>)
    ensures Writes(sp, HeaderLines(folder, ds[..0]))
         == [Appended(sp, ShebangLine)] + [Appended(sp, SetDirLine)]
  {
  }

  /** One more line written. */
  lemma WritesSnoc(sp: Path, lines: seq<string>, line: string)
    ensures Writes(sp, lines + [line]) == Writes(sp, lines) + [Appended(sp, line)]
  {
  }



  /** One more folder, one more `mkdir` line. */
  lemma MkdirLinesSnoc(folder: Path, ds: seq<Path>, i: nat)
    requires i < |ds|
    ensures MkdirLines(folder, ds[..i + 1])
         == MkdirLines(folder, ds[..i]) + [MkdirLine(RelPath(folder, ds[i]))]
  {
    var a := MkdirLines(folder, ds[..i + 1]);
    var b := MkdirLines(folder, ds[..i]) + [MkdirLine(RelPath(folder, ds[i]))];
    forall j | 0 <= j <= i ensures a[j] == b[j] {
      assert ds[..i + 1][j] == ds[j];
      if j < i {
        assert ds[..i][j] == ds[j];
      }
    }
  }

  /** One more `mkdir` line in the header. */
  lemma HeaderStep(folder: Path, sp: Path, ds: seq<Path>, i: nat)
    requires i < |ds|
    ensures Writes(sp, HeaderLines(folder, ds[..i + 1]))
         == Writes(sp, HeaderLines(folder, ds[..i])) + [Appended(sp, MkdirLine(RelPath(folder, ds[i])))]
  {
    var m := MkdirLines(folder, ds[..i]);
    var line := MkdirLine(RelPath(folder, ds[i]));
    MkdirLinesSnoc(folder, ds, i);
    SnocRegroup([ShebangLine, SetDirLine], m, line);
    WritesSnoc(sp, HeaderLines(folder, ds[..i]), line);
  }

  /** One more file through the flattening loop. */
  lemma MoveEffectsStep(folder: Path, sp: Path, fs: seq<Path>, i: nat)
    requires i < |fs|
    ensures MoveEffects(folder, sp, fs[..i + 1]) == MoveEffects(folder, sp, fs[..i]) +
      (if NeedsMove(folder, fs[i])
       then [Appended(sp, RestoreLine(folder, fs[i])), Moved(Move(fs[i], Target(folder, fs[i])))]
       else [])
  {
    assert fs[..i + 1][..i] == fs[..i];
  }

  /** A file the guard lets through adds its restore line and its move. */
  lemma MoveEffectsMoved(folder: Path, sp: Path, fs: seq<Path>, i: nat)
    requires i < |fs| && NeedsMove(folder, fs[i])
    ensures MoveEffects(folder, sp, fs[..i + 1])
         == MoveEffects(folder, sp, fs[..i]) + [Appended(sp, RestoreLine(folder, fs[i]))]
            + [Moved(Move(fs[i], Target(folder, fs[i])))]
  {
    MoveEffectsStep(folder, sp, fs, i);
  }

  /** A file the guard stops adds nothing. */
  lemma MoveEffectsKept(folder: Path, sp: Path, fs: seq<Path>, i: nat)
    requires i < |fs| && !NeedsMove(folder, fs[i])
    ensures MoveEffects(folder, sp, fs[..i + 1]) == MoveEffects(folder, sp, fs[..i])
  {
    MoveEffectsStep(folder, sp, fs, i);
  }

  /** One more folder removed. */
  lemma RemoveStep(ds: seq<Path>, i: nat)
    requires i < |ds|
    ensures RemoveEffects(ds[..i + 1]) == RemoveEffects(ds[..i]) + [Removed(ds[i])]
  {
  }

  /** The header a first run writes (the shebang, `p=...`, and a `mkdir`
      line for each folder of the sorted listing `ds`). */
  method WriteHeader(disk: Disk, folder: Path, sp: Path, ds: seq<Path>)
    modifies disk
    ensures disk.trace == old(disk.trace) + Writes(sp, HeaderLines(folder, ds))
    ensures disk.State() == ApplyAll(old(disk.State()), Writes(sp, HeaderLines(folder, ds)))
  {
    ghost var t := disk.State();
    ghost var start := disk.trace;
    ghost var done: seq<Effect> := [];
    disk.WriteLine(sp, ShebangLine);
    ApplySnoc(t, done, Appended(sp, ShebangLine));
    SnocRegroup(start, done, Appended(sp, ShebangLine));
    done := done + [Appended(sp, ShebangLine)];
    disk.WriteLine(sp, SetDirLine);
    ApplySnoc(t, done, Appended(sp, SetDirLine));
    SnocRegroup(start, done, Appended(sp, SetDirLine));
    done := done + [Appended(sp, SetDirLine)];
    HeaderStart(folder, sp, ds);
    for i := 0 to |ds|
      invariant done == Writes(sp, HeaderLines(folder, ds[..i]))
      invariant disk.trace == start + done
      invariant disk.State() == ApplyAll(t, done)
    {
      var line := MkdirLine(RelPath(folder, ds[i]));
      disk.WriteLine(sp, line);
      ApplySnoc(t, done, Appended(sp, line));
      SnocRegroup(start, done, Appended(sp, line));
      HeaderStep(folder, sp, ds, i);
      done := done + [Appended(sp, line)];
    }
    assert ds[..|ds|] == ds;
  }

  /** The flattening loop over the sorted files `fs`: each file below the
      top level gets its restore line logged and is then moved to its flat
      name. */
  method FlattenFiles(disk: Disk, folder: Path, sp: Path, fs: seq<Path>)
    modifies disk
    ensures disk.trace == old(disk.trace) + MoveEffects(folder, sp, fs)
    ensures disk.State() == ApplyAll(old(disk.State()), MoveEffects(folder, sp, fs))
  {
    ghost var t := disk.State();
    ghost var start := disk.trace;
    ghost var done: seq<Effect> := [];
    for i := 0 to |fs|
      invariant done == MoveEffects(folder, sp, fs[..i])
      invariant disk.trace == start + done
      invariant disk.State() == ApplyAll(t, done)
    {
      var file := fs[i];
      var fileName := FlatName(RelPath(folder, file));
      var targetPath := Join(folder, fileName);
      if file != targetPath {
        var line := MvLine(fileName, RelPath(folder, file));
        MoveEffectsMoved(folder, sp, fs, i);
        disk.WriteLine(sp, line);
        ApplySnoc(t, done, Appended(sp, line));
        SnocRegroup(start, done, Appended(sp, line));
        done := done + [Appended(sp, line)];
        disk.RunMv(file, targetPath);
        ApplySnoc(t, done, Moved(Move(file, targetPath)));
        SnocRegroup(start, done, Moved(Move(file, targetPath)));
        done := done + [Moved(Move(file, targetPath))];
      } else {
        MoveEffectsKept(folder, sp, fs, i);
      }
    }
    assert fs[..|fs|] == fs;
  }

  /** `rm -R` of each folder of `ds`, first to last. */
  method RemoveFolders(disk: Disk, ds: seq<Path>)
    modifies disk
    ensures disk.trace == old(disk.trace) + RemoveEffects(ds)
    ensures disk.State() == ApplyAll(old(disk.State()), RemoveEffects(ds))
  {
    ghost var t := disk.State();
    ghost var start := disk.trace;
    ghost var done: seq<Effect> := [];
    for i := 0 to |ds|
      invariant done == RemoveEffects(ds[..i])
      invariant disk.trace == start + done
      invariant disk.State() == ApplyAll(t, done)
    {
      disk.RunRm(ds[i]);
      ApplySnoc(t, done, Removed(ds[i]));
      SnocRegroup(start, done, Removed(ds[i]));
      RemoveStep(ds, i);
      done := done + [Removed(ds[i])];
    }
    assert ds[..|ds|] == ds;
  }

  /** `open_fs(folder)` on `disk`, whose recursive listing of `folder` is `fs`
      (the two `glob` calls). The listing is split by what each entry is on
      the disk, sorted, and then the header, the moves and the removals run
      in that order. */
  method OpenFs(disk: Disk, folder: Path, fs: seq<Path>)
    modifies disk
    ensures disk.trace == old(disk.trace) + Effects(folder, old(disk.State()), fs)
    ensures disk.State() == ApplyAll(old(disk.State()), Effects(folder, old(disk.State()), fs))
  {
    ghost var t := disk.State();
    ghost var start := disk.trace;
    var fsFile := Select(fs, disk.files.Keys);
    var fsFolder := Select(fs, disk.dirs);
    fsFile := Sort(fsFile);
    fsFolder := Sort(fsFolder);
    var sp := Join(folder, RestoreScriptName);
    var restoreHave := false;
    if sp in disk.files || sp in disk.dirs || sp in disk.scripts {
      restoreHave := true;
    }
    if sp in disk.dirs {
      // `open(..., 'a+')` on a folder raises before anything is written.
      return;
    }
    ghost var header := HeaderEffects(folder, !restoreHave, fsFolder);
    if !restoreHave {
      WriteHeader(disk, folder, sp, fsFolder);
    } else {
      assert start + header == start;
    }
    assert disk.trace == start + header;
    assert disk.State() == ApplyAll(t, header);
    FlattenFiles(disk, folder, sp, fsFile);
    ghost var moves := MoveEffects(folder, sp, fsFile);
    ApplyAllConcat(t, header, moves);
    fsFolder := Reverse(fsFolder);
    RemoveFolders(disk, fsFolder);
    ghost var removals := RemoveEffects(fsFolder);
    ApplyAllConcat(t, header + moves, removals);
    PhaseRegroup(start, header, moves, removals);
  }

  // ---------------------------------------------------------------------
  // What a run does, stated over the steps it takes

  /** The folder's own restore script sits at the top level, so the
      flattening loop never moves it, even when the listing reports it. A
      `#restore.sh` left in a sub-folder by an earlier run is another
      matter: its relative path holds a slash. */
  lemma ScriptNeverMoved(folder: Path)
    requires RootOk(folder)
    ensures !NeedsMove(folder, ScriptPath(folder))
  {
    var name := RestoreScriptName;
    RestoreScriptNameChars();
    RelPathOfJoin(folder, name);
    NeedsMoveIff(folder, folder + "/" + name);
  }

  /** No file is ever moved onto the restore script: the flat name of a
      nested file has an underscore, and "#restore.sh" has none. */
  lemma TargetNotScript(folder: Path, x: Path)
    requires RootOk(folder) && Under(folder, x) && NeedsMove(folder, x)
    ensures Target(folder, x) != ScriptPath(folder)
  {
    var name := RestoreScriptName;
    var flat := FlatName(RelPath(folder, x));
    var pre := folder + "/";
    NeedsMoveIff(folder, x);
    UnderShape(folder, x);
    FlatNameMarks(RelPath(folder, x));
    RestoreScriptNameChars();
    RelPathOfJoin(folder, name);
    assert flat != name;
    assert (pre + flat)[|pre|..] == flat && (pre + name)[|pre|..] == name;
  }

  /** A listed file is moved exactly when its path relative to `folder` has a
      slash, that is, when it does not already sit at the top level. */
  lemma MovedFilesIff(folder: Path, fs: seq<Path>)
    requires RootOk(folder)
    requires forall x :: x in fs ==> Under(folder, x)
    ensures forall x :: x in MovedFiles(folder, fs) <==> x in fs && '/' in RelPath(folder, x)
  {
    MovedFilesMembers(folder, fs);
    forall x | x in fs ensures NeedsMove(folder, x) <==> '/' in RelPath(folder, x) {
      NeedsMoveIff(folder, x);
    }
  }

  /** Moved files keep the order of the listing, so the restore lines come
      in sorted file order. */
  lemma {:induction false} MovedFilesSorted(folder: Path, fs: seq<Path>)
    requires Sorted(fs)
    ensures Sorted(MovedFiles(folder, fs))
  {
    if fs != [] {
      var n := |fs| - 1;
      var front, x := fs[..n], fs[n];
      SnocLast(fs);
      SortedFront(front, x);
      MovedFilesSorted(folder, front);
      if NeedsMove(folder, x) {
        MovedFilesMembers(folder, front);
        SortedSnoc(MovedFiles(folder, front), x);
      }
    }
  }

  /** A string that sorts after everything in a sorted sequence can be put
      at its end. */
  lemma SortedSnoc(s: seq<Path>, x: Path)
    requires Sorted(s) && forall y :: y in s ==> Below(y, x)
    ensures Sorted(s + [x])
  {
    var r := s + [x];
    forall i, j | 0 <= i < j < |r| ensures Below(r[i], r[j]) {
      assert r[i] == s[i];
      if j < |s| {
        assert r[j] == s[j];
      } else {
        assert s[i] in s;
      }
    }
  }

  /** A sequence in which nothing occurs twice. */
  ghost predicate Distinct(s: seq<Path>)
  {
    forall i, j :: 0 <= i < j < |s| ==> s[i] != s[j]
  }

  /** Nothing occurs twice in a sequence whose multiset holds each element at
      most once. */
  lemma DistinctOfMultiset(s: seq<Path>)
    requires forall x :: multiset(s)[x] <= 1
    ensures Distinct(s)
  {
    forall i, j | 0 <= i < j < |s| ensures s[i] != s[j] {
      var x := s[i];
      assert s == s[..j] + s[j..];
      assert s[..j][i] == x;
      assert multiset(s)[x] == multiset(s[..j])[x] + multiset(s[j..])[x];
      assert multiset(s[j..])[x] == 0;
      assert s[j..][0] == s[j];
    }
  }

  /** One more pair at the end. */
  lemma PairsSnoc(sp: Path, lines: seq<string>, moves: seq<Move>, line: string, move: Move)
    requires |lines| == |moves|
    ensures Pairs(sp, lines + [line], moves + [move])
         == Pairs(sp, lines, moves) + [Appended(sp, line), Moved(move)]
  {
    assert (lines + [line])[..|lines|] == lines;
    assert (moves + [move])[..|moves|] == moves;
  }

  /** One more moved file at the end. */
  lemma RestoreLinesSnoc(folder: Path, m: seq<Path>, x: Path)
    ensures RestoreLines(folder, m + [x]) == RestoreLines(folder, m) + [RestoreLine(folder, x)]
  {
    assert forall k :: 0 <= k < |m| ==> (m + [x])[k] == m[k];
  }

  lemma MoveListSnoc(folder: Path, m: seq<Path>, x: Path)
    ensures MoveList(folder, m + [x]) == MoveList(folder, m) + [Move(x, Target(folder, x))]
  {
    assert forall k :: 0 <= k < |m| ==> (m + [x])[k] == m[k];
  }

  /** The flattening loop's steps are the line-then-move pairs of the files
      its guard lets through. */
  lemma {:induction false} MoveEffectsPairs(folder: Path, sp: Path, fs: seq<Path>)
    ensures MoveEffects(folder, sp, fs)
         == Pairs(sp, RestoreLines(folder, MovedFiles(folder, fs)), MoveList(folder, MovedFiles(folder, fs)))
  {
    if fs != [] {
      var n := |fs| - 1;
      var front, x := fs[..n], fs[n];
      MoveEffectsPairs(folder, sp, front);
      var m0 := MovedFiles(folder, front);
      if NeedsMove(folder, x) {
        var line, move := RestoreLine(folder, x), Move(x, Target(folder, x));
        assert MoveEffects(folder, sp, fs) == MoveEffects(folder, sp, front) + [Appended(sp, line), Moved(move)];
        assert MovedFiles(folder, fs) == m0 + [x];
        RestoreLinesSnoc(folder, m0, x);
        MoveListSnoc(folder, m0, x);
        PairsSnoc(sp, RestoreLines(folder, m0), MoveList(folder, m0), line, move);
      } else {
        assert MoveEffects(folder, sp, fs) == MoveEffects(folder, sp, front);
        assert MovedFiles(folder, fs) == m0;
      }
    }
  }

  /** A move among the pairs is the `k`-th move for `k = i / 2`, and the
      step before it appends the `k`-th line. */
  lemma PairsMovedAt(sp: Path, lines: seq<string>, moves: seq<Move>, i: nat)
    requires |lines| == |moves| && i < |Pairs(sp, lines, moves)| && Pairs(sp, lines, moves)[i].Moved?
    ensures 0 < i && i / 2 < |moves|
    ensures Pairs(sp, lines, moves)[i] == Moved(moves[i / 2])
    ensures Pairs(sp, lines, moves)[i - 1] == Appended(sp, lines[i / 2])
  {
    var k := i / 2;
    PairsAt(sp, lines, moves, k);
    if i == 2 * k {
      assert false;
    }
  }

  /** A step of the flattening loop that moves a file follows the step
      that logs its restore line, and moves a listed file to its flat name. */
  lemma MoveEffectsMovedAt(folder: Path, sp: Path, fs: seq<Path>, i: nat)
    requires i < |MoveEffects(folder, sp, fs)| && MoveEffects(folder, sp, fs)[i].Moved?
    ensures 0 < i
    ensures MoveEffects(folder, sp, fs)[i - 1]
         == Appended(sp, RestoreLine(folder, MoveEffects(folder, sp, fs)[i].move.src))
    ensures MoveEffects(folder, sp, fs)[i].move.src in fs
    ensures MoveEffects(folder, sp, fs)[i].move.dst == Target(folder, MoveEffects(folder, sp, fs)[i].move.src)
  {
    var m := MovedFiles(folder, fs);
    var lines, moves := RestoreLines(folder, m), MoveList(folder, m);
    MoveEffectsPairs(folder, sp, fs);
    PairsMovedAt(sp, lines, moves, i);
    var k := i / 2;
    assert moves[k] == Move(m[k], Target(folder, m[k]));
    assert lines[k] == RestoreLine(folder, m[k]);
    MovedFilesMembers(folder, fs);
    assert m[k] in m;
  }


  /** Every move of a run `e` comes right after the restore line that undoes
      it, written to the run's restore script, and it moves a listed file to
      its flat name. */
  lemma LogPrecedesMove(folder: Path, firstRun: bool, fs: seq<Path>, ds: seq<Path>, e: seq<Effect>, j: nat)
    requires e == Run(folder, firstRun, fs, ds) && j < |e| && e[j].Moved?
    ensures 0 < j
    ensures e[j - 1] == Appended(ScriptPath(folder), RestoreLine(folder, e[j].move.src))
    ensures e[j].move.src in fs
    ensures e[j].move.dst == Target(folder, e[j].move.src)
  {
    var sp := ScriptPath(folder);
    var h := HeaderEffects(folder, firstRun, ds);
    var me := MoveEffects(folder, sp, fs);
    var r := RemoveEffects(Reverse(ds));
    PhaseAt(h, me, r, j);
    if j < |h| {
      assert false;
    } else if j >= |h| + |me| {
      assert false;
    } else {
      MoveEffectsMovedAt(folder, sp, fs, j - |h|);
      PhaseAt(h, me, r, j - 1);
    }
  }

  /** The lines of the script at `sp` that the steps append, in order. */
  function LinesTo(sp: Path, es: seq<Effect>): (r: seq<string>)
    ensures |r| <= |es|
  {
    if es == [] then []
    else
      var n := |es| - 1;
      LinesTo(sp, es[..n]) +
      (match es[n] case Appended(s, line) => if s == sp then [line] else [] case _ => [])
  }

  lemma {:induction false} LinesToConcat(sp: Path, a: seq<Effect>, b: seq<Effect>)
    ensures LinesTo(sp, a + b) == LinesTo(sp, a) + LinesTo(sp, b)
  {
    if b == [] {
      assert a + b == a;
    } else {
      var n := |b| - 1;
      assert (a + b)[..|a + b| - 1] == a + b[..n];
      LinesToConcat(sp, a, b[..n]);
    }
  }

  /** The steps change the script at `sp` only by appending their lines to
      it. */
  lemma {:induction false} ScriptOfApplyAll(t: Tree, es: seq<Effect>, sp: Path)
    ensures ScriptOf(ApplyAll(t, es), sp) == ScriptOf(t, sp) + LinesTo(sp, es)
  {
    if es != [] {
      var n := |es| - 1;
      ScriptOfApplyAll(t, es[..n], sp);
    }
  }

  /** Lines written to `sp` are what `sp` receives. */
  lemma {:induction false} LinesToWrites(sp: Path, lines: seq<string>)
    ensures LinesTo(sp, Writes(sp, lines)) == lines
  {
    if lines != [] {
      var n := |lines| - 1;
      assert Writes(sp, lines)[..n] == Writes(sp, lines[..n]);
      LinesToWrites(sp, lines[..n]);
      assert lines == lines[..n] + [lines[n]];
    }
  }

  /** Removals write nothing. */
  lemma {:induction false} LinesToRemovals(sp: Path, ds: seq<Path>)
    ensures LinesTo(sp, RemoveEffects(ds)) == []
  {
    if ds != [] {
      var n := |ds| - 1;
      assert RemoveEffects(ds)[..n] == RemoveEffects(ds[..n]);
      LinesToRemovals(sp, ds[..n]);
    }
  }

  /** The pairs write exactly their lines. */
  lemma {:induction false} LinesToPairs(sp: Path, lines: seq<string>, moves: seq<Move>)
    requires |lines| == |moves|
    ensures LinesTo(sp, Pairs(sp, lines, moves)) == lines
  {
    if lines != [] {
      var n := |lines| - 1;
      LinesToPairs(sp, lines[..n], moves[..n]);
      var a, b := Appended(sp, lines[n]), Moved(moves[n]);
      LinesToConcat(sp, Pairs(sp, lines[..n], moves[..n]), [a, b]);
      assert [a, b][..1] == [a];
      assert lines == lines[..n] + [lines[n]];
    }
  }

  /** The lines a run appends to its restore script: the header exactly
      on a first run, then one restore line per moved file. */
  lemma LinesToRun(folder: Path, firstRun: bool, fs: seq<Path>, ds: seq<Path>)
    ensures LinesTo(ScriptPath(folder), Run(folder, firstRun, fs, ds))
         == (if firstRun then HeaderLines(folder, ds) else [])
          + RestoreLines(folder, MovedFiles(folder, fs))
  {
    var sp := ScriptPath(folder);
    var h := HeaderEffects(folder, firstRun, ds);
    var me := MoveEffects(folder, sp, fs);
    var r := RemoveEffects(Reverse(ds));
    var m := MovedFiles(folder, fs);
    var header := if firstRun then HeaderLines(folder, ds) else [];
    var lines := RestoreLines(folder, m);
    assert Run(folder, firstRun, fs, ds) == h + me + r;
    LinesToConcat(sp, h + me, r);
    LinesToConcat(sp, h, me);
    if firstRun {
      LinesToWrites(sp, HeaderLines(folder, ds));
    }
    assert LinesTo(sp, h) == header;
    MoveEffectsPairs(folder, sp, fs);
    LinesToPairs(sp, lines, MoveList(folder, m));
    assert LinesTo(sp, me) == lines;
    LinesToRemovals(sp, Reverse(ds));
    assert LinesTo(sp, h + me + r) == header + lines + [];
    assert header + lines + [] == header + lines;
  }

  /** After a run the restore script holds what it held before, then the
      header exactly when nothing existed at its path before the run, then
      one restore line per moved file; a folder at its path stops the run
      before any step. */
  lemma ScriptAfterRun(folder: Path, t: Tree, fs: seq<Path>)
    ensures ScriptPath(folder) in t.dirs ==> ApplyAll(t, Effects(folder, t, fs)) == t
    ensures ScriptPath(folder) !in t.dirs ==>
      ScriptOf(ApplyAll(t, Effects(folder, t, fs)), ScriptPath(folder))
      == ScriptOf(t, ScriptPath(folder))
       + ((if Exists(t, ScriptPath(folder)) then [] else HeaderLines(folder, FoldersListed(t, fs)))
       + RestoreLines(folder, MovedFiles(folder, FilesListed(t, fs))))
  {
    var sp := ScriptPath(folder);
    if sp !in t.dirs {
      var firstRun := !Exists(t, sp);
      ScriptOfApplyAll(t, Effects(folder, t, fs), sp);
      LinesToRun(folder, firstRun, FilesListed(t, fs), FoldersListed(t, fs));
    }
  }

  /** Line `2 + i` of the header is the `mkdir` line of the `i`-th folder. */
  lemma HeaderMkdirAt(folder: Path, ds: seq<Path>, i: nat)
    requires i < |ds|
    ensures |HeaderLines(folder, ds)| == 2 + |ds|
    ensures HeaderLines(folder, ds)[2 + i] == MkdirLine(RelPath(folder, ds[i]))
  {
  }

  /** The header of the sorted folder listing `ds` creates a folder before
      every folder below it: the `mkdir` line of `ds[i]` precedes that of
      `ds[j]` whenever `ds[j]` lies inside `ds[i]`. */
  lemma MkdirParentsFirst(folder: Path, ds: seq<Path>, i: nat, j: nat)
    requires Sorted(ds) && i < |ds| && j < |ds| && Inside(ds[i], ds[j])
    ensures HeaderLines(folder, ds)[2 + i] == MkdirLine(RelPath(folder, ds[i]))
    ensures HeaderLines(folder, ds)[2 + j] == MkdirLine(RelPath(folder, ds[j]))
    ensures 2 + i < 2 + j
  {
    HeaderMkdirAt(folder, ds, i);
    HeaderMkdirAt(folder, ds, j);
    SortedInsideFirst(ds, i, j);
  }

  /** Step `|ds| - 1 - i` of the removal phase removes the `i`-th folder. */
  lemma RemovalAt(ds: seq<Path>, i: nat)
    requires i < |ds|
    ensures |RemoveEffects(Reverse(ds))| == |ds|
    ensures RemoveEffects(Reverse(ds))[|ds| - 1 - i] == Removed(ds[i])
  {
  }

  /** The removal phase over the sorted folder listing `ds` removes a folder
      after every folder below it. */
  lemma RemovalChildrenFirst(ds: seq<Path>, i: nat, j: nat)
    requires Sorted(ds) && i < |ds| && j < |ds| && Inside(ds[i], ds[j])
    ensures RemoveEffects(Reverse(ds))[|ds| - 1 - i] == Removed(ds[i])
    ensures RemoveEffects(Reverse(ds))[|ds| - 1 - j] == Removed(ds[j])
    ensures |ds| - 1 - j < |ds| - 1 - i
  {
    RemovalAt(ds, i);
    RemovalAt(ds, j);
    SortedInsideFirst(ds, i, j);
  }


  /** `open_fs` on a folder that is already flat, with its restore script
      in place, does nothing: there is no folder to list, every file sits at
      the top level, and the header is not written again. */
  lemma FlatIsFixed(folder: Path, t: Tree, fs: seq<Path>)
    requires RootOk(folder) && ScriptPath(folder) in t.scripts
    requires forall x :: x in fs ==> Under(folder, x)
    requires forall x :: x in t.dirs ==> !Inside(folder, x)
    requires forall x :: x in t.files && Inside(folder, x) ==> '/' !in RelPath(folder, x)
    ensures Effects(folder, t, fs) == []
  {
    var files := FilesListed(t, fs);
    var sel := Select(fs, t.dirs);
    HeadMember(sel);
    assert FoldersListed(t, fs) == [];
    var m := MovedFiles(folder, files);
    MovedFilesMembers(folder, files);
    assert forall x :: x in files <==> x in multiset(Select(fs, t.files.Keys));
    forall x | x in files ensures !NeedsMove(folder, x) {
      NeedsMoveIff(folder, x);
    }
    HeadMember(m);
    MoveEffectsPairs(folder, ScriptPath(folder), files);
  }
}
