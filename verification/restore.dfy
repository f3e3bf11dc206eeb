/** What the restore script written by `open_fs` achieves: replayed from its
    folder, it gives back every file and folder the run moved or removed,
    also when the run stopped part-way, as the comment "write restoration
    script first in case of unwanted stop" intends. The script is taken to
    hold every line appended before the stop: the code's file object is
    buffered and not flushed before each command, which this model does not
    capture. */
module Restore {
  import opened Sequences
  import opened Paths
  import opened PathOrder
  import opened RestoreScript
  import opened FileSystem
  import opened Flattener

  /** The paths of a listing, as a set. */
  function Elems(s: seq<Path>): (r: set<Path>)
    ensures forall x :: x in r <==> x in s
  {
    set x | x in s
  }

  /** A word that bash reads literally between double quotes: no double
      quote, which `add_quote` would not escape, and none of `$`, `` ` ``
      and `\`, which bash still expands there. */
  predicate ShellLiteral(w: string)
  {
    '"' !in w && '$' !in w && '`' !in w && '\\' !in w
  }

  /** Every path of `s` is one a listing of `folder` reports, and its
      relative path is a word bash reads literally once quoted. */
  ghost predicate Quotable(folder: Path, s: seq<Path>)
  {
    forall x :: x in s ==> Under(folder, x) && ShellLiteral(RelPath(folder, x))
  }

  // ---------------------------------------------------------------------
  // Replaying the lines the flattener writes

  /** The shebang and the line that binds `$p` change nothing. */
  lemma ReplayPreamble(folder: Path, u: Tree)
    ensures Replay(folder, [ShebangLine], u) == u
    ensures Replay(folder, [ShebangLine, SetDirLine], u) == u
  {
    ParseHeader();
    assert ReplayLine(folder, ShebangLine, u) == u;
    assert ReplayLine(folder, SetDirLine, u) == u;
    ReplaySnoc(folder, [], ShebangLine, u);
    ReplaySnoc(folder, [ShebangLine], SetDirLine, u);
    assert [ShebangLine] + [SetDirLine] == [ShebangLine, SetDirLine];
  }

  /** The `mkdir` line of a listed folder creates that folder. */
  lemma ReplayMkdirLine(folder: Path, d: Path, u: Tree)
    requires RootOk(folder) && Under(folder, d) && '"' !in RelPath(folder, d)
    ensures ReplayLine(folder, MkdirLine(RelPath(folder, d)), u) == MakeDir(u, d)
  {
    UnderShape(folder, d);
    ParseMkdirLine(RelPath(folder, d));
  }

  /** One more line replayed. */
  lemma ReplaySnoc(p: Path, lines: seq<string>, line: string, u: Tree)
    ensures Replay(p, lines + [line], u) == ReplayLine(p, line, Replay(p, lines, u))
  {
    assert (lines + [line])[..|lines|] == lines;
  }

  /** `mkdir` of a folder that is not a file leaves it in place. */
  lemma MakeDirAdds(u: Tree, d: Path)
    requires d !in u.files
    ensures MakeDir(u, d) == u.(dirs := u.dirs + {d})
  {
    if d in u.dirs {
      assert u.dirs + {d} == u.dirs;
    }
  }

  /** Lines that each create one folder, replayed in order, create those
      folders when none of them is a file. */
  lemma {:induction false} ReplayDirs(p: Path, lines: seq<string>, ds: seq<Path>, u: Tree)
    requires |lines| == |ds|
    requires forall i, w :: 0 <= i < |lines| ==> ReplayLine(p, lines[i], w) == MakeDir(w, ds[i])
    requires forall d :: d in ds ==> d !in u.files
    ensures Replay(p, lines, u) == u.(dirs := u.dirs + Elems(ds))
  {
    if ds == [] {
      assert Elems(ds) == {};
    } else {
      var n := |ds| - 1;
      var front, d := ds[..n], ds[n];
      assert ds == front + [d];
      assert lines == lines[..n] + [lines[n]];
      ReplayDirs(p, lines[..n], front, u);
      var v := u.(dirs := u.dirs + Elems(front));
      ReplaySnoc(p, lines[..n], lines[n], u);
      MakeDirAdds(v, d);
      assert Elems(ds) == Elems(front) + {d};
      assert v.(dirs := v.dirs + {d}) == u.(dirs := u.dirs + Elems(ds));
    }
  }

  /** The `mkdir` lines of listed folders, none of which is a file, add
      exactly those folders. */
  lemma ReplayMkdirs(folder: Path, ds: seq<Path>, u: Tree)
    requires RootOk(folder) && Quotable(folder, ds)
    requires forall d :: d in ds ==> d !in u.files
    ensures Replay(folder, MkdirLines(folder, ds), u) == u.(dirs := u.dirs + Elems(ds))
  {
    var lines := MkdirLines(folder, ds);
    forall i, w | 0 <= i < |lines| ensures ReplayLine(folder, lines[i], w) == MakeDir(w, ds[i]) {
      assert ds[i] in ds;
      ReplayMkdirLine(folder, ds[i], w);
    }
    ReplayDirs(folder, lines, ds, u);
  }

  /** The whole header adds the listed folders. */
  lemma ReplayHeader(folder: Path, ds: seq<Path>, u: Tree)
    requires RootOk(folder) && Quotable(folder, ds)
    requires forall d :: d in ds ==> d !in u.files
    ensures Replay(folder, HeaderLines(folder, ds), u) == u.(dirs := u.dirs + Elems(ds))
  {
    ReplayConcat(folder, [ShebangLine, SetDirLine], MkdirLines(folder, ds), u);
    ReplayPreamble(folder, u);
    ReplayMkdirs(folder, ds, u);
  }

  /** The first `j + 2` header lines are the header of the first `j`
      folders. */
  lemma HeaderPrefix(folder: Path, ds: seq<Path>, j: nat)
    requires j <= |ds|
    ensures HeaderLines(folder, ds)[..j + 2] == HeaderLines(folder, ds[..j])
  {
    assert MkdirLines(folder, ds)[..j] == MkdirLines(folder, ds[..j]);
  }

  /** At most the first two header lines change nothing. */
  lemma ReplayPreamblePrefix(folder: Path, ds: seq<Path>, u: Tree, k: nat)
    requires k <= 2
    ensures Replay(folder, HeaderLines(folder, ds)[..k], u) == u
  {
    var h := HeaderLines(folder, ds);
    ReplayPreamble(folder, u);
    if k == 1 {
      assert h[..1] == [ShebangLine];
    } else if k == 2 {
      assert h[..2] == [ShebangLine, SetDirLine];
    }
  }

  /** Part of the header, as a run that stopped while writing it leaves
      it, changes nothing while the listed folders still exist. */
  lemma ReplayHeaderPrefix(folder: Path, ds: seq<Path>, u: Tree, k: nat)
    requires RootOk(folder) && Quotable(folder, ds) && k <= |HeaderLines(folder, ds)|
    requires forall d :: d in ds ==> d !in u.files && d in u.dirs
    ensures Replay(folder, HeaderLines(folder, ds)[..k], u) == u
  {
    if k <= 2 {
      ReplayPreamblePrefix(folder, ds, u, k);
    } else {
      HeaderPrefix(folder, ds, k - 2);
      ReplayHeaderExisting(folder, ds, k - 2, u);
    }
  }

  /** The header of the first `j` listed folders changes nothing while
      those folders exist. */
  lemma ReplayHeaderExisting(folder: Path, ds: seq<Path>, j: nat, u: Tree)
    requires RootOk(folder) && Quotable(folder, ds) && j <= |ds|
    requires forall d :: d in ds ==> d !in u.files && d in u.dirs
    ensures Replay(folder, HeaderLines(folder, ds[..j]), u) == u
  {
    var front := ds[..j];
    QuotablePrefix(folder, ds, j);
    assert forall d :: d in front ==> d in ds;
    ReplayHeader(folder, front, u);
    ElemsAbsorbed(u.dirs, front);
  }

  /** Adding paths that are already there changes nothing. */
  lemma ElemsAbsorbed(a: set<Path>, s: seq<Path>)
    requires forall x :: x in s ==> x in a
    ensures a + Elems(s) == a
  {
  }

  /** A restore line moves the file back from its flat name. */
  lemma ReplayRestoreLine(folder: Path, x: Path, u: Tree)
    requires RootOk(folder) && Under(folder, x) && '"' !in RelPath(folder, x)
    ensures ReplayLine(folder, RestoreLine(folder, x), u)
         == u.(files := MoveFile(u.files, Swap(Move(x, Target(folder, x)))))
  {
    var rel := RelPath(folder, x);
    UnderShape(folder, x);
    FlatNameAvoids(rel, '"');
    var flat := FlatName(rel);
    assert flat == "" || flat[0] != '/' by {
      if flat != "" { assert flat[0] in flat; }
    }
    ParseMvLine(flat, rel);
  }

  /** Lines that each move one file, replayed in order, make those moves. */
  lemma {:induction false} ReplayMoves(p: Path, lines: seq<string>, moves: seq<Move>, u: Tree)
    requires |lines| == |moves|
    requires forall i, w :: 0 <= i < |lines| ==>
      ReplayLine(p, lines[i], w) == w.(files := MoveFile(w.files, moves[i]))
    ensures Replay(p, lines, u) == u.(files := MoveAll(u.files, moves))
  {
    if lines != [] {
      var n := |lines| - 1;
      assert lines == lines[..n] + [lines[n]];
      ReplayMoves(p, lines[..n], moves[..n], u);
      ReplaySnoc(p, lines[..n], lines[n], u);
    }
  }

  /** The restore lines of moved files undo their moves, first to last. */
  lemma ReplayRestoreLines(folder: Path, m: seq<Path>, u: Tree)
    requires RootOk(folder) && Quotable(folder, m)
    ensures Replay(folder, RestoreLines(folder, m), u)
         == u.(files := MoveAll(u.files, Swaps(MoveList(folder, m))))
  {
    var lines, back := RestoreLines(folder, m), Swaps(MoveList(folder, m));
    forall i, w | 0 <= i < |lines|
      ensures ReplayLine(folder, lines[i], w) == w.(files := MoveFile(w.files, back[i]))
    {
      assert m[i] in m;
      ReplayRestoreLine(folder, m[i], w);
    }
    ReplayMoves(folder, lines, back, u);
  }

  /** The moves of the first `c` moved files are the first `c` moves. */
  lemma MoveListPrefix(folder: Path, m: seq<Path>, c: nat)
    requires c <= |m|
    ensures MoveList(folder, m[..c]) == MoveList(folder, m)[..c]
  {
  }

  /** A prefix of a listing is a listing. */
  lemma QuotablePrefix(folder: Path, s: seq<Path>, c: nat)
    requires Quotable(folder, s) && c <= |s|
    ensures Quotable(folder, s[..c])
  {
    assert forall x :: x in s[..c] ==> x in s;
  }

  /** The header and the first `p` restore lines, replayed on a disk where
      no listed folder is a file, add the listed folders and undo the first
      `p` moves. */
  lemma ReplayRun(folder: Path, ds: seq<Path>, m: seq<Path>, u: Tree, p: nat)
    requires RootOk(folder) && Quotable(folder, ds) && Quotable(folder, m) && p <= |m|
    requires forall d :: d in ds ==> d !in u.files
    ensures Replay(folder, HeaderLines(folder, ds) + RestoreLines(folder, m[..p]), u)
         == Tree(MoveAll(u.files, Swaps(MoveList(folder, m)[..p])), u.dirs + Elems(ds), u.scripts)
  {
    ReplayConcat(folder, HeaderLines(folder, ds), RestoreLines(folder, m[..p]), u);
    ReplayHeader(folder, ds, u);
    QuotablePrefix(folder, m, p);
    ReplayRestoreLines(folder, m[..p], u.(dirs := u.dirs + Elems(ds)));
    MoveListPrefix(folder, m, p);
  }

  /** Undoing the first `p` of independent moves after the first `c` of
      them (`p` is `c`, or `c + 1` when the next line was logged but its
      move did not happen), and adding back the listed folders where only
      listed folders are missing, gives back the original files and
      folders. */
  lemma Restored(t: Tree, ds: set<Path>, ms: seq<Move>, u: Tree, c: nat, p: nat)
    requires Independent(t.files, ms) && c <= p <= c + 1 && p <= |ms|
    requires u.files == MoveAll(t.files, ms[..c])
    requires u.dirs <= t.dirs && ds <= t.dirs
    requires forall x :: x in t.dirs && x !in u.dirs ==> x in ds
    ensures MoveAll(u.files, Swaps(ms[..p])) == t.files
    ensures u.dirs + ds == t.dirs
  {
    UndoPrefix(t.files, ms, c, p);
  }

  /** Replaying the header and the first `p` restore lines on a disk where
      the first `c` files have been moved and where only listed folders are
      missing gives back the original files and folders. */
  lemma Recover(folder: Path, t: Tree, ds: seq<Path>, m: seq<Path>, u: Tree, c: nat, p: nat)
    requires RootOk(folder) && Quotable(folder, ds) && Quotable(folder, m)
    requires Independent(t.files, MoveList(folder, m))
    requires c <= p <= c + 1 && p <= |m|
    requires u.files == MoveAll(t.files, MoveList(folder, m)[..c])
    requires u.dirs <= t.dirs && forall x :: x in t.dirs && x !in u.dirs ==> x in ds
    requires forall d :: d in ds ==> d in t.dirs && d !in u.files
    ensures Replay(folder, HeaderLines(folder, ds) + RestoreLines(folder, m[..p]), u).files == t.files
    ensures Replay(folder, HeaderLines(folder, ds) + RestoreLines(folder, m[..p]), u).dirs == t.dirs
  {
    ReplayRun(folder, ds, m, u, p);
    Restored(t, Elems(ds), MoveList(folder, m), u, c, p);
  }

  // ---------------------------------------------------------------------
  // A first run

  /** What a first run of `open_fs(folder)` on disk `t` with recursive
      listing `fs` needs for its restore script to undo it: `folder` is an
      absolute path other than the root; the listing reports each path below
      `folder` once, the regular files and folders below `folder` among
      them, and no relative path holds a double quote; no path is both a
      file and a folder; nothing exists at the script's path, and no restore
      script lies anywhere below `folder` (the model keeps scripts apart from
      the files, so it neither moves nor deletes one); and the flat names
      of the files that move are neither taken by a file or folder nor
      shared by two of them (the code does not check for collisions). */
  ghost predicate Flattenable(folder: Path, t: Tree, fs: seq<Path>)
  {
    && RootOk(folder)
    && Quotable(folder, fs)
    && (forall x :: multiset(fs)[x] <= 1)
    && (forall x :: x in t.files && Inside(folder, x) ==> x in fs)
    && (forall x :: x in t.dirs && Inside(folder, x) ==> x in fs)
    && t.files.Keys !! t.dirs
    && ScriptPath(folder) !in t.files && ScriptPath(folder) !in t.dirs
    && ScriptPath(folder) !in t.scripts
    && (forall x :: x in t.scripts ==> !Inside(folder, x))
    && (forall x :: x in fs && x in t.files && NeedsMove(folder, x) ==>
          Target(folder, x) !in t.files && Target(folder, x) !in t.dirs)
    && (forall x, y ::
          (x in fs && y in fs && x in t.files && y in t.files && x != y &&
           NeedsMove(folder, x) && NeedsMove(folder, y)) ==> Target(folder, x) != Target(folder, y))
  }

  /** The files a run over listing `fs` on disk `t` moves, in order. */
  function MovedBy(folder: Path, t: Tree, fs: seq<Path>): seq<Path>
  {
    MovedFiles(folder, FilesListed(t, fs))
  }

  /** The listed folders are the folders of the listing. */
  lemma FoldersListedFacts(folder: Path, t: Tree, fs: seq<Path>)
    requires Flattenable(folder, t, fs)
    ensures forall d :: d in FoldersListed(t, fs) <==> d in fs && d in t.dirs
    ensures Quotable(folder, FoldersListed(t, fs))
    ensures forall x :: x in t.dirs && Inside(folder, x) ==> x in FoldersListed(t, fs)
  {
    var s := Select(fs, t.dirs);
    assert forall x :: x in FoldersListed(t, fs) <==> x in multiset(s);
  }

  /** No `rm -R` of a run touches a restore script: every listed folder lies
      below `folder`, and no script does. So keeping the scripts, as
      `RemoveTree` does, is what `rm -R` does on these disks. */
  lemma RemovalsSpareScripts(folder: Path, t: Tree, fs: seq<Path>, d: Path, x: Path)
    requires Flattenable(folder, t, fs) && d in FoldersListed(t, fs) && x in t.scripts
    ensures !Covered(d, x)
  {
    FoldersListedFacts(folder, t, fs);
    if Inside(d, x) {
      InsideListed(folder, d, x);
    }
  }

  /** The moved files are the listed files below the top level. */
  lemma MovedByMembers(folder: Path, t: Tree, fs: seq<Path>)
    requires Flattenable(folder, t, fs)
    ensures forall x :: x in MovedBy(folder, t, fs) <==> x in fs && x in t.files && NeedsMove(folder, x)
    ensures Quotable(folder, MovedBy(folder, t, fs))
  {
    var listed := FilesListed(t, fs);
    MovedFilesMembers(folder, listed);
    assert forall x :: x in listed <==> x in multiset(Select(fs, t.files.Keys));
  }

  /** Each moved file is moved once. */
  lemma MovedByDistinct(folder: Path, t: Tree, fs: seq<Path>)
    requires forall x :: multiset(fs)[x] <= 1
    ensures Distinct(MovedBy(folder, t, fs))
  {
    var s := Select(fs, t.files.Keys);
    var listed := FilesListed(t, fs);
    var m := MovedBy(folder, t, fs);
    MovedFilesMembers(folder, listed);
    forall x ensures multiset(m)[x] <= 1 {
      assert multiset(listed)[x] == multiset(s)[x];
    }
    DistinctOfMultiset(m);
  }

  /** The moves of a run are independent: each moves an existing file to a
      free flat name, and no two share a source or a target. */
  lemma MovesIndependent(folder: Path, t: Tree, fs: seq<Path>)
    requires Flattenable(folder, t, fs)
    ensures Independent(t.files, MoveList(folder, MovedBy(folder, t, fs)))
  {
    MovedByMembers(folder, t, fs);
    MovedByDistinct(folder, t, fs);
    var m := MovedBy(folder, t, fs);
    var ms := MoveList(folder, m);
    forall i | 0 <= i < |ms| ensures ms[i].src in t.files && ms[i].dst !in t.files {
      assert m[i] in m;
    }
    forall i, j | 0 <= i < j < |ms| ensures ms[i].src != ms[j].src && ms[i].dst != ms[j].dst {
      assert m[i] in m && m[j] in m;
    }
  }

  // ---------------------------------------------------------------------
  // The disk part by part through a run

  /** Appending lines changes no file and no folder. */
  lemma {:induction false} ApplyWrites(u: Tree, sp: Path, lines: seq<string>)
    ensures ApplyAll(u, Writes(sp, lines)).files == u.files
    ensures ApplyAll(u, Writes(sp, lines)).dirs == u.dirs
  {
    if lines != [] {
      var n := |lines| - 1;
      assert Writes(sp, lines)[..n] == Writes(sp, lines[..n]);
      ApplyWrites(u, sp, lines[..n]);
    }
  }

  /** The first `2 * c` steps of the pairs are the pairs of the first `c`
      lines and moves. */
  lemma {:induction false} PairsPrefix(sp: Path, lines: seq<string>, moves: seq<Move>, c: nat)
    requires |lines| == |moves| && c <= |lines|
    ensures Pairs(sp, lines, moves)[..2 * c] == Pairs(sp, lines[..c], moves[..c])
  {
    if c < |lines| {
      var n := |lines| - 1;
      var front := Pairs(sp, lines[..n], moves[..n]);
      assert Pairs(sp, lines, moves)[..2 * c] == front[..2 * c];
      PairsPrefix(sp, lines[..n], moves[..n], c);
      assert lines[..n][..c] == lines[..c] && moves[..n][..c] == moves[..c];
    } else {
      assert lines[..c] == lines && moves[..c] == moves;
    }
  }

  /** The pairs move the files through the moves, one at a time, and keep
      the folders. */
  lemma {:induction false} ApplyPairs(u: Tree, sp: Path, lines: seq<string>, moves: seq<Move>)
    requires |lines| == |moves|
    ensures ApplyAll(u, Pairs(sp, lines, moves)).files == MoveAll(u.files, moves)
    ensures ApplyAll(u, Pairs(sp, lines, moves)).dirs == u.dirs
  {
    if lines != [] {
      var n := |lines| - 1;
      var front := Pairs(sp, lines[..n], moves[..n]);
      var a, b := Appended(sp, lines[n]), Moved(moves[n]);
      ApplyPairs(u, sp, lines[..n], moves[..n]);
      assert Pairs(sp, lines, moves) == (front + [a]) + [b];
      assert (front + [a])[..|front|] == front;
    }
  }

  /** The first `2 * c + 1` steps of the pairs: `c` pairs and the next line. */
  lemma PairsOddPrefix(sp: Path, lines: seq<string>, moves: seq<Move>, c: nat)
    requires |lines| == |moves| && c < |lines|
    ensures Pairs(sp, lines, moves)[..2 * c + 1]
         == Pairs(sp, lines[..c], moves[..c]) + [Appended(sp, lines[c])]
  {
    var all := Pairs(sp, lines, moves);
    PairsPrefix(sp, lines, moves, c);
    PairsAt(sp, lines, moves, c);
    assert all[..2 * c + 1] == all[..2 * c] + [all[2 * c]];
  }

  /** After the first `i` steps of the pairs the first `i / 2` moves are
      done and the folders are kept. */
  lemma PairsPrefixDisk(u: Tree, sp: Path, lines: seq<string>, moves: seq<Move>, i: nat)
    requires |lines| == |moves| && i <= 2 * |lines|
    ensures ApplyAll(u, Pairs(sp, lines, moves)[..i]).files == MoveAll(u.files, moves[..i / 2])
    ensures ApplyAll(u, Pairs(sp, lines, moves)[..i]).dirs == u.dirs
  {
    var c := i / 2;
    ApplyPairs(u, sp, lines[..c], moves[..c]);
    if i % 2 == 1 {
      assert i == 2 * c + 1;
      PairsOddDisk(u, sp, lines, moves, c);
    } else {
      assert i == 2 * c;
      PairsPrefix(sp, lines, moves, c);
    }
  }

  /** A line written after `c` pairs changes no file and no folder. */
  lemma PairsOddDisk(u: Tree, sp: Path, lines: seq<string>, moves: seq<Move>, c: nat)
    requires |lines| == |moves| && c < |lines|
    ensures ApplyAll(u, Pairs(sp, lines, moves)[..2 * c + 1])
         == Apply(ApplyAll(u, Pairs(sp, lines[..c], moves[..c])), Appended(sp, lines[c]))
  {
    PairsOddPrefix(sp, lines, moves, c);
    ApplySnoc(u, Pairs(sp, lines[..c], moves[..c]), Appended(sp, lines[c]));
  }

  /** One appended line is what the script receives from one step. */
  lemma LinesToOne(sp: Path, line: string)
    ensures LinesTo(sp, [Appended(sp, line)]) == [line]
  {
    assert [Appended(sp, line)][..0] == [];
  }

  /** `2 * c + 1` steps of the pairs write `c + 1` lines. */
  lemma PairsOddLines(sp: Path, lines: seq<string>, moves: seq<Move>, c: nat)
    requires |lines| == |moves| && c < |lines|
    ensures LinesTo(sp, Pairs(sp, lines, moves)[..2 * c + 1]) == lines[..c + 1]
  {
    var front := Pairs(sp, lines[..c], moves[..c]);
    var a := Appended(sp, lines[c]);
    PairsOddPrefix(sp, lines, moves, c);
    LinesToPairs(sp, lines[..c], moves[..c]);
    LinesToConcat(sp, front, [a]);
    LinesToOne(sp, lines[c]);
    assert lines[..c + 1] == lines[..c] + [lines[c]];
  }

  /** The first `i` steps of the pairs write the first `(i + 1) / 2` lines. */
  lemma PairsPrefixLines(sp: Path, lines: seq<string>, moves: seq<Move>, i: nat)
    requires |lines| == |moves| && i <= 2 * |lines|
    ensures LinesTo(sp, Pairs(sp, lines, moves)[..i]) == lines[..(i + 1) / 2]
  {
    var c := i / 2;
    if i % 2 == 1 {
      assert i == 2 * c + 1 && (i + 1) / 2 == c + 1;
      PairsOddLines(sp, lines, moves, c);
    } else {
      assert i == 2 * c && (i + 1) / 2 == c;
      PairsPrefix(sp, lines, moves, c);
      LinesToPairs(sp, lines[..c], moves[..c]);
    }
  }

  /** `rm -R d` for a listed folder `d` that holds no file: the files stay,
      and what goes is `d` and folders below `folder`. */
  lemma RemoveStepState(folder: Path, v: Tree, d: Path)
    requires RootOk(folder) && Under(folder, d)
    requires forall x :: x in v.files ==> !Covered(d, x)
    ensures RemoveTree(v, d).files == v.files
    ensures RemoveTree(v, d).dirs <= v.dirs && d !in RemoveTree(v, d).dirs
    ensures forall x :: x in v.dirs && x !in RemoveTree(v, d).dirs ==> x == d || Inside(folder, x)
  {
    forall x | x in v.dirs && x !in RemoveTree(v, d).dirs && x != d ensures Inside(folder, x) {
      InsideListed(folder, d, x);
    }
  }

  /** The removal phase over listed folders `ds` that hold no file: the files
      stay, every folder of `ds` goes, and every other folder that goes is
      below `folder`. */
  lemma {:induction false} ApplyRemovals(folder: Path, u: Tree, ds: seq<Path>)
    requires RootOk(folder) && forall d :: d in ds ==> Under(folder, d)
    requires forall x, d :: x in u.files && d in ds ==> !Covered(d, x)
    ensures ApplyAll(u, RemoveEffects(ds)).files == u.files
    ensures ApplyAll(u, RemoveEffects(ds)).dirs <= u.dirs
    ensures forall d :: d in ds ==> d !in ApplyAll(u, RemoveEffects(ds)).dirs
    ensures forall x :: x in u.dirs && x !in ApplyAll(u, RemoveEffects(ds)).dirs ==> x in ds || Inside(folder, x)
  {
    if ds != [] {
      var n := |ds| - 1;
      assert RemoveEffects(ds)[..n] == RemoveEffects(ds[..n]);
      assert forall d :: d in ds[..n] ==> d in ds;
      ApplyRemovals(folder, u, ds[..n]);
      var v := ApplyAll(u, RemoveEffects(ds[..n]));
      assert ds[n] in ds;
      RemoveStepState(folder, v, ds[n]);
      assert ds == ds[..n] + [ds[n]];
    }
  }

  /** A moved file lands where no listed folder covers it. */
  lemma MovedNotCovered(folder: Path, t: Tree, fs: seq<Path>, x: Path, d: Path)
    requires Flattenable(folder, t, fs)
    requires x in MovedBy(folder, t, fs) && d in fs && d in t.dirs
    ensures !Covered(d, Target(folder, x))
  {
    MovedByMembers(folder, t, fs);
    TargetFlat(folder, x);
    OutsideListed(folder, d, Target(folder, x));
  }

  /** A file that does not move is at the top level or outside `folder`, so
      no listed folder covers it. */
  lemma KeptNotCovered(folder: Path, t: Tree, fs: seq<Path>, x: Path, d: Path)
    requires Flattenable(folder, t, fs)
    requires x in t.files && x !in MovedBy(folder, t, fs) && d in fs && d in t.dirs
    ensures !Covered(d, x)
  {
    MovedByMembers(folder, t, fs);
    if Inside(folder, x) {
      NeedsMoveIff(folder, x);
      OutsideListed(folder, d, x);
    } else if Inside(d, x) {
      InsideListed(folder, d, x);
    }
  }

  /** A file present after independent moves of the files `m` to their flat
      names either stayed where it was or is the flat name of one of them. */
  lemma MovedOrKept(folder: Path, f: map<Path, Bytes>, m: seq<Path>, x: Path) returns (i: int)
    requires Independent(f, MoveList(folder, m)) && x in MoveAll(f, MoveList(folder, m))
    ensures -1 <= i < |m|
    ensures i == -1 ==> x in f && x !in m
    ensures 0 <= i ==> x == Target(folder, m[i])
  {
    var ms := MoveList(folder, m);
    i := MovedKey(f, ms, x);
    assert forall k :: 0 <= k < |m| ==> ms[k].src == m[k];
  }

  /** After the moves no listed folder holds a file: a moved file now sits
      directly in `folder` under a name no folder had, and a file that
      stayed was at the top level. */
  lemma NoFileCovered(folder: Path, t: Tree, fs: seq<Path>, x: Path, d: Path)
    requires Flattenable(folder, t, fs)
    requires x in MoveAll(t.files, MoveList(folder, MovedBy(folder, t, fs)))
    requires d in fs && d in t.dirs
    ensures !Covered(d, x)
  {
    MovesIndependent(folder, t, fs);
    var i := MovedOrKept(folder, t.files, MovedBy(folder, t, fs), x);
    if i >= 0 {
      MovedNotCovered(folder, t, fs, MovedBy(folder, t, fs)[i], d);
    } else {
      KeptNotCovered(folder, t, fs, x, d);
    }
  }

  /** No listed folder is a file at any point of the moves phase. */
  lemma DirNotFileMidway(folder: Path, t: Tree, fs: seq<Path>, c: nat, d: Path)
    requires Flattenable(folder, t, fs) && c <= |MovedBy(folder, t, fs)|
    requires d in fs && d in t.dirs
    ensures d !in MoveAll(t.files, MoveList(folder, MovedBy(folder, t, fs))[..c])
  {
    var m := MovedBy(folder, t, fs);
    MovesIndependent(folder, t, fs);
    IndependentPrefix(t.files, MoveList(folder, m), c);
    MoveListPrefix(folder, m, c);
    if d in MoveAll(t.files, MoveList(folder, m)[..c]) {
      var i := MovedOrKept(folder, t.files, m[..c], d);
      if i >= 0 {
        assert m[..c][i] in m;
        MovedByMembers(folder, t, fs);
      }
    }
  }

  /** During the header: files and folders as before the run, and the script
      holds the header lines written so far. */
  lemma DuringHeader(folder: Path, t: Tree, ds: seq<Path>, k: nat, u: Tree)
    requires ScriptPath(folder) !in t.scripts && k <= |HeaderLines(folder, ds)|
    requires u == ApplyAll(t, HeaderEffects(folder, true, ds)[..k])
    ensures u.files == t.files && u.dirs == t.dirs
    ensures ScriptOf(u, ScriptPath(folder)) == HeaderLines(folder, ds)[..k]
  {
    var sp := ScriptPath(folder);
    var lines := HeaderLines(folder, ds);
    assert Writes(sp, lines)[..k] == Writes(sp, lines[..k]);
    ApplyWrites(t, sp, lines[..k]);
    ScriptOfApplyAll(t, Writes(sp, lines[..k]), sp);
    LinesToWrites(sp, lines[..k]);
  }

  lemma RestoreLinesPrefix(folder: Path, m: seq<Path>, c: nat)
    requires c <= |m|
    ensures RestoreLines(folder, m[..c]) == RestoreLines(folder, m)[..c]
  {
  }

  /** During the moves phase over the moved files `m`, after `i` of its
      steps: the first `i / 2` moves are done and the folders are as
      before. */
  lemma DuringMovesDisk(folder: Path, t: Tree, m: seq<Path>, ds: seq<Path>, i: nat, u: Tree)
    requires ScriptPath(folder) !in t.scripts && i <= 2 * |m|
    requires u == ApplyAll(t, HeaderEffects(folder, true, ds)
                   + Pairs(ScriptPath(folder), RestoreLines(folder, m), MoveList(folder, m))[..i])
    ensures u.files == MoveAll(t.files, MoveList(folder, m)[..i / 2])
    ensures u.dirs == t.dirs
  {
    var sp := ScriptPath(folder);
    var h := HeaderEffects(folder, true, ds);
    var me := Pairs(sp, RestoreLines(folder, m), MoveList(folder, m));
    ApplyAllConcat(t, h, me[..i]);
    var u0 := ApplyAll(t, h);
    FullPrefix(h, |HeaderLines(folder, ds)|);
    DuringHeader(folder, t, ds, |HeaderLines(folder, ds)|, u0);
    PairsPrefixDisk(u0, sp, RestoreLines(folder, m), MoveList(folder, m), i);
  }

  /** ... and the script holds the header and the first `(i + 1) / 2`
      restore lines. */
  lemma DuringMovesScript(folder: Path, t: Tree, m: seq<Path>, ds: seq<Path>, i: nat, u: Tree)
    requires ScriptPath(folder) !in t.scripts && i <= 2 * |m|
    requires u == ApplyAll(t, HeaderEffects(folder, true, ds)
                   + Pairs(ScriptPath(folder), RestoreLines(folder, m), MoveList(folder, m))[..i])
    ensures ScriptOf(u, ScriptPath(folder)) == HeaderLines(folder, ds) + RestoreLines(folder, m[..(i + 1) / 2])
  {
    var sp := ScriptPath(folder);
    var h := HeaderEffects(folder, true, ds);
    var lines := RestoreLines(folder, m);
    var me := Pairs(sp, lines, MoveList(folder, m));
    var p := (i + 1) / 2;
    ScriptOfApplyAll(t, h + me[..i], sp);
    LinesToConcat(sp, h, me[..i]);
    LinesToWrites(sp, HeaderLines(folder, ds));
    PairsPrefixLines(sp, lines, MoveList(folder, m), i);
    RestoreLinesPrefix(folder, m, p);
  }

  // ---------------------------------------------------------------------
  // The restore script undoes a run, even an interrupted one

  /** Running the restore script of `folder` as it stands on disk `u`
      gives back the files and folders of `t`. */
  ghost predicate RestoresTo(folder: Path, u: Tree, t: Tree)
  {
    && Replay(folder, ScriptOf(u, ScriptPath(folder)), u).files == t.files
    && Replay(folder, ScriptOf(u, ScriptPath(folder)), u).dirs == t.dirs
  }

  /** Interrupted while writing the header: the script creates folders that
      all exist, and nothing has moved. */
  lemma CrashInHeader(folder: Path, t: Tree, fs: seq<Path>, k: nat, u: Tree)
    requires Flattenable(folder, t, fs) && k <= |HeaderLines(folder, FoldersListed(t, fs))|
    requires u == ApplyAll(t, HeaderEffects(folder, true, FoldersListed(t, fs))[..k])
    ensures RestoresTo(folder, u, t)
  {
    var ds := FoldersListed(t, fs);
    DuringHeader(folder, t, ds, k, u);
    FoldersListedFacts(folder, t, fs);
    ReplayHeaderPrefix(folder, ds, u, k);
  }

  /** Interrupted in the flattening loop after `i` of its steps: the script
      recreates the folders and moves back every file moved so far. */
  lemma CrashInMoves(folder: Path, t: Tree, fs: seq<Path>, i: nat, u: Tree)
    requires Flattenable(folder, t, fs) && i <= 2 * |MovedBy(folder, t, fs)|
    requires u == ApplyAll(t, HeaderEffects(folder, true, FoldersListed(t, fs))
      + Pairs(ScriptPath(folder), RestoreLines(folder, MovedBy(folder, t, fs)),
              MoveList(folder, MovedBy(folder, t, fs)))[..i])
    ensures RestoresTo(folder, u, t)
  {
    var ds := FoldersListed(t, fs);
    var m := MovedBy(folder, t, fs);
    DuringMovesDisk(folder, t, m, ds, i, u);
    DuringMovesScript(folder, t, m, ds, i, u);
    FoldersListedFacts(folder, t, fs);
    MovedByMembers(folder, t, fs);
    MovesIndependent(folder, t, fs);
    forall d | d in ds ensures d in t.dirs && d !in u.files {
      DirNotFileMidway(folder, t, fs, i / 2, d);
    }
    Recover(folder, t, ds, m, u, i / 2, (i + 1) / 2);
  }


  /** The steps of the header and the flattening loop of a first run that
      lists the folders `ds` and moves the files `m`. */
  function FirstSteps(folder: Path, ds: seq<Path>, m: seq<Path>): seq<Effect>
  {
    HeaderEffects(folder, true, ds)
      + Pairs(ScriptPath(folder), RestoreLines(folder, m), MoveList(folder, m))
  }

  /** Once the flattening loop is over: every file moved, the folders as
      before, the script complete. */
  lemma AfterMoves(folder: Path, t: Tree, ds: seq<Path>, m: seq<Path>)
    requires ScriptPath(folder) !in t.scripts
    ensures ApplyAll(t, FirstSteps(folder, ds, m)).files == MoveAll(t.files, MoveList(folder, m))
    ensures ApplyAll(t, FirstSteps(folder, ds, m)).dirs == t.dirs
    ensures ScriptOf(ApplyAll(t, FirstSteps(folder, ds, m)), ScriptPath(folder))
         == HeaderLines(folder, ds) + RestoreLines(folder, m)
  {
    var n := 2 * |m|;
    var pairs := Pairs(ScriptPath(folder), RestoreLines(folder, m), MoveList(folder, m));
    var u := ApplyAll(t, FirstSteps(folder, ds, m));
    FullPrefix(pairs, n);
    DuringMovesDisk(folder, t, m, ds, n, u);
    DuringMovesScript(folder, t, m, ds, n, u);
    assert (n + 1) / 2 == |m| && n / 2 == |m|;
    FullPrefix(m, |m|);
    FullPrefix(MoveList(folder, m), |m|);
  }

  /** Removing the listed folders `rs` once the flattening loop is over,
      when no listed folder holds a file: the files stay, the folders of
      `rs` go and so may folders below `folder`, nothing else does, and the
      script is as the loop left it. */
  lemma AfterRemovals(folder: Path, t: Tree, ds: seq<Path>, m: seq<Path>, rs: seq<Path>, u: Tree)
    requires ScriptPath(folder) !in t.scripts && RootOk(folder)
    requires forall d :: d in rs ==> Under(folder, d)
    requires forall x, d :: x in MoveAll(t.files, MoveList(folder, m)) && d in rs ==> !Covered(d, x)
    requires u == ApplyAll(t, FirstSteps(folder, ds, m) + RemoveEffects(rs))
    ensures u.files == MoveAll(t.files, MoveList(folder, m))
    ensures u.dirs <= t.dirs
    ensures forall x :: x in t.dirs && x !in u.dirs ==> x in rs || Inside(folder, x)
    ensures forall d :: d in rs ==> d !in u.dirs
    ensures ScriptOf(u, ScriptPath(folder)) == HeaderLines(folder, ds) + RestoreLines(folder, m)
  {
    var first := FirstSteps(folder, ds, m);
    var u1 := ApplyAll(t, first);
    AfterMoves(folder, t, ds, m);
    ApplyAllConcat(t, first, RemoveEffects(rs));
    ApplyRemovals(folder, u1, rs);
    ScriptOfApplyAll(u1, RemoveEffects(rs), ScriptPath(folder));
    LinesToRemovals(ScriptPath(folder), rs);
  }

  lemma RemoveEffectsPrefix(ds: seq<Path>, q: nat)
    requires q <= |ds|
    ensures RemoveEffects(ds)[..q] == RemoveEffects(ds[..q])
  {
  }

  /** Listed folders lie below `folder` and hold no file once the files
      have moved. */
  lemma RemovalReady(folder: Path, t: Tree, fs: seq<Path>, rs: seq<Path>)
    requires Flattenable(folder, t, fs)
    requires forall d :: d in rs ==> d in FoldersListed(t, fs)
    ensures forall d :: d in rs ==> Under(folder, d)
    ensures forall x, d :: x in MoveAll(t.files, MoveList(folder, MovedBy(folder, t, fs))) && d in rs ==> !Covered(d, x)
  {
    FoldersListedFacts(folder, t, fs);
    forall x, d | x in MoveAll(t.files, MoveList(folder, MovedBy(folder, t, fs))) && d in rs
      ensures !Covered(d, x)
    {
      NoFileCovered(folder, t, fs, x, d);
    }
  }

  /** In the removal phase of a first run after `q` of its steps: the files
      are all moved, the folders removed so far are listed ones, and the
      script is as the flattening loop left it. */
  lemma DuringRemovals(folder: Path, t: Tree, fs: seq<Path>, q: nat, u: Tree)
    requires Flattenable(folder, t, fs) && q <= |FoldersListed(t, fs)|
    requires u == ApplyAll(t, FirstSteps(folder, FoldersListed(t, fs), MovedBy(folder, t, fs))
                   + RemoveEffects(Reverse(FoldersListed(t, fs)))[..q])
    ensures u.files == MoveAll(t.files, MoveList(folder, MovedBy(folder, t, fs)))
    ensures u.dirs <= t.dirs
    ensures forall x :: x in t.dirs && x !in u.dirs ==> x in FoldersListed(t, fs)
    ensures forall d :: d in Reverse(FoldersListed(t, fs))[..q] ==> d !in u.dirs
    ensures ScriptOf(u, ScriptPath(folder))
         == HeaderLines(folder, FoldersListed(t, fs)) + RestoreLines(folder, MovedBy(folder, t, fs))
  {
    var ds := FoldersListed(t, fs);
    var rs := Reverse(ds)[..q];
    RemoveEffectsPrefix(Reverse(ds), q);
    ReverseMembers(ds);
    assert forall d :: d in rs ==> d in ds;
    RemovalReady(folder, t, fs, rs);
    AfterRemovals(folder, t, ds, MovedBy(folder, t, fs), rs, u);
    FoldersListedFacts(folder, t, fs);
  }

  /** Interrupted while removing folders: the script recreates them all and
      moves every file back. */
  lemma CrashInRemovals(folder: Path, t: Tree, fs: seq<Path>, q: nat, u: Tree)
    requires Flattenable(folder, t, fs) && q <= |FoldersListed(t, fs)|
    requires u == ApplyAll(t, FirstSteps(folder, FoldersListed(t, fs), MovedBy(folder, t, fs))
      + RemoveEffects(Reverse(FoldersListed(t, fs)))[..q])
    ensures RestoresTo(folder, u, t)
  {
    var ds := FoldersListed(t, fs);
    var m := MovedBy(folder, t, fs);
    DuringRemovals(folder, t, fs, q, u);
    FoldersListedFacts(folder, t, fs);
    MovedByMembers(folder, t, fs);
    MovesIndependent(folder, t, fs);
    FullPrefix(MoveList(folder, m), |m|);
    forall d | d in ds ensures d in t.dirs && d !in u.files {
      DirNotFileMidway(folder, t, fs, |m|, d);
    }
    Recover(folder, t, ds, m, u, |m|, |m|);
    FullPrefix(m, |m|);
  }



  /** A first run is its header and flattening loop, then the removals. */
  lemma FirstRunShape(folder: Path, t: Tree, fs: seq<Path>)
    requires !Exists(t, ScriptPath(folder))
    ensures Effects(folder, t, fs)
         == FirstSteps(folder, FoldersListed(t, fs), MovedBy(folder, t, fs))
          + RemoveEffects(Reverse(FoldersListed(t, fs)))
  {
    MoveEffectsPairs(folder, ScriptPath(folder), FilesListed(t, fs));
  }

  /** `u` is the disk after the first `k` steps of the header and the
      flattening loop of a first run. */
  ghost predicate PartWay(folder: Path, t: Tree, fs: seq<Path>, k: nat, u: Tree)
  {
    && Flattenable(folder, t, fs)
    && k <= |FirstSteps(folder, FoldersListed(t, fs), MovedBy(folder, t, fs))|
    && u == ApplyAll(t, FirstSteps(folder, FoldersListed(t, fs), MovedBy(folder, t, fs))[..k])
  }

  lemma HeaderPart(folder: Path, t: Tree, fs: seq<Path>, k: nat, u: Tree)
    requires PartWay(folder, t, fs, k, u) && k <= |HeaderLines(folder, FoldersListed(t, fs))|
    ensures RestoresTo(folder, u, t)
  {
    var m := MovedBy(folder, t, fs);
    PrefixInFirst(HeaderEffects(folder, true, FoldersListed(t, fs)),
      Pairs(ScriptPath(folder), RestoreLines(folder, m), MoveList(folder, m)), k);
    CrashInHeader(folder, t, fs, k, u);
  }

  lemma MovesPart(folder: Path, t: Tree, fs: seq<Path>, k: nat, u: Tree)
    requires PartWay(folder, t, fs, k, u) && |HeaderLines(folder, FoldersListed(t, fs))| < k
    ensures RestoresTo(folder, u, t)
  {
    var m := MovedBy(folder, t, fs);
    var h := HeaderEffects(folder, true, FoldersListed(t, fs));
    PrefixInSecond(h, Pairs(ScriptPath(folder), RestoreLines(folder, m), MoveList(folder, m)), k);
    CrashInMoves(folder, t, fs, k - |h|, u);
  }

  lemma FirstPart(folder: Path, t: Tree, fs: seq<Path>, k: nat, u: Tree)
    requires PartWay(folder, t, fs, k, u)
    ensures RestoresTo(folder, u, t)
  {
    if k <= |HeaderLines(folder, FoldersListed(t, fs))| {
      HeaderPart(folder, t, fs, k, u);
    } else {
      MovesPart(folder, t, fs, k, u);
    }
  }

  /** Crash safety: wherever a first run of `open_fs` stops, running the
      restore script as it stands on the disk as it stands gives back every
      file, with its contents, and every folder. */
  lemma CrashSafe(folder: Path, t: Tree, fs: seq<Path>, k: nat)
    requires Flattenable(folder, t, fs) && k <= |Effects(folder, t, fs)|
    ensures RestoresTo(folder, ApplyAll(t, Effects(folder, t, fs)[..k]), t)
  {
    var first := FirstSteps(folder, FoldersListed(t, fs), MovedBy(folder, t, fs));
    var rest := RemoveEffects(Reverse(FoldersListed(t, fs)));
    var u := ApplyAll(t, Effects(folder, t, fs)[..k]);
    FirstRunShape(folder, t, fs);
    if k <= |first| {
      PrefixInFirst(first, rest, k);
      FirstPart(folder, t, fs, k, u);
    } else {
      PrefixInSecond(first, rest, k);
      CrashInRemovals(folder, t, fs, k - |first|, u);
    }
  }

  /** The round trip: after a complete first run, running the restore
      script gives back the files and folders as they were. */
  lemma RoundTrip(folder: Path, t: Tree, fs: seq<Path>)
    requires Flattenable(folder, t, fs)
    ensures RestoresTo(folder, ApplyAll(t, Effects(folder, t, fs)), t)
  {
    var e := Effects(folder, t, fs);
    CrashSafe(folder, t, fs, |e|);
    FullPrefix(e, |e|);
  }

  // ---------------------------------------------------------------------
  // The folder after a complete first run

  /** A file inside `folder` after the moves sits at its top level. */
  lemma FlatFile(folder: Path, t: Tree, fs: seq<Path>, x: Path)
    requires Flattenable(folder, t, fs)
    requires x in MoveAll(t.files, MoveList(folder, MovedBy(folder, t, fs))) && Inside(folder, x)
    ensures '/' !in RelPath(folder, x)
  {
    var m := MovedBy(folder, t, fs);
    MovesIndependent(folder, t, fs);
    MovedByMembers(folder, t, fs);
    var i := MovedOrKept(folder, t.files, m, x);
    if i >= 0 {
      assert m[i] in m;
      TargetFlat(folder, m[i]);
    } else {
      NeedsMoveIff(folder, x);
    }
  }

  /** After a complete first run `folder` is flat: no folder is left below
      it, every file below it sits at its top level, and the restore script
      is in place. */
  lemma FlattenedLayout(folder: Path, t: Tree, fs: seq<Path>)
    requires Flattenable(folder, t, fs)
    ensures forall x :: x in ApplyAll(t, Effects(folder, t, fs)).dirs ==> !Inside(folder, x)
    ensures forall x :: x in ApplyAll(t, Effects(folder, t, fs)).files && Inside(folder, x) ==>
      '/' !in RelPath(folder, x)
    ensures ScriptPath(folder) in ApplyAll(t, Effects(folder, t, fs)).scripts
  {
    var ds := FoldersListed(t, fs);
    var m := MovedBy(folder, t, fs);
    var rest := RemoveEffects(Reverse(ds));
    var u := ApplyAll(t, Effects(folder, t, fs));
    FirstRunShape(folder, t, fs);
    FullPrefix(rest, |ds|);
    DuringRemovals(folder, t, fs, |ds|, u);
    FullPrefix(Reverse(ds), |ds|);
    ReverseMembers(ds);
    FoldersListedFacts(folder, t, fs);
    forall x | x in u.files && Inside(folder, x) ensures '/' !in RelPath(folder, x) {
      FlatFile(folder, t, fs, x);
    }
    assert |ScriptOf(u, ScriptPath(folder))| >= 2;
  }

  /** Idempotence: a second run of `open_fs` on the flattened folder, over
      any listing of it, does nothing. */
  lemma SecondRunNoOp(folder: Path, t: Tree, fs: seq<Path>, fs2: seq<Path>)
    requires Flattenable(folder, t, fs)
    requires forall x :: x in fs2 ==> Under(folder, x)
    ensures Effects(folder, ApplyAll(t, Effects(folder, t, fs)), fs2) == []
  {
    FlattenedLayout(folder, t, fs);
    FlatIsFixed(folder, ApplyAll(t, Effects(folder, t, fs)), fs2);
  }
}
