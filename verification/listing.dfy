/** What `glob.glob(folder + '/**/*', recursive=True)` and
    `glob.glob(folder + '/**/.*', recursive=True)` report together, and what a
    run does to the files they leave out. The recursive `**` never enters a
    folder whose name starts with '.', so the contents of a hidden folder are
    not listed, although the hidden folder itself is. */
module Listing {
  import opened Paths
  import opened PathOrder
  import opened FileSystem
  import opened Flattener
  import opened Restore

  /** Some component of the relative path `rel` other than its last starts
      with '.': a hidden folder lies on the way. */
  predicate HiddenAbove(rel: Path)
  {
    || (exists j :: 0 < j < |rel| && rel[0] == '.' && rel[j] == '/')
    || (exists i, j :: 0 < i < j < |rel| && rel[i - 1] == '/' && rel[i] == '.' && rel[j] == '/')
  }

  /** The two globs report `x`, a path below `folder`, unless a folder whose
      name starts with '.' lies between `folder` and `x`. */
  predicate GlobReports(folder: Path, x: Path)
  {
    !HiddenAbove(RelPath(folder, x))
  }

  /** `fs` is what the two globs report on disk `t`: the files and folders
      below `folder` that `GlobReports` admits. */
  ghost predicate GlobListing(folder: Path, t: Tree, fs: seq<Path>)
  {
    forall x :: x in fs <==> (x in t.files || x in t.dirs) && Under(folder, x) && GlobReports(folder, x)
  }

  /** Steps that only append lines leave the files alone. */
  lemma {:induction false} AppendsKeepFiles(t: Tree, es: seq<Effect>)
    requires forall i :: 0 <= i < |es| ==> es[i].Appended?
    ensures ApplyAll(t, es).files == t.files
  {
    if es != [] {
      AppendsKeepFiles(t, es[..|es| - 1]);
    }
  }

  /** Replaying a script on a disk without files makes none: `mkdir` makes
      folders only, and `mv` from a missing file changes nothing. */
  lemma {:induction false} ReplayNoFiles(p: Path, lines: seq<string>, t: Tree)
    requires t.files == map[]
    ensures Replay(p, lines, t).files == map[]
  {
    if lines != [] {
      ReplayNoFiles(p, lines[..|lines| - 1], t);
    }
  }

  /** The disk of the example: the folder `/r/.c` holding the file `a`. */
  function HiddenDisk(): Tree
  {
    Tree(map["/r/.c/a" := [0]], {"/r/.c"}, map[])
  }

  /** On `HiddenDisk` the globs report `/r/.c` and nothing else. */
  lemma HiddenGlob()
    ensures GlobListing("/r", HiddenDisk(), ["/r/.c"])
  {
    var rel := RelPath("/r", "/r/.c/a");
    assert rel == ".c/a";
    assert rel[0] == '.' && rel[2] == '/';
    assert HiddenAbove(rel);
    assert RelPath("/r", "/r/.c") == ".c";
  }

  /** Of that listing, no path is a file and `/r/.c` is a folder. */
  lemma HiddenListed()
    ensures FilesListed(HiddenDisk(), ["/r/.c"]) == []
    ensures FoldersListed(HiddenDisk(), ["/r/.c"]) == ["/r/.c"]
  {
    var t := HiddenDisk();
    var fs: seq<Path> := ["/r/.c"];
    assert "/r/.c" !in t.files;
    assert Select(fs, t.files.Keys) == [];
    var s := FoldersListed(t, fs);
    assert multiset(Select(fs, t.dirs)) == multiset{"/r/.c"};
    assert |s| == 1 && s[0] in multiset(s);
  }

  /** A run over a listing with one folder `d` and no file: the header,
      then `rm -R d`. */
  lemma OneFolderRun(folder: Path, t: Tree, fs: seq<Path>, d: Path)
    requires !Exists(t, ScriptPath(folder))
    requires FilesListed(t, fs) == [] && FoldersListed(t, fs) == [d]
    ensures Effects(folder, t, fs) == HeaderEffects(folder, true, [d]) + [Removed(d)]
  {
    assert Reverse([d]) == [d];
  }

  /** Steps that append lines and then remove `d` leave no file that `d`
      covered. */
  lemma AppendsThenRemove(t: Tree, header: seq<Effect>, d: Path)
    requires forall i :: 0 <= i < |header| ==> header[i].Appended?
    requires forall x :: x in t.files ==> Covered(d, x)
    ensures ApplyAll(t, header + [Removed(d)]).files == map[]
  {
    var e := header + [Removed(d)];
    AppendsKeepFiles(t, header);
    assert e[..|e| - 1] == header;
  }

  /** A run over a listing with one folder `d`, below which lie all the
      files, and no file leaves no file at all. */
  lemma OneFolderEmpties(folder: Path, t: Tree, fs: seq<Path>, d: Path)
    requires !Exists(t, ScriptPath(folder))
    requires FilesListed(t, fs) == [] && FoldersListed(t, fs) == [d]
    requires forall x :: x in t.files ==> Covered(d, x)
    ensures ApplyAll(t, Effects(folder, t, fs)).files == map[]
  {
    OneFolderRun(folder, t, fs, d);
    AppendsThenRemove(t, HeaderEffects(folder, true, [d]), d);
  }

  /** A run over that listing writes the header and removes `/r/.c`, with
      its file. */
  lemma HiddenRun()
    ensures ApplyAll(HiddenDisk(), Effects("/r", HiddenDisk(), ["/r/.c"])).files == map[]
  {
    HiddenListed();
    assert Covered("/r/.c", "/r/.c/a");
    OneFolderEmpties("/r", HiddenDisk(), ["/r/.c"], "/r/.c");
  }

  /** A file inside a hidden folder is lost: the globs list the folder
      `/r/.c` but not the file `/r/.c/a` in it, the run removes `/r/.c` with
      `rm -R`, and the restore script has no line that brings the file
      back. */
  lemma HiddenFolderLoss()
    ensures var t := HiddenDisk();
            var u := ApplyAll(t, Effects("/r", t, ["/r/.c"]));
            && GlobListing("/r", t, ["/r/.c"])
            && "/r/.c/a" in t.files
            && u.files == map[]
            && !RestoresTo("/r", u, t)
  {
    var t := HiddenDisk();
    var u := ApplyAll(t, Effects("/r", t, ["/r/.c"]));
    HiddenGlob();
    HiddenRun();
    ReplayNoFiles("/r", ScriptOf(u, ScriptPath("/r")), u);
  }
}
