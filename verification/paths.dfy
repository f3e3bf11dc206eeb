/** Path names as the flattener builds them: quoting, joining, slicing off the
    target folder, and the flat-name scheme that replaces every '/' by "__". */
module Paths {
  import opened Sequences

  type Path = string

  /** Name of the restore script kept at the top of the flattened folder. */
  const RestoreScriptName: string := "#restore.sh"

  /** The restore script's name is a top-level name that no flat name of a
      nested file can take: it has neither a slash nor an underscore. */
  lemma RestoreScriptNameChars()
    ensures RestoreScriptName != "" && RestoreScriptName[0] != '/'
    ensures '/' !in RestoreScriptName && '_' !in RestoreScriptName
  {
    var name := RestoreScriptName;
    assert forall i :: 0 <= i < |name| ==> name[i] in "#restoe.h";
  }

  /** What replaces each '/' of a relative path in its flat name. */
  const Separator: string := "__"

  /** `add_quote`: wraps a path in double quotes, without escaping anything. */
  function AddQuote(s: string): (r: string)
    ensures |r| == |s| + 2
    ensures r[0] == '"' && r[|r| - 1] == '"'
    ensures r[1..|r| - 1] == s
  {
    "\"" + s + "\""
  }

  /** Python's `s[k:]`: empty once `k` passes the end. */
  function SliceFrom(s: string, k: nat): string
  {
    if k <= |s| then s[k..] else ""
  }

  /** `os.path.join(a, b)` on POSIX: an absolute `b` replaces `a`; no second
      slash is added after an `a` that already ends with one. */
  function Join(a: Path, b: Path): Path
  {
    if |b| > 0 && b[0] == '/' then b
    else if a == "" || a[|a| - 1] == '/' then a + b
    else a + "/" + b
  }

  /** Number of occurrences of `c` in `s`. */
  function Count(c: char, s: string): (n: nat)
    ensures n <= |s|
    ensures n == 0 <==> c !in s
  {
    if s == "" then 0
    else
      assert s == [s[0]] + s[1..];
      (if s[0] == c then 1 else 0) + Count(c, s[1..])
  }

  /** `rel.replace('/', separator)`: the name a file gets at the top level. */
  function FlatName(rel: Path): (r: Path)
    ensures '/' !in r
    ensures |r| == |rel| + Count('/', rel)
  {
    if rel == "" then ""
    else (if rel[0] == '/' then Separator else [rel[0]]) + FlatName(rel[1..])
  }

  /** `file[len(folder) + 1:]`: the path of `file` relative to `folder`. */
  function RelPath(folder: Path, file: Path): Path
  {
    SliceFrom(file, |folder| + 1)
  }

  /** `os.path.join(folder, file_name)`: where `file` is moved to. */
  function Target(folder: Path, file: Path): Path
  {
    Join(folder, FlatName(RelPath(folder, file)))
  }

  /** The guard `file != target_path` of the flattening loop. */
  predicate NeedsMove(folder: Path, file: Path)
  {
    file != Target(folder, file)
  }

  /** `x` lies strictly below directory `d`. */
  predicate Inside(d: Path, x: Path)
  {
    |x| > |d| && x[..|d|] == d && x[|d|] == '/'
  }

  /** `x` is `d` itself or lies below it: what `rm -R d` deletes. */
  predicate Covered(d: Path, x: Path)
  {
    x == d || Inside(d, x)
  }

  /** What `os.path.abspath` yields for any folder but the root: a non-empty
      path without a trailing slash. */
  predicate RootOk(folder: Path)
  {
    folder != "" && folder[|folder| - 1] != '/'
  }

  /** A path as a recursive listing of `folder` reports it: `folder`, one
      slash, then a non-empty relative path that does not start with a slash. */
  predicate Under(folder: Path, x: Path)
  {
    Inside(folder, x) && |x| > |folder| + 1 && x[|folder| + 1] != '/'
  }

  /** A relative path is left alone by the flat-name scheme exactly when it
      has no slash in it. */
  lemma {:induction false} FlatNameFixed(rel: Path)
    ensures FlatName(rel) == rel <==> '/' !in rel
  {
    if rel != "" && '/' !in rel {
      assert rel == [rel[0]] + rel[1..];
      FlatNameFixed(rel[1..]);
    }
  }

  /** Characters other than '/' and '_' pass through the flat-name scheme
      unchanged, so a name without `c` has a flat name without `c`. */
  lemma {:induction false} FlatNameAvoids(rel: Path, c: char)
    requires c != '_' && c !in rel
    ensures c !in FlatName(rel)
  {
    if rel != "" {
      assert rel == [rel[0]] + rel[1..];
      FlatNameAvoids(rel[1..], c);
    }
  }

  /** A relative path with a slash has a flat name with an underscore. */
  lemma {:induction false} FlatNameMarks(rel: Path)
    requires '/' in rel
    ensures '_' in FlatName(rel)
  {
    var r := FlatName(rel);
    if rel[0] == '/' {
      assert r[0] == '_';
    } else {
      assert rel == [rel[0]] + rel[1..];
      FlatNameMarks(rel[1..]);
      assert r == [rel[0]] + FlatName(rel[1..]);
    }
  }

  /** The slice `file[len(folder) + 1:]` of `folder + "/" + r` is exactly `r`,
      and that path is one a listing of `folder` reports. */
  lemma RelPathOfJoin(folder: Path, r: Path)
    requires RootOk(folder) && r != "" && r[0] != '/'
    ensures Join(folder, r) == folder + "/" + r
    ensures Under(folder, folder + "/" + r)
    ensures RelPath(folder, folder + "/" + r) == r
  {
    var x := folder + "/" + r;
    assert x[..|folder|] == folder;
    assert x[|folder| + 1..] == r;
  }

  /** The shape of a listed path: folder, slash, relative path; and its target
      is folder, slash, flat name. */
  lemma UnderShape(folder: Path, x: Path)
    requires RootOk(folder) && Under(folder, x)
    ensures RelPath(folder, x) != "" && RelPath(folder, x)[0] != '/'
    ensures x == folder + "/" + RelPath(folder, x)
    ensures Target(folder, x) == folder + "/" + FlatName(RelPath(folder, x))
  {
    var rel := RelPath(folder, x);
    assert x == x[..|folder|] + [x[|folder|]] + x[|folder| + 1..];
    var flat := FlatName(rel);
    assert flat == "" || flat[0] != '/' by {
      if flat != "" { assert flat[0] in flat; }
    }
  }

  /** A moved file lands directly in `folder`: its target is a path a listing
      of `folder` reports, and the relative path of the target is the flat
      name, which has no slash. */
  lemma TargetFlat(folder: Path, x: Path)
    requires RootOk(folder) && Under(folder, x)
    ensures Under(folder, Target(folder, x))
    ensures RelPath(folder, Target(folder, x)) == FlatName(RelPath(folder, x))
    ensures '/' !in RelPath(folder, Target(folder, x))
  {
    UnderShape(folder, x);
    var flat := FlatName(RelPath(folder, x));
    assert flat[0] in flat;
    RelPathOfJoin(folder, flat);
  }

  /** `file != target_path` holds exactly when the relative path has a slash:
      top-level files stay where they are, everything deeper moves. */
  lemma NeedsMoveIff(folder: Path, x: Path)
    requires RootOk(folder) && Under(folder, x)
    ensures NeedsMove(folder, x) <==> '/' in RelPath(folder, x)
  {
    var rel := RelPath(folder, x);
    UnderShape(folder, x);
    FlatNameFixed(rel);
    var pre := folder + "/";
    if x == Target(folder, x) {
      assert pre + rel == pre + FlatName(rel);
      assert rel == (pre + rel)[|pre|..];
      assert FlatName(rel) == (pre + FlatName(rel))[|pre|..];
    }
  }

  /** A path below a listed sub-folder of `folder` is itself below `folder`,
      and its relative path contains a slash. */
  lemma InsideListed(folder: Path, d: Path, x: Path)
    requires RootOk(folder) && Under(folder, d) && Inside(d, x)
    ensures Inside(folder, x)
    ensures '/' in RelPath(folder, x)
  {
    assert x[..|folder|] == x[..|d|][..|folder|];
    var rel := RelPath(folder, x);
    assert rel[|d| - |folder| - 1] == x[|d|];
  }

  /** A path whose relative path has no slash lies in no listed sub-folder. */
  lemma OutsideListed(folder: Path, d: Path, x: Path)
    requires RootOk(folder) && Under(folder, d) && '/' !in RelPath(folder, x)
    ensures !Inside(d, x)
  {
    if Inside(d, x) {
      InsideListed(folder, d, x);
    }
  }

  /** The open collision case: a top-level file `d__n` and the file `n` in
      folder `d` get the same flat name, so flat names are not one-to-one. */
  lemma {:induction false} FlatNameCollision(d: Path, n: Path)
    requires '/' !in d && '/' !in n
    ensures d + Separator + n != d + "/" + n
    ensures FlatName(d + Separator + n) == FlatName(d + "/" + n) == d + Separator + n
  {
    assert (d + Separator + n)[|d|] != (d + "/" + n)[|d|];
    var top := d + Separator + n;
    assert '/' !in top by {
      forall i | 0 <= i < |top| ensures top[i] != '/' {
        if i < |d| { assert top[i] == d[i]; }
        else if i >= |d| + 2 { assert top[i] == n[i - |d| - 2]; }
      }
    }
    FlatNameFixed(top);
    FlatNameFixed(d);
    FlatNameFixed(n);
    var slash: Path := "/";
    assert slash[0] == '/' && slash[1..] == "";
    assert FlatName(slash) == Separator;
    FlatNameConcat(d, slash);
    FlatNameConcat(d + slash, n);
  }

  /** The flat-name scheme works character by character, so it distributes
      over concatenation. */
  lemma {:induction false} FlatNameConcat(x: Path, y: Path)
    ensures FlatName(x + y) == FlatName(x) + FlatName(y)
  {
    if x == "" {
      assert x + y == y;
    } else {
      var c, rest := x[0], x[1..];
      var h := if c == '/' then Separator else [c];
      assert x == [c] + rest;
      assert x + y == [c] + (rest + y);
      FlatNameCons(c, rest);
      FlatNameCons(c, rest + y);
      FlatNameConcat(rest, y);
      ConcatAssoc(h, FlatName(rest), FlatName(y));
    }
  }


  /** The flat name of a path is that of its first character followed by
      that of the rest. */
  lemma FlatNameCons(c: char, rest: Path)
    ensures FlatName([c] + rest) == (if c == '/' then Separator else [c]) + FlatName(rest)
  {
    assert ([c] + rest)[1..] == rest;
  }
}
