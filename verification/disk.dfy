/** The host file system as the flattener sees it: regular files by absolute
    path, directories, and the text of restore scripts. Its primitive steps
    are the shell commands the flattener runs (`mv`, `rm -R`), the appends
    it makes to the restore script, and the commands the script replays
    (`mkdir`, `mv`). */
module FileSystem {
  import opened Sequences
  import opened Paths
  import opened RestoreScript

  type Bytes = seq<bv8>

  /** A snapshot of the disk. Restore scripts are kept apart from the data
      files, whose contents are opaque. */
  datatype Tree = Tree(files: map<Path, Bytes>, dirs: set<Path>, scripts: map<Path, seq<string>>)

  /** One `mv src dst` of a regular file. */
  datatype Move = Move(src: Path, dst: Path)

  function Swap(m: Move): Move
  {
    Move(m.dst, m.src)
  }

  /** `mv src dst`: the file at `src` now lives at `dst`, replacing whatever
      file was there; a missing source makes the command fail and change
      nothing. */
  function MoveFile(f: map<Path, Bytes>, m: Move): (r: map<Path, Bytes>)
    ensures m.src in f ==> forall k :: k in r <==> k == m.dst || (k in f && k != m.src)
    ensures m.src in f ==> forall k :: k in r ==> r[k] == if k == m.dst then f[m.src] else f[k]
    ensures m.src !in f ==> r == f
  {
    if m.src in f then (f - {m.src})[m.dst := f[m.src]] else f
  }

  /** The moves, one after the other. */
  function MoveAll(f: map<Path, Bytes>, ms: seq<Move>): map<Path, Bytes>
  {
    if ms == [] then f else MoveFile(MoveAll(f, ms[..|ms| - 1]), ms[|ms| - 1])
  }

  /** Every move undone, in the same order. */
  function Swaps(ms: seq<Move>): (r: seq<Move>)
    ensures |r| == |ms| && forall i :: 0 <= i < |ms| ==> r[i] == Swap(ms[i])
  {
    seq(|ms|, i requires 0 <= i < |ms| => Swap(ms[i]))
  }

  /** `k` is the source or the target of one of the moves. */
  predicate Touches(ms: seq<Move>, k: Path)
  {
    exists i :: 0 <= i < |ms| && (ms[i].src == k || ms[i].dst == k)
  }

  /** Moves that do not interfere: each source exists, no target does, and
      no two moves share a source or a target. */
  ghost predicate Independent(f: map<Path, Bytes>, ms: seq<Move>)
  {
    && (forall i :: 0 <= i < |ms| ==> ms[i].src in f && ms[i].dst !in f)
    && (forall i, j :: 0 <= i < j < |ms| ==> ms[i].src != ms[j].src && ms[i].dst != ms[j].dst)
  }

  /** The last of independent moves touches nothing the earlier ones touch. */
  lemma LastUntouched(f: map<Path, Bytes>, ms: seq<Move>)
    requires Independent(f, ms) && ms != []
    ensures Independent(f, ms[..|ms| - 1])
    ensures !Touches(ms[..|ms| - 1], ms[|ms| - 1].src)
    ensures !Touches(ms[..|ms| - 1], ms[|ms| - 1].dst)
    ensures forall k :: !Touches(ms, k) ==>
      !Touches(ms[..|ms| - 1], k) && k != ms[|ms| - 1].src && k != ms[|ms| - 1].dst
  {
    var n := |ms| - 1;
    var front, m := ms[..n], ms[n];
    assert forall i :: 0 <= i < n ==> front[i] == ms[i];
    forall k | Touches(front, k) ensures Touches(ms, k) {
      var i :| 0 <= i < n && (front[i].src == k || front[i].dst == k);
      assert ms[i] == front[i];
    }
  }

  /** `r` is what independent moves make of `f`: untouched paths keep their
      files, every source is gone, every target holds its source's file. */
  ghost predicate Outcome(f: map<Path, Bytes>, ms: seq<Move>, r: map<Path, Bytes>)
  {
    && (forall k :: !Touches(ms, k) ==> (k in r <==> k in f))
    && (forall k :: !Touches(ms, k) && k in f ==> r[k] == f[k])
    && (forall i :: 0 <= i < |ms| ==> ms[i].src !in r)
    && (forall i :: 0 <= i < |ms| ==>
          ms[i].src in f && ms[i].dst in r && r[ms[i].dst] == f[ms[i].src])
  }

  /** A move of a file no earlier move touched leaves the untouched paths
      alone. */
  lemma StepKeep(f: map<Path, Bytes>, front: seq<Move>, m: Move, g: map<Path, Bytes>)
    requires m.src in g
    requires forall k :: !Touches(front, k) ==> (k in g <==> k in f)
    requires forall k :: !Touches(front, k) && k in f ==> g[k] == f[k]
    requires forall k :: !Touches(front + [m], k) ==> !Touches(front, k) && k != m.src && k != m.dst
    ensures forall k :: !Touches(front + [m], k) ==> (k in MoveFile(g, m) <==> k in f)
    ensures forall k :: !Touches(front + [m], k) && k in f ==> MoveFile(g, m)[k] == f[k]
  {
  }

  /** A move to a fresh target keeps the earlier targets and sources as they
      were and adds its own. */
  lemma StepMoved(f: map<Path, Bytes>, front: seq<Move>, m: Move, g: map<Path, Bytes>)
    requires m.src in f && m.src in g && g[m.src] == f[m.src] && m.dst !in g
    requires forall i :: 0 <= i < |front| ==>
      front[i].src != m.dst && front[i].dst != m.dst && front[i].dst != m.src
    requires forall i :: 0 <= i < |front| ==> front[i].src !in g
    requires forall i :: 0 <= i < |front| ==>
      front[i].src in f && front[i].dst in g && g[front[i].dst] == f[front[i].src]
    ensures forall i :: 0 <= i < |front + [m]| ==> (front + [m])[i].src !in MoveFile(g, m)
    ensures forall i :: 0 <= i < |front + [m]| ==>
      (front + [m])[i].src in f && (front + [m])[i].dst in MoveFile(g, m) &&
      MoveFile(g, m)[(front + [m])[i].dst] == f[(front + [m])[i].src]
  {
    var r := MoveFile(g, m);
    var ms := front + [m];
    forall i | 0 <= i < |ms|
      ensures ms[i].src !in r && ms[i].src in f && ms[i].dst in r && r[ms[i].dst] == f[ms[i].src]
    {
      if i < |front| {
        assert ms[i] == front[i];
      } else {
        assert ms[i] == m;
      }
    }
  }

  /** The paths one more move touches. */
  lemma TouchesSnoc(front: seq<Move>, m: Move)
    ensures forall k :: Touches(front + [m], k) <==> Touches(front, k) || k == m.src || k == m.dst
  {
    var ms := front + [m];
    forall k | Touches(ms, k) ensures Touches(front, k) || k == m.src || k == m.dst {
      var i :| 0 <= i < |ms| && (ms[i].src == k || ms[i].dst == k);
      if i < |front| {
        assert front[i] == ms[i];
      }
    }
    forall k | Touches(front, k) ensures Touches(ms, k) {
      var i :| 0 <= i < |front| && (front[i].src == k || front[i].dst == k);
      assert ms[i] == front[i];
    }
    assert ms[|front|] == m;
  }

  /** A move of an existing file to a fresh target, touching nothing the
      earlier moves touched, extends their outcome. */
  lemma StepOutcome(f: map<Path, Bytes>, front: seq<Move>, m: Move, g: map<Path, Bytes>)
    requires Outcome(f, front, g)
    requires m.src in f && m.dst !in f
    requires !Touches(front, m.src) && !Touches(front, m.dst)
    ensures Outcome(f, front + [m], MoveFile(g, m))
  {
    TouchesSnoc(front, m);
    forall i | 0 <= i < |front|
      ensures front[i].src != m.dst && front[i].dst != m.dst && front[i].dst != m.src
    {
    }
    StepKeep(f, front, m, g);
    StepMoved(f, front, m, g);
  }

  /** The last of independent moves takes an existing file to a fresh
      target, and no earlier move touches either path. */
  lemma LastFresh(f: map<Path, Bytes>, ms: seq<Move>)
    requires Independent(f, ms) && ms != []
    ensures ms[|ms| - 1].src in f && ms[|ms| - 1].dst !in f
    ensures !Touches(ms[..|ms| - 1], ms[|ms| - 1].src)
    ensures !Touches(ms[..|ms| - 1], ms[|ms| - 1].dst)
  {
    var n := |ms| - 1;
    var front := ms[..n];
    forall i | 0 <= i < n ensures front[i].src != ms[n].src && front[i].dst != ms[n].dst {
      assert front[i] == ms[i];
    }
  }


  /** One more independent move keeps the outcome. */
  lemma MoveStep(f: map<Path, Bytes>, ms: seq<Move>, g: map<Path, Bytes>)
    requires Independent(f, ms) && ms != []
    requires Outcome(f, ms[..|ms| - 1], g)
    ensures Outcome(f, ms, MoveFile(g, ms[|ms| - 1]))
  {
    var n := |ms| - 1;
    LastFresh(f, ms);
    SnocLast(ms);
    StepOutcome(f, ms[..n], ms[n], g);
  }

  /** What independent moves do, move by move. */
  lemma {:induction false} MoveAllSpec(f: map<Path, Bytes>, ms: seq<Move>)
    requires Independent(f, ms)
    ensures Outcome(f, ms, MoveAll(f, ms))
  {
    if ms != [] {
      LastUntouched(f, ms);
      MoveAllSpec(f, ms[..|ms| - 1]);
      MoveStep(f, ms, MoveAll(f, ms[..|ms| - 1]));
    }
  }

  /** Every path present after independent moves was there before and
      untouched as a source, or is the target of one of the moves. */
  lemma MovedKey(f: map<Path, Bytes>, ms: seq<Move>, k: Path) returns (i: int)
    requires Independent(f, ms) && k in MoveAll(f, ms)
    ensures -1 <= i < |ms|
    ensures i == -1 ==> k in f && forall j :: 0 <= j < |ms| ==> ms[j].src != k
    ensures 0 <= i ==> ms[i].dst == k
  {
    MoveAllSpec(f, ms);
    if Touches(ms, k) {
      i :| 0 <= i < |ms| && (ms[i].src == k || ms[i].dst == k);
    } else {
      i := -1;
    }
  }

  /** The swapped moves touch the same paths. */
  lemma TouchesSwaps(ms: seq<Move>, k: Path)
    ensures Touches(Swaps(ms), k) <==> Touches(ms, k)
  {
    var back := Swaps(ms);
    if Touches(back, k) {
      var i :| 0 <= i < |back| && (back[i].src == k || back[i].dst == k);
      assert ms[i].src == k || ms[i].dst == k;
    }
    if Touches(ms, k) {
      var i :| 0 <= i < |ms| && (ms[i].src == k || ms[i].dst == k);
      assert back[i].src == k || back[i].dst == k;
    }
  }

  /** After independent moves, the swapped moves are independent too. */
  lemma SwapsIndependent(f: map<Path, Bytes>, ms: seq<Move>, g: map<Path, Bytes>)
    requires Independent(f, ms) && Outcome(f, ms, g)
    ensures Independent(g, Swaps(ms))
  {
  }

  /** Each path holds the same file after the moves and their swaps. */
  lemma UndoKey(f: map<Path, Bytes>, ms: seq<Move>, g: map<Path, Bytes>,
                h: map<Path, Bytes>, k: Path)
    requires Independent(f, ms) && Outcome(f, ms, g) && Outcome(g, Swaps(ms), h)
    ensures k in h <==> k in f
    ensures k in f ==> h[k] == f[k]
  {
    var back := Swaps(ms);
    TouchesSwaps(ms, k);
    if Touches(ms, k) {
      var i :| 0 <= i < |ms| && (ms[i].src == k || ms[i].dst == k);
      assert back[i].dst == ms[i].src && back[i].src == ms[i].dst;
    }
  }

  /** Replaying the swapped moves after independent moves gives back the
      original files. */
  lemma MoveAllUndo(f: map<Path, Bytes>, ms: seq<Move>)
    requires Independent(f, ms)
    ensures MoveAll(MoveAll(f, ms), Swaps(ms)) == f
  {
    MoveAllSpec(f, ms);
    var g := MoveAll(f, ms);
    SwapsIndependent(f, ms, g);
    MoveAllSpec(g, Swaps(ms));
    var h := MoveAll(g, Swaps(ms));
    forall k ensures (k in h <==> k in f) && (k in f ==> h[k] == f[k]) {
      UndoKey(f, ms, g, h, k);
    }
    assert h.Keys == f.Keys;
  }

  /** The first `c` of independent moves are independent. */
  lemma IndependentPrefix(f: map<Path, Bytes>, ms: seq<Move>, c: nat)
    requires Independent(f, ms) && c <= |ms|
    ensures Independent(f, ms[..c])
  {
    assert forall i :: 0 <= i < c ==> ms[..c][i] == ms[i];
  }

  /** A run stopped after its first `c` moves, with the line for the next
      move possibly logged already: replaying the first `p` swaps, for `p`
      equal to `c` or `c + 1`, gives back the original files, because the
      swap of a move that never happened finds no file to move. */
  lemma UndoPrefix(f: map<Path, Bytes>, ms: seq<Move>, c: nat, p: nat)
    requires Independent(f, ms) && c <= p <= c + 1 && p <= |ms|
    ensures MoveAll(MoveAll(f, ms[..c]), Swaps(ms[..p])) == f
  {
    IndependentPrefix(f, ms, c);
    MoveAllUndo(f, ms[..c]);
    if p == c + 1 {
      var back := Swaps(ms[..p]);
      assert back[..c] == Swaps(ms[..c]);
      assert back[c] == Swap(ms[c]);
      assert ms[c].dst !in f;
    }
  }

  /** `mkdir d`: fails, changing nothing, when `d` already exists. */
  function MakeDir(t: Tree, d: Path): Tree
  {
    if d in t.dirs || d in t.files then t else t.(dirs := t.dirs + {d})
  }

  /** `rm -R d`: deletes `d` and every file and folder below it. Restore
      scripts are kept: runs that satisfy `Flattenable` have none below the
      folders they remove. */
  function RemoveTree(t: Tree, d: Path): (r: Tree)
    ensures r.scripts == t.scripts
    ensures forall x :: x in r.files <==> x in t.files && !Covered(d, x)
    ensures forall x :: x in r.files ==> r.files[x] == t.files[x]
    ensures forall x :: x in r.dirs <==> x in t.dirs && !Covered(d, x)
  {
    t.(files := map x | x in t.files && !Covered(d, x) :: t.files[x],
       dirs := set x | x in t.dirs && !Covered(d, x))
  }

  /** One observable step of a flattening run. */
  datatype Effect =
    | Appended(script: Path, line: string)   // a line written to a restore script
    | Moved(move: Move)                      // `subprocess.run(['mv', src, dst])`
    | Removed(dir: Path)                     // `subprocess.run(['rm', '-R', dir])`

  /** `os.path.exists(p)`: something, of whatever kind, is at `p`. */
  predicate Exists(t: Tree, p: Path)
  {
    p in t.files || p in t.dirs || p in t.scripts
  }

  /** The lines of the script at `sp`; none while it does not exist. */
  function ScriptOf(t: Tree, sp: Path): seq<string>
  {
    if sp in t.scripts then t.scripts[sp] else []
  }

  /** The disk after one step. Appending to a missing script creates it, as
      `open(..., 'a+')` does. */
  function Apply(t: Tree, e: Effect): Tree
  {
    match e
    case Appended(sp, line) => t.(scripts := t.scripts[sp := ScriptOf(t, sp) + [line]])
    case Moved(m) => t.(files := MoveFile(t.files, m))
    case Removed(d) => RemoveTree(t, d)
  }

  /** The disk after the steps, first to last. */
  function ApplyAll(t: Tree, es: seq<Effect>): Tree
  {
    if es == [] then t else Apply(ApplyAll(t, es[..|es| - 1]), es[|es| - 1])
  }

  lemma {:induction false} ApplyAllConcat(t: Tree, a: seq<Effect>, b: seq<Effect>)
    ensures ApplyAll(t, a + b) == ApplyAll(ApplyAll(t, a), b)
  {
    if b == [] {
      assert a + b == a;
    } else {
      var n := |b| - 1;
      assert (a + b)[..|a + b| - 1] == a + b[..n];
      ApplyAllConcat(t, a, b[..n]);
    }
  }

  /** One line of a restore script whose `$p` is `p`, read by an abstract
      reader that takes each quoted word literally: `mkdir` and `mv` apply
      to the words as written, and neither checks that the parent folder
      exists. Lines it cannot read change nothing, as bash reports them and
      goes on with the next line. */
  function ReplayLine(p: Path, line: string, t: Tree): Tree
  {
    match Parse(line)
    case Some(Mkdir(x)) => MakeDir(t, p + "/" + x)
    case Some(Mv(x, y)) => t.(files := MoveFile(t.files, Move(p + "/" + x, p + "/" + y)))
    case _ => t
  }

  /** `bash #restore.sh` in folder `p`, as the abstract reader of
      `ReplayLine` sees it: the lines, first to last. */
  function Replay(p: Path, lines: seq<string>, t: Tree): Tree
  {
    if lines == [] then t else ReplayLine(p, lines[|lines| - 1], Replay(p, lines[..|lines| - 1], t))
  }

  lemma {:induction false} ReplayConcat(p: Path, a: seq<string>, b: seq<string>, t: Tree)
    ensures Replay(p, a + b, t) == Replay(p, b, Replay(p, a, t))
  {
    if b == [] {
      assert a + b == a;
    } else {
      var n := |b| - 1;
      assert (a + b)[..|a + b| - 1] == a + b[..n];
      ReplayConcat(p, a, b[..n], t);
    }
  }

  /** The disk, updated in place by the commands the flattener runs. The
      ghost `trace` records every step in the order it happened. */
  class Disk {
    var files: map<Path, Bytes>
    var dirs: set<Path>
    var scripts: map<Path, seq<string>>
    ghost var trace: seq<Effect>

    function State(): Tree
      reads this
    {
      Tree(files, dirs, scripts)
    }

    constructor (t: Tree)
      ensures State() == t && trace == []
    {
      files, dirs, scripts := t.files, t.dirs, t.scripts;
      trace := [];
    }

    /** `shell.write(line); shell.write('\n')` on the script at `sp`. */
    method WriteLine(sp: Path, line: string)
      modifies this
      ensures State() == Apply(old(State()), Appended(sp, line))
      ensures trace == old(trace) + [Appended(sp, line)]
    {
      scripts := scripts[sp := ScriptOf(State(), sp) + [line]];
      trace := trace + [Appended(sp, line)];
    }

    /** `subprocess.run(['mv', src, dst])`. */
    method RunMv(src: Path, dst: Path)
      modifies this
      ensures State() == Apply(old(State()), Moved(Move(src, dst)))
      ensures trace == old(trace) + [Moved(Move(src, dst))]
    {
      files := MoveFile(files, Move(src, dst));
      trace := trace + [Moved(Move(src, dst))];
    }

    /** `subprocess.run(['rm', '-R', d])`. */
    method RunRm(d: Path)
      modifies this
      ensures State() == Apply(old(State()), Removed(d))
      ensures trace == old(trace) + [Removed(d)]
    {
      var r := RemoveTree(State(), d);
      files, dirs := r.files, r.dirs;
      trace := trace + [Removed(d)];
    }
  }
}
