/** The lines of `#restore.sh` as the flattener writes them, and an abstract
    reader for those lines that takes each quoted word literally: `"$p/x"`
    is the word `x` after the script's own folder. */
module RestoreScript {
  import opened Sequences
  import opened Paths

  datatype Option<T> = None | Some(value: T)

  /** The command one line of the restore script names. */
  datatype Command =
    | Shebang                       // `#!/bin/bash`: a comment to the shell
    | SetDir                        // `p=$(cd ...; pwd)`: binds `$p`
    | Mkdir(dir: Path)              // `mkdir "$p/dir"`
    | Mv(src: Path, dst: Path)      // `mv "$p/src" "$p/dst"`

  const ShebangLine: string := "#!/bin/bash"
  const SetDirLine: string := "p=$(cd `dirname $0`; pwd)"

  /** `' '.join(['mkdir', add_quote(os.path.join('$p', rel))])` */
  function MkdirLine(rel: Path): string
  {
    "mkdir " + AddQuote(Join("$p", rel))
  }

  /** `' '.join(['mv', add_quote(os.path.join('$p', flat)),
      add_quote(os.path.join('$p', rel))])`: moves a flat file back. */
  function MvLine(flat: Path, rel: Path): string
  {
    "mv " + AddQuote(Join("$p", flat)) + " " + AddQuote(Join("$p", rel))
  }

  /** What a `mkdir` line starts with, what an `mv` line starts with, and
      what stands between the two quoted words of an `mv` line. */
  const MkdirHead: string := "mkdir " + "\"" + "$p/"
  const MvHead: string := "mv " + "\"" + "$p/"
  const MvMiddle: string := " " + "\"" + "$p/"

  predicate StartsWith(s: string, prefix: string)
  {
    |prefix| <= |s| && s[..|prefix|] == prefix
  }

  /** Splits `s` at its first double quote. */
  function SplitQuote(s: string): (r: Option<(string, string)>)
    ensures r.Some? <==> '"' in s
    ensures r.Some? ==> s == r.value.0 + "\"" + r.value.1 && '"' !in r.value.0
  {
    if s == "" then None
    else if s[0] == '"' then
      assert s == "" + "\"" + s[1..];
      Some(("", s[1..]))
    else
      assert s == [s[0]] + s[1..];
      match SplitQuote(s[1..])
      case None => None
      case Some((a, b)) =>
        assert s == ([s[0]] + a) + "\"" + b;
        Some(([s[0]] + a, b))
  }

  /** Reads one line of a restore script; `None` for a line the flattener
      never writes. */
  function Parse(line: string): Option<Command>
  {
    if line == ShebangLine then Some(Shebang)
    else if line == SetDirLine then Some(SetDir)
    else if StartsWith(line, MkdirHead) then ParseMkdir(line[|MkdirHead|..])
    else if StartsWith(line, MvHead) then ParseMv(line[|MvHead|..])
    else None
  }

  /** The rest of a `mkdir` line: `dir"`. */
  function ParseMkdir(rest: string): Option<Command>
  {
    match SplitQuote(rest)
    case Some((dir, tail)) => if tail == "" then Some(Mkdir(dir)) else None
    case None => None
  }

  /** The rest of an `mv` line: `src" "$p/dst"`. */
  function ParseMv(rest: string): Option<Command>
  {
    match SplitQuote(rest)
    case Some((src, more)) =>
      if StartsWith(more, MvMiddle) then
        match SplitQuote(more[|MvMiddle|..])
        case Some((dst, tail)) => if tail == "" then Some(Mv(src, dst)) else None
        case None => None
      else None
    case None => None
  }




  /** A string that differs from `prefix` at some position does not start
      with it. */
  lemma DiffersAt(s: string, prefix: string, i: nat)
    requires i < |s| && i < |prefix| && s[i] != prefix[i]
    ensures !StartsWith(s, prefix)
  {
    if |prefix| <= |s| {
      assert s[..|prefix|][i] == s[i];
    }
  }

  /** The split at the first quote of `a + '"' + b` is `a` and `b` when `a`
      has no quote. */
  lemma SplitQuoteAt(a: string, b: string)
    requires '"' !in a
    ensures SplitQuote(a + "\"" + b) == Some((a, b))
  {
    var s := a + "\"" + b;
    assert s[|a|] == '"';
    var r := SplitQuote(s);
    var a', b' := r.value.0, r.value.1;
    assert forall i :: 0 <= i < |a| ==> s[i] == a[i];
    assert forall i :: 0 <= i < |a'| ==> s[i] == a'[i];
    assert s[|a'|] == '"';
    assert |a'| == |a|;
    assert a' == s[..|a|] == a;
    assert b' == s[|a| + 1..] == b;
  }

  /** The split at the first quote of `a + '"'` is `a` and nothing. */
  lemma SplitQuoteLast(a: string)
    requires '"' !in a
    ensures SplitQuote(a + "\"") == Some((a, ""))
  {
    SplitQuoteAt(a, "");
    assert a + "\"" + "" == a + "\"";
  }

  /** `os.path.join('$p', x)` for a name that does not start with a slash. */
  lemma JoinDollar(x: Path)
    requires x == "" || x[0] != '/'
    ensures Join("$p", x) == "$p/" + x
  {
  }

  /** A `mkdir` line reads back as the `mkdir` of the same folder. */
  lemma ParseMkdirLine(rel: Path)
    requires '"' !in rel && (rel == "" || rel[0] != '/')
    ensures Parse(MkdirLine(rel)) == Some(Mkdir(rel))
  {
    JoinDollar(rel);
    RegroupMkdir("mkdir ", "\"", "$p/", rel);
    var line := MkdirLine(rel);
    assert line == MkdirHead + (rel + "\"");
    assert line[0] == 'm';
    assert line != ShebangLine && line != SetDirLine;
    Halves(MkdirHead, rel + "\"");
    SplitQuoteLast(rel);
  }

  /** A restore line is the `mv` head, the flat name, a quote, the middle,
      the relative path and a quote. */
  lemma MvLineShape(flat: Path, rel: Path)
    requires (flat == "" || flat[0] != '/') && (rel == "" || rel[0] != '/')
    ensures MvLine(flat, rel) == MvHead + (flat + "\"" + (MvMiddle + (rel + "\"")))
  {
    JoinDollar(flat);
    JoinDollar(rel);
    RegroupMv("mv ", "\"", "$p/", " ", flat, rel);
  }

  /** A line that starts with the `mv` head is read as an `mv` line. */
  lemma ParseMvHead(after: string)
    ensures Parse(MvHead + after) == ParseMv(after)
  {
    var line := MvHead + after;
    assert line[0] == 'm' && line[1] == 'v';
    assert line != ShebangLine && line != SetDirLine;
    assert MkdirHead[1] == 'k';
    DiffersAt(line, MkdirHead, 1);
    Halves(MvHead, after);
  }

  /** The tail of a restore line reads back as its two names. */
  lemma ParseMvTail(flat: Path, rel: Path)
    requires '"' !in flat && '"' !in rel
    ensures ParseMv(flat + "\"" + (MvMiddle + (rel + "\""))) == Some(Mv(flat, rel))
  {
    var rest := MvMiddle + (rel + "\"");
    SplitQuoteAt(flat, rest);
    Halves(MvMiddle, rel + "\"");
    SplitQuoteLast(rel);
  }

  /** A restore line reads back as the `mv` from the flat name to the
      relative path it was built from. */
  lemma ParseMvLine(flat: Path, rel: Path)
    requires '"' !in flat && (flat == "" || flat[0] != '/')
    requires '"' !in rel && (rel == "" || rel[0] != '/')
    ensures Parse(MvLine(flat, rel)) == Some(Mv(flat, rel))
  {
    MvLineShape(flat, rel);
    ParseMvHead(flat + "\"" + (MvMiddle + (rel + "\"")));
    ParseMvTail(flat, rel);
  }

  /** The two header lines read back as themselves. */
  lemma ParseHeader()
    ensures Parse(ShebangLine) == Some(Shebang)
    ensures Parse(SetDirLine) == Some(SetDir)
  {
    assert SetDirLine[0] != ShebangLine[0];
  }
}
