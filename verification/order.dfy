/** The order in which the flattener visits paths: Python's string order,
    `list.sort()` and `list.reverse()`, and why that order puts every folder
    before the folders and files below it. */
module PathOrder {
  import opened Paths

  /** Python's `a <= b` on `str`: lexicographic by code point, a proper
      prefix first. */
  predicate Below(a: string, b: string)
  {
    a == [] || (b != [] && (a[0] < b[0] || (a[0] == b[0] && Below(a[1..], b[1..]))))
  }

  lemma {:induction false} BelowTotal(a: string, b: string)
    ensures Below(a, b) || Below(b, a)
  {
    if a != [] && b != [] && a[0] == b[0] {
      BelowTotal(a[1..], b[1..]);
    }
  }

  lemma {:induction false} BelowTransitive(a: string, b: string, c: string)
    requires Below(a, b) && Below(b, c)
    ensures Below(a, c)
  {
    if a != [] && a[0] == b[0] && b[0] == c[0] {
      BelowTransitive(a[1..], b[1..], c[1..]);
    }
  }

  lemma {:induction false} BelowAntisymmetric(a: string, b: string)
    requires Below(a, b) && Below(b, a)
    ensures a == b
  {
    if a != [] {
      BelowAntisymmetric(a[1..], b[1..]);
      assert a == [a[0]] + a[1..];
      assert b == [b[0]] + b[1..];
    }
  }

  /** A string sorts no later than every string it is a prefix of. */
  lemma {:induction false} PrefixBelow(a: string, b: string)
    requires |a| <= |b| && b[..|a|] == a
    ensures Below(a, b)
  {
    if a != [] {
      assert b[1..][..|a| - 1] == a[1..];
      PrefixBelow(a[1..], b[1..]);
    }
  }

  /** Sorted in Python's string order. */
  ghost predicate Sorted(s: seq<string>)
  {
    forall i, j :: 0 <= i < j < |s| ==> Below(s[i], s[j])
  }

  /** The front of a sorted sequence is sorted, and its last element sorts
      after everything before it. */
  lemma SortedFront(front: seq<string>, x: string)
    requires Sorted(front + [x])
    ensures Sorted(front)
    ensures forall y :: y in front ==> Below(y, x)
  {
    var s := front + [x];
    forall i, j | 0 <= i < j < |front| ensures Below(front[i], front[j]) {
      assert front[i] == s[i] && front[j] == s[j];
    }
    forall y | y in front ensures Below(y, x) {
      var i :| 0 <= i < |front| && front[i] == y;
      assert s[i] == y && s[|front|] == x;
    }
  }

  /** Places `x` into a sorted sequence. */
  function Insert(x: string, s: seq<string>): (r: seq<string>)
    requires Sorted(s)
    ensures Sorted(r)
    ensures multiset(r) == multiset(s) + multiset{x}
  {
    if s == [] then [x]
    else if Below(x, s[0]) then
      assert forall j :: 0 <= j < |s| ==> Below(x, s[j]) by {
        forall j | 0 <= j < |s| ensures Below(x, s[j]) {
          if j > 0 { BelowTransitive(x, s[0], s[j]); }
        }
      }
      [x] + s
    else
      BelowTotal(x, s[0]);
      var rest := Insert(x, s[1..]);
      assert s == [s[0]] + s[1..];
      LeadsAll(s[0], s[1..], x, rest);
      [s[0]] + rest
  }

  /** A head that sorts below `x` and below a sorted tail also sorts below
      their merge, so putting it in front keeps the result sorted. */
  lemma LeadsAll(h: string, tail: seq<string>, x: string, rest: seq<string>)
    requires Sorted([h] + tail) && Below(h, x) && Sorted(rest)
    requires multiset(rest) == multiset(tail) + multiset{x}
    ensures Sorted([h] + rest)
  {
    forall k | 0 <= k < |rest| ensures Below(h, rest[k]) {
      assert rest[k] in multiset(rest);
      if rest[k] != x {
        assert rest[k] in multiset(tail);
        var m :| 0 <= m < |tail| && tail[m] == rest[k];
        assert ([h] + tail)[0] == h && ([h] + tail)[m + 1] == tail[m];
        assert Below(([h] + tail)[0], ([h] + tail)[m + 1]);
      }
    }
    var r := [h] + rest;
    forall i, j | 0 <= i < j < |r| ensures Below(r[i], r[j]) {
      if i == 0 {
        assert r[j] == rest[j - 1];
      } else {
        assert r[i] == rest[i - 1] && r[j] == rest[j - 1];
      }
    }
  }

  /** `list.sort()` on a list of paths: the same paths, in string order. */
  function Sort(s: seq<string>): (r: seq<string>)
    ensures Sorted(r)
    ensures multiset(r) == multiset(s)
  {
    if s == [] then []
    else
      assert s == [s[0]] + s[1..];
      Insert(s[0], Sort(s[1..]))
  }

  /** `list.reverse()`. */
  function Reverse(s: seq<string>): (r: seq<string>)
    ensures |r| == |s|
    ensures forall i :: 0 <= i < |s| ==> r[i] == s[|s| - 1 - i]
  {
    seq(|s|, i requires 0 <= i < |s| => s[|s| - 1 - i])
  }

  /** Reversing keeps the same elements. */
  lemma ReverseMembers(s: seq<string>)
    ensures forall x :: x in Reverse(s) <==> x in s
  {
    var r := Reverse(s);
    forall x | x in s ensures x in r {
      var j :| 0 <= j < |s| && s[j] == x;
      assert r[|s| - 1 - j] == x;
    }
  }

  /** In a sorted listing a folder comes before everything below it: the
      folder is a proper prefix of those paths. */
  lemma SortedInsideFirst(s: seq<string>, i: int, j: int)
    requires Sorted(s) && 0 <= i < |s| && 0 <= j < |s|
    requires Inside(s[i], s[j])
    ensures i < j
  {
    PrefixBelow(s[i], s[j]);
    if j < i {
      BelowAntisymmetric(s[i], s[j]);
    }
  }
}
