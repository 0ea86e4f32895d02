/**
 * Directory listings as the producers walk them: `read_dir` filtered by a pattern, then
 * `.sorted()`. Paths of one directory compare by their file names, byte by byte; for
 * Unicode characters that is the order of their code points, which is Dafny's `char` order.
 */
module Listing {
  import opened Keys

  /** Lexicographic order on names: a prefix first, otherwise the first differing character decides. */
  predicate LexLe(a: string, b: string)
    decreases |a|
  {
    a == [] || (b != [] && (a[0] < b[0] || (a[0] == b[0] && LexLe(a[1..], b[1..]))))
  }

  lemma {:induction false} LexLeTotal(a: string, b: string)
    ensures LexLe(a, b) || LexLe(b, a)
    decreases |a|
  {
    if a != [] && b != [] && a[0] == b[0] {
      LexLeTotal(a[1..], b[1..]);
    }
  }

  lemma {:induction false} LexLeReflexive(a: string)
    ensures LexLe(a, a)
    decreases |a|
  {
    if a != [] {
      LexLeReflexive(a[1..]);
    }
  }

  lemma {:induction false} LexLeAntisymmetric(a: string, b: string)
    requires LexLe(a, b) && LexLe(b, a)
    ensures a == b
    decreases |a|
  {
    if a != [] {
      LexLeAntisymmetric(a[1..], b[1..]);
      assert a == [a[0]] + a[1..] && b == [b[0]] + b[1..];
    }
  }

  lemma {:induction false} LexLeTransitive(a: string, b: string, c: string)
    requires LexLe(a, b) && LexLe(b, c)
    ensures LexLe(a, c)
    decreases |a|
  {
    if a != [] && a[0] == b[0] && b[0] == c[0] {
      LexLeTransitive(a[1..], b[1..], c[1..]);
    }
  }

  predicate Sorted(xs: seq<string>)
  {
    forall i, j :: 0 <= i < j < |xs| ==> LexLe(xs[i], xs[j])
  }

  /** x placed before the first element it does not exceed. */
  function Insert(x: string, xs: seq<string>): (r: seq<string>)
    requires Sorted(xs)
    ensures Sorted(r) && multiset(r) == multiset(xs) + multiset{x}
  {
    if xs == [] then [x]
    else if LexLe(x, xs[0]) then
      forall j | 0 < j < |xs| ensures LexLe(x, xs[j]) {
        LexLeTransitive(x, xs[0], xs[j]);
      }
      [x] + xs
    else
      var rest := Insert(x, xs[1..]);
      LexLeTotal(x, xs[0]);
      forall j | 0 <= j < |rest| ensures LexLe(xs[0], rest[j]) {
        assert rest[j] in multiset(rest);
        if rest[j] != x {
          assert rest[j] in xs[1..];
        }
      }
      assert xs == [xs[0]] + xs[1..];
      [xs[0]] + rest
  }

  /** `Itertools::sorted`: the names in ascending order, nothing added or lost. */
  function Sort(xs: seq<string>): (r: seq<string>)
    ensures Sorted(r) && multiset(r) == multiset(xs)
  {
    if xs == [] then []
    else
      assert xs == xs[..|xs| - 1] + [xs[|xs| - 1]];
      Insert(xs[|xs| - 1], Sort(xs[..|xs| - 1]))
  }

  /** Two sorted orderings of the same names start with the same name. */
  lemma SortedHeadsAgree(a: seq<string>, b: seq<string>)
    requires Sorted(a) && Sorted(b) && multiset(a) == multiset(b) && a != []
    ensures b != [] && a[0] == b[0]
  {
    assert a[0] in multiset(b);
    var i :| 0 <= i < |b| && b[i] == a[0];
    assert b[0] in multiset(a);
    var j :| 0 <= j < |a| && a[j] == b[0];
    assert LexLe(b[0], a[0]) by {
      if 0 < i {
        assert LexLe(b[0], b[i]);
      } else {
        LexLeReflexive(b[0]);
      }
    }
    assert LexLe(a[0], b[0]) by {
      if 0 < j {
        assert LexLe(a[0], a[j]);
      } else {
        LexLeReflexive(a[0]);
      }
    }
    LexLeAntisymmetric(a[0], b[0]);
  }

  /** Two sorted orderings of the same names are the same sequence: `.sorted()` is determined. */
  lemma {:induction false} SortedUnique(a: seq<string>, b: seq<string>)
    requires Sorted(a) && Sorted(b) && multiset(a) == multiset(b)
    ensures a == b
    decreases |a|
  {
    if a == [] {
      assert |b| == |multiset(b)| == 0;
    } else {
      SortedHeadsAgree(a, b);
      assert a == [a[0]] + a[1..] && b == [b[0]] + b[1..];
      assert multiset(a[1..]) == multiset(a) - multiset([a[0]]);
      assert multiset(b[1..]) == multiset(b) - multiset([b[0]]);
      SortedUnique(a[1..], b[1..]);
    }
  }

  /** The names of `dir` whose full path `keep` accepts, in listing order. */
  function Filter(dir: string, names: seq<string>, keep: string -> bool): (r: seq<string>)
    ensures forall x :: x in r <==> x in names && keep(Path(dir, x).FullPath())
    ensures |r| <= |names|
  {
    if names == [] then []
    else
      var init := Filter(dir, names[..|names| - 1], keep);
      var last := names[|names| - 1];
      assert names == names[..|names| - 1] + [last];
      if keep(Path(dir, last).FullPath()) then init + [last] else init
  }

  /** One pass of a producer: the accepted names of the listing, sorted. */
  function SortedPass(dir: string, names: seq<string>, keep: string -> bool): (r: seq<string>)
    ensures Sorted(r) && multiset(r) == multiset(Filter(dir, names, keep))
    ensures forall x :: x in r <==> x in names && keep(Path(dir, x).FullPath())
  {
    var r := Sort(Filter(dir, names, keep));
    assert forall x :: x in r <==> x in multiset(r);
    r
  }
}
