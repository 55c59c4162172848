/**
 * The watched directory and one reading of it: `ioutil.ReadDir` returns the
 * directory's entries sorted by file name (Go's byte-wise string order,
 * which on code points is the lexicographic order below).
 */
module Directory {

  datatype Kind = File | Folder

  /** One element of a listing: a name and whether it is a directory. */
  datatype Entry = Entry(name: string, kind: Kind)

  /** Go's `a < b` on strings. */
  predicate Below(a: string, b: string)
    decreases |a|
  {
    |b| > 0 && (|a| == 0 || a[0] < b[0] || (a[0] == b[0] && Below(a[1..], b[1..])))
  }

  lemma {:induction false} BelowIrreflexive(a: string)
    ensures !Below(a, a)
    decreases |a|
  {
    if |a| > 0 {
      BelowIrreflexive(a[1..]);
    }
  }

  lemma {:induction false} BelowTransitive(a: string, b: string, c: string)
    requires Below(a, b) && Below(b, c)
    ensures Below(a, c)
    decreases |a|
  {
    if |a| > 0 && a[0] == b[0] && b[0] == c[0] {
      BelowTransitive(a[1..], b[1..], c[1..]);
    }
  }

  lemma {:induction false} BelowTotal(a: string, b: string)
    requires a != b
    ensures Below(a, b) || Below(b, a)
    decreases |a|
  {
    if |a| > 0 && |b| > 0 && a[0] == b[0] {
      assert a == [a[0]] + a[1..] && b == [b[0]] + b[1..];
      BelowTotal(a[1..], b[1..]);
    }
  }

  lemma BelowAsymmetric(a: string, b: string)
    requires Below(a, b)
    ensures !Below(b, a)
  {
    if Below(b, a) {
      BelowTransitive(a, b, a);
      BelowIrreflexive(a);
    }
  }

  /** `m` is the first name of `s` in file-name order. */
  predicate IsLeast(m: string, s: set<string>) {
    m in s && forall y :: y in s && y != m ==> Below(m, y)
  }

  lemma {:induction false} LeastExists(s: set<string>)
    requires s != {}
    ensures exists m :: IsLeast(m, s)
    decreases |s|
  {
    var x :| x in s;
    if s != {x} {
      LeastExists(s - {x});
      var m :| IsLeast(m, s - {x});
      if Below(x, m) {
        forall y | y in s && y != x
          ensures Below(x, y)
        {
          if y != m {
            BelowTransitive(x, m, y);
          }
        }
        assert IsLeast(x, s);
      } else {
        BelowTotal(x, m);
        assert IsLeast(m, s);
      }
    } else {
      assert IsLeast(x, s);
    }
  }

  /** Strictly increasing in file-name order (so without repeats). */
  predicate StrictlySorted(r: seq<string>) {
    forall i, j :: 0 <= i < j < |r| ==> Below(r[i], r[j])
  }

  /** The names of `s` in file-name order. */
  ghost function SortedNames(s: set<string>): (r: seq<string>)
    ensures |r| == |s|
    ensures forall n :: n in r <==> n in s
    ensures StrictlySorted(r)
    decreases |s|
  {
    if s == {} then []
    else
      LeastExists(s);
      var m :| IsLeast(m, s);
      [m] + SortedNames(s - {m})
  }

  /** Two strictly sorted sequences with the same elements are equal. */
  lemma {:induction false} SortedEnumerationUnique(r1: seq<string>, r2: seq<string>)
    requires StrictlySorted(r1) && StrictlySorted(r2)
    requires forall n :: n in r1 <==> n in r2
    ensures r1 == r2
    decreases |r1|
  {
    assert r1 != [] ==> r1[0] in r2;
    assert r2 != [] ==> r2[0] in r1;
    if r1 != [] && r2 != [] {
      if r1[0] != r2[0] {
        SortedHeadBelow(r2, r1[0]);
        SortedHeadBelow(r1, r2[0]);
        BelowAsymmetric(r2[0], r1[0]);
      }
      forall n
        ensures n in r1[1..] <==> n in r2[1..]
      {
        BelowIrreflexive(n);
        if n in r1[1..] {
          var i :| 1 <= i < |r1| && r1[i] == n;
          assert n in r1 && n in r2;
          var k :| 0 <= k < |r2| && r2[k] == n;
          assert k != 0;
          assert r2[1..][k - 1] == n;
        }
        if n in r2[1..] {
          var i :| 1 <= i < |r2| && r2[i] == n;
          assert n in r2 && n in r1;
          var k :| 0 <= k < |r1| && r1[k] == n;
          assert k != 0;
          assert r1[1..][k - 1] == n;
        }
      }
      SortedEnumerationUnique(r1[1..], r2[1..]);
    }
  }

  lemma SortedHeadBelow(r: seq<string>, n: string)
    requires StrictlySorted(r) && n in r && n != r[0]
    ensures Below(r[0], n)
  {
    var i :| 0 <= i < |r| && r[i] == n;
  }

  /** No name occurs twice in `es`. */
  ghost predicate DistinctNames(es: seq<Entry>) {
    forall i, j :: 0 <= i < j < |es| ==> es[i].name != es[j].name
  }

  /** `es` lists exactly the entries of `dir`, each once. */
  ghost predicate Enumerates(es: seq<Entry>, dir: map<string, Kind>) {
    DistinctNames(es) &&
    (forall i :: 0 <= i < |es| ==> es[i].name in dir && dir[es[i].name] == es[i].kind) &&
    (forall n :: n in dir ==> exists i :: 0 <= i < |es| && es[i].name == n)
  }

  /** ioutil.ReadDir: the entries of the directory, sorted by name. */
  ghost function Listing(dir: map<string, Kind>): seq<Entry> {
    var ns := SortedNames(dir.Keys);
    seq(|ns|, i requires 0 <= i < |ns| => Entry(ns[i], dir[ns[i]]))
  }

  /** The listing holds every entry of the directory once, in file-name order. */
  lemma ListingEnumerates(dir: map<string, Kind>)
    ensures Enumerates(Listing(dir), dir)
    ensures forall i, j :: 0 <= i < j < |Listing(dir)| ==> Below(Listing(dir)[i].name, Listing(dir)[j].name)
  {
    ListingNames(dir);
    ListingDistinct(dir);
    ListingCovers(dir);
  }

  lemma ListingDistinct(dir: map<string, Kind>)
    ensures DistinctNames(Listing(dir))
  {
    var es := Listing(dir);
    ListingNames(dir);
    forall i, j | 0 <= i < j < |es|
      ensures es[i].name != es[j].name
    {
      BelowIrreflexive(es[i].name);
    }
  }

  lemma ListingCovers(dir: map<string, Kind>)
    ensures forall n :: n in dir ==> exists i :: 0 <= i < |Listing(dir)| && Listing(dir)[i].name == n
  {
    var ns, es := SortedNames(dir.Keys), Listing(dir);
    ListingNames(dir);
    forall n | n in dir
      ensures exists i :: 0 <= i < |es| && es[i].name == n
    {
      var i :| 0 <= i < |ns| && ns[i] == n;
      assert es[i].name == n;
    }
  }

  lemma ListingNames(dir: map<string, Kind>)
    ensures |Listing(dir)| == |SortedNames(dir.Keys)|
    ensures forall i :: 0 <= i < |Listing(dir)| ==>
      Listing(dir)[i].name == SortedNames(dir.Keys)[i] && Listing(dir)[i].name in dir &&
      Listing(dir)[i].kind == dir[Listing(dir)[i].name]
  {
  }

  /** Reads the directory: repeatedly takes the first remaining name. */
  method ReadDir(dir: map<string, Kind>) returns (fi: seq<Entry>)
    ensures fi == Listing(dir)
  {
    var names: seq<string> := [];
    var rem := dir.Keys;
    while rem != {}
      invariant rem <= dir.Keys
      invariant forall n :: n in names <==> n in dir && n !in rem
      invariant StrictlySorted(names)
      invariant forall i, y :: 0 <= i < |names| && y in rem ==> Below(names[i], y)
      decreases |rem|
    {
      LeastExists(rem);
      var m :| IsLeast(m, rem);
      names := names + [m];
      rem := rem - {m};
    }
    SortedEnumerationUnique(names, SortedNames(dir.Keys));
    fi := seq(|names|, i requires 0 <= i < |names| => Entry(names[i], dir[names[i]]));
  }
}
