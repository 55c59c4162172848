/**
 * The normalisation of the three configured locations (screenshot directory,
 * remote directory, public base URL): every trailing '/' is trimmed and
 * exactly one is put back.
 */
module Paths {

  /** `strings.TrimRight(s, "/")`: the longest prefix of `s` that does not end in '/'. */
  function TrimSlashes(s: string): (r: string)
    ensures r <= s
    ensures forall i :: |r| <= i < |s| ==> s[i] == '/'
    ensures r == [] || r[|r| - 1] != '/'
  {
    if s != [] && s[|s| - 1] == '/' then TrimSlashes(s[..|s| - 1]) else s
  }

  /** `strings.TrimRight(s, "/") + "/"`. */
  function Norm(s: string): (r: string)
    ensures |r| > 0 && r[|r| - 1] == '/'
    ensures |r| == 1 || r[|r| - 2] != '/'
    ensures r[..|r| - 1] <= s
    ensures forall i :: |r| - 1 <= i < |s| ==> s[i] == '/'
  {
    TrimSlashes(s) + "/"
  }

  /** The three conditions of TrimSlashes's contract determine its result. */
  lemma {:induction false} TrimSlashesUnique(s: string, r: string)
    requires r <= s
    requires forall i :: |r| <= i < |s| ==> s[i] == '/'
    requires r == [] || r[|r| - 1] != '/'
    ensures TrimSlashes(s) == r
    decreases |s|
  {
    if |s| > |r| {
      assert s[|s| - 1] == '/';
      assert r <= s[..|s| - 1];
      TrimSlashesUnique(s[..|s| - 1], r);
    } else {
      assert s == r;
    }
  }

  /** Normalising twice is normalising once. */
  lemma NormIdempotent(s: string)
    ensures Norm(Norm(s)) == Norm(s)
  {
    var t := TrimSlashes(s);
    TrimSlashesUnique(t + "/", t);
  }

  /** A value that does not end in '/' only gets one appended. */
  lemma NormAppendsSlash(s: string)
    requires s == [] || s[|s| - 1] != '/'
    ensures Norm(s) == s + "/"
  {
    TrimSlashesUnique(s, s);
  }

  /** Values that differ only in their trailing slashes normalise alike. */
  lemma {:induction false} NormIgnoresTrailingSlashes(s: string, n: nat)
    ensures Norm(s + seq(n, _ => '/')) == Norm(s)
  {
    var t := TrimSlashes(s);
    var u := s + seq(n, _ => '/');
    assert t <= u;
    TrimSlashesUnique(u, t);
  }

  /** An empty flag becomes the root "/". */
  lemma NormEmpty()
    ensures Norm("") == "/"
  {
  }
}
