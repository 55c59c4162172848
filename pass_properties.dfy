/**
 * What one call of `upload()` does to each file of the watched directory:
 * every entry is handled by one contiguous run of effects that nothing else
 * in the pass interferes with, entries are handled in file-name order, and
 * a file leaves the directory exactly when its iteration consumed it.
 */
module PassProperties {

  import opened Extensions
  import opened Directory
  import opened Pipeline

  /** Local paths are the screens directory followed by the entry's name. */
  lemma SamePrefixSameName(c: string, m: string, n: string)
    ensures c + m == c + n <==> m == n
  {
    if c + m == c + n {
      assert m == (c + m)[|c|..];
      assert n == (c + n)[|c|..];
    }
  }

  /** `seg` occurs in `fx` as one block, and no other effect of `fx` touches `path`. */
  ghost predicate Segment(fx: seq<Effect>, path: string, seg: seq<Effect>) {
    exists k :: 0 <= k <= |fx| - |seg| && fx[k..k + |seg|] == seg &&
      Untouched(fx[..k], path) && Untouched(fx[k + |seg|..], path)
  }

  /** Every effect on `p` in `fx` comes before every effect on `q`. */
  ghost predicate Before(fx: seq<Effect>, p: string, q: string) {
    exists k :: 0 <= k <= |fx| && Untouched(fx[..k], q) && Untouched(fx[k..], p)
  }

  /** Some entry named `n` of `es` is consumed. */
  ghost predicate ConsumedIn(es: seq<Entry>, n: string, o: PassInput)
    decreases |es|
  {
    es != [] && (ConsumedIn(es[..|es| - 1], n, o) || (es[|es| - 1].name == n && Consumed(es[|es| - 1], o)))
  }

  /** Some `.mov` file of `dir` is transcoded successfully. */
  ghost predicate Transcodes(dir: map<string, Kind>, o: PassInput) {
    exists n :: n in dir && Decide(Entry(n, dir[n])) == Convert && o.transcodeOk(n)
  }

  /** Some `.mov` entry of `es` is transcoded successfully. */
  ghost predicate TranscodedIn(es: seq<Entry>, o: PassInput)
    decreases |es|
  {
    es != [] && (TranscodedIn(es[..|es| - 1], o) || (Decide(es[|es| - 1]) == Convert && o.transcodeOk(es[|es| - 1].name)))
  }

  /** Among entries with distinct names, the one named `n` alone decides whether `n` is consumed. */
  lemma {:induction false} ConsumedInAt(es: seq<Entry>, o: PassInput, i: int)
    requires DistinctNames(es) && 0 <= i < |es|
    ensures ConsumedIn(es, es[i].name, o) <==> Consumed(es[i], o)
    decreases |es|
  {
    var es' := es[..|es| - 1];
    if i < |es'| {
      assert es'[i] == es[i];
      assert DistinctNames(es') by {
        assert forall a :: 0 <= a < |es'| ==> es'[a] == es[a];
      }
      ConsumedInAt(es', o, i);
    } else {
      assert forall a :: 0 <= a < |es'| ==> es'[a] == es[a];
      ConsumedInAbsent(es', es[i].name, o);
    }
  }

  /** No entry named `n`, nothing named `n` consumed. */
  lemma {:induction false} ConsumedInAbsent(es: seq<Entry>, n: string, o: PassInput)
    requires forall a :: 0 <= a < |es| ==> es[a].name != n
    ensures !ConsumedIn(es, n, o)
    decreases |es|
  {
    if es != [] {
      ConsumedInAbsent(es[..|es| - 1], n, o);
    }
  }

  /** A successfully transcoded entry makes `TranscodedIn` hold ... */
  lemma {:induction false} TranscodedInAt(es: seq<Entry>, o: PassInput, i: int)
    requires 0 <= i < |es| && Decide(es[i]) == Convert && o.transcodeOk(es[i].name)
    ensures TranscodedIn(es, o)
    decreases |es|
  {
    var es', last := es[..|es| - 1], es[|es| - 1];
    if i < |es'| {
      assert es'[i] == es[i];
      TranscodedInAt(es', o, i);
      assert TranscodedIn(es', o);
    } else {
      assert last == es[i];
    }
  }

  /** ... and it holds only because of one. */
  lemma {:induction false} TranscodedInWitness(es: seq<Entry>, o: PassInput) returns (i: int)
    requires TranscodedIn(es, o)
    ensures 0 <= i < |es| && Decide(es[i]) == Convert && o.transcodeOk(es[i].name)
    decreases |es|
  {
    var es' := es[..|es| - 1];
    if TranscodedIn(es', o) {
      i := TranscodedInWitness(es', o);
      assert es'[i] == es[i];
    } else {
      i := |es| - 1;
    }
  }

  /** The three parts of a concatenation. */
  lemma Parts<T>(a: seq<T>, b: seq<T>, d: seq<T>)
    ensures (a + b + d)[..|a|] == a && (a + b + d)[|a|..|a| + |b|] == b && (a + b + d)[|a| + |b|..] == d
  {
  }

  lemma {:induction false} PassEffectsAppend(c: Config, a: seq<Entry>, b: seq<Entry>, o: PassInput)
    ensures PassEffects(c, a + b, o) == PassEffects(c, a, o) + PassEffects(c, b, o)
    decreases |b|
  {
    if b == [] {
      assert a + b == a;
    } else {
      var b' := b[..|b| - 1];
      assert (a + b)[..|a + b| - 1] == a + b';
      assert (a + b)[|a + b| - 1] == b[|b| - 1];
      PassEffectsAppend(c, a, b', o);
      AppendAssoc(PassEffects(c, a, o), PassEffects(c, b', o), EntryEffects(c, b[|b| - 1], o));
    }
  }

  lemma {:induction false} PassDirAppend(dir: map<string, Kind>, a: seq<Entry>, b: seq<Entry>, o: PassInput)
    ensures PassDir(dir, a + b, o) == PassDir(PassDir(dir, a, o), b, o)
    decreases |b|
  {
    if b == [] {
      assert a + b == a;
    } else {
      var b' := b[..|b| - 1];
      assert (a + b)[..|a + b| - 1] == a + b';
      assert (a + b)[|a + b| - 1] == b[|b| - 1];
      PassDirAppend(dir, a, b', o);
    }
  }

  lemma PassEffectsSingle(c: Config, e: Entry, o: PassInput)
    ensures PassEffects(c, [e], o) == EntryEffects(c, e, o)
  {
    assert [e][..0] == [];
  }

  /** A pass over entries none of which is named `n` never touches the file `n`. */
  lemma {:induction false} PassUntouched(c: Config, es: seq<Entry>, o: PassInput, n: string)
    requires forall i :: 0 <= i < |es| ==> es[i].name != n
    ensures Untouched(PassEffects(c, es, o), c.screensPath + n)
    decreases |es|
  {
    if es != [] {
      var last := es[|es| - 1];
      PassUntouched(c, es[..|es| - 1], o, n);
      EntryFootprint(c, last, o);
      SamePrefixSameName(c.screensPath, last.name, n);
    }
  }

  /** Entries before position `j` are not named like the entry at `j`. */
  lemma DistinctBefore(es: seq<Entry>, j: int)
    requires DistinctNames(es) && 0 <= j < |es|
    ensures forall k :: 0 <= k < |es[..j]| ==> es[..j][k].name != es[j].name
  {
  }

  /** Entries from position `j` on are not named like the entry at `i < j`. */
  lemma DistinctAfter(es: seq<Entry>, i: int, j: int)
    requires DistinctNames(es) && 0 <= i < j <= |es|
    ensures forall k :: 0 <= k < |es[j..]| ==> es[j..][k].name != es[i].name
  {
    forall k | 0 <= k < |es[j..]|
      ensures es[j..][k].name != es[i].name
    {
      assert es[j..][k] == es[j + k];
    }
  }

  /** In a pass over entries with distinct names, entry `i` is handled by one undisturbed block. */
  lemma EntrySegment(c: Config, es: seq<Entry>, o: PassInput, i: int)
    requires DistinctNames(es) && 0 <= i < |es|
    ensures Segment(PassEffects(c, es, o), c.screensPath + es[i].name, EntryEffects(c, es[i], o))
  {
    var n, pre, post := es[i].name, es[..i], es[i + 1..];
    assert es == pre + [es[i]] + post;
    PassEffectsAppend(c, pre + [es[i]], post, o);
    PassEffectsAppend(c, pre, [es[i]], o);
    PassEffectsSingle(c, es[i], o);
    DistinctBefore(es, i);
    PassUntouched(c, pre, o, n);
    DistinctAfter(es, i, i + 1);
    PassUntouched(c, post, o, n);
    var fx, seg := PassEffects(c, es, o), EntryEffects(c, es[i], o);
    Parts(PassEffects(c, pre, o), seg, PassEffects(c, post, o));
    assert Untouched(fx[..|PassEffects(c, pre, o)|], c.screensPath + n);
  }

  /** In a pass over entries with distinct names, earlier entries are handled first. */
  lemma EntryOrder(c: Config, es: seq<Entry>, o: PassInput, i: int, j: int)
    requires DistinctNames(es) && 0 <= i < j < |es|
    ensures Before(PassEffects(c, es, o), c.screensPath + es[i].name, c.screensPath + es[j].name)
  {
    var pre, post := es[..j], es[j..];
    assert es == pre + post;
    PassEffectsAppend(c, pre, post, o);
    DistinctBefore(es, j);
    PassUntouched(c, pre, o, es[j].name);
    DistinctAfter(es, i, j);
    PassUntouched(c, post, o, es[i].name);
    Parts(PassEffects(c, pre, o), PassEffects(c, post, o), []);
    assert Untouched(PassEffects(c, es, o)[..|PassEffects(c, pre, o)|], c.screensPath + es[j].name);
  }

  /**
   * Apart from ffmpeg's output, a name survives the pass exactly when no
   * iteration consumed it; so does ffmpeg's output when nothing is transcoded.
   */
  lemma {:induction false} PassDirKeys(dir: map<string, Kind>, es: seq<Entry>, o: PassInput, n: string)
    requires n != TranscodeTarget || !TranscodedIn(es, o)
    ensures n in PassDir(dir, es, o) <==> n in dir && !ConsumedIn(es, n, o)
    ensures n in PassDir(dir, es, o) ==> PassDir(dir, es, o)[n] == dir[n]
    decreases |es|
  {
    if es == [] {
    } else {
      var es', last := es[..|es| - 1], es[|es| - 1];
      PassDirKeys(dir, es', o, n);
    }
  }

  /** When the directory has no `out.mp4`, the pass leaves one exactly when some `.mov` was transcoded. */
  lemma {:induction false} PassDirTarget(dir: map<string, Kind>, es: seq<Entry>, o: PassInput)
    requires TranscodeTarget !in dir
    requires forall i :: 0 <= i < |es| ==> es[i].name != TranscodeTarget
    ensures TranscodeTarget in PassDir(dir, es, o) <==> TranscodedIn(es, o)
    ensures TranscodeTarget in PassDir(dir, es, o) ==> PassDir(dir, es, o)[TranscodeTarget] == File
    decreases |es|
  {
    if es == [] {
    } else {
      var es', last := es[..|es| - 1], es[|es| - 1];
      PassDirTarget(dir, es', o);
    }
  }

  /**
   * A name that no iteration consumes is still there after the loop, and a
   * file stays a file: ffmpeg's output, the only thing the loop writes, is one.
   */
  lemma {:induction false} PassDirKeeps(dir: map<string, Kind>, es: seq<Entry>, o: PassInput, n: string)
    requires n in dir && !ConsumedIn(es, n, o)
    ensures n in PassDir(dir, es, o)
    ensures dir[n] == File ==> PassDir(dir, es, o)[n] == File
    decreases |es|
  {
    if es != [] {
      var es', last := es[..|es| - 1], es[|es| - 1];
      PassDirKeeps(dir, es', o, n);
      assert last.name == n ==> !Consumed(last, o);
    }
  }

  /** Where the entry for `n` sits in the listing. */
  lemma ListingPosition(dir: map<string, Kind>, n: string) returns (i: int)
    requires n in dir
    ensures 0 <= i < |Listing(dir)| && Listing(dir)[i] == Entry(n, dir[n])
  {
    ListingEnumerates(dir);
    i :| 0 <= i < |Listing(dir)| && Listing(dir)[i].name == n;
  }

  /**
   * Entry `n` sits at position `i` of the listing, and the pass's effects are
   * those of the entries listed before it, then `block`, then those of the
   * entries listed after it.
   */
  ghost predicate HandledAt(c: Config, dir: map<string, Kind>, o: PassInput, n: string, i: int, block: seq<Effect>) {
    n in dir && 0 <= i < |Listing(dir)| && Listing(dir)[i] == Entry(n, dir[n]) &&
    Pass(c, dir, o).effects == PassEffects(c, Listing(dir)[..i], o) + block + PassEffects(c, Listing(dir)[i + 1..], o)
  }

  /** `upload()` is the iterations before `n`'s, `n`'s own, and those after it, all of other names. */
  lemma PassSplitsAt(c: Config, dir: map<string, Kind>, o: PassInput, n: string) returns (i: int)
    requires o.readOk && n in dir
    ensures HandledAt(c, dir, o, n, i, EntryEffects(c, Entry(n, dir[n]), o))
    ensures forall j :: 0 <= j < |Listing(dir)| && j != i ==> Listing(dir)[j].name != n
  {
    i := ListingPosition(dir, n);
    ListingEnumerates(dir);
    PassEffectsAround(c, Listing(dir), o, i);
  }

  /** The effects of a pass split around its `i`-th entry. */
  lemma PassEffectsAround(c: Config, es: seq<Entry>, o: PassInput, i: int)
    requires 0 <= i < |es|
    ensures PassEffects(c, es, o) == PassEffects(c, es[..i], o) + EntryEffects(c, es[i], o) + PassEffects(c, es[i + 1..], o)
  {
    var pre, post := es[..i], es[i + 1..];
    assert es == pre + [es[i]] + post;
    PassEffectsAppend(c, pre + [es[i]], post, o);
    PassEffectsAppend(c, pre, [es[i]], o);
    PassEffectsSingle(c, es[i], o);
  }

  /** `upload()` handles each file of the directory by one undisturbed block of effects. */
  lemma PassHandlesEach(c: Config, dir: map<string, Kind>, o: PassInput, n: string)
    requires o.readOk && n in dir
    ensures Segment(Pass(c, dir, o).effects, c.screensPath + n, EntryEffects(c, Entry(n, dir[n]), o))
  {
    var i := ListingPosition(dir, n);
    ListingEnumerates(dir);
    EntrySegment(c, Listing(dir), o, i);
  }

  /** `upload()` never touches a file that was not in the listing. */
  lemma PassIgnoresAbsent(c: Config, dir: map<string, Kind>, o: PassInput, n: string)
    requires n !in dir
    ensures Untouched(Pass(c, dir, o).effects, c.screensPath + n)
  {
    if o.readOk {
      ListingEnumerates(dir);
      PassUntouched(c, Listing(dir), o, n);
    }
  }

  /** `upload()` handles files in the order ioutil.ReadDir lists them: by name. */
  lemma PassInNameOrder(c: Config, dir: map<string, Kind>, o: PassInput, m: string, n: string)
    requires o.readOk && m in dir && n in dir && Below(m, n)
    ensures Before(Pass(c, dir, o).effects, c.screensPath + m, c.screensPath + n)
  {
    var i := ListingPosition(dir, m);
    var j := ListingPosition(dir, n);
    var es := Listing(dir);
    ListingEnumerates(dir);
    if j < i {
      BelowAsymmetric(es[j].name, es[i].name);
    } else if j == i {
      BelowIrreflexive(m);
    }
    EntryOrder(c, es, o, i, j);
  }

  /**
   * Apart from ffmpeg's output, a name is left after `upload()` exactly when
   * its file was not consumed; so is ffmpeg's output when nothing is transcoded.
   */
  lemma PassKeepsUnconsumed(c: Config, dir: map<string, Kind>, o: PassInput, n: string)
    requires o.readOk && (n != TranscodeTarget || !Transcodes(dir, o))
    ensures n in Pass(c, dir, o).dir <==> n in dir && !Consumed(Entry(n, dir[n]), o)
    ensures n in Pass(c, dir, o).dir ==> Pass(c, dir, o).dir[n] == dir[n]
  {
    var es := Listing(dir);
    ListingEnumerates(dir);
    if TranscodedIn(es, o) {
      var i := TranscodedInWitness(es, o);
      assert es[i] == Entry(es[i].name, dir[es[i].name]);
    }
    PassDirKeys(dir, es, o, n);
    if n in dir {
      var i := ListingPosition(dir, n);
      ConsumedInAt(es, o, i);
    } else {
      ConsumedInAbsent(es, n, o);
    }
  }

  /** A file `upload()` does not consume is still there afterwards, and still a file if it was one. */
  lemma UnconsumedStays(c: Config, dir: map<string, Kind>, o: PassInput, n: string)
    requires o.readOk && n in dir && !Consumed(Entry(n, dir[n]), o)
    ensures n in Pass(c, dir, o).dir
    ensures dir[n] == File ==> Pass(c, dir, o).dir[n] == File
  {
    var es := Listing(dir);
    ListingEnumerates(dir);
    var i := ListingPosition(dir, n);
    ConsumedInAt(es, o, i);
    PassDirKeeps(dir, es, o, n);
  }

  /**
   * ffmpeg's output is not uploaded by the pass that creates it: starting
   * without `out.mp4`, the pass leaves one exactly when some `.mov` file was
   * transcoded, and never reads or deletes it.
   */
  lemma TranscodeOutputDeferred(c: Config, dir: map<string, Kind>, o: PassInput)
    requires o.readOk && TranscodeTarget !in dir
    ensures TranscodeTarget in Pass(c, dir, o).dir <==> Transcodes(dir, o)
    ensures TranscodeTarget in Pass(c, dir, o).dir ==> Pass(c, dir, o).dir[TranscodeTarget] == File
    ensures Untouched(Pass(c, dir, o).effects, c.screensPath + TranscodeTarget)
  {
    var es := Listing(dir);
    ListingEnumerates(dir);
    PassDirTarget(dir, es, o);
    PassUntouched(c, es, o, TranscodeTarget);
    if TranscodedIn(es, o) {
      var i := TranscodedInWitness(es, o);
      assert es[i] == Entry(es[i].name, dir[es[i].name]);
    }
    if Transcodes(dir, o) {
      var n :| n in dir && Decide(Entry(n, dir[n])) == Convert && o.transcodeOk(n);
      var i := ListingPosition(dir, n);
      TranscodedInAt(es, o, i);
    }
  }
}
