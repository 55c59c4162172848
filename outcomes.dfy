/**
 * The outcome of one `upload()` pass for a single file, branch by branch of
 * the loop body: which effects the file gets, in which order, and whether
 * it is still in the watched directory afterwards.
 */
module Outcomes {

  import opened Extensions
  import opened Directory
  import opened Pipeline
  import opened PassProperties

  /** Within an undisturbed block, the effects on `path` are exactly the block's. */
  lemma SegmentMembers(fx: seq<Effect>, path: string, seg: seq<Effect>)
    requires Segment(fx, path, seg)
    ensures forall x :: Touches(x, path) ==> (x in fx <==> x in seg)
  {
    var k :| 0 <= k <= |fx| - |seg| && fx[k..k + |seg|] == seg &&
      Untouched(fx[..k], path) && Untouched(fx[k + |seg|..], path);
    var pre, post := fx[..k], fx[k + |seg|..];
    Rejoin(fx, k, k + |seg|);
    forall x | Touches(x, path)
      ensures x in fx <==> x in seg
    {
      assert x !in pre && x !in post;
    }
  }

  lemma Rejoin<T>(s: seq<T>, i: int, j: int)
    requires 0 <= i <= j <= |s|
    ensures s == s[..i] + s[i..j] + s[j..]
  {
  }

  /** A file is deleted by the pass, as traced, exactly when it is gone from the directory afterwards. */
  lemma RemovedExactlyWhenGone(c: Config, dir: map<string, Kind>, o: PassInput, n: string)
    requires o.readOk && n in dir && n != TranscodeTarget
    ensures Remove(c.screensPath + n) in Pass(c, dir, o).effects <==> n !in Pass(c, dir, o).dir
  {
    var fx, e, p := Pass(c, dir, o).effects, Entry(n, dir[n]), c.screensPath + n;
    PassHandlesEach(c, dir, o, n);
    SegmentMembers(fx, p, EntryEffects(c, e, o));
    assert Touches(Remove(p), p);
    assert Remove(p) in fx <==> Remove(p) in EntryEffects(c, e, o);
    EntryFootprint(c, e, o);
    PassKeepsUnconsumed(c, dir, o, n);
  }

  /**
   * Lines 106-116: a folder, a name without extension or with one not in the
   * list is left alone and stays, of the same kind unless it is a folder
   * `out.mp4` that a transcode of the same pass writes over.
   */
  lemma SkippedFileStays(c: Config, dir: map<string, Kind>, o: PassInput, n: string)
    requires o.readOk && n in dir
    requires dir[n] == Folder || ExtractExt(n).None? || ExtractExt(n).value !in AllowedExtensions
    ensures Untouched(Pass(c, dir, o).effects, c.screensPath + n)
    ensures n in Pass(c, dir, o).dir
    ensures n != TranscodeTarget || !Transcodes(dir, o) ==> Pass(c, dir, o).dir[n] == dir[n]
  {
    var e := Entry(n, dir[n]);
    assert Decide(e) == Skip;
    PassHandlesEach(c, dir, o, n);
    SegmentMembers(Pass(c, dir, o).effects, c.screensPath + n, EntryEffects(c, e, o));
    UnconsumedStays(c, dir, o, n);
    if n != TranscodeTarget || !Transcodes(dir, o) {
      PassKeepsUnconsumed(c, dir, o, n);
    }
  }

  /**
   * Lines 129-138, success: the file is sent under a fresh name with its
   * extension, the public URL goes to the clipboard and into a
   * notification, and the local file is deleted.
   */
  lemma UploadSucceeded(c: Config, dir: map<string, Kind>, o: PassInput, n: string, ext: string) returns (i: int)
    requires o.readOk && n in dir && dir[n] == File
    requires ext in ReachableExtensions && EndsInExtension(n, ext) && o.uploadOk(n)
    ensures var p, remote := c.screensPath + n, o.token(n) + "." + ext;
      Segment(Pass(c, dir, o).effects, p,
        [Send(p, c.remotePath + remote), Clipboard(c.baseURL + remote),
         Notify(AppName, NotificationTitle, c.baseURL + remote), Remove(p)])
    ensures var p, remote := c.screensPath + n, o.token(n) + "." + ext;
      HandledAt(c, dir, o, n, i,
        [Send(p, c.remotePath + remote), Clipboard(c.baseURL + remote),
         Notify(AppName, NotificationTitle, c.baseURL + remote), Remove(p)])
    ensures n != TranscodeTarget ==> n !in Pass(c, dir, o).dir
  {
    ClassifyTransfer(n, ext);
    var p, remote := c.screensPath + n, o.token(n) + "." + ext;
    assert EntryEffects(c, Entry(n, dir[n]), o) ==
      [Send(p, c.remotePath + remote), Clipboard(c.baseURL + remote),
       Notify(AppName, NotificationTitle, c.baseURL + remote), Remove(p)];
    PassHandlesEach(c, dir, o, n);
    i := PassSplitsAt(c, dir, o, n);
    if n != TranscodeTarget {
      PassKeepsUnconsumed(c, dir, o, n);
    }
  }

  /** Lines 131-134, failure: one upload attempt, and the file stays for the next pass. */
  lemma UploadFailed(c: Config, dir: map<string, Kind>, o: PassInput, n: string, ext: string) returns (i: int)
    requires o.readOk && n in dir && dir[n] == File
    requires ext in ReachableExtensions && EndsInExtension(n, ext) && !o.uploadOk(n)
    ensures var p := c.screensPath + n;
      Segment(Pass(c, dir, o).effects, p, [Send(p, c.remotePath + (o.token(n) + "." + ext))])
    ensures var p := c.screensPath + n;
      HandledAt(c, dir, o, n, i, [Send(p, c.remotePath + (o.token(n) + "." + ext))])
    ensures n in Pass(c, dir, o).dir && Pass(c, dir, o).dir[n] == File
  {
    ClassifyTransfer(n, ext);
    var p := c.screensPath + n;
    assert EntryEffects(c, Entry(n, dir[n]), o) == [Send(p, c.remotePath + (o.token(n) + "." + ext))];
    PassHandlesEach(c, dir, o, n);
    i := PassSplitsAt(c, dir, o, n);
    UnconsumedStays(c, dir, o, n);
  }

  lemma MovIsNotTarget(n: string)
    requires |n| >= 4 && n[|n| - 4..] == ".mov"
    ensures n != TranscodeTarget
  {
    assert n[|n| - 1] == ".mov"[3];
  }

  /**
   * Lines 118-127, ffmpeg succeeds: the recording is transcoded into
   * `out.mp4` in the same directory and deleted, and nothing is uploaded.
   */
  lemma TranscodeSucceeded(c: Config, dir: map<string, Kind>, o: PassInput, n: string) returns (i: int)
    requires o.readOk && n in dir && dir[n] == File
    requires |n| >= 4 && n[|n| - 4..] == ".mov" && o.transcodeOk(n)
    ensures var p := c.screensPath + n;
      Segment(Pass(c, dir, o).effects, p, [Transcode(p, c.screensPath + TranscodeTarget), Remove(p)])
    ensures var p := c.screensPath + n;
      HandledAt(c, dir, o, n, i, [Transcode(p, c.screensPath + TranscodeTarget), Remove(p)])
    ensures n !in Pass(c, dir, o).dir
  {
    ClassifyConvert(n);
    MovIsNotTarget(n);
    var p := c.screensPath + n;
    assert EntryEffects(c, Entry(n, dir[n]), o) == [Transcode(p, c.screensPath + TranscodeTarget), Remove(p)];
    PassHandlesEach(c, dir, o, n);
    i := PassSplitsAt(c, dir, o, n);
    PassKeepsUnconsumed(c, dir, o, n);
  }

  /**
   * Lines 118-138, ffmpeg fails: control falls through and the recording
   * itself is uploaded with extension `mov`.
   */
  lemma TranscodeFailed(c: Config, dir: map<string, Kind>, o: PassInput, n: string) returns (i: int)
    requires o.readOk && n in dir && dir[n] == File
    requires |n| >= 4 && n[|n| - 4..] == ".mov" && !o.transcodeOk(n)
    ensures var p, remote := c.screensPath + n, o.token(n) + ".mov";
      Segment(Pass(c, dir, o).effects, p,
        [Transcode(p, c.screensPath + TranscodeTarget), Send(p, c.remotePath + remote)] +
        (if o.uploadOk(n) then [Clipboard(c.baseURL + remote), Notify(AppName, NotificationTitle, c.baseURL + remote), Remove(p)]
         else []))
    ensures var p, remote := c.screensPath + n, o.token(n) + ".mov";
      HandledAt(c, dir, o, n, i,
        [Transcode(p, c.screensPath + TranscodeTarget), Send(p, c.remotePath + remote)] +
        (if o.uploadOk(n) then [Clipboard(c.baseURL + remote), Notify(AppName, NotificationTitle, c.baseURL + remote), Remove(p)]
         else []))
    ensures n in Pass(c, dir, o).dir <==> !o.uploadOk(n)
  {
    ClassifyConvert(n);
    MovIsNotTarget(n);
    var p, remote := c.screensPath + n, o.token(n) + ".mov";
    AppendAssoc(o.token(n), ".", "mov");
    var published := if o.uploadOk(n) then [Clipboard(c.baseURL + remote), Notify(AppName, NotificationTitle, c.baseURL + remote), Remove(p)] else [];
    assert EntryEffects(c, Entry(n, dir[n]), o) == [Transcode(p, c.screensPath + TranscodeTarget)] + ([Send(p, c.remotePath + remote)] + published);
    AppendAssoc([Transcode(p, c.screensPath + TranscodeTarget)], [Send(p, c.remotePath + remote)], published);
    assert EntryEffects(c, Entry(n, dir[n]), o) ==
      [Transcode(p, c.screensPath + TranscodeTarget), Send(p, c.remotePath + remote)] +
      (if o.uploadOk(n) then [Clipboard(c.baseURL + remote), Notify(AppName, NotificationTitle, c.baseURL + remote), Remove(p)]
       else []);
    PassHandlesEach(c, dir, o, n);
    i := PassSplitsAt(c, dir, o, n);
    PassKeepsUnconsumed(c, dir, o, n);
  }

  /** A file `out.mp4` is uploaded like any other `mp4` file. */
  lemma TranscodeOutputUploaded(c: Config, dir: map<string, Kind>, o: PassInput) returns (i: int)
    requires o.readOk && TranscodeTarget in dir && dir[TranscodeTarget] == File && o.uploadOk(TranscodeTarget)
    ensures var p, remote := c.screensPath + TranscodeTarget, o.token(TranscodeTarget) + ".mp4";
      Segment(Pass(c, dir, o).effects, p,
        [Send(p, c.remotePath + remote), Clipboard(c.baseURL + remote),
         Notify(AppName, NotificationTitle, c.baseURL + remote), Remove(p)])
    ensures var p, remote := c.screensPath + TranscodeTarget, o.token(TranscodeTarget) + ".mp4";
      HandledAt(c, dir, o, TranscodeTarget, i,
        [Send(p, c.remotePath + remote), Clipboard(c.baseURL + remote),
         Notify(AppName, NotificationTitle, c.baseURL + remote), Remove(p)])
  {
    ClassifyTranscodeOutput();
    ClassifyTransfer(TranscodeTarget, "mp4");
    var token := o.token(TranscodeTarget);
    assert token + "." + "mp4" == token + ".mp4" by {
      AppendAssoc(token, ".", "mp4");
      assert "." + "mp4" == ".mp4";
    }
    i := UploadSucceeded(c, dir, o, TranscodeTarget, "mp4");
  }

  /**
   * A recording reaches the server in two passes: the pass that transcodes
   * it leaves `out.mp4` behind, and the next pass uploads that file as an
   * `mp4` and, unless it transcodes another recording, removes it.
   */
  lemma RecordingUploadedNextPass(c: Config, dir: map<string, Kind>, o1: PassInput, o2: PassInput, n: string)
    requires o1.readOk && o2.readOk && TranscodeTarget !in dir
    requires n in dir && dir[n] == File && |n| >= 4 && n[|n| - 4..] == ".mov" && o1.transcodeOk(n)
    requires o2.uploadOk(TranscodeTarget)
    ensures var d1 := Pass(c, dir, o1).dir;
      TranscodeTarget in d1 && d1[TranscodeTarget] == File
    ensures var d1, p, remote := Pass(c, dir, o1).dir, c.screensPath + TranscodeTarget, o2.token(TranscodeTarget) + ".mp4";
      Segment(Pass(c, d1, o2).effects, p,
        [Send(p, c.remotePath + remote), Clipboard(c.baseURL + remote),
         Notify(AppName, NotificationTitle, c.baseURL + remote), Remove(p)])
    ensures var d1 := Pass(c, dir, o1).dir;
      !Transcodes(d1, o2) ==> TranscodeTarget !in Pass(c, d1, o2).dir
  {
    TranscodeLeavesOutput(c, dir, o1, n);
    var d1 := Pass(c, dir, o1).dir;
    var _ := TranscodeOutputUploaded(c, d1, o2);
    if !Transcodes(d1, o2) {
      TranscodeOutputRemoved(c, d1, o2);
    }
  }

  lemma TranscodeLeavesOutput(c: Config, dir: map<string, Kind>, o: PassInput, n: string)
    requires o.readOk && TranscodeTarget !in dir
    requires n in dir && dir[n] == File && |n| >= 4 && n[|n| - 4..] == ".mov" && o.transcodeOk(n)
    ensures TranscodeTarget in Pass(c, dir, o).dir && Pass(c, dir, o).dir[TranscodeTarget] == File
  {
    ClassifyConvert(n);
    assert Transcodes(dir, o);
    TranscodeOutputDeferred(c, dir, o);
  }

  lemma TranscodeOutputRemoved(c: Config, dir: map<string, Kind>, o: PassInput)
    requires o.readOk && TranscodeTarget in dir && dir[TranscodeTarget] == File && o.uploadOk(TranscodeTarget)
    requires !Transcodes(dir, o)
    ensures TranscodeTarget !in Pass(c, dir, o).dir
  {
    ClassifyTranscodeOutput();
    PassKeepsUnconsumed(c, dir, o, TranscodeTarget);
  }
}
