/**
 * The relay's state: the configuration `flags()` sets up, the watched
 * directory, and the effects performed so far.
 */
module Relay {

  import opened Paths
  import opened Extensions
  import opened Directory
  import opened Pipeline
  import opened Dispatch

  class Relay {
    const config: Config
    var dir: map<string, Kind>
    var trace: seq<Effect>

    /** `flags()`: the three locations are stored with exactly one trailing '/'. */
    constructor(screensFlag: string, remoteFlag: string, urlFlag: string, initial: map<string, Kind>)
      ensures config == Config(Norm(screensFlag), Norm(remoteFlag), Norm(urlFlag))
      ensures dir == initial && trace == []
    {
      config := Config(Norm(screensFlag), Norm(remoteFlag), Norm(urlFlag));
      dir := initial;
      trace := [];
    }

    /**
     * `watch()` over the messages `msgs`, until a channel closes or a pass
     * ends the process; pass number `p` gets the answers `inputs(p)`.
     */
    method Watch(msgs: seq<Message>, inputs: nat -> PassInput) returns (passes: nat, stop: Stop)
      modifies this
      ensures var r := WatchRun(config, old(dir), msgs, inputs, 0);
              dir == r.dir && trace == old(trace) + r.effects && passes == r.passes && stop == r.stop
    {
      ghost var d0, t0, done := dir, trace, [];
      passes := 0;
      var i := 0;
      assert msgs[i..] == msgs;
      while i < |msgs|
        invariant 0 <= i <= |msgs|
        invariant trace == t0 + done
        invariant WatchRun(config, d0, msgs, inputs, 0) == After(done, WatchRun(config, dir, msgs[i..], inputs, passes))
      {
        WatchRunStep(config, dir, msgs, i, inputs, passes);
        var m := msgs[i];
        if m.EventsClosed? || m.ErrorsClosed? {
          AfterNothing(done, dir, passes, Closed);
          return passes, Closed;
        }
        if m.Event? {
          ghost var r := Passes(config, dir, Triggers(m.op), inputs, passes);
          var fatal;
          passes, fatal := HandleEvent(m.op, inputs, passes);
          AppendAssoc(t0, done, r.effects);
          if fatal {
            return passes, Fatal;
          }
          AfterAfter(done, r.effects, WatchRun(config, dir, msgs[i + 1..], inputs, passes));
          done := done + r.effects;
        }
        i := i + 1;
      }
      AfterNothing(done, dir, passes, Waiting);
      return passes, Waiting;
    }

    /** Lines 81-86: a pass for the Write bit, then one for the Create bit. */
    method HandleEvent(op: Op, inputs: nat -> PassInput, k: nat) returns (passes: nat, fatal: bool)
      modifies this
      ensures var r := Passes(config, old(dir), Triggers(op), inputs, k);
              dir == r.dir && trace == old(trace) + r.effects && passes == r.passes && (fatal <==> r.stop == Fatal)
    {
      var write, create := op & OpWrite == OpWrite, op & OpCreate == OpCreate;
      ghost var d0, t0 := dir, trace;
      PassesOne(config, d0, inputs, k);
      passes, fatal := k, false;
      if write {
        fatal := Upload(inputs(passes));
        passes := passes + 1;
        if fatal {
          return;
        }
      }
      ghost var r1 := Passes(config, d0, if write then 1 else 0, inputs, k);
      assert !write ==> t0 + [] == t0;
      assert dir == r1.dir && trace == t0 + r1.effects && passes == r1.passes && r1.stop != Fatal;
      ghost var t1 := trace;
      PassesOne(config, dir, inputs, passes);
      if create {
        fatal := Upload(inputs(passes));
        passes := passes + 1;
      }
      ghost var r2 := Passes(config, r1.dir, if create then 1 else 0, inputs, r1.passes);
      assert !create ==> t1 + [] == t1;
      assert dir == r2.dir && trace == t1 + r2.effects && passes == r2.passes && (fatal <==> r2.stop == Fatal);
      PassesSplit(config, d0, if write then 1 else 0, if create then 1 else 0, inputs, k);
      AppendAssoc(t0, r1.effects, r2.effects);
    }

    /** `upload()`: one scan pass over the directory. */
    method Upload(o: PassInput) returns (fatal: bool)
      modifies this
      ensures var r := Pass(config, old(dir), o);
              dir == r.dir && trace == old(trace) + r.effects && fatal == r.fatal
    {
      if !o.readOk {
        return true;
      }
      var fi := ReadDir(dir);
      Scan(fi, o);
      return false;
    }

    /** The loop of `upload()` over the listing `fi`, one entry at a time, in order. */
    method Scan(fi: seq<Entry>, o: PassInput)
      modifies this
      ensures dir == PassDir(old(dir), fi, o)
      ensures trace == old(trace) + PassEffects(config, fi, o)
    {
      ghost var d0, t0 := dir, trace;
      var i := 0;
      while i < |fi|
        invariant 0 <= i <= |fi|
        invariant dir == PassDir(d0, fi[..i], o)
        invariant trace == t0 + PassEffects(config, fi[..i], o)
      {
        PassSnoc(config, d0, fi, i, o);
        ghost var before, step := PassEffects(config, fi[..i], o), EntryEffects(config, fi[i], o);
        ProcessEntry(fi[i], o);
        assert trace == (t0 + before) + step;
        AppendAssoc(t0, before, step);
        i := i + 1;
      }
      assert fi[..i] == fi;
    }

    /** The body of the loop in `upload()`, for the entry `f`. */
    method ProcessEntry(f: Entry, o: PassInput)
      modifies this
      ensures dir == EntryDir(old(dir), f, o)
      ensures trace == old(trace) + EntryEffects(config, f, o)
    {
      if f.kind == Folder {
        SkipChangesNothing(config, dir, f, o);
        return;
      }
      var matches := ExtractExt(f.name);
      if matches.None? {
        SkipChangesNothing(config, dir, f, o);
        return;
      }
      var ext := matches.value;
      var allowed := AllowedExtension(ext);
      DecideFile(f, ext);
      if !allowed {
        SkipChangesNothing(config, dir, f, o);
        return;
      }
      if ext == "mov" {
        ConvertEntry(f, o);
      } else {
        TransferEntry(f, ext, o);
      }
    }

    /**
     * Lines 118-127 for a `.mov` file: ffmpeg, then the source is removed;
     * if ffmpeg fails, control falls through to the upload.
     */
    method ConvertEntry(f: Entry, o: PassInput)
      requires Decide(f) == Convert
      modifies this
      ensures dir == EntryDir(old(dir), f, o)
      ensures trace == old(trace) + EntryEffects(config, f, o)
    {
      var fullPath := config.screensPath + f.name;
      var step := Emit(Transcode(fullPath, config.screensPath + TranscodeTarget), old(trace), []);
      var result := o.transcodeOk(f.name);
      if result {
        dir := dir[TranscodeTarget := File];
        step := Emit(Remove(fullPath), old(trace), step);
        dir := dir - {f.name};
      } else {
        TransferEntry(f, "mov", o);
        AppendAssoc(old(trace), step, Publish(config, fullPath, RemoteName(o, f.name, "mov"), o.uploadOk(f.name)));
      }
    }

    /** Lines 129-138: upload under a fresh name; on success publish the URL and remove the file. */
    method TransferEntry(f: Entry, ext: string, o: PassInput)
      modifies this
      ensures dir == if o.uploadOk(f.name) then old(dir) - {f.name} else old(dir)
      ensures trace == old(trace) + Publish(config, config.screensPath + f.name, RemoteName(o, f.name, ext), o.uploadOk(f.name))
    {
      var fullPath := config.screensPath + f.name;
      var remoteFilename := o.token(f.name) + "." + ext;
      var done := Emit(Send(fullPath, config.remotePath + remoteFilename), old(trace), []);
      if !o.uploadOk(f.name) {
        return;
      }
      var url := config.baseURL + remoteFilename;
      done := Emit(Clipboard(url), old(trace), done);
      done := Emit(Notify(AppName, NotificationTitle, url), old(trace), done);
      done := Emit(Remove(fullPath), old(trace), done);
      dir := dir - {f.name};
    }

    /** Performs the effect `x`; `done` are the effects performed since `base`. */
    method Emit(x: Effect, ghost base: seq<Effect>, ghost done: seq<Effect>) returns (ghost done': seq<Effect>)
      requires trace == base + done
      modifies this`trace
      ensures trace == old(trace) + [x]
      ensures done' == done + [x] && trace == base + done'
    {
      trace := trace + [x];
      done' := done + [x];
      AppendAssoc(base, done, [x]);
    }
  }
}
