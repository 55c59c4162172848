/**
 * One scan pass (`upload()`), as the effects it has: for every entry of the
 * listing, in order, what is transcoded, sent, published and removed, and
 * what the watched directory holds afterwards. The outside world (ffmpeg,
 * the SFTP transfer, the token generator, the directory read) answers
 * through a PassInput.
 */
module Pipeline {

  import opened Extensions
  import opened Directory
  import opened Wrappers

  /** The normalised screensPath, remotePath and baseURL. */
  datatype Config = Config(screensPath: string, remotePath: string, baseURL: string)

  /** The answers the outside world gives during one pass, per file name. */
  datatype PassInput = PassInput(
    readOk: bool,                 // ioutil.ReadDir returned no error
    transcodeOk: string -> bool,  // ffmpeg exited with status 0
    uploadOk: string -> bool,     // uploadObjectToDestination returned nil
    token: string -> string)      // what shortuuid.New() returned

  /** What the relay does to the world, in the order it does it. */
  datatype Effect =
    | Transcode(input: string, output: string)               // ffmpeg -i input output
    | Send(source: string, destination: string)              // one SFTP upload attempt
    | Clipboard(text: string)                                // clipboard.WriteAll
    | Notify(app: string, title: string, message: string)    // notificator Push
    | Remove(path: string)                                   // os.Remove

  /** The fixed name of ffmpeg's output inside the watched directory. */
  const TranscodeTarget: string := "out.mp4"
  const AppName: string := "Skrins"
  const NotificationTitle: string := "Screenshot uploaded!"

  /** Lines 106-118: directories are skipped, files are classified by name. */
  function Decide(e: Entry): Action {
    if e.kind == Folder then Skip else Classify(e.name)
  }

  /** The decision for a regular file whose extension is `ext`. */
  lemma DecideFile(e: Entry, ext: string)
    requires e.kind == File && ExtractExt(e.name) == Some(ext)
    ensures Decide(e) == if ext !in AllowedExtensions then Skip else if ext == "mov" then Convert else Transfer(ext)
  {
  }

  /** `x` reads or deletes the local file at `path`. */
  predicate Touches(x: Effect, path: string) {
    match x
    case Transcode(input, _) => input == path
    case Send(source, _) => source == path
    case Remove(p) => p == path
    case _ => false
  }

  predicate Untouched(fx: seq<Effect>, path: string) {
    forall x :: x in fx ==> !Touches(x, path)
  }

  /** The pass deletes the entry's local file. */
  predicate Consumed(e: Entry, o: PassInput) {
    match Decide(e)
    case Skip => false
    case Convert => o.transcodeOk(e.name) || o.uploadOk(e.name)
    case Transfer(_) => o.uploadOk(e.name)
  }

  /** `fmt.Sprintf("%s.%s", shortuuid.New(), ext)`. */
  function RemoteName(o: PassInput, name: string, ext: string): string {
    o.token(name) + "." + ext
  }

  /** Lines 130-138: the upload attempt and, when it succeeds, publishing and removal. */
  function Publish(c: Config, path: string, remoteName: string, ok: bool): seq<Effect> {
    var url := c.baseURL + remoteName;
    [Send(path, c.remotePath + remoteName)] +
    (if ok then [Clipboard(url), Notify(AppName, NotificationTitle, url), Remove(path)] else [])
  }

  /** The effects of one iteration of the loop over the listing. */
  function EntryEffects(c: Config, e: Entry, o: PassInput): seq<Effect> {
    var path := c.screensPath + e.name;
    match Decide(e)
    case Skip => []
    case Convert =>
      [Transcode(path, c.screensPath + TranscodeTarget)] +
      (if o.transcodeOk(e.name) then [Remove(path)]
       else Publish(c, path, RemoteName(o, e.name, "mov"), o.uploadOk(e.name)))
    case Transfer(ext) => Publish(c, path, RemoteName(o, e.name, ext), o.uploadOk(e.name))
  }

  /**
   * An iteration does something exactly when the entry is not skipped; it
   * reads or deletes only the entry's own file; it deletes it exactly when
   * the entry is consumed.
   */
  lemma EntryFootprint(c: Config, e: Entry, o: PassInput)
    ensures EntryEffects(c, e, o) == [] <==> Decide(e) == Skip
    ensures forall x, p :: x in EntryEffects(c, e, o) && Touches(x, p) ==> p == c.screensPath + e.name
    ensures Remove(c.screensPath + e.name) in EntryEffects(c, e, o) <==> Consumed(e, o)
  {
  }

  /** The directory after one iteration: ffmpeg's output appears, consumed files go. */
  function EntryDir(dir: map<string, Kind>, e: Entry, o: PassInput): map<string, Kind> {
    if Decide(e) == Convert && o.transcodeOk(e.name) then dir[TranscodeTarget := File] - {e.name}
    else if Consumed(e, o) then dir - {e.name}
    else dir
  }

  /** A skipped entry has no effect and leaves the directory as it is. */
  lemma SkipChangesNothing(c: Config, dir: map<string, Kind>, e: Entry, o: PassInput)
    requires Decide(e) == Skip
    ensures EntryEffects(c, e, o) == [] && EntryDir(dir, e, o) == dir
  {
  }

  /** The effects of the loop over `es`, entry after entry. */
  function PassEffects(c: Config, es: seq<Entry>, o: PassInput): seq<Effect>
    decreases |es|
  {
    if es == [] then [] else PassEffects(c, es[..|es| - 1], o) + EntryEffects(c, es[|es| - 1], o)
  }

  /** The directory after the loop over `es`. */
  function PassDir(dir: map<string, Kind>, es: seq<Entry>, o: PassInput): map<string, Kind>
    decreases |es|
  {
    if es == [] then dir else EntryDir(PassDir(dir, es[..|es| - 1], o), es[|es| - 1], o)
  }

  /** Running one more entry extends the pass by that entry's iteration. */
  lemma PassSnoc(c: Config, dir: map<string, Kind>, fi: seq<Entry>, i: nat, o: PassInput)
    requires i < |fi|
    ensures PassDir(dir, fi[..i + 1], o) == EntryDir(PassDir(dir, fi[..i], o), fi[i], o)
    ensures PassEffects(c, fi[..i + 1], o) == PassEffects(c, fi[..i], o) + EntryEffects(c, fi[i], o)
  {
    assert fi[..i + 1][..i] == fi[..i];
  }

  lemma AppendAssoc<T>(a: seq<T>, b: seq<T>, c: seq<T>)
    ensures (a + b) + c == a + (b + c)
  {
  }

  datatype PassResult = PassResult(dir: map<string, Kind>, effects: seq<Effect>, fatal: bool)

  /**
   * A whole call of `upload()` on the directory `dir`: a failed read ends the
   * process before any file is looked at; otherwise the loop runs over the
   * listing taken at the start.
   */
  ghost function Pass(c: Config, dir: map<string, Kind>, o: PassInput): PassResult {
    if !o.readOk then PassResult(dir, [], true)
    else
      var es := Listing(dir);
      PassResult(PassDir(dir, es, o), PassEffects(c, es, o), false)
  }
}
