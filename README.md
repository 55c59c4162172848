# skrins — a verified model of the screenshot relay

skrins watches one local directory. Whenever fsnotify reports a Write or a
Create event there, it scans the whole directory (`upload()`), one pass per
event bit. In each pass, every regular file whose extension (the run of word
characters after the name's last '.', reaching the end of the name) is allowed and is not `mov` goes to a
remote host over SFTP under a fresh random name.
The public URL is then copied to the clipboard and shown in a desktop
notification, and the local file is deleted. A `.mov` screen recording is
first transcoded by ffmpeg into `out.mp4` in the same directory. It is
deleted once that works, and the next pass uploads `out.mp4`.

The model covers that core, all from `main.go`:

- `flags()` path normalisation: module `Paths`.
- The extension regular expression and `allowedExtension`: module `Extensions`.
- `ioutil.ReadDir`'s sorted listing: module `Directory`.
- One pass as a specification function (`Pipeline.Pass`), with its
  properties in `PassProperties` and per-branch outcomes in `Outcomes`.
- The `watch()` loop as a specification function (`Dispatch.WatchRun`),
  with its properties in `DispatchProperties`.
- The relay itself: class `Relay.Relay`. Its fields are the configuration,
  the directory and the trace of effects performed. Its methods
  `Watch`, `HandleEvent`, `Upload`, `Scan`, `ProcessEntry`, `ConvertEntry`
  and `TransferEntry` follow the Go code statement by statement. Each is
  proved to produce exactly the specification function's result.

The outside world is a parameter. Each pass gets a `PassInput`, which says:

- whether the directory read succeeds;
- for each file name, whether ffmpeg succeeds;
- for each file name, whether the SFTP upload succeeds;
- for each file name, which token `shortuuid.New()` returns.

Clipboard writes, notifications, transfers, transcodes and removals are
recorded as `Effect` values in the trace.

Points of the code worth noting:

- When ffmpeg fails on a `.mov` file, control falls through to the upload.
  The recording itself is then sent with extension `mov` (`main.go:118-130`).
  It is not skipped.
- The allow-list has eleven entries, `mov` included.
- Its entries `tar.gz` and `tar.bz2` can never match, because the captured
  extension is a run of word characters without a '.' (`DottedEntriesUnreachable`).

## Model

| member | source | states |
|---|---|---|
| Paths.TrimSlashes | main.go:66-68 | `strings.TrimRight(s, "/")`: the result is a prefix of `s`, only '/' characters were removed, and it does not end in '/' |
| Paths.Norm | main.go:66-68 | the normalised path ends in exactly one '/' and, without it, is a prefix of the flag value followed only by '/' |
| Paths.TrimSlashesUnique | main.go:66-68 | any prefix not ending in '/' whose removed tail is all '/' is the TrimRight result, so the contract of TrimSlashes determines it |
| Paths.NormIdempotent | main.go:66-68 | normalising a normalised path changes nothing |
| Paths.NormAppendsSlash | main.go:66-68 | a path without a trailing '/' just gets one appended |
| Paths.NormIgnoresTrailingSlashes | main.go:66-68 | any number of trailing '/' on the flag give the same normalised path |
| Paths.NormEmpty | main.go:66-68 | an empty flag becomes "/" |
| Extensions.RegexMatch | main.go:97 | the reference reading of `.*?\.(\w+)$`: a match from `start` with the '.' at `dot`, no newline before it and only word characters after it; related to ExtractExt by RegexCapture and RegexWitness |
| Extensions.WordRun | main.go:97 | the longest run of `\w` characters ending the name: all word characters, and the character before it is not one |
| Extensions.WordRunIs | main.go:97 | the run is unique: a length whose suffix is all word characters and that is the whole name or follows a non-word character is the run |
| Extensions.ExtractExt | main.go:97-114 | submatch 1 of `.*?\.(\w+)$`: when present, the name ends in '.' followed by it, it is a non-empty word and holds no '.' |
| Extensions.ExtractExtComplete | main.go:97-114 | conversely, whenever the name ends in '.' and a word `e`, ExtractExt returns exactly `e` |
| Extensions.RegexCapture | main.go:97-114 | every match of the expression (any start, any dot position) captures the same text as ExtractExt |
| Extensions.RegexWitness | main.go:97-114 | when ExtractExt returns a value, the expression has a match capturing it |
| Extensions.AllowedExtension | main.go:158-168 | the loop returns true exactly when the extension equals one of the eleven allowed entries |
| Extensions.Classify | main.go:111-129 | what the loop does with a regular file by its name: skip without an extension or with one not allowed, transcode for `mov`, upload under the extension otherwise; characterised by ClassifyConvert and ClassifyTransfer |
| Extensions.ClassifyConvert | main.go:111-120 | exactly the names ending in ".mov" are transcoded |
| Extensions.ClassifyTransfer | main.go:111-129 | a name is uploaded directly, without a transcode, under extension `e` exactly when it ends in '.' and `e`, one of the eight dot-free entries other than mov |
| Extensions.DottedEntriesUnreachable | main.go:159 | `tar.gz` and `tar.bz2` are in the list, yet no name is ever uploaded through them |
| Extensions.NoDotNoExtension | main.go:111-113 | a name without '.' has no extension and is skipped |
| Extensions.NonWordEndNoExtension | main.go:111-113 | a name ending in a non-word character (e.g. "a.png~") has no extension and is skipped |
| Extensions.ClassifyRecording | main.go:118 | "clip.mov" is transcoded |
| Extensions.ClassifyTranscodeOutput | main.go:120 | ffmpeg's output "out.mp4" is uploaded as `mp4` |
| Extensions.ClassifyTarball | main.go:97-115 | "x.tar.gz" yields `gz`, which is not allowed, so it is skipped |
| Extensions.ClassifyUpperCase | main.go:162 | the comparison is case-sensitive: "shot.PNG" is skipped |
| Directory.Below | main.go:99 | Go's `<` on names: lexicographic order, a proper prefix first; a strict total order by the lemmas below |
| Directory.BelowIrreflexive | main.go:99 | the name order is strict |
| Directory.BelowTransitive | main.go:99 | the name order is transitive |
| Directory.BelowTotal | main.go:99 | any two different names are ordered |
| Directory.BelowAsymmetric | main.go:99 | no two names are below each other |
| Directory.LeastExists | main.go:99 | every non-empty set of names has a first one in name order |
| Directory.SortedNames | main.go:99 | the directory's names, each once, in strictly increasing name order |
| Directory.SortedEnumerationUnique | main.go:99 | two strictly sorted sequences with the same names are equal, so the sorted listing is unique |
| Directory.ListingEnumerates | main.go:99 | the listing holds every entry of the directory exactly once, with its kind, in name order |
| Directory.Listing | main.go:99 | what ioutil.ReadDir returns: the directory's entries with their kinds, sorted by name; characterised by ListingEnumerates |
| Directory.ReadDir | main.go:99 | the selection loop returns exactly the sorted listing |
| Pipeline.Decide | main.go:106-118 | a directory is skipped, a regular file gets Classify's action; DecideFile states it per extension |
| Pipeline.RemoteName | main.go:129 | the remote file name, the pass's token, '.' and the extension |
| Pipeline.Publish | main.go:130-138 | a send of the file to `remotePath` + the remote name, followed, when it succeeds, by the clipboard write and the notification of `baseURL` + the remote name and the file's removal |
| Pipeline.EntryEffects | main.go:105-139 | the effects of one iteration: none when skipped; for `mov` the transcode to `out.mp4`, then removal on success or Publish with `mov` on failure; Publish for other extensions; EntryFootprint states what they touch |
| Pipeline.EntryDir | main.go:118-138 | the directory after one iteration: a successful transcode adds the file `out.mp4` and removes the recording, any other consumed entry is removed, otherwise nothing changes |
| Pipeline.DecideFile | main.go:106-118 | a regular file is skipped when its extension is not allowed, transcoded when it is `mov`, uploaded otherwise |
| Pipeline.EntryFootprint | main.go:104-139 | an iteration has effects exactly when the entry is not skipped, reads or deletes only the entry's own file, and deletes it exactly when the entry is consumed |
| Pipeline.SkipChangesNothing | main.go:106-117 | a skipped entry leaves no effect and the directory unchanged |
| Pipeline.PassEffects | main.go:104-141 | the effects of the loop over a listing, iteration after iteration |
| Pipeline.PassDir | main.go:104-141 | the directory after the loop over a listing, each iteration applied in turn |
| Pipeline.Pass | main.go:96-142 | one call of `upload()`: a failed read is fatal with no effect, otherwise the loop over the listing taken at the start, with its effects and the directory it leaves; the PassProperties lemmas state its properties |
| Pipeline.PassSnoc | main.go:104 | the loop over one more entry is the loop so far followed by that entry's iteration |
| PassProperties.PassEffectsAppend | main.go:104 | the effects of the loop over `a + b` are those over `a` followed by those over `b` |
| PassProperties.PassDirAppend | main.go:104 | the loop over `a + b` leaves what the loop over `b` leaves when started where the loop over `a` ended |
| PassProperties.PassUntouched | main.go:104-139 | a loop over entries none of which is named `n` never reads or deletes the file `n` |
| PassProperties.EntrySegment | main.go:104-139 | over entries with distinct names, each entry's effects appear as one contiguous block and no other effect reads or deletes its file |
| PassProperties.EntryOrder | main.go:104 | over entries with distinct names, everything done to an earlier entry precedes everything done to a later one |
| PassProperties.PassDirKeys | main.go:121-138 | a name (other than a freshly written `out.mp4`) is left after the loop exactly when it was there and no iteration consumed it, with its kind unchanged |
| PassProperties.PassDirTarget | main.go:120 | starting without `out.mp4`, the loop leaves an `out.mp4` file exactly when some `.mov` entry was transcoded |
| PassProperties.PassSplitsAt | main.go:99-139 | the pass's effects are the iterations of the entries listed before the file, the file's own iteration, and those listed after it, none of them of the same name |
| PassProperties.PassHandlesEach | main.go:99-139 | `upload()` handles each file of the directory by one block of that file's effects; no other effect of the pass reads or deletes the file (a transcode of an earlier `.mov` may still write `out.mp4`) |
| PassProperties.PassIgnoresAbsent | main.go:99-104 | `upload()` never reads or deletes a file that was not in the listing taken at its start |
| PassProperties.PassInNameOrder | main.go:99-104 | files are handled in name order, as ReadDir lists them |
| PassProperties.PassKeepsUnconsumed | main.go:104-139 | after `upload()`, a name is present exactly when it was present and its file was not consumed, with its kind unchanged |
| PassProperties.PassDirKeeps | main.go:104-139 | a name no iteration of the loop consumes is still there afterwards, and a file stays a file |
| PassProperties.UnconsumedStays | main.go:121-138 | after `upload()`, a file whose iteration did not delete it is still in the directory, still a file if it was one |
| PassProperties.TranscodeOutputDeferred | main.go:120-125 | starting without `out.mp4`, the pass leaves one exactly when some recording was transcoded, and never reads or deletes it: the next pass uploads it |
| Outcomes.SegmentMembers | main.go:104-139 | within such a block, the effects reading or deleting a file are exactly the block's |
| Outcomes.RemovedExactlyWhenGone | main.go:124-138 | for every name other than `out.mp4` (which a transcode may write anew), the trace deletes the file exactly when it is gone from the directory afterwards |
| Outcomes.SkippedFileStays | main.go:106-117 | a folder, a name without an extension or with one not allowed is never read or deleted and is still there afterwards, of the same kind unless it is a folder `out.mp4` a transcode of the same pass writes over |
| Outcomes.UploadSucceeded | main.go:129-138 | the file is sent to the remote path under token '.' ext; the URL base + token '.' ext goes to the clipboard and into the "Skrins" / "Screenshot uploaded!" notification; the file is deleted, in that order; the pass's whole trace is the iterations listed before the file, exactly this block, then the iterations listed after it, all for other names, so there is exactly one clipboard write and one notification for it |
| Outcomes.UploadFailed | main.go:129-134 | a failed upload is one send attempt and nothing else; the pass's whole trace is the iterations listed before the file, exactly this block, then the iterations listed after it, all for other names (no clipboard write, notification or removal for it); the file, `out.mp4` included, stays a file in the directory for the next pass |
| Outcomes.TranscodeSucceeded | main.go:118-126 | a `.mov` file is transcoded into `out.mp4` in the screens directory and deleted; nothing is uploaded, copied or notified for it; the pass's whole trace is the iterations listed before the file, exactly this block, then the iterations listed after it, all for other names |
| Outcomes.TranscodeFailed | main.go:118-138 | when ffmpeg fails, the recording itself is uploaded as token ".mov" and published when that upload succeeds, with only the transcode and the send for it when it fails; the pass's whole trace is the iterations listed before the file, exactly this block, then the iterations listed after it, all for other names; it stays exactly when that upload fails |
| Outcomes.TranscodeLeavesOutput | main.go:120-125 | a successful transcode leaves an `out.mp4` file behind |
| Outcomes.TranscodeOutputUploaded | main.go:120-138 | an `out.mp4` file is uploaded like any `mp4` file, with the same block and the same place in the trace |
| Outcomes.TranscodeOutputRemoved | main.go:129-138 | when nothing is transcoded, an uploaded `out.mp4` is gone after the pass |
| Outcomes.RecordingUploadedNextPass | main.go:118-138 | a recording reaches the server in two passes: the first leaves `out.mp4`, the second uploads and publishes it and, unless it transcodes another recording, removes it |
| Dispatch.Triggers | main.go:81-86 | the number of passes an event causes: none exactly when neither the Write nor the Create bit is set, two exactly when both are |
| Dispatch.Passes | main.go:81-86 | `m` passes in a row, numbered from `k`, each seeing the directory the last one left; a fatal pass ends them |
| Dispatch.PassesSplit | main.go:81-86 | `a + b` passes are `a` passes followed, unless one was fatal, by `b` passes |
| Dispatch.WatchRun | main.go:74-94 | the loop of `watch()` over a message sequence: a closed channel stops it, errors are skipped, an event runs Triggers(op) passes and a fatal one ends the run; the DispatchProperties lemmas state its properties |
| Dispatch.WatchRunStep | main.go:75-93 | the loop from message `i` on is the step for message `i` followed by the loop over the rest |
| DispatchProperties.PassesWithoutFailure | main.go:81-102 | while every directory read succeeds, `m` passes run and none ends the process |
| DispatchProperties.PassCount | main.go:75-93 | while reads succeed, the loop runs one pass per Write bit and one per Create bit up to the first closed channel, and it stops exactly when a channel closes |
| DispatchProperties.SameAfterPrefix | main.go:75-93 | message lists that behave alike from every state stay alike after any common prefix |
| DispatchProperties.InertIgnored | main.go:81-92 | an error message, or an event with neither Write nor Create, can be removed without changing the run |
| DispatchProperties.EventNameIrrelevant | main.go:81-99 | the file an event names makes no difference: every pass rescans the whole directory |
| DispatchProperties.ClosedEndsLoop | main.go:77-90 | nothing after a closed channel has any effect |
| DispatchProperties.FailedReadEndsRun | main.go:99-102 | an event whose pass cannot read the directory ends the process with no effect |
| Relay.Relay.constructor | main.go:56-69 | the three locations are stored normalised, the directory as given, the trace empty |
| Relay.Relay.Watch | main.go:74-94 | the loop's final directory, trace, pass count and reason for stopping are those of `WatchRun` |
| Relay.Relay.HandleEvent | main.go:81-86 | a pass for the Write bit, then one for the Create bit, with the result of `Passes(Triggers(op))` |
| Relay.Relay.Upload | main.go:96-142 | one call changes the directory and extends the trace exactly as `Pass` says, and reports a failed read as fatal |
| Relay.Relay.Scan | main.go:104-141 | the loop over the listing yields `PassDir` and `PassEffects` of that listing |
| Relay.Relay.ProcessEntry | main.go:105-139 | one iteration yields `EntryDir` and `EntryEffects` of the entry |
| Relay.Relay.ConvertEntry | main.go:118-138 | transcode; on success `out.mp4` appears and the recording is deleted; on failure the upload path runs with `mov` |
| Relay.Relay.TransferEntry | main.go:129-138 | one send, then on success clipboard, notification and deletion; the file leaves the directory exactly on success |

## Left out

- SFTP, ssh and key handling (`newSFTPClient`, `uploadObjectToDestination`, main.go:190-244): a per-name success answer decides each transfer. The remote side is not modelled, only the destination path `remotePath + name`.
- ffmpeg (`ffmpegTranscode`, main.go:171-187): a per-name success answer. A failed run that leaves a partial `out.mp4` behind is not modelled.
- Clipboard and notification libraries: recorded as trace effects, with the URL, application name and title they receive.
- `shortuuid.New()`: a per-name token supplied by the outside world. The model does not assume tokens are unique or random.
- fsnotify set-up, `watcher.Add`, the goroutine and the blocking `<-exit` in `main` (main.go:33-54): the model starts at the loop and receives the messages as a sequence. The two channels are merged into one ordered sequence, so the select statement's choice between ready channels is left to whoever builds that sequence.
- Concurrency: files created while a pass runs are not modelled. Every pass works on the listing taken at its start, and the directory changes only through the relay's own effects.
- Logging (`fmt.Println`, `log.Println`) has no model. `log.Fatal` after a failed read (main.go:100-102) is modelled as the end of the run with no further effect.
- Flag parsing, and the `remoteHost`, `remoteUser` and `sshKeyPath` values: they only feed the SFTP session that `newSFTPClient` opens (main.go:190-211), which is not modelled; only the three normalised locations are kept.
- `os.Remove` errors are ignored by the code. The model assumes every removal succeeds.
- ioutil.ReadDir's order is modelled as lexicographic order on characters (code points). Go compares the UTF-8 bytes, which orders valid UTF-8 names the same way; names that are not valid UTF-8 are not modelled.
- Upload: the directory read's success is one answer per pass, not a function of the directory.
- PassProperties.PassKeepsUnconsumed: says nothing about `out.mp4` when some recording is transcoded in the same pass; `TranscodeOutputDeferred` covers the case where there was no `out.mp4` before.
- Outcomes.SkippedFileStays: for a folder named `out.mp4`, the model lets a successful transcode of a recording in the same pass replace it with a file; real ffmpeg cannot write over a directory, so such a run is one where the outside world should answer that ffmpeg failed. The model does not tie that answer to the directory.
- Outcomes.UploadSucceeded: for a file named `out.mp4`, the statement that it is gone afterwards is only given when nothing is transcoded in that pass (`TranscodeOutputRemoved`), since a later recording writes a new one.
