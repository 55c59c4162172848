/**
 * Which files the relay acts on: the extension is picked out of a file name
 * by the regular expression `.*?\.(\w+)$` (Go's RE2 syntax: `.` does not
 * match a newline, `$` is the end of the text, `\w` is `[0-9A-Za-z_]`), then
 * looked up, exactly and case-sensitively, in an eleven-entry allow-list.
 */
module Extensions {

  import opened Wrappers

  /** RE2's `\w`. */
  predicate IsWordChar(ch: char) {
    ('a' <= ch <= 'z') || ('A' <= ch <= 'Z') || ('0' <= ch <= '9') || ch == '_'
  }

  predicate AllWord(s: string) {
    forall i :: 0 <= i < |s| ==> IsWordChar(s[i])
  }

  /** The length of the longest run of word characters at the end of `s`. */
  function WordRun(s: string): (k: nat)
    ensures k <= |s|
    ensures forall i :: |s| - k <= i < |s| ==> IsWordChar(s[i])
    ensures k < |s| ==> !IsWordChar(s[|s| - k - 1])
  {
    if s == [] || !IsWordChar(s[|s| - 1]) then 0 else WordRun(s[..|s| - 1]) + 1
  }

  /** `s` ends in a '.' followed by the word `e`, which is not empty. */
  predicate EndsInExtension(s: string, e: string) {
    |e| > 0 && AllWord(e) && |s| > |e| && s[|s| - |e| - 1..] == "." + e
  }

  /**
   * Submatch 1 of the first match of `.*?\.(\w+)$` in `name`, or None when
   * there is no match.
   */
  function ExtractExt(name: string): (r: Option<string>)
    ensures r.Some? ==> EndsInExtension(name, r.value)
    ensures r.Some? ==> '.' !in r.value
  {
    var k := WordRun(name);
    if 0 < k < |name| && name[|name| - k - 1] == '.' then Some(name[|name| - k..]) else None
  }

  /** ExtractExt finds every extension there is: with its contract, an if-and-only-if. */
  lemma ExtractExtComplete(name: string, e: string)
    requires EndsInExtension(name, e)
    ensures ExtractExt(name) == Some(e)
  {
    var d := |name| - |e| - 1;
    assert name[d] == ("." + e)[0];
    forall i | d < i < |name|
      ensures IsWordChar(name[i])
    {
      assert name[i] == ("." + e)[i - d] == e[i - d - 1];
    }
    WordRunIs(name, |e|);
    assert name[d + 1..] == ("." + e)[1..] == e;
  }

  /** The three conditions of WordRun's contract determine its result. */
  lemma WordRunIs(s: string, m: nat)
    requires m <= |s|
    requires forall i :: |s| - m <= i < |s| ==> IsWordChar(s[i])
    requires m < |s| ==> !IsWordChar(s[|s| - m - 1])
    ensures WordRun(s) == m
  {
    RunsAgree(s, WordRun(s), m);
  }

  /** Two maximal runs of word characters at the end of `s` have the same length. */
  lemma RunsAgree(s: string, k: nat, m: nat)
    requires k <= |s| && m <= |s|
    requires forall i :: |s| - k <= i < |s| ==> IsWordChar(s[i])
    requires forall i :: |s| - m <= i < |s| ==> IsWordChar(s[i])
    requires k < |s| ==> !IsWordChar(s[|s| - k - 1])
    requires m < |s| ==> !IsWordChar(s[|s| - m - 1])
    ensures k == m
  {
    if k < m {
      assert false;
    } else if m < k {
      assert false;
    }
  }

  /**
   * Reference reading of the regular expression: a match starts at `start`,
   * `.*?` covers name[start..dot] (no newline), `\.` is name[dot], and
   * `(\w+)$` is the non-empty rest of the name.
   */
  predicate RegexMatch(name: string, start: int, dot: int) {
    0 <= start <= dot < |name| - 1 &&
    (forall j :: start <= j < dot ==> name[j] != '\n') &&
    name[dot] == '.' &&
    AllWord(name[dot + 1..])
  }

  /**
   * Whichever match Go's leftmost-first, lazy search settles on, its
   * submatch is what ExtractExt returns.
   */
  lemma RegexCapture(name: string, start: int, dot: int)
    requires RegexMatch(name, start, dot)
    ensures ExtractExt(name) == Some(name[dot + 1..])
  {
    var e := name[dot + 1..];
    assert name[|name| - |e| - 1..] == "." + e;
    ExtractExtComplete(name, e);
  }

  /** When ExtractExt finds an extension, the regular expression matches there. */
  lemma RegexWitness(name: string)
    requires ExtractExt(name).Some?
    ensures RegexMatch(name, |name| - |ExtractExt(name).value| - 1, |name| - |ExtractExt(name).value| - 1)
  {
    var e := ExtractExt(name).value;
    var d := |name| - |e| - 1;
    assert name[d] == ("." + e)[0];
    assert name[d + 1..] == e;
  }

  /** `allowed` in allowedExtension. */
  const AllowedExtensions: seq<string> :=
    ["jpg", "jpeg", "png", "gif", "webm", "mp4", "mov", "zip", "tar", "tar.gz", "tar.bz2"]

  /** The loop of allowedExtension: exact, case-sensitive membership. */
  method AllowedExtension(ext: string) returns (ok: bool)
    ensures ok <==> ext in AllowedExtensions
  {
    for i := 0 to |AllowedExtensions|
      invariant forall j :: 0 <= j < i ==> AllowedExtensions[j] != ext
    {
      if ext == AllowedExtensions[i] {
        return true;
      }
    }
    return false;
  }

  /** What the scan does with a regular file, decided by its name alone. */
  datatype Action =
    | Skip                    // no extension, or one not in the list
    | Convert                 // `mov`: transcode first
    | Transfer(ext: string)   // upload as it is

  function Classify(name: string): Action {
    match ExtractExt(name)
    case None => Skip
    case Some(ext) =>
      if ext !in AllowedExtensions then Skip
      else if ext == "mov" then Convert
      else Transfer(ext)
  }

  /** The allow-list entries an extracted extension can be equal to. */
  const ReachableExtensions: seq<string> := ["jpg", "jpeg", "png", "gif", "webm", "mp4", "zip", "tar"]

  /** Exactly the names ending in ".mov" are transcoded. */
  lemma ClassifyConvert(name: string)
    ensures Classify(name) == Convert <==> |name| >= 4 && name[|name| - 4..] == ".mov"
  {
    if |name| >= 4 && name[|name| - 4..] == ".mov" {
      assert EndsInExtension(name, "mov");
      ExtractExtComplete(name, "mov");
    }
  }

  /**
   * Exactly the names ending in '.' and one of the eight dot-free entries of
   * the list are uploaded directly, under that extension.
   */
  lemma ClassifyTransfer(name: string, e: string)
    ensures Classify(name) == Transfer(e) <==> e in ReachableExtensions && EndsInExtension(name, e)
  {
    if e in ReachableExtensions && EndsInExtension(name, e) {
      ExtractExtComplete(name, e);
    }
  }

  /** `tar.gz` and `tar.bz2` are in the list but no file is ever selected through them. */
  lemma DottedEntriesUnreachable(name: string)
    ensures "tar.gz" in AllowedExtensions && "tar.bz2" in AllowedExtensions
    ensures Classify(name) != Transfer("tar.gz") && Classify(name) != Transfer("tar.bz2")
  {
    assert "tar.gz"[3] == '.' && "tar.bz2"[3] == '.';
  }

  /** A name with no '.' has no extension. */
  lemma NoDotNoExtension(name: string)
    requires '.' !in name
    ensures ExtractExt(name) == None && Classify(name) == Skip
  {
    if ExtractExt(name).Some? {
      RegexWitness(name);
    }
  }

  /** A name ending in a non-word character has no extension. */
  lemma NonWordEndNoExtension(name: string)
    requires name == [] || !IsWordChar(name[|name| - 1])
    ensures ExtractExt(name) == None && Classify(name) == Skip
  {
  }

  /** A screen recording is transcoded. */
  lemma ClassifyRecording()
    ensures Classify("clip.mov") == Convert
  {
    ClassifyOne("clip.mov", "mov");
  }

  /** ffmpeg's output is uploaded as an `mp4` file. */
  lemma ClassifyTranscodeOutput()
    ensures Classify("out.mp4") == Transfer("mp4")
  {
    ClassifyOne("out.mp4", "mp4");
  }

  /** Only the last extension counts: a tarball is skipped as a `gz` file. */
  lemma ClassifyTarball()
    ensures Classify("x.tar.gz") == Skip
  {
    assert "x.tar.gz"[5..] == "." + "gz";
    ClassifyOne("x.tar.gz", "gz");
    assert forall k :: 0 <= k < |AllowedExtensions| ==> |AllowedExtensions[k]| != 2;
  }

  /** The lookup is case-sensitive. */
  lemma ClassifyUpperCase()
    ensures Classify("shot.PNG") == Skip
  {
    assert forall k :: 0 <= k < |AllowedExtensions| ==> AllowedExtensions[k][0] != 'P';
    ClassifyOne("shot.PNG", "PNG");
  }

  /** Helper: classification of a name whose extension is known. */
  lemma ClassifyOne(name: string, e: string)
    requires EndsInExtension(name, e)
    ensures Classify(name) == if e !in AllowedExtensions then Skip else if e == "mov" then Convert else Transfer(e)
  {
    ExtractExtComplete(name, e);
  }
}
