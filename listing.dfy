/** File names: the name a recording is saved under, the recordings offered
    on the data page, and the music offered on the recording page. Directory
    contents are given as lists of entry names. */
module Listing {
  import opened Seqs

  const RecordingSuffix: string := "_raw.fif"
  const NoMusic: string := "No Music"

  /** Python's `str.endswith`. */
  predicate EndsWith(s: string, suffix: string) {
    |suffix| <= |s| && s[|s| - |suffix|..] == suffix
  }

  predicate IsRecordingFile(name: string) {
    EndsWith(name, RecordingSuffix)
  }

  predicate IsMusicFile(name: string) {
    EndsWith(name, ".mp3") || EndsWith(name, ".wav")
  }

  /** The name a recording is saved under, from the filename field's text. */
  function SaveName(text: string): (name: string)
    ensures IsRecordingFile(name)
    ensures |name| == |text| + |RecordingSuffix| && name[..|text|] == text
  {
    text + RecordingSuffix
  }

  /** Distinct filename texts are saved under distinct names. */
  lemma SaveNameInjective(a: string, b: string)
    requires SaveName(a) == SaveName(b)
    ensures a == b
  {
    assert a == SaveName(a)[..|a|];
    assert b == SaveName(b)[..|b|];
  }

  /** The recordings offered for analysis, in directory order. */
  function RecordingFiles(entries: seq<string>): (r: seq<string>)
    ensures forall i :: 0 <= i < |r| ==> IsRecordingFile(r[i])
  {
    Filter(entries, IsRecordingFile)
  }

  /** A name is offered exactly when it is in the directory and ends with the
      recording suffix; in particular every saved recording is offered. */
  lemma RecordingFilesExact(entries: seq<string>, name: string)
    ensures name in RecordingFiles(entries) <==> name in entries && IsRecordingFile(name)
    ensures forall text :: SaveName(text) in entries ==> SaveName(text) in RecordingFiles(entries)
  {
    FilterMembership(entries, IsRecordingFile, name);
    forall text | SaveName(text) in entries
      ensures SaveName(text) in RecordingFiles(entries)
    {
      FilterMembership(entries, IsRecordingFile, SaveName(text));
    }
  }

  /** Listing keeps directory order: the listing of two runs of entries is
      the listing of the first followed by that of the second. */
  lemma RecordingFilesAppend(a: seq<string>, b: seq<string>)
    ensures RecordingFiles(a + b) == RecordingFiles(a) + RecordingFiles(b)
  {
    FilterAppend(a, b, IsRecordingFile);
  }

  /** The music choices: "No Music" first, then the audio files in directory
      order. */
  function MusicChoices(entries: seq<string>): (r: seq<string>)
    ensures |r| >= 1 && r[0] == NoMusic
    ensures forall i :: 1 <= i < |r| ==> IsMusicFile(r[i]) && r[i] in entries
  {
    var audio := Filter(entries, IsMusicFile);
    forall i | 0 <= i < |audio|
      ensures audio[i] in entries
    {
      FilterMembership(entries, IsMusicFile, audio[i]);
    }
    [NoMusic] + audio
  }

  /** The choices keep directory order and list each entry as often as the
      directory does: the choices for two runs of entries are those of the
      first followed by the audio files of the second. */
  lemma MusicChoicesAppend(a: seq<string>, b: seq<string>)
    ensures MusicChoices(a + b) == MusicChoices(a) + MusicChoices(b)[1..]
  {
    FilterAppend(a, b, IsMusicFile);
    assert MusicChoices(b)[1..] == Filter(b, IsMusicFile);
  }

  /** A single entry is offered once, after "No Music", exactly when it is an
      audio file. */
  lemma MusicChoicesSingleton(name: string)
    ensures MusicChoices([name]) == [NoMusic] + (if IsMusicFile(name) then [name] else [])
  {
    FilterSingleton(name, IsMusicFile);
  }

  /** Every audio file in the directory is offered. */
  lemma MusicChoicesComplete(entries: seq<string>, name: string)
    requires name in entries && IsMusicFile(name)
    ensures name in MusicChoices(entries)[1..]
  {
    FilterMembership(entries, IsMusicFile, name);
    assert MusicChoices(entries)[1..] == Filter(entries, IsMusicFile);
  }
}
