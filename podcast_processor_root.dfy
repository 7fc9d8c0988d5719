/** Model of `process_podcast_episode` in the command-line `podcast_processor.py`:
    list the feed's MP3 episodes, pick one by index, download it, transcribe
    it with Whisper, write the transcript, ask the LLM for unwanted content,
    write it out, cut it from the audio, and return where the artifacts are.
    Every file name comes from the episode title with spaces turned into
    underscores. The downloads, Whisper, the LLM and the editor are outcomes
    in `Collaborators`; the files written other than the transcript are not
    modelled. */
module RootProcessor {
  import opened Wrappers
  import opened Strings
  import Slices
  import Feed
  import ConsoleUtils
  import SweepEditor

  /** The result dict: `edited_url`, `transcript_file`, `unwanted_content_file`. */
  type Record = map<string, string>

  /** One Whisper segment; `start` and `end` are the `str()` of its times. */
  datatype TranscriptSegment = TranscriptSegment(start: string, end: string, text: string)

  /** What `model.transcribe` hands back: it raises, returns `None`, returns
      a result without "segments", or returns the segments. */
  datatype Transcription = Raised(msg: string) | NoResult | NoSegments | Segments(segments: seq<TranscriptSegment>)

  /** The behaviour of everything the processor calls but does not define.
      An `Option<string>` is the message of the exception a call raises. */
  datatype Collaborators = Collaborators(
    entries: seq<Feed.Entry>,              // feedparser.parse(rss_url).entries
    download: Option<string>,              // download_episode
    whisperLoad: Option<string>,           // whisper.load_model("base")
    transcription: Transcription,          // model.transcribe(input_filename)
    detection: Result<Option<seq<SweepEditor.Segment>>>, // find_unwanted_content + parse_llm_response; None: no 'unwanted_content' key
    editing: Option<string>)               // edit_audio

  /** `title.replace(' ', '_')`. */
  function Safe(title: string): string { ReplaceChar(title, ' ', '_') }

  function InputPath(title: string): string { "input/" + Safe(title) + ".mp3" }
  function TranscriptPath(title: string): string { "output/" + Safe(title) + "_transcript.txt" }
  function UnwantedPath(title: string): string { "output/" + Safe(title) + "_unwanted_content.json" }
  function OutputPath(title: string): string { "output/" + Safe(title) + "_edited.mp3" }

  /** The result of a successful run for the episode titled `title`. */
  function ResultFor(title: string): Record
  {
    map["edited_url" := "/output/" + Basename(OutputPath(title)),
        "transcript_file" := TranscriptPath(title),
        "unwanted_content_file" := UnwantedPath(title)]
  }

  /** `f"{item['start']} - {item['end']}: {item['text']}"`, without the newline. */
  function Line(s: TranscriptSegment): string
  {
    s.start + " - " + s.end + ": " + s.text
  }

  function Lines(segs: seq<TranscriptSegment>): (r: seq<string>)
    ensures |r| == |segs|
    ensures forall i :: 0 <= i < |segs| ==> r[i] == Line(segs[i])
  {
    if segs == [] then [] else [Line(segs[0])] + Lines(segs[1..])
  }

  /** What the transcript file holds: each line followed by a newline. */
  function Transcript(segs: seq<TranscriptSegment>): string
  {
    if segs == [] then "" else Line(segs[0]) + "\n" + Transcript(segs[1..])
  }

  /** The episode the index picks, when the listing succeeds and the index
      is in Python's range. */
  predicate Picks(c: Collaborators, index: int)
  {
    var eps := ConsoleUtils.Episodes(c.entries);
    eps.Ok? && index < |eps.value| && -|eps.value| <= index
  }

  function Picked(c: Collaborators, index: int): ConsoleUtils.Episode
    requires Picks(c, index)
  {
    var eps := ConsoleUtils.Episodes(c.entries).value;
    eps[Slices.PyIndex(index, |eps|)]
  }

  /** The segments whose transcript is written, when the run gets that far. */
  function Transcribed(c: Collaborators, index: int): Option<seq<TranscriptSegment>>
  {
    if Picks(c, index) && c.download.None? && c.whisperLoad.None? && c.transcription.Segments? then
      Some(c.transcription.segments)
    else None
  }

  /** What `process_podcast_episode(rss_url, episode_index)` returns or
      raises. A successful run has picked an episode and written its
      transcript, and returns exactly the three artifact entries, the edited
      URL being the edited file's name under "/output/". */
  function Outcome(c: Collaborators, index: int): (r: Result<Record>)
    ensures r.Ok? ==> Picks(c, index) && Transcribed(c, index).Some?
    ensures r.Ok? ==> var title := Picked(c, index).title;
            && r.value.Keys == {"edited_url", "transcript_file", "unwanted_content_file"}
            && r.value["edited_url"] == "/output/" + Basename(OutputPath(title))
            && r.value["transcript_file"] == TranscriptPath(title)
            && r.value["unwanted_content_file"] == UnwantedPath(title)
  {
    var eps :- ConsoleUtils.Episodes(c.entries);
    if index >= |eps| then Err("Episode index out of range")
    else if index < -|eps| then Err("list index out of range")
    else
      var title := eps[Slices.PyIndex(index, |eps|)].title;
      if c.download.Some? then Err(c.download.value)
      else if c.whisperLoad.Some? then Err(c.whisperLoad.value)
      else
        match c.transcription
        case Raised(e) => Err(e)
        case NoResult => Err("Transcription failed")
        case NoSegments => Err("Transcription failed")
        case Segments(_) =>
          match c.detection
          case Err(e) => Err(e)
          case Ok(None) => Err("'unwanted_content'")
          case Ok(Some(_)) =>
            if c.editing.Some? then Err(c.editing.value) else Ok(ResultFor(title))
  }

  /** The run, step by step; `transcript` is what the transcript file holds
      afterwards, `None` when it was never written. */
  method ProcessPodcastEpisode(c: Collaborators, index: int) returns (r: Result<Record>, transcript: Option<string>)
    ensures r == Outcome(c, index)
    ensures transcript == match Transcribed(c, index) case Some(segs) => Some(Transcript(segs)) case None => None
  {
    transcript := None;
    var listed := ConsoleUtils.GetPodcastEpisodes(c.entries);
    if listed.Err? {
      return Err(listed.msg), None;
    }
    var episodes := listed.value;
    if index >= |episodes| {
      return Err("Episode index out of range"), None;
    }
    if index < -|episodes| {
      return Err("list index out of range"), None;
    }
    var chosen := episodes[Slices.PyIndex(index, |episodes|)];
    if c.download.Some? {
      return Err(c.download.value), None;
    }
    if c.whisperLoad.Some? {
      return Err(c.whisperLoad.value), None;
    }
    match c.transcription {
      case Raised(e) => return Err(e), None;
      case NoResult => return Err("Transcription failed"), None;
      case NoSegments => return Err("Transcription failed"), None;
      case Segments(segs) =>
        var text := WriteTranscript(segs);
        transcript := Some(text);
    }
    match c.detection {
      case Err(e) => return Err(e), transcript;
      case Ok(None) => return Err("'unwanted_content'"), transcript;
      case Ok(Some(_)) =>
    }
    if c.editing.Some? {
      return Err(c.editing.value), transcript;
    }
    r := Ok(ResultFor(chosen.title));
  }

  /** The loop writing one line per segment. */
  method WriteTranscript(segs: seq<TranscriptSegment>) returns (text: string)
    ensures text == Transcript(segs)
  {
    text := "";
    var i := 0;
    while i < |segs|
      invariant 0 <= i <= |segs|
      invariant text == Transcript(segs[..i])
    {
      TranscriptAppend(segs[..i], segs[i]);
      assert segs[..i + 1] == segs[..i] + [segs[i]];
      text := text + Line(segs[i]) + "\n";
      i := i + 1;
    }
    assert segs[..i] == segs;
  }

  lemma {:induction false} TranscriptAppend(segs: seq<TranscriptSegment>, s: TranscriptSegment)
    ensures Transcript(segs + [s]) == Transcript(segs) + Line(s) + "\n"
  {
    if segs == [] {
      assert [] + [s] == [s];
      assert [s][1..] == [];
    } else {
      assert (segs + [s])[0] == segs[0] && (segs + [s])[1..] == segs[1..] + [s];
      TranscriptAppend(segs[1..], s);
    }
  }

  // ---------------------------------------------------------------------
  // What the run promises

  /** An index at or past the end raises before anything is downloaded or
      written. */
  lemma IndexPastEnd(c: Collaborators, index: int)
    requires ConsoleUtils.Episodes(c.entries).Ok? && index >= |ConsoleUtils.Episodes(c.entries).value|
    ensures Outcome(c, index) == Err("Episode index out of range")
    ensures Transcribed(c, index) == None
  {
  }

  /** A negative index is not rejected: it picks that many places from the
      end, exactly as the equivalent non-negative index. */
  lemma NegativeIndexFromEnd(c: Collaborators, index: int)
    requires ConsoleUtils.Episodes(c.entries).Ok?
    requires -|ConsoleUtils.Episodes(c.entries).value| <= index < 0
    ensures Outcome(c, index) == Outcome(c, index + |ConsoleUtils.Episodes(c.entries).value|)
    ensures Transcribed(c, index) == Transcribed(c, index + |ConsoleUtils.Episodes(c.entries).value|)
  {
  }

  /** No result, or a result without segments, raises "Transcription failed"
      and no transcript is written. */
  lemma TranscriptionFailed(c: Collaborators, index: int)
    requires Picks(c, index) && c.download.None? && c.whisperLoad.None?
    requires c.transcription == NoResult || c.transcription == NoSegments
    ensures Outcome(c, index) == Err("Transcription failed")
    ensures Transcribed(c, index) == None
  {
  }

  /** The transcript holds one line per segment, in order, provided no
      segment's fields contain a newline themselves. */
  lemma {:induction false} OneLinePerSegment(segs: seq<TranscriptSegment>)
    requires forall i :: 0 <= i < |segs| ==> '\n' !in Line(segs[i])
    ensures Split(Transcript(segs), '\n') == Lines(segs) + [""]
    ensures Count(Transcript(segs), '\n') == |segs|
  {
    if segs != [] {
      OneLinePerSegment(segs[1..]);
      SplitPrefix(Line(segs[0]), Transcript(segs[1..]), '\n');
      assert Line(segs[0]) + "\n" + Transcript(segs[1..]) == Line(segs[0]) + ['\n'] + Transcript(segs[1..]);
      assert Lines(segs) == [Line(segs[0])] + Lines(segs[1..]);
    }
    SplitLength(Transcript(segs), '\n');
  }

  /** For a title without '/', the edited URL is "/output/" followed by the
      title with underscores and "_edited.mp3". */
  lemma EditedUrlOfPlainTitle(title: string)
    requires '/' !in title
    ensures ResultFor(title)["edited_url"] == "/output/" + Safe(title) + "_edited.mp3"
  {
    var name := Safe(title) + "_edited.mp3";
    assert '/' !in Safe(title);
    assert '/' !in name by {
      assert forall i :: 0 <= i < |name| ==> name[i] == if i < |Safe(title)| then Safe(title)[i] else "_edited.mp3"[i - |Safe(title)|];
    }
    SplitPrefix("output", name, '/');
    assert OutputPath(title) == "output" + ['/'] + name;
    SplitNoSep(name, '/');
  }

  /** The four artifacts of one episode never share a path. */
  lemma PathsDistinct(title: string)
    ensures InputPath(title) != TranscriptPath(title)
    ensures InputPath(title) != UnwantedPath(title) && InputPath(title) != OutputPath(title)
    ensures TranscriptPath(title) != UnwantedPath(title) && TranscriptPath(title) != OutputPath(title)
    ensures UnwantedPath(title) != OutputPath(title)
  {
    assert InputPath(title)[0] == 'i' && TranscriptPath(title)[0] == 'o';
    assert UnwantedPath(title)[0] == 'o' && OutputPath(title)[0] == 'o';
  }
}
