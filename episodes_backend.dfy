/** Model of `get_podcast_episodes` in `backend/utils.py`: every entry of a
    well-formed feed becomes a numbered episode with defaults for a missing
    title or date; a malformed feed is an error. */
module BackendEpisodes {
  import opened Wrappers
  import opened Feed

  /** `{'number', 'title', 'published'}`. */
  datatype Episode = Episode(number: int, title: string, published: string)

  const ErrorPrefix := "Failed to parse podcast episodes: "

  /** The episode for the entry at 0-based position `i`. */
  function EpisodeAt(e: Entry, i: nat): Episode
  {
    Episode(i + 1, Get(e.fields, "title").GetOr("Untitled"), Get(e.fields, "published").GetOr("Unknown date"))
  }

  /** `get_podcast_episodes(rss_url)` on the parsed feed: the loop over
      `enumerate(feed.entries)`. */
  method GetPodcastEpisodes(feed: ParsedFeed) returns (r: Result<seq<Episode>>)
    ensures feed.bozo.Some? <==> r.Err?
    ensures feed.bozo.Some? ==> r.msg == ErrorPrefix + "Invalid RSS feed: " + feed.bozo.value
    ensures r.Ok? ==> |r.value| == |feed.entries|
    ensures r.Ok? ==> forall i :: 0 <= i < |feed.entries| ==>
              && r.value[i].number == i + 1
              && r.value[i].title == Get(feed.entries[i].fields, "title").GetOr("Untitled")
              && r.value[i].published == Get(feed.entries[i].fields, "published").GetOr("Unknown date")
  {
    if feed.bozo.Some? {
      return Err(ErrorPrefix + "Invalid RSS feed: " + feed.bozo.value);
    }
    if feed.entries == [] {
      return Ok([]);
    }
    var episodes: seq<Episode> := [];
    var i := 0;
    while i < |feed.entries|
      invariant 0 <= i <= |feed.entries|
      invariant |episodes| == i
      invariant forall j :: 0 <= j < i ==> episodes[j] == EpisodeAt(feed.entries[j], j)
    {
      episodes := episodes + [EpisodeAt(feed.entries[i], i)];
      i := i + 1;
    }
    return Ok(episodes);
  }

  /** The numbers are 1, 2, …, n in order, so they are distinct and the
      episode numbered k is the k-th entry. */
  lemma NumbersIdentifyEntries(eps: seq<Episode>, entries: seq<Entry>, k: int)
    requires |eps| == |entries|
    requires forall i :: 0 <= i < |entries| ==> eps[i] == EpisodeAt(entries[i], i)
    ensures forall i, j :: 0 <= i < j < |eps| ==> eps[i].number < eps[j].number
    ensures 1 <= k <= |eps| ==> eps[k - 1].number == k && eps[k - 1] == EpisodeAt(entries[k - 1], k - 1)
  {
  }

  /** A title or date the entry has is kept as it is; only a missing one is
      replaced. */
  lemma DefaultsOnlyWhenMissing(e: Entry, i: nat)
    ensures (EpisodeAt(e, i).title == "Untitled") <==>
            (Get(e.fields, "title").None? || Get(e.fields, "title") == Some("Untitled"))
    ensures Get(e.fields, "published").Some? ==> EpisodeAt(e, i).published == Get(e.fields, "published").value
  {
  }
}
