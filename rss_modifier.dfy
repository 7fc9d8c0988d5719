/** Model of `backend/rss_modifier.py`: the rewritten feed that points each
    processed episode's enclosure at its edited file, and the in-memory cache
    that keeps a rewritten feed for an hour. The parsed feed, `urljoin` and
    `os.path.exists` (`onDisk`) are parameters; `time.time()` is `now`, in whole seconds. */
module BackendRss {
  import opened Wrappers
  import opened Strings
  import opened Feed

  /** A processed-podcast record. */
  type Record = map<string, string>

  /** How long a cached feed is served, in seconds. */
  const CacheTTL := 3600
  const CachePrefix := "modified_rss:"

  /** `get_audio_info`: placeholder size and duration for any file. */
  function AudioInfo(path: string): (int, int)
  {
    (1000000, 600)
  }

  /** The channel filter `elem not in ('items', 'links')`: a real tuple. */
  predicate ChannelKeeps(key: string)
  {
    key != "items" && key != "links"
  }

  /** The item filter `elem not in ('links')`: the parentheses make a plain
      string, so this asks whether `key` occurs inside "links". */
  predicate ItemKeeps(key: string)
  {
    !IsSubstring(key, "links")
  }

  /** The keys of `fs` that `keep` admits, in order. */
  function FilterFields(fs: seq<(string, string)>, keep: string -> bool): (r: seq<(string, string)>)
    ensures |r| <= |fs|
    ensures forall x :: x in r <==> x in fs && keep(x.0)
  {
    if fs == [] then []
    else
      var init := FilterFields(fs[..|fs| - 1], keep);
      assert forall x :: x in fs <==> x in fs[..|fs| - 1] || x == fs[|fs| - 1];
      init + if keep(fs[|fs| - 1].0) then [fs[|fs| - 1]] else []
  }

  /** Whether a processed record is the one for this feed and entry; the
      title is read only once the URL has matched, and a missing key raises. */
  function Matches(ep: Record, rssUrl: string, title: Option<string>): Result<bool>
  {
    if "rss_url" !in ep then Err("'rss_url'")
    else if ep["rss_url"] != rssUrl then Ok(false)
    else if "episode_title" !in ep then Err("'episode_title'")
    else if title.None? then Err(NoAttribute("title"))
    else Ok(ep["episode_title"] == title.value)
  }

  /** `next((ep for ep in processed_podcasts if …), None)`. */
  function FirstMatch(processed: seq<Record>, rssUrl: string, title: Option<string>): (r: Result<Option<Record>>)
    ensures r.Ok? && r.value.Some? ==> r.value.value in processed && Matches(r.value.value, rssUrl, title) == Ok(true)
  {
    if processed == [] then Ok(None)
    else
      var m :- Matches(processed[0], rssUrl, title);
      if m then Ok(Some(processed[0])) else FirstMatch(processed[1..], rssUrl, title)
  }

  /** The record found is the first that matches, every record before it
      was read and did not match, and finding none means none matched. */
  lemma {:induction false} FirstMatchIsFirst(processed: seq<Record>, rssUrl: string, title: Option<string>)
    ensures var r := FirstMatch(processed, rssUrl, title);
            && (r == Ok(None) ==> forall ep :: ep in processed ==> Matches(ep, rssUrl, title) == Ok(false))
            && (r.Ok? && r.value.Some? ==>
                  exists i :: 0 <= i < |processed| && processed[i] == r.value.value
                    && forall j :: 0 <= j < i ==> Matches(processed[j], rssUrl, title) == Ok(false))
  {
    if processed != [] && Matches(processed[0], rssUrl, title) == Ok(false) {
      var tail := processed[1..];
      FirstMatchIsFirst(tail, rssUrl, title);
      var r := FirstMatch(tail, rssUrl, title);
      assert FirstMatch(processed, rssUrl, title) == r;
      if r == Ok(None) {
        assert forall ep :: ep in processed ==> ep == processed[0] || ep in tail;
      }
      if r.Ok? && r.value.Some? {
        var i :| 0 <= i < |tail| && tail[i] == r.value.value
                 && forall j :: 0 <= j < i ==> Matches(tail[j], rssUrl, title) == Ok(false);
        assert processed[i + 1] == r.value.value;
        forall j | 0 <= j < i + 1
          ensures Matches(processed[j], rssUrl, title) == Ok(false)
        {
          if j > 0 { assert processed[j] == tail[j - 1]; }
        }
      }
    } else if processed != [] && Matches(processed[0], rssUrl, title) == Ok(true) {
      assert processed[0] == FirstMatch(processed, rssUrl, title).value.value;
    }
  }

  /** `f"output/{podcast_title}/{episode_title}/{basename(edited_url)}"`. */
  function RelativePath(ep: Record): Result<string>
  {
    if "podcast_title" !in ep then Err("'podcast_title'")
    else if "episode_title" !in ep then Err("'episode_title'")
    else if "edited_url" !in ep then Err("'edited_url'")
    else Ok("output/" + ep["podcast_title"] + "/" + ep["episode_title"] + "/" + Basename(ep["edited_url"]))
  }

  /** The enclosure one `rel == 'enclosure'` link becomes: the edited file
      when a record matched, with the placeholder size when the local file
      `os.path.join('output', relative_path)` exists; the original link's
      attributes otherwise. */
  function EnclosureFor(link: Link, found: Option<Record>, urlRoot: string,
                        urljoin: (string, string) -> string, onDisk: string -> bool): Result<Enclosure>
  {
    match found
    case None => Ok(Enclosure(link.href, Some(link.kind), Some(link.length)))
    case Some(ep) =>
      var rel :- RelativePath(ep);
      var url := urljoin(urlRoot, rel);
      if onDisk("output/" + rel) then Ok(Enclosure(url, None, Some(IntToString(AudioInfo("output/" + rel).0))))
      else Ok(Enclosure(url, None, None))
  }

  /** The enclosures of one item: one per enclosure link, in order. The
      record lookup is made for each of them and raises only if one exists. */
  function ItemEnclosures(links: seq<Link>, found: Result<Option<Record>>, urlRoot: string,
                          urljoin: (string, string) -> string, onDisk: string -> bool): Result<seq<Enclosure>>
  {
    if links == [] then Ok([])
    else
      var init :- ItemEnclosures(links[..|links| - 1], found, urlRoot, urljoin, onDisk);
      var link := links[|links| - 1];
      if link.rel != "enclosure" then Ok(init)
      else
        var ep :- found;
        var e :- EnclosureFor(link, ep, urlRoot, urljoin, onDisk);
        Ok(init + [e])
  }

  /** One `<item>`: the entry's fields past the item filter, then its
      enclosures. */
  function ModifiedItem(entry: Entry, rssUrl: string, processed: seq<Record>, urlRoot: string,
                        urljoin: (string, string) -> string, onDisk: string -> bool): Result<Item>
  {
    var found := FirstMatch(processed, rssUrl, Get(entry.fields, "title"));
    var encs :- ItemEnclosures(entry.links, found, urlRoot, urljoin, onDisk);
    Ok(Item(FilterFields(entry.fields, ItemKeeps), encs))
  }

  function ModifiedItems(entries: seq<Entry>, rssUrl: string, processed: seq<Record>, urlRoot: string,
                         urljoin: (string, string) -> string, onDisk: string -> bool): Result<seq<Item>>
  {
    if entries == [] then Ok([])
    else
      var init :- ModifiedItems(entries[..|entries| - 1], rssUrl, processed, urlRoot, urljoin, onDisk);
      var item :- ModifiedItem(entries[|entries| - 1], rssUrl, processed, urlRoot, urljoin, onDisk);
      Ok(init + [item])
  }

  /** The tree `create_modified_rss_feed` serialises: when it is built, item
      i comes from entry i, with the entry's kept fields and one enclosure
      per enclosure link. */
  function ModifiedFeed(feed: ParsedFeed, rssUrl: string, processed: seq<Record>, urlRoot: string,
                        urljoin: (string, string) -> string, onDisk: string -> bool): (r: Result<Channel>)
    ensures r.Ok? ==> Follows(r.value.items, feed.entries)
  {
    var items :- ModifiedItems(feed.entries, rssUrl, processed, urlRoot, urljoin, onDisk);
    ItemsFollow(feed.entries, rssUrl, processed, urlRoot, urljoin, onDisk);
    Ok(Channel(FilterFields(feed.channel, ChannelKeeps), items))
  }

  /** `create_modified_rss_feed(original_rss_url, processed_podcasts,
      url_root)` on the parsed feed, building the tree element by element. */
  method CreateModifiedRssFeed(feed: ParsedFeed, rssUrl: string, processed: seq<Record>, urlRoot: string,
                               urljoin: (string, string) -> string, onDisk: string -> bool)
    returns (r: Result<Channel>)
    ensures r == ModifiedFeed(feed, rssUrl, processed, urlRoot, urljoin, onDisk)
  {
    var fields := CopyFields(feed.channel, ChannelKeeps);
    var items: seq<Item> := [];
    var i := 0;
    while i < |feed.entries|
      invariant 0 <= i <= |feed.entries|
      invariant ModifiedItems(feed.entries[..i], rssUrl, processed, urlRoot, urljoin, onDisk) == Ok(items)
    {
      var item := BuildItem(feed.entries[i], rssUrl, processed, urlRoot, urljoin, onDisk);
      ItemsAt(feed.entries, i, rssUrl, processed, urlRoot, urljoin, onDisk);
      if item.Err? {
        ItemsErrorPersists(feed.entries, i + 1, rssUrl, processed, urlRoot, urljoin, onDisk);
        return Err(item.msg);
      }
      items := items + [item.value];
      i := i + 1;
    }
    assert feed.entries[..i] == feed.entries;
    return Ok(Channel(fields, items));
  }

  /** The loop appending one text child per admitted key. */
  method CopyFields(fs: seq<(string, string)>, keep: string -> bool) returns (out: seq<(string, string)>)
    ensures out == FilterFields(fs, keep)
  {
    out := [];
    var i := 0;
    while i < |fs|
      invariant 0 <= i <= |fs|
      invariant out == FilterFields(fs[..i], keep)
    {
      assert fs[..i + 1][..i] == fs[..i];
      if keep(fs[i].0) {
        out := out + [fs[i]];
      }
      i := i + 1;
    }
    assert fs[..i] == fs;
  }

  /** One pass of the item loop: the text children, then the link loop. */
  method BuildItem(entry: Entry, rssUrl: string, processed: seq<Record>, urlRoot: string,
                   urljoin: (string, string) -> string, onDisk: string -> bool)
    returns (r: Result<Item>)
    ensures r == ModifiedItem(entry, rssUrl, processed, urlRoot, urljoin, onDisk)
  {
    var fields := CopyFields(entry.fields, ItemKeeps);
    var found := FirstMatch(processed, rssUrl, Get(entry.fields, "title"));
    var encs: seq<Enclosure> := [];
    var i := 0;
    while i < |entry.links|
      invariant 0 <= i <= |entry.links|
      invariant ItemEnclosures(entry.links[..i], found, urlRoot, urljoin, onDisk) == Ok(encs)
    {
      var link := entry.links[i];
      assert entry.links[..i + 1][..i] == entry.links[..i];
      if link.rel == "enclosure" {
        var e := if found.Err? then Err(found.msg) else EnclosureFor(link, found.value, urlRoot, urljoin, onDisk);
        if e.Err? {
          EnclosuresErrorPersists(entry.links, i + 1, found, urlRoot, urljoin, onDisk);
          return Err(e.msg);
        }
        encs := encs + [e.value];
      }
      i := i + 1;
    }
    assert entry.links[..i] == entry.links;
    return Ok(Item(fields, encs));
  }

  /** The items of the first i + 1 entries extend those of the first i by
      the item of entry i, or fail with it. */
  lemma ItemsAt(entries: seq<Entry>, i: nat, rssUrl: string, processed: seq<Record>, urlRoot: string,
                urljoin: (string, string) -> string, onDisk: string -> bool)
    requires i < |entries|
    ensures var before := ModifiedItems(entries[..i], rssUrl, processed, urlRoot, urljoin, onDisk);
            var item := ModifiedItem(entries[i], rssUrl, processed, urlRoot, urljoin, onDisk);
            before.Ok? ==>
              ModifiedItems(entries[..i + 1], rssUrl, processed, urlRoot, urljoin, onDisk)
              == if item.Err? then Err(item.msg) else Ok(before.value + [item.value])
  {
    assert entries[..i + 1][..i] == entries[..i];
  }

  lemma {:induction false} ItemsErrorPersists(entries: seq<Entry>, k: nat, rssUrl: string, processed: seq<Record>,
                                              urlRoot: string, urljoin: (string, string) -> string,
                                              onDisk: string -> bool)
    requires k <= |entries|
    requires ModifiedItems(entries[..k], rssUrl, processed, urlRoot, urljoin, onDisk).Err?
    ensures ModifiedItems(entries, rssUrl, processed, urlRoot, urljoin, onDisk)
            == ModifiedItems(entries[..k], rssUrl, processed, urlRoot, urljoin, onDisk)
    decreases |entries| - k
  {
    if k < |entries| {
      assert entries[..k + 1][..k] == entries[..k];
      ItemsErrorPersists(entries, k + 1, rssUrl, processed, urlRoot, urljoin, onDisk);
    } else {
      assert entries[..k] == entries;
    }
  }

  lemma {:induction false} EnclosuresErrorPersists(links: seq<Link>, k: nat, found: Result<Option<Record>>,
                                                   urlRoot: string, urljoin: (string, string) -> string,
                                                   onDisk: string -> bool)
    requires k <= |links|
    requires ItemEnclosures(links[..k], found, urlRoot, urljoin, onDisk).Err?
    ensures ItemEnclosures(links, found, urlRoot, urljoin, onDisk)
            == ItemEnclosures(links[..k], found, urlRoot, urljoin, onDisk)
    decreases |links| - k
  {
    if k < |links| {
      assert links[..k + 1][..k] == links[..k];
      EnclosuresErrorPersists(links, k + 1, found, urlRoot, urljoin, onDisk);
    } else {
      assert links[..k] == links;
    }
  }

  // ---------------------------------------------------------------------
  // What the rewritten feed promises

  /** The number of links that are enclosures. */
  function EnclosureLinks(links: seq<Link>): nat
  {
    if links == [] then 0
    else EnclosureLinks(links[..|links| - 1]) + if links[|links| - 1].rel == "enclosure" then 1 else 0
  }

  /** Item i carries the kept fields of entry i and one enclosure per
      enclosure link of it. */
  predicate Follows(items: seq<Item>, entries: seq<Entry>)
  {
    && |items| == |entries|
    && forall i :: 0 <= i < |entries| ==>
         items[i].fields == FilterFields(entries[i].fields, ItemKeeps)
         && |items[i].enclosures| == EnclosureLinks(entries[i].links)
  }

  /** Every item of the rewritten feed comes from the entry at the same
      position, with one enclosure per enclosure link. */
  lemma {:induction false} ItemsFollowEntries(entries: seq<Entry>, rssUrl: string, processed: seq<Record>,
                                              urlRoot: string, urljoin: (string, string) -> string,
                                              onDisk: string -> bool)
    ensures var r := ModifiedItems(entries, rssUrl, processed, urlRoot, urljoin, onDisk);
            r.Ok? ==>
              && |r.value| == |entries|
              && forall i :: 0 <= i < |entries| ==>
                   r.value[i].fields == FilterFields(entries[i].fields, ItemKeeps)
                   && |r.value[i].enclosures| == EnclosureLinks(entries[i].links)
  {
    var r := ModifiedItems(entries, rssUrl, processed, urlRoot, urljoin, onDisk);
    if r.Ok? {
      ItemsFollow(entries, rssUrl, processed, urlRoot, urljoin, onDisk);
    }
  }

  lemma {:induction false} ItemsFollow(entries: seq<Entry>, rssUrl: string, processed: seq<Record>,
                                       urlRoot: string, urljoin: (string, string) -> string,
                                       onDisk: string -> bool)
    requires ModifiedItems(entries, rssUrl, processed, urlRoot, urljoin, onDisk).Ok?
    ensures Follows(ModifiedItems(entries, rssUrl, processed, urlRoot, urljoin, onDisk).value, entries)
  {
    if entries != [] {
      var init := entries[..|entries| - 1];
      var last := entries[|entries| - 1];
      var a := ModifiedItems(init, rssUrl, processed, urlRoot, urljoin, onDisk);
      var item := ModifiedItem(last, rssUrl, processed, urlRoot, urljoin, onDisk);
      assert a.Ok? && item.Ok?;
      ItemsFollow(init, rssUrl, processed, urlRoot, urljoin, onDisk);
      var found := FirstMatch(processed, rssUrl, Get(last.fields, "title"));
      EnclosureCount(last.links, found, urlRoot, urljoin, onDisk);
      FollowsSnoc(a.value, init, item.value, last);
      assert init + [last] == entries;
    }
  }

  lemma FollowsSnoc(items: seq<Item>, entries: seq<Entry>, item: Item, entry: Entry)
    requires Follows(items, entries)
    requires item.fields == FilterFields(entry.fields, ItemKeeps)
    requires |item.enclosures| == EnclosureLinks(entry.links)
    ensures Follows(items + [item], entries + [entry])
  {
    forall i | 0 <= i < |entries| ensures (items + [item])[i] == items[i] && (entries + [entry])[i] == entries[i] {
    }
  }

  lemma {:induction false} EnclosureCount(links: seq<Link>, found: Result<Option<Record>>, urlRoot: string,
                                          urljoin: (string, string) -> string, onDisk: string -> bool)
    ensures var r := ItemEnclosures(links, found, urlRoot, urljoin, onDisk);
            r.Ok? ==> |r.value| == EnclosureLinks(links)
  {
    if links != [] {
      EnclosureCount(links[..|links| - 1], found, urlRoot, urljoin, onDisk);
    }
  }

  /** Without a matching record, every enclosure copies the `href`, `type`
      and `length` of an enclosure link of the entry. */
  lemma {:induction false} UnmatchedCopiesLinks(links: seq<Link>, urlRoot: string,
                                                urljoin: (string, string) -> string, onDisk: string -> bool)
    ensures var r := ItemEnclosures(links, Ok(None), urlRoot, urljoin, onDisk);
            && r.Ok?
            && forall e :: e in r.value ==>
                 exists l :: l in links && l.rel == "enclosure" && e == Enclosure(l.href, Some(l.kind), Some(l.length))
  {
    if links != [] {
      var init := links[..|links| - 1];
      var last := links[|links| - 1];
      UnmatchedCopiesLinks(init, urlRoot, urljoin, onDisk);
      var ri := ItemEnclosures(init, Ok(None), urlRoot, urljoin, onDisk);
      var r := ItemEnclosures(links, Ok(None), urlRoot, urljoin, onDisk);
      assert forall l :: l in init ==> l in links;
      assert last in links;
      if last.rel == "enclosure" {
        assert r.value == ri.value + [Enclosure(last.href, Some(last.kind), Some(last.length))];
      } else {
        assert r.value == ri.value;
      }
    }
  }

  /** With a matching record, every enclosure of the item points at the
      edited file under `url_root` and carries no type. */
  lemma {:induction false} MatchedPointsAtEdit(links: seq<Link>, ep: Record, urlRoot: string,
                                               urljoin: (string, string) -> string, onDisk: string -> bool)
    ensures var r := ItemEnclosures(links, Ok(Some(ep)), urlRoot, urljoin, onDisk);
            r.Ok? ==>
              forall e :: e in r.value ==>
                RelativePath(ep).Ok? && e.url == urljoin(urlRoot, RelativePath(ep).value) && e.kind == None
  {
    if links != [] {
      var init := links[..|links| - 1];
      var last := links[|links| - 1];
      MatchedPointsAtEdit(init, ep, urlRoot, urljoin, onDisk);
      var r := ItemEnclosures(links, Ok(Some(ep)), urlRoot, urljoin, onDisk);
      if r.Ok? {
        var ri := ItemEnclosures(init, Ok(Some(ep)), urlRoot, urljoin, onDisk);
        if last.rel == "enclosure" {
          var e := EnclosureFor(last, Some(ep), urlRoot, urljoin, onDisk);
          assert e.Ok? && r.value == ri.value + [e.value];
        } else {
          assert r.value == ri.value;
        }
      }
    }
  }

  /** `str(new_size)` for the placeholder size. */
  lemma PlaceholderSize(path: string)
    ensures IntToString(AudioInfo(path).0) == "1000000"
  {
    assert NatToString(1) == "1";
    assert NatToString(10) == "10";
    assert NatToString(100) == "100";
    assert NatToString(1000) == "1000";
    assert NatToString(10000) == "10000";
    assert NatToString(100000) == "100000";
    assert NatToString(1000000) == "1000000";
  }

  /** The processed enclosure's URL, spelled out for the record's fields. */
  lemma EditedEnclosureUrl(ep: Record, urlRoot: string, urljoin: (string, string) -> string,
                           onDisk: string -> bool, link: Link)
    requires "podcast_title" in ep && "episode_title" in ep && "edited_url" in ep
    ensures var e := EnclosureFor(link, Some(ep), urlRoot, urljoin, onDisk);
            var rel := "output/" + ep["podcast_title"] + "/" + ep["episode_title"] + "/" + Basename(ep["edited_url"]);
            && e.Ok?
            && e.value.url == urljoin(urlRoot, rel)
            && e.value.kind == None
            && e.value.length == (if onDisk("output/" + rel) then Some("1000000") else None)
  {
    var rel := "output/" + ep["podcast_title"] + "/" + ep["episode_title"] + "/" + Basename(ep["edited_url"]);
    PlaceholderSize("output/" + rel);
  }

  /** A key longer than the string cannot occur in it. */
  lemma {:induction false} LongerIsNotInside(a: string, b: string)
    requires |a| > |b|
    ensures !IsSubstring(a, b)
  {
    if b != [] {
      LongerIsNotInside(a, b[1..]);
    }
  }

  /** The two filters differ: the item filter drops every key that occurs
      inside "links", such as "link", "ink" and "s"; the channel filter
      drops only "items" and "links". */
  lemma FiltersDiffer()
    ensures !ItemKeeps("link") && !ItemKeeps("ink") && !ItemKeeps("s") && !ItemKeeps("links") && !ItemKeeps("")
    ensures ItemKeeps("title") && ItemKeeps("items") && ItemKeeps("summary")
    ensures ChannelKeeps("link") && !ChannelKeeps("items") && !ChannelKeeps("links")
  {
    assert "links"[..4] == "link";
    assert "links"[1..] == "inks" && "inks"[..3] == "ink";
    assert "links"[1..][1..][1..][1..] == "s";
    assert IsSubstring("s", "s");
    assert IsSubstring("s", "ks");
    assert IsSubstring("s", "nks");
    assert IsSubstring("s", "inks");
    LongerIsNotInside("title", "inks");
    LongerIsNotInside("items", "inks");
    LongerIsNotInside("summary", "links");
    assert "title"[0] != "links"[0] && "items"[0] != "links"[0];
  }

  // ---------------------------------------------------------------------
  // The cache

  /** One `rss_cache` entry: the rewritten feed and when it was built. */
  datatype Cached = Cached(content: Channel, timestamp: int)

  function CacheKey(rssUrl: string): string { CachePrefix + rssUrl }

  /** A cached feed for `rssUrl` less than an hour old at `now`. */
  predicate Fresh(entries: map<string, Cached>, rssUrl: string, now: int)
  {
    CacheKey(rssUrl) in entries && now - entries[CacheKey(rssUrl)].timestamp < CacheTTL
  }

  /** The module-level `rss_cache` dict. */
  class RssCache {
    var entries: map<string, Cached>

    constructor ()
      ensures entries == map[]
    {
      entries := map[];
    }

    /** `get_or_create_modified_rss`: a fresh entry is served as it is,
        whatever the records and the root; otherwise the feed is rebuilt and
        cached. The clock is read twice: `now` for the freshness check, and
        `stored`, read after the rebuild, for the new entry's timestamp. A
        rebuild that raises caches nothing. */
    method GetOrCreateModifiedRss(feed: ParsedFeed, rssUrl: string, processed: seq<Record>, urlRoot: string,
                                  urljoin: (string, string) -> string, onDisk: string -> bool,
                                  now: int, stored: int)
      returns (r: Result<Channel>)
      modifies this
      ensures Fresh(old(entries), rssUrl, now) ==>
                r == Ok(old(entries)[CacheKey(rssUrl)].content) && entries == old(entries)
      ensures !Fresh(old(entries), rssUrl, now) ==>
                r == ModifiedFeed(feed, rssUrl, processed, urlRoot, urljoin, onDisk)
                && entries == if r.Ok? then old(entries)[CacheKey(rssUrl) := Cached(r.value, stored)] else old(entries)
    {
      var key := CacheKey(rssUrl);
      if key in entries && now - entries[key].timestamp < CacheTTL {
        return Ok(entries[key].content);
      }
      r := CreateModifiedRssFeed(feed, rssUrl, processed, urlRoot, urljoin, onDisk);
      if r.Ok? {
        entries := entries[key := Cached(r.value, stored)];
      }
    }

    /** `invalidate_rss_cache`: drop this feed's entry, if any. */
    method InvalidateRssCache(rssUrl: string)
      modifies this
      ensures entries == old(entries) - {CacheKey(rssUrl)}
    {
      var key := CacheKey(rssUrl);
      if key in entries {
        entries := entries - {key};
      }
    }
  }

  /** Different feeds never share a cache entry. */
  lemma CacheKeysDistinct(a: string, b: string)
    ensures CacheKey(a) == CacheKey(b) ==> a == b
  {
    if CacheKey(a) == CacheKey(b) {
      assert a == CacheKey(a)[|CachePrefix|..];
    }
  }

  /** A feed cached with timestamp `t` (the second clock reading of the call
      that rebuilt it) is served until `t + 3600` and rebuilt from then on;
      no other feed's freshness changes. */
  lemma StoredIsFresh(entries: map<string, Cached>, rssUrl: string, c: Channel, t: int, other: string, now: int)
    ensures Fresh(entries[CacheKey(rssUrl) := Cached(c, t)], rssUrl, now) <==> now < t + CacheTTL
    ensures other != rssUrl ==>
              Fresh(entries[CacheKey(rssUrl) := Cached(c, t)], other, now) == Fresh(entries, other, now)
  {
    CacheKeysDistinct(rssUrl, other);
  }

  /** After invalidation the next call for that feed rebuilds, at any time,
      and the other feeds are served as before. */
  lemma InvalidateForcesRebuild(entries: map<string, Cached>, rssUrl: string, other: string, now: int)
    ensures !Fresh(entries - {CacheKey(rssUrl)}, rssUrl, now)
    ensures other != rssUrl ==> Fresh(entries - {CacheKey(rssUrl)}, other, now) == Fresh(entries, other, now)
    ensures CacheKey(rssUrl) !in entries ==> entries - {CacheKey(rssUrl)} == entries
  {
    CacheKeysDistinct(rssUrl, other);
  }
}
