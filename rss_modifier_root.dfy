/** Model of `create_modified_rss_feed` in the command-line `rss_modifier.py`:
    copy the channel's title, link and description and each entry's title,
    link, description and date, and point each entry's first MP3 link at
    the edited file the command-line processor would write for that title.
    Every field is read by attribute access, so a missing one raises. The
    parsed feed is a parameter; the XML text is not modelled. */
module RootRss {
  import opened Wrappers
  import opened Strings
  import opened Feed
  import RootProcessor

  const AudioType := "audio/mpeg"

  /** `f"/output/{entry.title.replace(' ', '_')}_edited.mp3"`. */
  function EditedUrl(title: string): string
  {
    "/output/" + ReplaceChar(title, ' ', '_') + "_edited.mp3"
  }

  /** The three text children of `<channel>`. */
  function ChannelFields(channel: seq<(string, string)>): Result<seq<(string, string)>>
  {
    var title :- Attribute(channel, "title");
    var link :- Attribute(channel, "link");
    var description :- Attribute(channel, "description");
    Ok([("title", title), ("link", link), ("description", description)])
  }

  /** The enclosures of one item: one for the first MP3 link, if any. */
  function Enclosures(links: seq<Link>, title: string): seq<Enclosure>
  {
    if FirstOfType(links, AudioType).Some? then [Enclosure(EditedUrl(title), Some(AudioType), None)] else []
  }

  /** One `<item>`. */
  function RootItem(entry: Entry): Result<Item>
  {
    var title :- Attribute(entry.fields, "title");
    var link :- Attribute(entry.fields, "link");
    var description :- Attribute(entry.fields, "description");
    var published :- Attribute(entry.fields, "published");
    Ok(Item([("title", title), ("link", link), ("description", description), ("pubDate", published)],
            Enclosures(entry.links, title)))
  }

  /** The items of `entries` in order, `build` making each; the first
      failure is the result. */
  function Collect(entries: seq<Entry>, build: Entry -> Result<Item>): Result<seq<Item>>
  {
    if entries == [] then Ok([])
    else
      var init :- Collect(entries[..|entries| - 1], build);
      var item :- build(entries[|entries| - 1]);
      Ok(init + [item])
  }

  function RootItems(entries: seq<Entry>): Result<seq<Item>>
  {
    Collect(entries, RootItem)
  }

  /** The tree the function serialises: it fails exactly when the channel or
      some entry lacks a required field, and otherwise holds one item per
      entry, in the entries' order. */
  function RootFeed(feed: ParsedFeed): (r: Result<Channel>)
    ensures r.Ok? <==> ChannelFields(feed.channel).Ok? && forall i :: 0 <= i < |feed.entries| ==> RootItem(feed.entries[i]).Ok?
    ensures r.Ok? ==> |r.value.items| == |feed.entries|
    ensures r.Ok? ==> forall i :: 0 <= i < |feed.entries| ==> r.value.items[i] == RootItem(feed.entries[i]).value
  {
    CollectFollows(feed.entries, RootItem);
    var fields :- ChannelFields(feed.channel);
    var items :- RootItems(feed.entries);
    Ok(Channel(fields, items))
  }

  /** The function itself, building the tree element by element. */
  method CreateModifiedRssFeed(feed: ParsedFeed) returns (r: Result<Channel>)
    ensures r == RootFeed(feed)
  {
    var fields :- ChannelFields(feed.channel);
    var items: seq<Item> := [];
    var i := 0;
    while i < |feed.entries|
      invariant 0 <= i <= |feed.entries|
      invariant RootItems(feed.entries[..i]) == Ok(items)
    {
      var item := BuildItem(feed.entries[i]);
      RootItemsAt(feed.entries, i);
      if item.Err? {
        RootItemsErrorPersists(feed.entries, i + 1);
        return Err(item.msg);
      }
      items := items + [item.value];
      i := i + 1;
    }
    assert feed.entries[..i] == feed.entries;
    return Ok(Channel(fields, items));
  }

  /** One pass of the entry loop: the text children, then the link loop
      that stops at the first MP3 link. */
  method BuildItem(entry: Entry) returns (r: Result<Item>)
    ensures r == RootItem(entry)
  {
    var title :- Attribute(entry.fields, "title");
    var link :- Attribute(entry.fields, "link");
    var description :- Attribute(entry.fields, "description");
    var published :- Attribute(entry.fields, "published");
    var encs: seq<Enclosure> := [];
    var i := 0;
    while i < |entry.links|
      invariant 0 <= i <= |entry.links|
      invariant forall j :: 0 <= j < i ==> entry.links[j].kind != AudioType
    {
      if entry.links[i].kind == AudioType {
        FirstOfTypeAt(entry.links, AudioType, i);
        encs := [Enclosure(EditedUrl(title), Some(AudioType), None)];
        break;
      }
      i := i + 1;
    }
    if i == |entry.links| {
      assert forall l :: l in entry.links ==> l.kind != AudioType;
    }
    return Ok(Item([("title", title), ("link", link), ("description", description), ("pubDate", published)], encs));
  }

  /** A link of the sought type with none before it is what `FirstOfType`
      finds. */
  lemma {:induction false} FirstOfTypeAt(links: seq<Link>, kind: string, i: nat)
    requires i < |links| && links[i].kind == kind
    requires forall j :: 0 <= j < i ==> links[j].kind != kind
    ensures FirstOfType(links, kind) == Some(links[i])
  {
    if i > 0 {
      forall j | 0 <= j < i - 1
        ensures links[1..][j].kind != kind
      {
        assert links[1..][j] == links[j + 1];
      }
      FirstOfTypeAt(links[1..], kind, i - 1);
    }
  }

  /** The items of the first i + 1 entries extend those of the first i by
      the item of entry i, or fail with it. */
  lemma RootItemsAt(entries: seq<Entry>, i: nat)
    requires i < |entries|
    ensures var before := RootItems(entries[..i]);
            var item := RootItem(entries[i]);
            before.Ok? ==>
              RootItems(entries[..i + 1]) == if item.Err? then Err(item.msg) else Ok(before.value + [item.value])
  {
    assert entries[..i + 1][..i] == entries[..i];
  }

  lemma {:induction false} RootItemsErrorPersists(entries: seq<Entry>, k: nat)
    requires k <= |entries|
    requires RootItems(entries[..k]).Err?
    ensures RootItems(entries) == RootItems(entries[..k])
    decreases |entries| - k
  {
    if k < |entries| {
      assert entries[..k + 1][..k] == entries[..k];
      RootItemsErrorPersists(entries, k + 1);
    } else {
      assert entries[..k] == entries;
    }
  }

  // ---------------------------------------------------------------------
  // What the rewritten feed promises

  /** One item per entry, in the entries' order; the feed fails exactly
      when some entry lacks one of the four fields. */
  lemma ItemsFollowEntries(entries: seq<Entry>)
    ensures RootItems(entries).Ok? <==> forall i :: 0 <= i < |entries| ==> RootItem(entries[i]).Ok?
    ensures RootItems(entries).Ok? ==>
              && |RootItems(entries).value| == |entries|
              && forall i :: 0 <= i < |entries| ==> RootItems(entries).value[i] == RootItem(entries[i]).value
  {
    CollectFollows(entries, RootItem);
  }

  lemma {:induction false} CollectFollows(entries: seq<Entry>, build: Entry -> Result<Item>)
    ensures Collect(entries, build).Ok? <==> forall i :: 0 <= i < |entries| ==> build(entries[i]).Ok?
    ensures Collect(entries, build).Ok? ==>
              && |Collect(entries, build).value| == |entries|
              && forall i :: 0 <= i < |entries| ==> Collect(entries, build).value[i] == build(entries[i]).value
  {
    if entries != [] {
      var n := |entries| - 1;
      var init := entries[..n];
      CollectFollows(init, build);
      assert forall i :: 0 <= i < n ==> init[i] == entries[i];
      var a := Collect(init, build);
      if a.Err? {
        var k :| 0 <= k < n && build(init[k]).Err?;
        assert build(entries[k]).Err?;
      }
    }
  }

  /** An entry becomes an item exactly when it has a title, link,
      description and date, and the item carries those four values in that
      order, the date under `pubDate`. */
  lemma ItemFields(entry: Entry)
    ensures RootItem(entry).Ok? <==>
              && Get(entry.fields, "title").Some? && Get(entry.fields, "link").Some?
              && Get(entry.fields, "description").Some? && Get(entry.fields, "published").Some?
    ensures RootItem(entry).Ok? ==>
              (RootItem(entry).value.fields ==
               [("title", Get(entry.fields, "title").value), ("link", Get(entry.fields, "link").value),
                ("description", Get(entry.fields, "description").value),
                ("pubDate", Get(entry.fields, "published").value)])
  {
  }

  /** An item has at most one enclosure, and has one exactly when the entry
      has an MP3 link; that enclosure is typed MP3 and names no length. */
  lemma OneEnclosure(entry: Entry)
    requires RootItem(entry).Ok?
    ensures |RootItem(entry).value.enclosures| <= 1
    ensures |RootItem(entry).value.enclosures| == 1 <==> exists l :: l in entry.links && l.kind == AudioType
    ensures forall e :: e in RootItem(entry).value.enclosures ==> e.kind == Some(AudioType) && e.length.None?
  {
  }

  /** For a title without '/', the enclosure points at exactly the
      `edited_url` the command-line processor returns for that title. */
  lemma EnclosureIsProcessedUrl(entry: Entry)
    requires RootItem(entry).Ok? && |RootItem(entry).value.enclosures| == 1
    requires '/' !in Get(entry.fields, "title").value
    ensures RootItem(entry).value.enclosures[0].url
            == RootProcessor.ResultFor(Get(entry.fields, "title").value)["edited_url"]
  {
    RootProcessor.EditedUrlOfPlainTitle(Get(entry.fields, "title").value);
  }

  /** The channel keeps exactly its title, link and description; any one
      missing fails the whole feed. */
  lemma ChannelShape(feed: ParsedFeed)
    ensures ChannelFields(feed.channel).Err? ==> RootFeed(feed).Err?
    ensures RootFeed(feed).Ok? ==>
              (RootFeed(feed).value.fields ==
               [("title", Get(feed.channel, "title").value), ("link", Get(feed.channel, "link").value),
                ("description", Get(feed.channel, "description").value)])
    ensures ChannelFields(feed.channel).Ok? <==>
              Get(feed.channel, "title").Some? && Get(feed.channel, "link").Some? && Get(feed.channel, "description").Some?
  {
  }
}
