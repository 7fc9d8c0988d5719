/** The parsed feeds the feed rewriters and the episode listers read, and the
    RSS tree the rewriters build. A parsed entry or channel is its keys with
    the `str()` of each value, in the parser's order; XML text is not
    modelled, only the tree's elements and attributes. */
module Feed {
  import opened Wrappers

  /** One entry of `entry.links`: `rel`, `type`, `href` and `length`. */
  datatype Link = Link(rel: string, kind: string, href: string, length: string)

  /** One entry of `feed.entries`. */
  datatype Entry = Entry(fields: seq<(string, string)>, links: seq<Link>)

  /** What the feed parser returns: the `bozo_exception` when the feed is
      malformed, the channel's keys (`feed.feed`) and the entries. */
  datatype ParsedFeed = ParsedFeed(bozo: Option<string>, channel: seq<(string, string)>, entries: seq<Entry>)

  /** The value under `key`, as attribute access or `.get` finds it. */
  function Get(fields: seq<(string, string)>, key: string): (r: Option<string>)
    ensures r.Some? <==> exists i :: 0 <= i < |fields| && fields[i].0 == key
    ensures r.Some? ==> (key, r.value) in fields
  {
    if fields == [] then None
    else if fields[0].0 == key then Some(fields[0].1)
    else Get(fields[1..], key)
  }

  /** The message of the `AttributeError` a missing attribute raises. */
  function NoAttribute(key: string): string
  {
    "object has no attribute '" + key + "'"
  }

  /** Attribute access, `entry.title`: the value or an `AttributeError`. */
  function Attribute(fields: seq<(string, string)>, key: string): (r: Result<string>)
    ensures r.Ok? <==> Get(fields, key).Some?
    ensures r.Ok? ==> (key, r.value) in fields
  {
    match Get(fields, key)
    case Some(v) => Ok(v)
    case None => Err(NoAttribute(key))
  }

  /** The first link whose `type` is `kind`, as the loops that `break` at
      it find it. */
  function FirstOfType(links: seq<Link>, kind: string): (r: Option<Link>)
    ensures r.Some? ==> r.value in links && r.value.kind == kind
    ensures r.None? <==> forall l :: l in links ==> l.kind != kind
  {
    if links == [] then None
    else if links[0].kind == kind then Some(links[0])
    else
      assert forall l :: l in links ==> l == links[0] || l in links[1..];
      FirstOfType(links[1..], kind)
  }

  /** `FirstOfType` is what a scan that stops at the first hit finds: the
      hit is at some position and no earlier link has that type. */
  lemma {:induction false} FirstOfTypeIsFirst(links: seq<Link>, kind: string)
    ensures var r := FirstOfType(links, kind);
            r.Some? ==> exists i :: 0 <= i < |links| && links[i] == r.value
                          && forall j :: 0 <= j < i ==> links[j].kind != kind
  {
    if links != [] && links[0].kind != kind {
      FirstOfTypeIsFirst(links[1..], kind);
      var r := FirstOfType(links[1..], kind);
      if r.Some? {
        var i :| 0 <= i < |links[1..]| && links[1..][i] == r.value
                 && forall j :: 0 <= j < i ==> links[1..][j].kind != kind;
        assert links[i + 1] == r.value;
        forall j | 0 <= j < i + 1
          ensures links[j].kind != kind
        {
          if j > 0 { assert links[j] == links[1..][j - 1]; }
        }
      }
    } else if links != [] {
      assert links[0] == FirstOfType(links, kind).value;
    }
  }

  /** An `<enclosure>` element: `url`, and `type` and `length` when set. */
  datatype Enclosure = Enclosure(url: string, kind: Option<string>, length: Option<string>)

  /** An `<item>` element: its text children in order, then its enclosures. */
  datatype Item = Item(fields: seq<(string, string)>, enclosures: seq<Enclosure>)

  /** The `<channel>` element: its text children in order, then its items. */
  datatype Channel = Channel(fields: seq<(string, string)>, items: seq<Item>)
}
