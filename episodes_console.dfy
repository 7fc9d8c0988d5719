/** Model of the command-line helpers in `utils.py`: `get_podcast_episodes`
    lists the entries that carry an MP3 link, and `choose_episode` pages
    through them ten at a time until the user picks one. The console is the
    sequence of lines the user types; what is printed is the sequence of
    pages shown. Stripping and lower-casing cover ASCII only. */
module ConsoleUtils {
  import opened Wrappers
  import opened Strings
  import opened Feed

  /** One listed episode: `{'title', 'url', 'published'}`. */
  datatype Episode = Episode(title: string, url: string, published: string)

  const AudioType := "audio/mpeg"

  /** The episode an entry yields, if it has an MP3 link; reading its title
      or date raises when the entry lacks one. */
  function EpisodeOf(e: Entry): Result<Option<Episode>>
  {
    match FirstOfType(e.links, AudioType)
    case None => Ok(None)
    case Some(link) =>
      var title :- Attribute(e.fields, "title");
      var published :- Attribute(e.fields, "published");
      Ok(Some(Episode(title, link.href, published)))
  }

  /** The list `get_podcast_episodes` returns for these entries: one episode
      per entry with an MP3 link. */
  function Episodes(entries: seq<Entry>): (r: Result<seq<Episode>>)
    ensures r.Ok? ==> |r.value| == WithAudio(entries) <= |entries|
  {
    if entries == [] then Ok([])
    else
      var init :- Episodes(entries[..|entries| - 1]);
      var ep :- EpisodeOf(entries[|entries| - 1]);
      Ok(init + match ep case Some(x) => [x] case None => [])
  }

  /** The inner loop over `entry.links`, stopping at the first MP3 link. */
  method FindAudio(links: seq<Link>) returns (r: Option<Link>)
    ensures r == FirstOfType(links, AudioType)
  {
    var i := 0;
    while i < |links|
      invariant 0 <= i <= |links|
      invariant FirstOfType(links[i..], AudioType) == FirstOfType(links, AudioType)
    {
      if links[i].kind == AudioType {
        return Some(links[i]);
      }
      assert links[i..][1..] == links[i + 1..];
      i := i + 1;
    }
    return None;
  }

  /** `get_podcast_episodes(rss_url)` on the parsed entries. */
  method GetPodcastEpisodes(entries: seq<Entry>) returns (r: Result<seq<Episode>>)
    ensures r == Episodes(entries)
  {
    var episodes: seq<Episode> := [];
    var i := 0;
    while i < |entries|
      invariant 0 <= i <= |entries|
      invariant Episodes(entries[..i]) == Ok(episodes)
    {
      var entry := entries[i];
      assert entries[..i + 1][..i] == entries[..i];
      var link := FindAudio(entry.links);
      if link.Some? {
        var title := Attribute(entry.fields, "title");
        if title.Err? {
          ListingErrorPersists(entries, i + 1);
          return Err(title.msg);
        }
        var published := Attribute(entry.fields, "published");
        if published.Err? {
          ListingErrorPersists(entries, i + 1);
          return Err(published.msg);
        }
        assert EpisodeOf(entry) == Ok(Some(Episode(title.value, link.value.href, published.value)));
        episodes := episodes + [Episode(title.value, link.value.href, published.value)];
      } else {
        assert EpisodeOf(entry) == Ok(None);
        assert episodes + [] == episodes;
      }
      assert entries[..i + 1][i] == entry;
      i := i + 1;
    }
    assert entries[..i] == entries;
    return Ok(episodes);
  }

  lemma {:induction false} ListingErrorPersists(entries: seq<Entry>, k: nat)
    requires k <= |entries| && Episodes(entries[..k]).Err?
    ensures Episodes(entries) == Episodes(entries[..k])
    decreases |entries| - k
  {
    if k < |entries| {
      assert entries[..k + 1][..k] == entries[..k];
      ListingErrorPersists(entries, k + 1);
    } else {
      assert entries[..k] == entries;
    }
  }

  /** The number of entries with an MP3 link. */
  function WithAudio(entries: seq<Entry>): nat
  {
    if entries == [] then 0
    else WithAudio(entries[..|entries| - 1]) + if FirstOfType(entries[|entries| - 1].links, AudioType).Some? then 1 else 0
  }

  /** One episode per entry with an MP3 link and none for the others, each
      taken from its entry's first MP3 link. */
  lemma {:induction false} EpisodesFromEntries(entries: seq<Entry>)
    ensures var r := Episodes(entries);
            r.Ok? ==>
              && |r.value| == WithAudio(entries) <= |entries|
              && forall ep :: ep in r.value ==>
                   exists e :: e in entries && FirstOfType(e.links, AudioType).Some?
                     && ep.url == FirstOfType(e.links, AudioType).value.href
                     && Get(e.fields, "title") == Some(ep.title)
                     && Get(e.fields, "published") == Some(ep.published)
  {
    if entries != [] {
      var init := entries[..|entries| - 1];
      var last := entries[|entries| - 1];
      EpisodesFromEntries(init);
      var r := Episodes(entries);
      if r.Ok? {
        assert forall e :: e in init ==> e in entries;
        assert last in entries;
      }
    }
  }

  /** Listing keeps the feed's order: the episodes of two runs of entries
      are those of the first followed by those of the second. */
  lemma {:induction false} EpisodesConcat(a: seq<Entry>, b: seq<Entry>)
    requires Episodes(a).Ok? && Episodes(b).Ok?
    ensures Episodes(a + b) == Ok(Episodes(a).value + Episodes(b).value)
    decreases |b|
  {
    if b == [] {
      assert a + b == a;
      assert Episodes(a).value + [] == Episodes(a).value;
    } else {
      var init := b[..|b| - 1];
      assert (a + b)[..|a + b| - 1] == a + init;
      assert (a + b)[|a + b| - 1] == b[|b| - 1];
      EpisodesConcat(a, init);
      var x := EpisodeOf(b[|b| - 1]).value;
      var tail := match x case Some(e) => [e] case None => [];
      assert Episodes(b) == Ok(Episodes(init).value + tail);
      assert Episodes(a + b) == Ok(Episodes(a + init).value + tail);
      assert Episodes(a).value + Episodes(init).value + tail == Episodes(a).value + (Episodes(init).value + tail);
    }
  }

  // ---------------------------------------------------------------------
  // choose_episode

  const PerPage := 10

  /** How the prompt loop ends: a pick, 'q' (`sys.exit(0)`), or the input
      running out (`input()` raises `EOFError`). */
  datatype Choice = Selected(episode: Episode) | Quit | OutOfInput

  /** What one typed line does. */
  datatype Step = Stop | Turn(page: nat) | Pick(index: nat) | Retry

  predicate IsSpace(c: char)
  {
    c == ' ' || c == '\t' || c == '\n' || c == '\r' || c == '\U{B}' || c == '\U{C}'
    || '\U{1C}' <= c <= '\U{1F}'
  }

  /** `s.strip()`. */
  function Strip(s: string): (r: string)
    ensures |r| <= |s|
    ensures r != [] ==> !IsSpace(r[0]) && !IsSpace(r[|r| - 1])
    decreases |s|
  {
    if s == [] then s
    else if IsSpace(s[0]) then Strip(s[1..])
    else if IsSpace(s[|s| - 1]) then Strip(s[..|s| - 1])
    else s
  }

  /** `s.lower()`. */
  function Lower(s: string): (r: string)
    ensures |r| == |s|
    ensures forall i :: 0 <= i < |s| ==> r[i] == if 'A' <= s[i] <= 'Z' then (s[i] as int + 32) as char else s[i]
  {
    if s == [] then s
    else [if 'A' <= s[0] <= 'Z' then (s[0] as int + 32) as char else s[0]] + Lower(s[1..])
  }

  /** `min(start_index + episodes_per_page, total_episodes)`. */
  function PageEnd(page: nat, total: nat): nat
  {
    if page * PerPage + PerPage < total then page * PerPage + PerPage else total
  }

  /** One pass of the `while True` body after the prompt, on the stripped
      and lower-cased choice. */
  function StepOf(page: nat, total: nat, choice: string): (r: Step)
    ensures r == Stop <==> choice == "q"
    ensures r.Pick? ==> AllDigits(choice) && r.index == DigitsValue(choice) - 1 && r.index < total
  {
    if choice == "q" then Stop
    else if choice == "p" && page > 0 then Turn(page - 1)
    else if choice == "n" && PageEnd(page, total) < total then Turn(page + 1)
    else if choice != "" && AllDigits(choice) then
      var n := DigitsValue(choice);
      if 1 <= n <= total then Pick(n - 1) else Retry
    else Retry
  }

  /** How a session ends, and the page shown before each prompt. */
  datatype Session = Session(choice: Choice, pages: seq<nat>)

  function Prepend(page: nat, s: Session): Session
  {
    Session(s.choice, [page] + s.pages)
  }

  /** The session from `page` on, with `inputs` still to be typed. */
  function Sessions(episodes: seq<Episode>, inputs: seq<string>, page: nat): Session
    decreases |inputs|
  {
    if inputs == [] then Session(OutOfInput, [page])
    else
      match StepOf(page, |episodes|, Lower(Strip(inputs[0])))
      case Stop => Session(Quit, [page])
      case Pick(i) => if i < |episodes| then Session(Selected(episodes[i]), [page]) else Session(OutOfInput, [page])
      case Turn(p) => Prepend(page, Sessions(episodes, inputs[1..], p))
      case Retry => Prepend(page, Sessions(episodes, inputs[1..], page))
  }

  /** A session that has already shown `pages`. */
  function After(pages: seq<nat>, s: Session): Session
  {
    Session(s.choice, pages + s.pages)
  }

  /** `choose_episode(episodes)` reading the lines `inputs`; it also returns
      the page shown before each prompt. */
  method ChooseEpisode(episodes: seq<Episode>, inputs: seq<string>) returns (choice: Choice, pages: seq<nat>)
    ensures Session(choice, pages) == Sessions(episodes, inputs, 0)
  {
    var total := |episodes|;
    var page: nat := 0;
    var k := 0;
    pages := [];
    assert inputs[0..] == inputs;
    while true
      invariant 0 <= k <= |inputs|
      invariant Sessions(episodes, inputs, 0) == After(pages, Sessions(episodes, inputs[k..], page))
      decreases |inputs| - k
    {
      if k == |inputs| {
        assert inputs[k..] == [];
        return OutOfInput, pages + [page];
      }
      var step := StepOf(page, total, Lower(Strip(inputs[k])));
      SessionsAt(episodes, inputs, k, page, pages);
      if step.Stop? {
        return Quit, pages + [page];
      }
      if step.Pick? {
        return Selected(episodes[step.index]), pages + [page];
      }
      pages := pages + [page];
      page := if step.Turn? then step.page else page;
      k := k + 1;
    }
  }

  /** The session that has shown `pages` and is at the k-th line goes on
      as the step that line takes says. */
  lemma SessionsAt(episodes: seq<Episode>, inputs: seq<string>, k: nat, page: nat, pages: seq<nat>)
    requires k < |inputs|
    ensures var step := StepOf(page, |episodes|, Lower(Strip(inputs[k])));
            After(pages, Sessions(episodes, inputs[k..], page)) ==
              if step.Stop? then Session(Quit, pages + [page])
              else if step.Pick? then Session(Selected(episodes[step.index]), pages + [page])
              else After(pages + [page], Sessions(episodes, inputs[k + 1..], if step.Turn? then step.page else page))
  {
    assert inputs[k..][0] == inputs[k] && inputs[k..][1..] == inputs[k + 1..];
    var step := StepOf(page, |episodes|, Lower(Strip(inputs[k])));
    if !step.Stop? && !step.Pick? {
      var later := Sessions(episodes, inputs[k + 1..], if step.Turn? then step.page else page);
      assert pages + ([page] + later.pages) == (pages + [page]) + later.pages;
    }
  }

  // ---------------------------------------------------------------------
  // What the pager promises

  /** The pages the loop can be on: the first, or one that starts inside
      the list. */
  predicate ValidPage(page: nat, total: nat)
  {
    page == 0 || page * PerPage < total
  }

  /** A valid page shows the indices [page*10, min(page*10 + 10, total)):
      at most ten, and at least one whenever the list is not empty. */
  lemma PageWindow(page: nat, total: nat)
    requires ValidPage(page, total)
    ensures page * PerPage <= PageEnd(page, total) || total == 0
    ensures PageEnd(page, total) - page * PerPage <= PerPage
    ensures total > 0 ==> page * PerPage < PageEnd(page, total) <= total
  {
  }

  /** 'p' and 'n' move only within the list, so every page shown is valid. */
  lemma StepKeepsPageValid(page: nat, total: nat, choice: string)
    requires ValidPage(page, total)
    ensures StepOf(page, total, choice).Turn? ==> ValidPage(StepOf(page, total, choice).page, total)
    ensures StepOf(page, total, choice).Turn? ==> choice in ["p", "n"]
  {
  }

  lemma {:induction false} PagesStayValid(episodes: seq<Episode>, inputs: seq<string>, page: nat)
    requires ValidPage(page, |episodes|)
    ensures forall p :: p in Sessions(episodes, inputs, page).pages ==> ValidPage(p, |episodes|)
    decreases |inputs|
  {
    if inputs != [] {
      var step := StepOf(page, |episodes|, Lower(Strip(inputs[0])));
      StepKeepsPageValid(page, |episodes|, Lower(Strip(inputs[0])));
      match step
      case Stop =>
      case Pick(i) =>
      case Turn(p) => PagesStayValid(episodes, inputs[1..], p);
      case Retry => PagesStayValid(episodes, inputs[1..], page);
    }
  }

  /** A pick is the episode whose 1-based number was typed; any other line
      that is not 'q', 'p' or 'n' leaves the page as it was. */
  lemma PickIsTypedNumber(page: nat, total: nat, choice: string)
    ensures StepOf(page, total, choice).Pick? ==>
              AllDigits(choice) && 1 <= DigitsValue(choice) <= total
              && StepOf(page, total, choice).index == DigitsValue(choice) - 1
    ensures choice !in ["q", "p", "n"] && !StepOf(page, total, choice).Pick? ==> StepOf(page, total, choice) == Retry
  {
  }

  /** The session ends with a pick only of a listed episode, and every page
      shown is valid. */
  lemma SessionOutcome(episodes: seq<Episode>, inputs: seq<string>)
    ensures var s := Sessions(episodes, inputs, 0);
            && (s.choice.Selected? ==> s.choice.episode in episodes)
            && |s.pages| >= 1
            && forall p :: p in s.pages ==> ValidPage(p, |episodes|)
  {
    PagesStayValid(episodes, inputs, 0);
    SelectedListed(episodes, inputs, 0);
  }

  lemma {:induction false} SelectedListed(episodes: seq<Episode>, inputs: seq<string>, page: nat)
    ensures var s := Sessions(episodes, inputs, page);
            (s.choice.Selected? ==> s.choice.episode in episodes) && |s.pages| >= 1
    decreases |inputs|
  {
    if inputs != [] {
      match StepOf(page, |episodes|, Lower(Strip(inputs[0])))
      case Stop =>
      case Pick(i) =>
      case Turn(p) => SelectedListed(episodes, inputs[1..], p);
      case Retry => SelectedListed(episodes, inputs[1..], page);
    }
  }

  /** Upper case and surrounding blanks are ignored: " Q\n" quits. */
  lemma QuitIgnoresCaseAndBlanks(page: nat, total: nat)
    ensures StepOf(page, total, Lower(Strip(" Q\n"))) == Stop
  {
    assert Strip(" Q\n") == Strip("Q\n") == Strip("Q") == "Q";
    assert Lower("Q") == "q";
  }
}
