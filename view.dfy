/** The page logic of main.js without the DOM: the filter state and its
    predicate (applyFilters), the store labels (formatStore), what a game card
    shows, and the bookkeeping of `state` done by loadGames and the filter
    checkboxes. */
module View {
  import opened Catalog
  import opened Text
  import opened Sequences
  import Constants
  import MockProvider
  import Aggregator
  import Enricher

  /** `state.filters`: the lower-cased search text and the selected stores
      and tag names. */
  datatype Filters = Filters(search: string, sources: set<string>, tags: set<string>)

  /** The filters of a fresh page (main.js:7-11). */
  const NoFilters: Filters := Filters("", {}, {})

  /** `game.sources.some((src) => selected.has(src.store))`. */
  predicate ListedIn(g: Game, selected: set<string>)
  {
    exists s :: s in g.sources && s.store in selected
  }

  /** `game.tags.some((tag) => selected.has(tag.name))`. */
  predicate TaggedWith(g: Game, selected: set<string>)
  {
    exists t :: t in g.tags && t.name in selected
  }

  /** The callback of applyFilters (main.js:159-168): a selected store lists
      the game, the search text (if any) occurs in the lower-cased title, and
      a selected tag (if any tag is selected) is among its tags. */
  predicate Matches(g: Game, f: Filters)
  {
    && ListedIn(g, f.sources)
    && (f.search != "" ==> Contains(Lower(g.title), f.search))
    && (|f.tags| != 0 ==> TaggedWith(g, f.tags))
  }

  /** `games.filter(...)`: the matching games, in their order, each as often
      as it occurs. */
  function Visible(games: seq<Game>, f: Filters): (r: seq<Game>)
    ensures IsSubsequence(r, games)
    ensures forall g :: multiset(r)[g] == if Matches(g, f) then multiset(games)[g] else 0
    decreases |games|
  {
    if games == [] then []
    else
      var rest := Visible(games[1..], f);
      assert games == [games[0]] + games[1..];
      if Matches(games[0], f) then
        SubsequenceBoth(games[0], rest, games[1..]);
        [games[0]] + rest
      else
        SubsequenceCons(rest, games[0], games[1..]);
        rest
  }

  /** A game is shown exactly when it is loaded and matches the filters. */
  lemma VisibleMembers(games: seq<Game>, f: Filters)
    ensures forall g :: g in Visible(games, f) <==> g in games && Matches(g, f)
  {
    forall g
      ensures g in Visible(games, f) <==> g in games && Matches(g, f)
    {
      assert g in Visible(games, f) <==> multiset(Visible(games, f))[g] > 0;
      assert g in games <==> multiset(games)[g] > 0;
    }
  }

  /** With no store selected nothing is shown. */
  lemma NoStoreShowsNothing(games: seq<Game>, f: Filters)
    requires f.sources == {}
    ensures Visible(games, f) == []
  {
    var r := Visible(games, f);
    assert forall g :: !ListedIn(g, f.sources);
    assert multiset(r) == multiset{};
    assert |r| == |multiset(r)|;
  }

  /** Selecting more stores, with the same search and tags, never hides a
      game: what was shown is still shown, in the same order. */
  lemma {:induction false} MoreStoresShowMore(games: seq<Game>, f: Filters, wider: Filters)
    requires wider == f.(sources := wider.sources) && f.sources <= wider.sources
    ensures IsSubsequence(Visible(games, f), Visible(games, wider))
    decreases |games|
  {
    if games != [] {
      var g := games[0];
      var narrow, wide := Visible(games[1..], f), Visible(games[1..], wider);
      MoreStoresShowMore(games[1..], f, wider);
      assert games == [g] + games[1..];
      if Matches(g, f) {
        assert Matches(g, wider);
        SubsequenceBoth(g, narrow, wide);
      } else if Matches(g, wider) {
        SubsequenceCons(narrow, g, wide);
      }
    }
  }

  /** With no search text and no tag selected, every game listed on a
      selected store is shown, so the whole list when all its stores are
      selected. */
  lemma {:induction false} AllStoresShowAll(games: seq<Game>, f: Filters)
    requires f.search == "" && f.tags == {}
    requires forall g :: g in games ==> g.sources != [] && KeySet(g.sources, StoreOf) <= f.sources
    ensures Visible(games, f) == games
    decreases |games|
  {
    if games != [] {
      var g := games[0];
      assert g in games && g.sources[0] in g.sources;
      assert g.sources[0].store in KeySet(g.sources, StoreOf);
      assert Matches(g, f);
      assert forall h :: h in games[1..] ==> h in games;
      AllStoresShowAll(games[1..], f);
      assert games == [g] + games[1..];
    }
  }

  /** On a fresh page, once loadGames has selected every loaded store, every
      loaded game that has a listing is shown. */
  lemma FreshSelectionShowsAll(loaded: seq<Game>)
    requires forall g :: g in loaded ==> g.sources != []
    ensures Visible(loaded, NoFilters.(sources := StoresOf(loaded))) == loaded
  {
    StoresOfListings(loaded);
    AllStoresShowAll(loaded, NoFilters.(sources := StoresOf(loaded)));
  }

  /** Every store of every game, as loadGames collects them into the
      selection (main.js:43). */
  ghost function StoresOf(games: seq<Game>): set<string>
    decreases |games|
  {
    if games == [] then {} else StoresOf(games[..|games| - 1]) + KeySet(games[|games| - 1].sources, StoreOf)
  }

  /** StoresOf holds the stores of the games' listings and nothing else. */
  lemma {:induction false} StoresOfListings(games: seq<Game>)
    ensures forall g :: g in games ==> KeySet(g.sources, StoreOf) <= StoresOf(games)
    ensures forall s :: s in StoresOf(games) ==> exists g :: g in games && s in KeySet(g.sources, StoreOf)
    decreases |games|
  {
    if games != [] {
      var init, last := games[..|games| - 1], games[|games| - 1];
      StoresOfListings(init);
      assert games == init + [last];
      assert forall g :: g in games ==> g in init || g == last;
      assert forall g :: g in init ==> g in games;
    }
  }

  lemma StoresOfStep(games: seq<Game>, i: nat)
    requires i < |games|
    ensures StoresOf(games[..i + 1]) == StoresOf(games[..i]) + KeySet(games[i].sources, StoreOf)
  {
    assert games[..i + 1][..i] == games[..i];
  }

  /** The five stores with a label of their own. */
  const LabelledStores: set<string> := {Constants.STEAM, Constants.STEAMDB, Constants.ITCH, Constants.GOG, Constants.EPIC}

  /** formatStore (main.js:181-196). */
  function FormatStore(store: string): (name: string)
    ensures name == "Other" <==> store !in LabelledStores
    ensures name in {"Steam", "SteamDB", "itch.io", "GOG", "Epic", "Other"}
  {
    if store == Constants.STEAM then "Steam"
    else if store == Constants.STEAMDB then "SteamDB"
    else if store == Constants.ITCH then "itch.io"
    else if store == Constants.GOG then "GOG"
    else if store == Constants.EPIC then "Epic"
    else "Other"
  }

  /** The label of each named store (main.js:183-192). */
  lemma StoreLabels()
    ensures FormatStore(Constants.STEAM) == "Steam"
    ensures FormatStore(Constants.STEAMDB) == "SteamDB"
    ensures FormatStore(Constants.ITCH) == "itch.io"
    ensures FormatStore(Constants.GOG) == "GOG"
    ensures FormatStore(Constants.EPIC) == "Epic"
  {
  }

  /** No two labelled stores share a label, and the synthesised `other`
      store is shown as "Other". */
  lemma FormatStoreDistinguishes(a: string, b: string)
    requires a in LabelledStores && b in LabelledStores && a != b
    ensures FormatStore(a) != FormatStore(b)
    ensures FormatStore(Constants.OTHER) == "Other"
  {
  }

  /** The summary line of a game card (main.js:108). */
  function CardSummary(g: Game): (text: string)
    ensures g.summary != "" ==> text == g.summary
    ensures g.summary == "" ==> text <= g.description && |text| == if |g.description| < 140 then |g.description| else 140
  {
    if g.summary != "" then g.summary else Prefix(g.description, 140)
  }

  /** A card is blank only for a game with neither summary nor description;
      after enrichment the card shows the enriched summary unless it is "". */
  lemma CardSummaryBlank(g: Game, reply: Enricher.Reply)
    ensures CardSummary(g) == "" <==> g.summary == "" && g.description == ""
    ensures var e := Enricher.EnrichGame(g, reply); e.summary != "" ==> CardSummary(e) == e.summary
  {
  }

  /** The text of the placeholder shown for a game without tags. */
  const NoTagsYet: string := "No tags yet"

  /** The tag chips of a game card (main.js:111-123): the names of at most
      the first four tags, or the placeholder alone. */
  function CardTags(g: Game): (chips: seq<string>)
    ensures 1 <= |chips| <= 4
    ensures g.tags == [] ==> chips == [NoTagsYet]
    ensures g.tags != [] ==> |chips| == (if |g.tags| < 4 then |g.tags| else 4)
    ensures g.tags != [] ==> forall i :: 0 <= i < |chips| ==> chips[i] == g.tags[i].name
  {
    if g.tags != [] then
      var shown := if |g.tags| < 4 then g.tags else g.tags[..4];
      seq(|shown|, i requires 0 <= i < |shown| => shown[i].name)
    else [NoTagsYet]
  }

  /** `providerList` (main.js:15). */
  const ProviderList: seq<Provider> := [MockProvider.Mock]

  /** The mock provider answers every request with well-formed games. */
  lemma MockAnswers()
    ensures Aggregator.Outcome(MockProvider.Mock).Games?
    ensures MockProvider.WellFormed(Aggregator.Outcome(MockProvider.Mock).games)
  {
    assert Aggregator.Outcome(MockProvider.Mock) == Games(MockProvider.FetchNewReleases(Aggregator.Request));
  }

  /** The provider list meets the aggregator's requirements. */
  lemma ProviderListAdmissible()
    ensures Aggregator.Admissible(ProviderList)
  {
    MockAnswers();
  }

  /** The mock provider never fails, so loading reports no error. */
  lemma ProviderListNoErrors()
    ensures Aggregator.Errors(ProviderList) == []
  {
    MockAnswers();
    Aggregator.ErrorsReportFailures(ProviderList);
  }

  /** The status line of loadGames (main.js:48). */
  function Status(errors: seq<string>): (message: string)
    ensures errors == [] ==> message == "Showing latest mock releases."
    ensures |errors| == 1 ==> message == errors[0]
  {
    if |errors| == 0 then "Showing latest mock releases." else Join(errors, " · ")
  }

  /** `parts.join(separator)`. */
  function Join(parts: seq<string>, separator: string): (r: string)
    ensures |parts| == 1 ==> r == parts[0]
    decreases |parts|
  {
    if parts == [] then ""
    else if |parts| == 1 then parts[0]
    else Join(parts[..|parts| - 1], separator) + separator + parts[|parts| - 1]
  }

  /** The module-level `state` of main.js: the loaded games and the filters
      (`selectedGameId` belongs to the detail view and is left out). */
  class App {
    var games: seq<Game>
    var filters: Filters

    constructor()
      ensures games == [] && filters == NoFilters
    {
      games := [];
      filters := NoFilters;
    }

    /** applyFilters (main.js:158-169). */
    function ApplyFilters(): seq<Game>
      reads this
    {
      Visible(games, filters)
    }

    /** loadGames (main.js:38-49) with the text generator's answers as
        `generate`: the games are always replaced; the store selection is
        filled with every loaded store only when it is empty. On a fresh
        page every loaded game is then shown. */
    method LoadGames(generate: (nat, string) -> Enricher.Reply) returns (status: string)
      modifies this
      ensures Aggregator.Admissible(ProviderList) && games == Aggregator.Pipeline(ProviderList, generate)
      ensures old(filters.sources) == {} ==> filters == old(filters).(sources := StoresOf(games))
      ensures old(filters.sources) != {} ==> filters == old(filters)
      ensures old(filters) == NoFilters ==> ApplyFilters() == games
      ensures status == Status([])
    {
      ProviderListAdmissible();
      ProviderListNoErrors();
      var loaded, errors := Aggregator.FetchAllProviders(ProviderList, generate);
      assert forall g :: g in loaded ==> g.sources != [];
      Show(loaded);
      status := Status(errors);
    }

    /** The part of loadGames after the fetch (main.js:41-44). */
    method Show(loaded: seq<Game>)
      modifies this
      requires forall g :: g in loaded ==> g.sources != []
      ensures games == loaded
      ensures old(filters.sources) == {} ==> filters == old(filters).(sources := StoresOf(loaded))
      ensures old(filters.sources) != {} ==> filters == old(filters)
      ensures old(filters) == NoFilters ==> ApplyFilters() == loaded
    {
      games := loaded;
      if |filters.sources| == 0 {
        SelectAllStores(loaded);
        assert filters.sources == StoresOf(loaded);
      }
      if old(filters) == NoFilters {
        FreshSelectionShowsAll(loaded);
      }
    }

    /** `games.forEach((game) => game.sources.forEach(...add(src.store)))`
        (main.js:43). */
    method SelectAllStores(loaded: seq<Game>)
      modifies this
      ensures games == old(games)
      ensures filters == old(filters).(sources := old(filters.sources) + StoresOf(loaded))
    {
      var i := 0;
      while i < |loaded|
        invariant 0 <= i <= |loaded|
        invariant games == old(games)
        invariant filters == old(filters).(sources := old(filters.sources) + StoresOf(loaded[..i]))
      {
        StoresOfStep(loaded, i);
        SelectStores(loaded[i].sources);
        i := i + 1;
      }
      assert loaded[..i] == loaded;
    }

    /** `game.sources.forEach((src) => state.filters.sources.add(src.store))`. */
    method SelectStores(listings: seq<Source>)
      modifies this
      ensures games == old(games)
      ensures filters == old(filters).(sources := old(filters.sources) + KeySet(listings, StoreOf))
    {
      var j := 0;
      while j < |listings|
        invariant 0 <= j <= |listings|
        invariant games == old(games)
        invariant filters == old(filters).(sources := old(filters.sources) + KeySet(listings[..j], StoreOf))
      {
        TakeOneMore(listings, j);
        KeySetAppend(listings[..j], [listings[j]], StoreOf);
        KeySetSingleton(listings[j], StoreOf);
        filters := filters.(sources := filters.sources + {listings[j].store});
        j := j + 1;
      }
      assert listings[..j] == listings;
    }

    /** The change handler of a store checkbox (main.js:69-73). Checking
        never hides a game and unchecking never reveals one. */
    method CheckSource(store: string, checked: bool)
      modifies this
      ensures games == old(games)
      ensures filters == old(filters).(sources := if checked then old(filters.sources) + {store} else old(filters.sources) - {store})
      ensures checked ==> IsSubsequence(old(ApplyFilters()), ApplyFilters())
      ensures !checked ==> IsSubsequence(ApplyFilters(), old(ApplyFilters()))
    {
      var before := filters;
      if checked {
        filters := filters.(sources := filters.sources + {store});
        MoreStoresShowMore(games, before, filters);
      } else {
        filters := filters.(sources := filters.sources - {store});
        MoreStoresShowMore(games, filters, before);
      }
    }

    /** The change handler of a tag checkbox (main.js:85-89). */
    method CheckTag(tag: string, checked: bool)
      modifies this
      ensures games == old(games)
      ensures filters == old(filters).(tags := if checked then old(filters.tags) + {tag} else old(filters.tags) - {tag})
    {
      if checked {
        filters := filters.(tags := filters.tags + {tag});
      } else {
        filters := filters.(tags := filters.tags - {tag});
      }
    }

    /** The input handler of the search box (main.js:25-28): the text is
        stored lower-cased, so the search ignores the case of the titles and
        of what was typed. */
    method SetSearch(value: string)
      modifies this
      ensures games == old(games)
      ensures filters == old(filters).(search := Lower(value))
    {
      filters := filters.(search := Lower(value));
    }
  }
}
