/** The mock provider (providers/mockProvider.js): four fixed sample games;
    fetchNewReleases sorts a copy of them newest first and keeps the first
    `limit` of them when a limit is given. */
module MockProvider {
  import opened Catalog
  import opened Dates
  import Text
  import Constants

  function Listing(store: string, storeId: string, storeUrl: string): RawSource
  {
    RawSource(Present(store), Present(storeId), Present(storeUrl), Undefined, Undefined)
  }

  function Tags(names: seq<string>): seq<Tag>
  {
    seq(|names|, i requires 0 <= i < |names| => Tag(names[i], Undefined))
  }

  /** `sampleGames` (providers/mockProvider.js:7-76). */
  const SampleGames: seq<RawGame> := [
    RawGame(
      "mock-1", "Orbital Life Simulator", Present("orbital-life-simulator"),
      Present("Manage a small habitat in orbit, balancing life support, crew morale, and research agendas."),
      Present("Run a modular orbital habitat with crew management and research decisions."),
      Present(["pc"]), "2024-06-12",
      Present(Tags(["management", "life sim", "space"])),
      Present([
        Listing(Constants.STEAM, "12345", "https://store.steampowered.com/app/12345"),
        Listing(Constants.STEAMDB, "12345", "https://steamdb.info/app/12345/")])),
    RawGame(
      "mock-2", "Farm Hands 2", Present("farm-hands-2"),
      Present("Cozy farming sim with seasonal festivals, co-op chores, and livestock breeding."),
      Present("Grow crops, care for animals, and join seasonal farm events solo or co-op."),
      Present(["pc"]), "2024-05-28",
      Present(Tags(["farming", "life sim"])),
      Present([Listing(Constants.ITCH, "farm-hands-2", "https://itch.io/farm-hands-2")])),
    RawGame(
      "mock-3", "Tower Dispatcher", Present("tower-dispatcher"),
      Present("Coordinate aircraft arrivals and departures with realistic traffic surges and weather."),
      Present("Control airport traffic patterns and keep runways flowing safely."),
      Present(["pc"]), "2024-06-05",
      Present(Tags(["vehicle", "management", "job sim"])),
      Present([
        Listing(Constants.GOG, "tower-dispatcher", "https://www.gog.com/en/game/tower_dispatcher"),
        Listing(Constants.EPIC, "tower-dispatcher", "https://store.epicgames.com/p/tower-dispatcher")])),
    RawGame(
      "mock-4", "Underwater Ops", Present("underwater-ops"),
      Present("Pilot remotely operated vehicles to repair subsea pipelines and manage oxygen budgets."),
      Present("Command ROV missions, balance energy use, and repair critical underwater infrastructure."),
      Present(["pc"]), "2024-06-18",
      Present(Tags(["job sim", "vehicle"])),
      Present([Listing(Constants.EPIC, "underwater-ops", "https://store.epicgames.com/p/underwater-ops")]))
  ]

  /** The release dates of the samples, in their order. */
  lemma SampleDates()
    ensures |SampleGames| == 4
    ensures SampleGames[0].releaseDate == "2024-06-12"
    ensures SampleGames[1].releaseDate == "2024-05-28"
    ensures SampleGames[2].releaseDate == "2024-06-05"
    ensures SampleGames[3].releaseDate == "2024-06-18"
  {
  }

  lemma SampleDatesValid()
    ensures IsIsoDate("2024-06-12") && IsIsoDate("2024-05-28") && IsIsoDate("2024-06-05") && IsIsoDate("2024-06-18")
  {
  }

  /** The titles of the samples, in their order. */
  lemma SampleTitles()
    ensures |SampleGames| == 4
    ensures SampleGames[0].title == "Orbital Life Simulator"
    ensures SampleGames[1].title == "Farm Hands 2"
    ensures SampleGames[2].title == "Tower Dispatcher"
    ensures SampleGames[3].title == "Underwater Ops"
  {
  }

  lemma SampleTitlesAscii()
    ensures Text.IsAscii("Orbital Life Simulator") && Text.IsAscii("Farm Hands 2")
    ensures Text.IsAscii("Tower Dispatcher") && Text.IsAscii("Underwater Ops")
  {
  }

  /** What the aggregator requires of a provider's games: ASCII titles and
      calendar release dates. */
  ghost predicate WellFormed(raws: seq<RawGame>)
  {
    forall g :: g in raws ==> Text.IsAscii(g.title) && IsIsoDate(g.releaseDate)
  }

  /** The sample games are well formed. */
  lemma SamplesWellFormed()
    ensures WellFormed(SampleGames)
  {
    SampleDates();
    SampleDatesValid();
    SampleTitles();
    SampleTitlesAscii();
    forall g | g in SampleGames
      ensures Text.IsAscii(g.title) && IsIsoDate(g.releaseDate)
    {
      var i :| 0 <= i < |SampleGames| && SampleGames[i] == g;
    }
  }

  lemma WellFormedDated(raws: seq<RawGame>)
    requires WellFormed(raws)
    ensures AllDated(raws, RawReleaseDateOf)
  {
    assert forall i :: 0 <= i < |raws| ==> raws[i] in raws;
  }

  /** `[...samples].sort(...)`: a sorted copy; the argument itself keeps its
      order. */
  function SortedCopy(samples: seq<RawGame>): (r: seq<RawGame>)
    requires AllDated(samples, RawReleaseDateOf)
    ensures multiset(r) == multiset(samples)
    ensures NewestFirst(r, RawReleaseDateOf)
    ensures |r| == |samples|
    ensures forall g :: g in r ==> g in samples
  {
    var r := SortNewestFirst(samples, RawReleaseDateOf);
    SamplesCopy(samples, r);
    r
  }

  lemma SamplesCopy(samples: seq<RawGame>, r: seq<RawGame>)
    requires multiset(r) == multiset(samples)
    ensures |r| == |samples|
    ensures forall g :: g in r ==> g in samples
  {
    assert |multiset(r)| == |multiset(samples)|;
    forall g | g in r ensures g in samples {
      assert g in multiset(r);
    }
  }

  /** `xs.slice(0, end)`: a negative end counts from the back. */
  function SliceTo<T>(xs: seq<T>, end: int): (r: seq<T>)
    ensures r <= xs
    ensures end >= 0 ==> |r| == if end < |xs| then end else |xs|
    ensures end < 0 ==> |r| == if |xs| + end > 0 then |xs| + end else 0
  {
    if end >= 0 then (if end < |xs| then xs[..end] else xs)
    else if |xs| + end > 0 then xs[..|xs| + end]
    else []
  }

  /** A limit is applied when it is present and non-zero (`limit ? ... : ...`). */
  predicate HasLimit(options: Options)
  {
    options.limit.Present? && options.limit.value != 0
  }

  /** The body of fetchNewReleases over a data set: the sorted copy, cut to
      the limit when one is given. */
  function FetchFrom(samples: seq<RawGame>, options: Options): (r: seq<RawGame>)
    requires AllDated(samples, RawReleaseDateOf)
    ensures r <= SortedCopy(samples)
    ensures forall g :: g in r ==> g in samples
    ensures NewestFirst(r, RawReleaseDateOf)
    ensures HasLimit(options) && options.limit.value > 0 ==>
      |r| == if options.limit.value < |samples| then options.limit.value else |samples|
    ensures HasLimit(options) && options.limit.value < 0 ==>
      |r| == if |samples| + options.limit.value > 0 then |samples| + options.limit.value else 0
    ensures !HasLimit(options) ==> r == SortedCopy(samples)
  {
    var sorted := SortedCopy(samples);
    var r := if HasLimit(options) then SliceTo(sorted, options.limit.value) else sorted;
    PrefixKeeps(r, sorted);
    r
  }

  /** A prefix of a newest-first list is newest first, and holds only
      elements of the list. */
  lemma PrefixKeeps(r: seq<RawGame>, s: seq<RawGame>)
    requires r <= s && NewestFirst(s, RawReleaseDateOf)
    ensures NewestFirst(r, RawReleaseDateOf)
    ensures forall g :: g in r ==> g in s
  {
    assert forall i :: 0 <= i < |r| ==> r[i] == s[i];
  }

  /** Options other than the limit have no effect. */
  lemma FetchFromIgnoresSince(samples: seq<RawGame>, a: Options, b: Options)
    requires AllDated(samples, RawReleaseDateOf)
    requires a.limit == b.limit
    ensures FetchFrom(samples, a) == FetchFrom(samples, b)
  {
  }

  /** fetchNewReleases (providers/mockProvider.js:85-90): a prefix of the
      samples sorted newest first. */
  function FetchNewReleases(options: Options): (r: seq<RawGame>)
    ensures WellFormed(r)
    ensures NewestFirst(r, RawReleaseDateOf)
    ensures r <= SortedSamples()
  {
    SamplesWellFormed();
    WellFormedDated(SampleGames);
    var r := FetchFrom(SampleGames, options);
    assert WellFormed(r);
    r
  }

  /** How many games fetchNewReleases returns: the limit, when positive, up
      to all four samples; every sample when there is no limit (absent or 0);
      a negative limit drops that many from the end. */
  lemma FetchNewReleasesCount(options: Options)
    ensures HasLimit(options) && options.limit.value > 0 ==>
      |FetchNewReleases(options)| == if options.limit.value < 4 then options.limit.value else 4
    ensures HasLimit(options) && options.limit.value < 0 ==>
      |FetchNewReleases(options)| == if 4 + options.limit.value > 0 then 4 + options.limit.value else 0
    ensures !HasLimit(options) ==> FetchNewReleases(options) == SortedSamples()
  {
    SamplesWellFormed();
    WellFormedDated(SampleGames);
    SampleTitles();
  }

  /** Options other than the limit have no effect. */
  lemma FetchIgnoresSince(a: Options, b: Options)
    requires a.limit == b.limit
    ensures FetchNewReleases(a) == FetchNewReleases(b)
  {
    SamplesWellFormed();
    WellFormedDated(SampleGames);
    FetchFromIgnoresSince(SampleGames, a, b);
  }

  /** The sorted copy of the samples: all four, newest first. */
  function SortedSamples(): (r: seq<RawGame>)
    ensures |r| == 4
    ensures multiset(r) == multiset(SampleGames)
    ensures NewestFirst(r, RawReleaseDateOf)
  {
    SamplesWellFormed();
    WellFormedDated(SampleGames);
    SampleTitles();
    SortedCopy(SampleGames)
  }

  /** The mock provider as the aggregator sees it: it never fails. */
  const Mock: Provider := Provider("mock", options => Games(FetchNewReleases(options)))
}
