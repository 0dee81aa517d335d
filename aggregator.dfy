/** fetchAllProviders (services/aggregator.js:44-63): every provider is asked
    for its new releases; a provider that fails adds one error line and no
    games; the games of the others are normalised, de-duplicated, enriched
    and sorted newest first. The providers' `Promise.all` is modelled as a
    sequential walk in provider order. */
module Aggregator {
  import opened Catalog
  import opened Text
  import opened Dates
  import opened Sequences
  import opened Normalizer
  import opened Deduplicator
  import opened Enricher

  /** The options every provider is called with (services/aggregator.js:49). */
  const Request: Options := Options(Present(30), Undefined)

  /** How a provider's call settles. */
  function Outcome(p: Provider): Fetched
  {
    p.fetch(Request)
  }

  /** What the model requires of provider data: ASCII titles (so that
      `toLowerCase` is the A-Z fold) and well-formed ISO release dates. */
  predicate Admissible(providers: seq<Provider>)
  {
    forall i :: 0 <= i < |providers| && Outcome(providers[i]).Games? ==>
      forall raw :: raw in Outcome(providers[i]).games ==> IsAscii(raw.title) && IsIsoDate(raw.releaseDate)
  }

  /** `games.map((game) => normalizeGame(game, provider.name))`. */
  function NormalizeAll(raws: seq<RawGame>, name: string): (r: seq<Game>)
    requires forall raw :: raw in raws ==> IsAscii(raw.title)
    ensures |r| == |raws|
    ensures forall i :: 0 <= i < |r| ==> r[i] == NormalizeGame(raws[i], name)
  {
    var r := seq(|raws|, i requires 0 <= i < |raws| => NormalizeGame(raws[i], name));
    assert forall i :: 0 <= i < |r| ==> r[i] == NormalizeGame(raws[i], name);
    r
  }

  /** `results.flat()`. */
  function Flatten(parts: seq<seq<Game>>): seq<Game>
    decreases |parts|
  {
    if parts == [] then [] else Flatten(parts[..|parts| - 1]) + parts[|parts| - 1]
  }

  /** The games one provider contributes: its normalised games, or none when it fails. */
  function Contribution(p: Provider): seq<Game>
    requires Outcome(p).Games? ==> forall raw :: raw in Outcome(p).games ==> IsAscii(raw.title)
  {
    match Outcome(p)
    case Games(raws) => NormalizeAll(raws, p.name)
    case Unavailable => []
  }

  /** The contributions of all providers, in provider order. */
  ghost function Collected(providers: seq<Provider>): seq<Game>
    requires Admissible(providers)
    decreases |providers|
  {
    if providers == [] then []
    else
      var init, p := providers[..|providers| - 1], providers[|providers| - 1];
      assert forall i :: 0 <= i < |init| ==> init[i] == providers[i];
      Collected(init) + Contribution(p)
  }

  /** The error line of a failing provider (services/aggregator.js:53). */
  function Unavailability(p: Provider): string
  {
    p.name + " unavailable"
  }

  /** The `errors` list: one line per failing provider, in provider order. */
  ghost function Errors(providers: seq<Provider>): seq<string>
    decreases |providers|
  {
    if providers == [] then []
    else
      var p := providers[|providers| - 1];
      Errors(providers[..|providers| - 1]) + (if Outcome(p).Unavailable? then [Unavailability(p)] else [])
  }

  /** The number of providers whose call fails. */
  ghost function FailureCount(providers: seq<Provider>): nat
    decreases |providers|
  {
    if providers == [] then 0
    else FailureCount(providers[..|providers| - 1]) + (if Outcome(providers[|providers| - 1]).Unavailable? then 1 else 0)
  }

  /** A game of the result as it comes out of normalisation: a calendar
      release date, at least one listing, and a successful provider's name. */
  ghost predicate FromProviders(g: Game, providers: seq<Provider>)
  {
    && IsIsoDate(g.releaseDate)
    && g.sources != []
    && exists i :: 0 <= i < |providers| && Outcome(providers[i]).Games? && providers[i].name == g.provider
  }

  /** g is the normalised form of a game that an answering provider returned. */
  ghost predicate NormalizedFrom(g: Game, providers: seq<Provider>)
  {
    exists i, raw :: 0 <= i < |providers| && Outcome(providers[i]).Games? && raw in Outcome(providers[i]).games
      && IsAscii(raw.title) && g == NormalizeGame(raw, providers[i].name)
  }

  /** The games before the final sort. */
  ghost function Enriched(providers: seq<Provider>, generate: (nat, string) -> Reply): seq<Game>
    requires Admissible(providers)
  {
    EnrichSummaries(Dedupe(Collected(providers)), generate)
  }

  /** The `games` of fetchAllProviders. */
  ghost function Pipeline(providers: seq<Provider>, generate: (nat, string) -> Reply): seq<Game>
    requires Admissible(providers)
  {
    EnrichedFacts(providers, generate);
    SortNewestFirst(Enriched(providers, generate), ReleaseDateOf)
  }

  // ---------------------------------------------------------------------
  // The loop of the source.

  /** The providers' part of fetchAllProviders (services/aggregator.js:45-59):
      each provider is asked in turn; a failing one adds its error line and
      an empty result. Returns `results.flat()` and `errors`. */
  method CallProviders(providers: seq<Provider>) returns (collected: seq<Game>, errors: seq<string>)
    requires Admissible(providers)
    ensures collected == Collected(providers)
    ensures errors == Errors(providers)
  {
    errors := [];
    var results: seq<seq<Game>> := [];
    var i := 0;
    while i < |providers|
      invariant 0 <= i <= |providers|
      invariant Admissible(providers[..i])
      invariant Flatten(results) == Collected(providers[..i])
      invariant errors == Errors(providers[..i])
    {
      var provider := providers[i];
      CallStep(providers, i, results);
      var outcome := provider.fetch(Request);
      if outcome.Games? {
        assert Contribution(provider) == NormalizeAll(outcome.games, provider.name);
        results := results + [NormalizeAll(outcome.games, provider.name)];
      } else {
        assert Contribution(provider) == [];
        errors := errors + [Unavailability(provider)];
        results := results + [[]];
      }
      i := i + 1;
    }
    assert providers[..i] == providers;
    collected := Flatten(results);
  }

  /** One provider more: its contribution is appended to the results and
      its error line, if any, to the errors. */
  lemma CallStep(providers: seq<Provider>, i: nat, results: seq<seq<Game>>)
    requires Admissible(providers) && i < |providers|
    requires Admissible(providers[..i]) && Flatten(results) == Collected(providers[..i])
    ensures Admissible(providers[..i + 1])
    ensures Flatten(results + [Contribution(providers[i])]) == Collected(providers[..i + 1])
    ensures Errors(providers[..i + 1])
      == Errors(providers[..i]) + (if Outcome(providers[i]).Unavailable? then [Unavailability(providers[i])] else [])
  {
    var next := providers[..i + 1];
    assert next[..i] == providers[..i] && next[i] == providers[i];
    assert (results + [Contribution(providers[i])])[..|results|] == results;
  }

  /** fetchAllProviders. Every failing provider adds its error line; the
      games come back newest first, as a permutation of the enriched games
      (equal dates in their earlier order), one per de-duplication key, each
      with a listing and the name of a provider that answered. */
  method FetchAllProviders(providers: seq<Provider>, generate: (nat, string) -> Reply)
    returns (games: seq<Game>, errors: seq<string>)
    requires Admissible(providers)
    ensures errors == Errors(providers)
    ensures games == Pipeline(providers, generate)
    ensures AllDated(Enriched(providers, generate), ReleaseDateOf)
    ensures NewestFirst(games, ReleaseDateOf)
    ensures multiset(games) == multiset(Enriched(providers, generate))
    ensures forall d :: ReleasedOn(games, ReleaseDateOf, d) == ReleasedOn(Enriched(providers, generate), ReleaseDateOf, d)
    ensures UniqueBy(games, Key)
    ensures KeySet(games, Key) == KeySet(Collected(providers), Key)
    ensures forall g :: g in games ==> FromProviders(g, providers)
  {
    var collected;
    collected, errors := CallProviders(providers);
    var merged := DedupeGames(collected);
    var enriched := EnrichSummaries(merged, generate);
    EnrichedFacts(providers, generate);
    games := SortNewestFirst(enriched, ReleaseDateOf);
    PipelineFacts(providers, generate);
  }

  // ---------------------------------------------------------------------
  // Errors.

  /** Each failing provider adds exactly one error line, and only failing
      providers do: errors is empty exactly when every provider answers. */
  lemma {:induction false} ErrorsReportFailures(providers: seq<Provider>)
    ensures |Errors(providers)| == FailureCount(providers)
    ensures forall e :: e in Errors(providers) <==>
      exists i :: 0 <= i < |providers| && Outcome(providers[i]).Unavailable? && e == Unavailability(providers[i])
    ensures Errors(providers) == [] <==> forall i :: 0 <= i < |providers| ==> Outcome(providers[i]).Games?
    decreases |providers|
  {
    if providers != [] {
      var init, p := providers[..|providers| - 1], providers[|providers| - 1];
      var n := |init|;
      assert forall i :: 0 <= i < n ==> init[i] == providers[i];
      ErrorsReportFailures(init);
      forall e | e in Errors(providers)
        ensures exists i :: 0 <= i < |providers| && Outcome(providers[i]).Unavailable? && e == Unavailability(providers[i])
      {
        if e !in Errors(init) {
          assert Outcome(providers[n]).Unavailable? && e == Unavailability(providers[n]);
        }
      }
      if Errors(providers) == [] {
        assert Outcome(providers[n]).Games?;
      }
    }
  }

  // ---------------------------------------------------------------------
  // The games, stage by stage.

  /** Normalisation: every collected game has a calendar date, a listing and
      the name of a provider that answered. */
  lemma {:induction false} CollectedFacts(providers: seq<Provider>)
    requires Admissible(providers)
    ensures forall g :: g in Collected(providers) ==> FromProviders(g, providers)
    decreases |providers|
  {
    if providers != [] {
      var init, p := providers[..|providers| - 1], providers[|providers| - 1];
      assert forall i :: 0 <= i < |init| ==> init[i] == providers[i];
      CollectedFacts(init);
      forall g | g in Collected(providers)
        ensures FromProviders(g, providers)
      {
        if g !in Collected(init) {
          var raws := Outcome(p).games;
          var j :| 0 <= j < |raws| && NormalizeAll(raws, p.name)[j] == g;
          assert raws[j] in raws;
        }
      }
    }
  }

  /** The collected games are exactly the normalised games of the answering
      providers: none is lost and none is made up. */
  lemma CollectedExactly(providers: seq<Provider>)
    requires Admissible(providers)
    ensures forall g :: g in Collected(providers) <==> NormalizedFrom(g, providers)
  {
    CollectedNormalized(providers);
    CollectedIncludes(providers);
  }

  /** Every game a provider contributes is the normalised form of one of its games. */
  lemma ContributionNormalized(p: Provider, g: Game)
    requires Outcome(p).Games? && forall raw :: raw in Outcome(p).games ==> IsAscii(raw.title)
    requires g in Contribution(p)
    ensures exists raw :: raw in Outcome(p).games && g == NormalizeGame(raw, p.name)
  {
    var raws := Outcome(p).games;
    var r := NormalizeAll(raws, p.name);
    assert g in r;
    var j :| 0 <= j < |r| && r[j] == g;
    assert raws[j] in raws;
  }

  /** Every game of an answering provider is contributed in normalised form. */
  lemma ContributionIncludes(p: Provider, raw: RawGame)
    requires Outcome(p).Games? && forall raw :: raw in Outcome(p).games ==> IsAscii(raw.title)
    requires raw in Outcome(p).games
    ensures NormalizeGame(raw, p.name) in Contribution(p)
  {
    var raws := Outcome(p).games;
    var r := NormalizeAll(raws, p.name);
    var j :| 0 <= j < |raws| && raws[j] == raw;
    assert r[j] in r;
  }

  lemma {:induction false} CollectedNormalized(providers: seq<Provider>)
    requires Admissible(providers)
    ensures forall g :: g in Collected(providers) ==> NormalizedFrom(g, providers)
    decreases |providers|
  {
    if providers != [] {
      var init, p := providers[..|providers| - 1], providers[|providers| - 1];
      assert forall i :: 0 <= i < |init| ==> init[i] == providers[i];
      CollectedNormalized(init);
      forall g | g in Collected(providers) ensures NormalizedFrom(g, providers) {
        if g !in Collected(init) {
          assert Outcome(providers[|providers| - 1]).Games?;
          ContributionNormalized(p, g);
        }
      }
    }
  }

  lemma {:induction false} CollectedIncludes(providers: seq<Provider>)
    requires Admissible(providers)
    ensures forall g :: NormalizedFrom(g, providers) ==> g in Collected(providers)
    decreases |providers|
  {
    if providers != [] {
      var init := providers[..|providers| - 1];
      assert forall i :: 0 <= i < |init| ==> init[i] == providers[i];
      CollectedIncludes(init);
      forall g | NormalizedFrom(g, providers) ensures g in Collected(providers) {
        var i, raw :| 0 <= i < |providers| && Outcome(providers[i]).Games? && raw in Outcome(providers[i]).games
          && IsAscii(raw.title) && g == NormalizeGame(raw, providers[i].name);
        if i < |init| {
          EarlierProvider(providers, init, i, raw, g);
        } else {
          ContributionIncludes(providers[i], raw);
          LastProvider(providers, i, g);
        }
      }
    }
  }

  /** A game normalised from an earlier provider's answer is normalised from
      the answer of a provider of the shorter list. */
  lemma EarlierProvider(providers: seq<Provider>, init: seq<Provider>, i: nat, raw: RawGame, g: Game)
    requires providers != [] && init == providers[..|providers| - 1] && i < |init|
    requires Outcome(providers[i]).Games? && raw in Outcome(providers[i]).games && IsAscii(raw.title)
    requires g == NormalizeGame(raw, providers[i].name)
    ensures NormalizedFrom(g, init)
  {
    assert init[i] == providers[i];
  }

  /** The last provider's contribution ends the collected games. */
  lemma LastProvider(providers: seq<Provider>, i: nat, g: Game)
    requires Admissible(providers) && i + 1 == |providers|
    requires g in Contribution(providers[i])
    ensures g in Collected(providers)
  {
  }

  /** De-duplication keeps the date and provider of an input game and at
      least one listing, and changes an input game only in its listings and
      tags. */
  lemma DedupedFacts(providers: seq<Provider>)
    requires Admissible(providers)
    ensures forall g :: g in Dedupe(Collected(providers)) ==> FromProviders(g, providers)
    ensures forall e :: e in Dedupe(Collected(providers)) ==>
      exists g :: g in Collected(providers) && e == g.(sources := e.sources, tags := e.tags)
  {
    var collected := Collected(providers);
    CollectedFacts(providers);
    DedupeKeepsListings(collected);
    DedupeEntriesFromInput(collected);
    forall e | e in Dedupe(collected)
      ensures FromProviders(e, providers)
    {
      var g :| g in collected && e == g.(sources := e.sources, tags := e.tags);
      assert FromProviders(g, providers);
    }
  }

  /** Enrichment changes summaries only, so dates, listings, providers and
      keys come through it. */
  lemma EnrichedFacts(providers: seq<Provider>, generate: (nat, string) -> Reply)
    requires Admissible(providers)
    ensures AllDated(Enriched(providers, generate), ReleaseDateOf)
    ensures forall g :: g in Enriched(providers, generate) ==> FromProviders(g, providers)
    ensures UniqueBy(Enriched(providers, generate), Key)
    ensures KeySet(Enriched(providers, generate), Key) == KeySet(Collected(providers), Key)
  {
    var deduped := Dedupe(Collected(providers));
    DedupedFacts(providers);
    EnrichKeepsIdentity(deduped, generate);
    DatedFromProviders(Enriched(providers, generate), providers);
    DedupeKeys(Collected(providers));
  }

  lemma DatedFromProviders(xs: seq<Game>, providers: seq<Provider>)
    requires forall g :: g in xs ==> FromProviders(g, providers)
    ensures AllDated(xs, ReleaseDateOf)
  {
    assert forall i :: 0 <= i < |xs| ==> xs[i] in xs;
  }

  /** Sorting permutes, so what holds of every game, and the uniqueness and
      the set of keys, carry over to the sorted list. */
  lemma SortKeeps(xs: seq<Game>, providers: seq<Provider>)
    requires AllDated(xs, ReleaseDateOf)
    ensures forall d :: ReleasedOn(SortNewestFirst(xs, ReleaseDateOf), ReleaseDateOf, d) == ReleasedOn(xs, ReleaseDateOf, d)
    ensures UniqueBy(xs, Key) ==> UniqueBy(SortNewestFirst(xs, ReleaseDateOf), Key)
    ensures KeySet(SortNewestFirst(xs, ReleaseDateOf), Key) == KeySet(xs, Key)
    ensures (forall g :: g in xs ==> FromProviders(g, providers)) ==>
      forall g :: g in SortNewestFirst(xs, ReleaseDateOf) ==> FromProviders(g, providers)
  {
    var sorted := SortNewestFirst(xs, ReleaseDateOf);
    forall d ensures ReleasedOn(sorted, ReleaseDateOf, d) == ReleasedOn(xs, ReleaseDateOf, d) {
      SortIsStable(xs, ReleaseDateOf, d);
    }
    if UniqueBy(xs, Key) {
      UniqueByPermutation(xs, sorted, Key);
    }
    PermutationKeys(xs, sorted, Key);
  }

  /** What fetchAllProviders promises of its games. */
  lemma PipelineFacts(providers: seq<Provider>, generate: (nat, string) -> Reply)
    requires Admissible(providers)
    ensures AllDated(Enriched(providers, generate), ReleaseDateOf)
    ensures NewestFirst(Pipeline(providers, generate), ReleaseDateOf)
    ensures multiset(Pipeline(providers, generate)) == multiset(Enriched(providers, generate))
    ensures forall d :: ReleasedOn(Pipeline(providers, generate), ReleaseDateOf, d) == ReleasedOn(Enriched(providers, generate), ReleaseDateOf, d)
    ensures UniqueBy(Pipeline(providers, generate), Key)
    ensures KeySet(Pipeline(providers, generate), Key) == KeySet(Collected(providers), Key)
    ensures forall g :: g in Pipeline(providers, generate) ==> FromProviders(g, providers)
  {
    EnrichedFacts(providers, generate);
    SortKeeps(Enriched(providers, generate), providers);
  }
}
