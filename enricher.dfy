/** enrichSummaries (services/aggregator.js:136-151): a game without a
    usable summary gets one from an external text generator, or a prefix of
    its description when the generator fails or says nothing. The generator
    is an oracle: `generate(i, prompt)` is how the call for the i-th game
    settles. */
module Enricher {
  import opened Catalog
  import opened Text
  import opened Sequences
  import Deduplicator

  /** How one call to the text generator settles: with a response whose
      `text` may be empty or missing (modelled as ""), or by throwing. */
  datatype Reply = Replied(text: string) | Failed

  /** The number of description characters a fallback summary keeps. */
  const FallbackLength: nat := 140

  /** The request sent for a game (services/aggregator.js:141). */
  function Prompt(g: Game): (p: string)
    ensures |p| > |g.description| && p[|p| - |g.description|..] == g.description
  {
    "Summarize this simulation game in one sentence: " + g.description
  }

  /** The summary used when the generator gives nothing usable. */
  function Fallback(g: Game): (s: string)
    ensures s <= g.description
    ensures |s| == if |g.description| < FallbackLength then |g.description| else FallbackLength
  {
    Prefix(g.description, FallbackLength)
  }

  /** The callback of enrichSummaries for one game, given how its generator
      call settles. */
  function EnrichGame(g: Game, reply: Reply): (r: Game)
    ensures r == g.(summary := r.summary)
    ensures HasText(g.summary) ==> r == g
    ensures !HasText(g.summary) && reply.Replied? && reply.text != "" ==> r.summary == reply.text
    ensures !HasText(g.summary) && (reply.Failed? || reply.text == "") ==> r.summary == Fallback(g)
  {
    if HasText(g.summary) then g
    else match reply
      case Replied(text) => g.(summary := if text != "" then text else Fallback(g))
      case Failed => g.(summary := Fallback(g))
  }

  /** enrichSummaries: every game is enriched on its own, in place of the
      concurrent `Promise.all`; the i-th game's call settles as
      `generate(i, Prompt(games[i]))`. */
  function EnrichSummaries(games: seq<Game>, generate: (nat, string) -> Reply): (r: seq<Game>)
    ensures |r| == |games|
    ensures forall i :: 0 <= i < |r| ==> r[i] == games[i].(summary := r[i].summary)
    ensures forall i :: 0 <= i < |r| ==> HasText(games[i].summary) ==> r[i] == games[i]
    ensures forall i :: 0 <= i < |r| ==> r[i] == EnrichGame(games[i], generate(i, Prompt(games[i])))
  {
    var r := seq(|games|, i requires 0 <= i < |games| => EnrichGame(games[i], generate(i, Prompt(games[i]))));
    assert forall i :: 0 <= i < |r| ==> r[i] == EnrichGame(games[i], generate(i, Prompt(games[i])));
    r
  }

  /** After enrichment a summary is empty only when the game had no summary
      text, its description is empty, and the generator failed or returned
      empty text. */
  lemma EnrichedSummaryEmpty(g: Game, reply: Reply)
    ensures EnrichGame(g, reply).summary == ""
        <==> !HasText(g.summary) && g.description == "" && (reply.Failed? || reply.text == "")
  {
    if HasText(g.summary) {
      assert g.summary != "";
    }
  }

  /** An empty summary stays empty when the description is empty and the
      generator fails or returns empty text: enrichment does not guarantee a
      non-empty summary. (A whitespace-only summary is replaced by the
      fallback, here "".) */
  lemma EnrichCanLeaveEmpty(g: Game)
    requires g.summary == "" && g.description == ""
    ensures EnrichGame(g, Failed).summary == ""
    ensures EnrichGame(g, Replied("")).summary == ""
  {
    assert !HasText(g.summary);
  }

  /** A game whose enriched summary has text is left alone by a second
      enrichment, whatever the generator does then. */
  lemma EnrichIdempotentOnText(g: Game, first: Reply, second: Reply)
    requires HasText(EnrichGame(g, first).summary)
    ensures EnrichGame(EnrichGame(g, first), second) == EnrichGame(g, first)
  {
  }

  /** Enrichment changes summaries only, so the de-duplication keys, their
      uniqueness, and every other field of every game come through it. */
  lemma EnrichKeepsIdentity(games: seq<Game>, generate: (nat, string) -> Reply)
    ensures KeySet(EnrichSummaries(games, generate), Deduplicator.Key) == KeySet(games, Deduplicator.Key)
    ensures UniqueBy(games, Deduplicator.Key) ==> UniqueBy(EnrichSummaries(games, generate), Deduplicator.Key)
    ensures forall g :: g in EnrichSummaries(games, generate) ==>
      exists h :: h in games && g == h.(summary := g.summary)
  {
    var r := EnrichSummaries(games, generate);
    assert forall i :: 0 <= i < |r| ==> Deduplicator.Key(r[i]) == Deduplicator.Key(games[i]);
    forall g | g in r ensures exists h :: h in games && g == h.(summary := g.summary) {
      var i :| 0 <= i < |r| && r[i] == g;
      assert games[i] in games;
    }
    forall k | k in KeySet(r, Deduplicator.Key) ensures k in KeySet(games, Deduplicator.Key) {
      var g :| g in r && Deduplicator.Key(g) == k;
      var i :| 0 <= i < |r| && r[i] == g;
      assert games[i] in games;
    }
    forall k | k in KeySet(games, Deduplicator.Key) ensures k in KeySet(r, Deduplicator.Key) {
      var g :| g in games && Deduplicator.Key(g) == k;
      var i :| 0 <= i < |games| && games[i] == g;
      assert r[i] in r;
    }
  }
}
