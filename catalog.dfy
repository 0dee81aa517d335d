/** The record shapes of the catalog: what a provider hands over (raw) and
    the canonical game the aggregator produces (services/aggregator.js,
    typedefs GameTag, GameSource, Game and GameProvider). */
module Catalog {

  /** A JavaScript property that may be missing, explicitly `null`, or hold a value. */
  datatype Field<T> = Undefined | Null | Present(value: T)

  /** JavaScript truthiness of an optional string: present and not "". */
  predicate Truthy(f: Field<string>)
  {
    f.Present? && f.value != ""
  }

  /** The `f || fallback` idiom on an optional string. */
  function OrElse(f: Field<string>, fallback: string): string
  {
    if Truthy(f) then f.value else fallback
  }

  /** The `f ?? null` idiom: a missing property becomes `null`, a present value
      (including 0 or "") is kept. */
  function OrNull<T>(f: Field<T>): Field<T>
  {
    if f.Present? then f else Null
  }

  datatype Tag = Tag(name: string, confidence: Field<real>)

  /** A store listing as a provider may send it: every property optional. */
  datatype RawSource = RawSource(
    store: Field<string>,
    storeId: Field<string>,
    storeUrl: Field<string>,
    price: Field<real>,
    currency: Field<string>)

  /** A store listing after normalisation. */
  datatype Source = Source(
    store: string,
    storeId: string,
    storeUrl: string,
    price: Field<real>,
    currency: Field<string>)

  /** A game record as a provider returns it. `id`, `title` and `releaseDate`
      are required of providers; everything else may be missing. */
  datatype RawGame = RawGame(
    id: string,
    title: string,
    slug: Field<string>,
    description: Field<string>,
    summary: Field<string>,
    platforms: Field<seq<string>>,
    releaseDate: string,
    tags: Field<seq<Tag>>,
    sources: Field<seq<RawSource>>)

  /** The canonical game record. */
  datatype Game = Game(
    id: string,
    title: string,
    slug: string,
    description: string,
    summary: string,
    platforms: seq<string>,
    releaseDate: string,
    tags: seq<Tag>,
    sources: seq<Source>,
    provider: string)

  /** The options a provider's fetchNewReleases receives. */
  datatype Options = Options(limit: Field<int>, since: Field<string>)

  /** How a provider's fetchNewReleases call settled: with a list of raw games,
      or by throwing / rejecting. */
  datatype Fetched = Games(games: seq<RawGame>) | Unavailable

  /** A data source: its name and its (external) fetch operation. */
  datatype Provider = Provider(name: string, fetch: Options -> Fetched)

  function StoreOf(s: Source): string { s.store }
  function TagName(t: Tag): string { t.name }
  function ReleaseDateOf(g: Game): string { g.releaseDate }
  function RawReleaseDateOf(g: RawGame): string { g.releaseDate }
}
