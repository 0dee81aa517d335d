/** The store identifiers and the default tag list of services/constants.js. */
module Constants {
  const STEAM: string := "steam"
  const STEAMDB: string := "steamdb"
  const ITCH: string := "itch"
  const GOG: string := "gog"
  const EPIC: string := "epic"
  const OTHER: string := "other"

  /** Every store identifier the catalog knows about. */
  const Stores: seq<string> := [STEAM, STEAMDB, ITCH, GOG, EPIC, OTHER]

  /** The tags offered as filter checkboxes, in display order. */
  const DefaultTags: seq<string> := ["life sim", "job sim", "management", "farming", "vehicle", "space"]
}
