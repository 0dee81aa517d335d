/** normalizeGame (services/aggregator.js:71-92): a raw provider record
    becomes a canonical Game with every default filled in. */
module Normalizer {
  import opened Catalog
  import opened Text
  import Constants

  /** The characters `[a-z0-9]` that survive slug derivation. */
  predicate IsSlugChar(c: char)
  {
    'a' <= c <= 'z' || '0' <= c <= '9'
  }

  /** Drops the leading run of characters outside `[a-z0-9]`. */
  function DropRun(s: string): (r: string)
    ensures |r| <= |s|
    ensures r == [] || IsSlugChar(r[0])
    ensures r == s[|s| - |r|..]
    decreases |s|
  {
    if s == [] || IsSlugChar(s[0]) then s else DropRun(s[1..])
  }

  /** `replace(/[^a-z0-9]+/g, "-")`: every maximal run of characters outside
      `[a-z0-9]` becomes a single dash; nothing is trimmed. */
  function ReplaceRuns(s: string): (r: string)
    ensures forall i :: 0 <= i < |r| ==> IsSlugChar(r[i]) || r[i] == '-'
    ensures forall i :: 0 < i < |r| ==> !(r[i - 1] == '-' && r[i] == '-')
    ensures (r == []) == (s == [])
    ensures r != [] ==> (r[0] == '-' <==> !IsSlugChar(s[0]))
    decreases |s|
  {
    if s == [] then []
    else if IsSlugChar(s[0]) then [s[0]] + ReplaceRuns(s[1..])
    else "-" + ReplaceRuns(DropRun(s[1..]))
  }

  /** A left-to-right reading of the same replacement, one character at a
      time: a slug character is copied, the first character of a run emits a
      dash, the others emit nothing. `inRun` says whether the previous
      character was outside `[a-z0-9]`. */
  function ScanRuns(s: string, inRun: bool): string
    decreases |s|
  {
    if s == [] then []
    else if IsSlugChar(s[0]) then [s[0]] + ScanRuns(s[1..], false)
    else (if inRun then "" else "-") + ScanRuns(s[1..], true)
  }

  lemma {:induction false} ScanInsideRun(s: string)
    ensures ScanRuns(s, true) == ReplaceRuns(DropRun(s))
    decreases |s|
  {
    if s != [] && !IsSlugChar(s[0]) {
      ScanInsideRun(s[1..]);
    }
    if s != [] && IsSlugChar(s[0]) {
      ScanFromStart(s[1..]);
    }
  }

  /** The run replacement agrees with the character-by-character reading. */
  lemma {:induction false} ScanFromStart(s: string)
    ensures ScanRuns(s, false) == ReplaceRuns(s)
    decreases |s|
  {
    if s != [] {
      if IsSlugChar(s[0]) {
        ScanFromStart(s[1..]);
      } else {
        ScanInsideRun(s[1..]);
      }
    }
  }

  /** The characters of s inside `[a-z0-9]`, in order. */
  function SlugChars(s: string): string
    decreases |s|
  {
    if s == [] then [] else (if IsSlugChar(s[0]) then [s[0]] else []) + SlugChars(s[1..])
  }

  lemma {:induction false} DropRunSlugChars(s: string)
    ensures SlugChars(DropRun(s)) == SlugChars(s)
    decreases |s|
  {
    if s != [] && !IsSlugChar(s[0]) {
      DropRunSlugChars(s[1..]);
    }
  }

  /** Replacing runs keeps every letter and digit, in order. */
  lemma {:induction false} ReplaceRunsKeepsSlugChars(s: string)
    ensures SlugChars(ReplaceRuns(s)) == SlugChars(s)
    decreases |s|
  {
    if s != [] {
      if IsSlugChar(s[0]) {
        ReplaceRunsKeepsSlugChars(s[1..]);
        assert ([s[0]] + ReplaceRuns(s[1..]))[1..] == ReplaceRuns(s[1..]);
      } else {
        ReplaceRunsKeepsSlugChars(DropRun(s[1..]));
        DropRunSlugChars(s[1..]);
        assert ("-" + ReplaceRuns(DropRun(s[1..])))[1..] == ReplaceRuns(DropRun(s[1..]));
      }
    }
  }

  /** Trailing runs are not trimmed: the slug ends in a dash exactly when the
      text ends outside `[a-z0-9]`. */
  lemma {:induction false} ReplaceRunsLast(s: string)
    requires s != []
    ensures ReplaceRuns(s)[|ReplaceRuns(s)| - 1] == '-' <==> !IsSlugChar(s[|s| - 1])
    decreases |s|
  {
    var r := ReplaceRuns(s);
    if IsSlugChar(s[0]) {
      var tail := ReplaceRuns(s[1..]);
      assert r == [s[0]] + tail;
      if |s| > 1 {
        ReplaceRunsLast(s[1..]);
        assert r[|r| - 1] == tail[|tail| - 1];
        assert s[|s| - 1] == s[1..][|s| - 2];
      }
    } else {
      var rest := DropRun(s[1..]);
      var tail := ReplaceRuns(rest);
      assert r == "-" + tail;
      if rest != [] {
        ReplaceRunsLast(rest);
        assert r[|r| - 1] == tail[|tail| - 1];
        assert rest[|rest| - 1] == s[|s| - 1];
      } else if |s| > 1 {
        DropRunAllOutside(s[1..]);
        assert s[|s| - 1] == s[1..][|s| - 2];
      }
    }
  }

  lemma {:induction false} DropRunAllOutside(s: string)
    requires DropRun(s) == []
    ensures forall i :: 0 <= i < |s| ==> !IsSlugChar(s[i])
    decreases |s|
  {
    if s != [] {
      DropRunAllOutside(s[1..]);
      assert forall i :: 1 <= i < |s| ==> s[i] == s[1..][i - 1];
    }
  }

  /** The slug derived from a title. */
  function Slugify(title: string): string
  {
    ReplaceRuns(Lower(title))
  }

  /** A derived slug: only `a-z`, `0-9` and `-`, and never two dashes in a row. */
  predicate IsSlugText(s: string)
  {
    && (forall i :: 0 <= i < |s| ==> IsSlugChar(s[i]) || s[i] == '-')
    && (forall i :: 0 < i < |s| ==> !(s[i - 1] == '-' && s[i] == '-'))
  }

  /** The placeholder URL of a listing that has none. */
  const PlaceholderUrl: string := "#"

  /** The platform list of a game that names none. */
  const DefaultPlatforms: seq<string> := ["pc"]

  /** One source listing with its defaults (services/aggregator.js:72-78). */
  function NormalizeSource(s: RawSource, gameId: string): (r: Source)
    ensures r.store != "" && r.storeUrl != ""
    ensures Truthy(s.store) ==> r.store == s.store.value
    ensures r.price.Present? == s.price.Present? && r.currency.Present? == s.currency.Present?
  {
    Source(
      OrElse(s.store, Constants.OTHER),
      OrElse(s.storeId, gameId),
      OrElse(s.storeUrl, PlaceholderUrl),
      OrNull(s.price),
      OrNull(s.currency))
  }

  /** The single listing synthesised for a game that brings none. Its price and
      currency are left out (undefined), unlike those of a mapped listing. */
  function FallbackSource(gameId: string): Source
  {
    Source(Constants.OTHER, gameId, PlaceholderUrl, Undefined, Undefined)
  }

  function RawSources(raw: RawGame): seq<RawSource>
  {
    if raw.sources.Present? then raw.sources.value else []
  }

  function NormalizeSources(raw: RawGame): (r: seq<Source>)
    ensures |r| >= 1
  {
    var mapped := seq(|RawSources(raw)|, i requires 0 <= i < |RawSources(raw)| => NormalizeSource(RawSources(raw)[i], raw.id));
    if |mapped| > 0 then mapped else [FallbackSource(raw.id)]
  }

  /** normalizeGame. Titles are ASCII, so that `toLowerCase` is the A-Z fold. */
  function NormalizeGame(raw: RawGame, providerName: string): (g: Game)
    requires IsAscii(raw.title)
    ensures g.id == raw.id && g.title == raw.title && g.releaseDate == raw.releaseDate
    ensures g.provider == providerName
    ensures |g.sources| >= 1
    ensures forall s :: s in g.sources ==> s.store != "" && s.storeUrl != ""
    ensures !Truthy(raw.slug) ==> IsSlugText(g.slug) && (|g.slug| == 0 <==> |raw.title| == 0)
  {
    Game(
      raw.id,
      raw.title,
      if Truthy(raw.slug) then raw.slug.value else Slugify(raw.title),
      OrElse(raw.description, ""),
      OrElse(raw.summary, ""),
      if raw.platforms.Present? then raw.platforms.value else DefaultPlatforms,
      raw.releaseDate,
      if raw.tags.Present? then raw.tags.value else [],
      NormalizeSources(raw),
      providerName)
  }

  /** Source defaults: a game without listings gets exactly one `other`
      listing pointing at its own id; otherwise each listing keeps its
      position, its truthy fields, and a price or currency that is present
      (0 included), while missing ones become `other`, the game id, `#` and
      `null`. */
  lemma NormalizedSources(raw: RawGame, providerName: string)
    requires IsAscii(raw.title)
    ensures var g := NormalizeGame(raw, providerName);
      && (|RawSources(raw)| == 0 ==> g.sources == [Source(Constants.OTHER, raw.id, PlaceholderUrl, Undefined, Undefined)])
      && (|RawSources(raw)| > 0 ==>
            && |g.sources| == |RawSources(raw)|
            && forall i :: 0 <= i < |g.sources| ==>
                 var s, n := RawSources(raw)[i], g.sources[i];
                 && n.store == (if Truthy(s.store) then s.store.value else Constants.OTHER)
                 && n.storeId == (if Truthy(s.storeId) then s.storeId.value else raw.id)
                 && n.storeUrl == (if Truthy(s.storeUrl) then s.storeUrl.value else PlaceholderUrl)
                 && n.price == (if s.price.Present? then s.price else Null)
                 && n.currency == (if s.currency.Present? then s.currency else Null))
  {
  }

  /** The remaining defaults: description and summary become "" when
      missing or empty, platforms ["pc"] only when missing (an empty list is
      kept), tags [] when missing, and a non-empty slug is kept. */
  lemma NormalizedDefaults(raw: RawGame, providerName: string)
    requires IsAscii(raw.title)
    ensures var g := NormalizeGame(raw, providerName);
      && g.description == (if Truthy(raw.description) then raw.description.value else "")
      && g.summary == (if Truthy(raw.summary) then raw.summary.value else "")
      && g.platforms == (if raw.platforms.Present? then raw.platforms.value else ["pc"])
      && g.tags == (if raw.tags.Present? then raw.tags.value else [])
      && (Truthy(raw.slug) ==> g.slug == raw.slug.value)
      && (!Truthy(raw.slug) ==> g.slug == ReplaceRuns(Lower(raw.title)))
  {
  }

  /** The derived slug keeps the lower-cased letters and digits of the title in
      order, and starts or ends with a dash exactly when the title starts or
      ends outside `[a-z0-9]` after lower-casing. */
  lemma SlugFromTitle(title: string)
    requires IsAscii(title)
    ensures SlugChars(Slugify(title)) == SlugChars(Lower(title))
    ensures title != [] ==> (Slugify(title)[0] == '-' <==> !IsSlugChar(LowerChar(title[0])))
    ensures title != [] ==> (Slugify(title)[|Slugify(title)| - 1] == '-' <==> !IsSlugChar(LowerChar(title[|title| - 1])))
  {
    ReplaceRunsKeepsSlugChars(Lower(title));
    if title != [] {
      ReplaceRunsLast(Lower(title));
    }
  }
}
