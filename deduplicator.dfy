/** dedupeGames, mergeSources and mergeTags (services/aggregator.js:94-134).
    Games that share the key `lowercase(title) + "-" + releaseDate` collapse
    into the first one seen; its store listings and tags become first-wins
    unions with those of the later duplicates. The key does not involve the
    store, whatever the doc comment at services/aggregator.js:95 says. */
module Deduplicator {
  import opened Catalog
  import opened Sequences
  import Text

  datatype Option<T> = None | Some(value: T)

  /** The identity of a game for de-duplication (services/aggregator.js:102). */
  function Key(g: Game): string
  {
    Text.Lower(g.title) + "-" + g.releaseDate
  }

  /** With release dates of equal length (ISO dates have ten characters), two
      keys agree exactly when the lower-cased titles and the dates agree;
      stores, providers and every other field play no part. */
  lemma KeyIdentity(g: Game, h: Game)
    requires |g.releaseDate| == |h.releaseDate|
    ensures Key(g) == Key(h) <==> Text.Lower(g.title) == Text.Lower(h.title) && g.releaseDate == h.releaseDate
  {
    if Key(g) == Key(h) {
      var n := |Key(g)| - |g.releaseDate|;
      assert Key(g)[n..] == g.releaseDate;
      assert Key(h)[n..] == h.releaseDate;
      assert Key(g)[..n - 1] == Text.Lower(g.title);
      assert Key(h)[..n - 1] == Text.Lower(h.title);
    }
  }

  /** mergeSources as a specification: listings of a then b, the first one per store. */
  ghost function UnionByStore(a: seq<Source>, b: seq<Source>): seq<Source>
  {
    FirstBy(a + b, StoreOf)
  }

  /** mergeTags as a specification: tags of a then b, the first one per name. */
  ghost function UnionByName(a: seq<Tag>, b: seq<Tag>): seq<Tag>
  {
    FirstBy(a + b, TagName)
  }

  /** The record kept when `later` collides with `kept` (services/aggregator.js:107-111). */
  ghost function MergeInto(kept: Game, later: Game): Game
  {
    kept.(sources := UnionByStore(kept.sources, later.sources), tags := UnionByName(kept.tags, later.tags))
  }

  /** The position of the entry with key k, if any. */
  ghost function FindKey(acc: seq<Game>, k: string): (r: Option<nat>)
    ensures r.Some? ==> r.value < |acc| && Key(acc[r.value]) == k
    ensures r.None? ==> forall i :: 0 <= i < |acc| ==> Key(acc[i]) != k
    decreases |acc|
  {
    if acc == [] then None
    else if Key(acc[|acc| - 1]) == k then Some(|acc| - 1)
    else FindKey(acc[..|acc| - 1], k)
  }

  /** One step of the forEach at services/aggregator.js:101-112. */
  ghost function Absorb(acc: seq<Game>, g: Game): seq<Game>
  {
    match FindKey(acc, Key(g))
    case None => acc + [g]
    case Some(j) => acc[j := MergeInto(acc[j], g)]
  }

  /** dedupeGames as a specification: the games absorbed one by one. */
  ghost function Dedupe(games: seq<Game>): seq<Game>
    decreases |games|
  {
    if games == [] then [] else Absorb(Dedupe(games[..|games| - 1]), games[|games| - 1])
  }

  // ---------------------------------------------------------------------
  // The loops of the source.

  /** mergeSources: walks a then b and keeps the first listing per store.
      `byStore` is the Map; `merged` lists its values in insertion order,
      which is what `Array.from(byStore.values())` returns. */
  method MergeSources(a: seq<Source>, b: seq<Source>) returns (merged: seq<Source>)
    ensures merged == UnionByStore(a, b)
    ensures UniqueBy(merged, StoreOf)
    ensures KeySet(merged, StoreOf) == KeySet(a, StoreOf) + KeySet(b, StoreOf)
  {
    var all := a + b;
    var byStore: map<string, Source> := map[];
    merged := [];
    var i := 0;
    while i < |all|
      invariant 0 <= i <= |all|
      invariant merged == FirstBy(all[..i], StoreOf)
      invariant Holds(byStore, merged)
    {
      var src := all[i];
      StoreStep(all, i, byStore, merged);
      if src.store !in byStore {
        byStore := byStore[src.store := src];
        merged := merged + [src];
      }
      i := i + 1;
    }
    assert all[..i] == all;
    FirstByFacts(all, StoreOf);
    KeySetAppend(a, b, StoreOf);
  }

  /** The Map of mergeSources holds exactly the listings of `merged`, each
      under its store. */
  ghost predicate Holds(byStore: map<string, Source>, merged: seq<Source>)
  {
    byStore.Keys == KeySet(merged, StoreOf) && forall s :: s in merged ==> byStore[s.store] == s
  }

  /** One turn of the forEach of mergeSources keeps `merged` equal to the
      first-wins union of the listings walked so far. */
  lemma StoreStep(all: seq<Source>, i: nat, byStore: map<string, Source>, merged: seq<Source>)
    requires i < |all| && merged == FirstBy(all[..i], StoreOf) && Holds(byStore, merged)
    ensures all[i].store in byStore ==> merged == FirstBy(all[..i + 1], StoreOf)
    ensures all[i].store !in byStore ==>
      && merged + [all[i]] == FirstBy(all[..i + 1], StoreOf)
      && Holds(byStore[all[i].store := all[i]], merged + [all[i]])
  {
    var src := all[i];
    TakeOneMore(all, i);
    FirstBySnoc(all[..i], src, StoreOf);
    if src.store !in byStore {
      KeySetAppend(merged, [src], StoreOf);
      KeySetSingleton(src, StoreOf);
    }
  }

  /** mergeTags: walks a then b and keeps the first tag per name, tracking the
      names seen in a set. */
  method MergeTags(a: seq<Tag>, b: seq<Tag>) returns (merged: seq<Tag>)
    ensures merged == UnionByName(a, b)
    ensures UniqueBy(merged, TagName)
    ensures KeySet(merged, TagName) == KeySet(a, TagName) + KeySet(b, TagName)
  {
    var all := a + b;
    var names: set<string> := {};
    merged := [];
    var i := 0;
    while i < |all|
      invariant 0 <= i <= |all|
      invariant merged == FirstBy(all[..i], TagName)
      invariant names == KeySet(merged, TagName)
    {
      var tag := all[i];
      TakeOneMore(all, i);
      FirstBySnoc(all[..i], tag, TagName);
      if tag.name !in names {
        KeySetAppend(merged, [tag], TagName);
        KeySetSingleton(tag, TagName);
        names := names + {tag.name};
        merged := merged + [tag];
      }
      i := i + 1;
    }
    assert all[..i] == all;
    FirstByFacts(all, TagName);
    KeySetAppend(a, b, TagName);
  }

  /** `seen` sends every key of `entries` to the position of its entry. */
  ghost predicate IndexedBy(seen: map<string, nat>, entries: seq<Game>)
  {
    && (forall k :: k in seen ==> seen[k] < |entries| && Key(entries[seen[k]]) == k)
    && (forall j :: 0 <= j < |entries| ==> Key(entries[j]) in seen && seen[Key(entries[j])] == j)
  }

  lemma FindKeyIndexed(seen: map<string, nat>, entries: seq<Game>, k: string)
    requires IndexedBy(seen, entries)
    ensures FindKey(entries, k) == if k in seen then Some(seen[k]) else None
  {
    var r := FindKey(entries, k);
    if r.Some? {
      assert seen[Key(entries[r.value])] == r.value;
    }
  }

  lemma IndexedAfterAppend(seen: map<string, nat>, entries: seq<Game>, g: Game)
    requires IndexedBy(seen, entries) && Key(g) !in seen
    ensures IndexedBy(seen[Key(g) := |entries|], entries + [g])
  {
  }

  lemma IndexedAfterReplace(seen: map<string, nat>, entries: seq<Game>, at: nat, g: Game)
    requires IndexedBy(seen, entries) && at < |entries| && Key(g) == Key(entries[at])
    ensures IndexedBy(seen, entries[at := g])
  {
  }

  /** The forEach callback of dedupeGames (services/aggregator.js:101-112):
      a new key gets an entry at the end, a known key has its entry replaced
      by the merge, in place. */
  method AbsorbGame(seen: map<string, nat>, deduped: seq<Game>, game: Game)
    returns (seen': map<string, nat>, deduped': seq<Game>)
    requires IndexedBy(seen, deduped)
    ensures deduped' == Absorb(deduped, game)
    ensures IndexedBy(seen', deduped')
  {
    var key := Key(game);
    FindKeyIndexed(seen, deduped, key);
    if key !in seen {
      IndexedAfterAppend(seen, deduped, game);
      seen' := seen[key := |deduped|];
      deduped' := deduped + [game];
    } else {
      var at := seen[key];
      var existing := deduped[at];
      var mergedSources := MergeSources(existing.sources, game.sources);
      var mergedTags := MergeTags(existing.tags, game.tags);
      var merged := existing.(sources := mergedSources, tags := mergedTags);
      IndexedAfterReplace(seen, deduped, at, merged);
      seen' := seen;
      deduped' := deduped[at := merged];
    }
  }

  /** dedupeGames. `seen` plays the insertion-ordered Map: it sends each key
      to the position of its entry in `deduped`, and replacing an entry keeps
      its position. */
  method DedupeGames(games: seq<Game>) returns (deduped: seq<Game>)
    ensures deduped == Dedupe(games)
    ensures UniqueBy(deduped, Key)
    ensures KeySet(deduped, Key) == KeySet(games, Key)
  {
    var seen: map<string, nat> := map[];
    deduped := [];
    var i := 0;
    while i < |games|
      invariant 0 <= i <= |games|
      invariant deduped == Dedupe(games[..i])
      invariant IndexedBy(seen, deduped)
    {
      assert games[..i + 1][..i] == games[..i];
      seen, deduped := AbsorbGame(seen, deduped, games[i]);
      i := i + 1;
    }
    assert games[..i] == games;
    DedupeKeys(games);
  }

  // ---------------------------------------------------------------------
  // A closed form of Dedupe, and what follows from it.

  /** The listings of a group of games, concatenated in order. */
  ghost function AllSources(group: seq<Game>): seq<Source>
    decreases |group|
  {
    if group == [] then [] else AllSources(group[..|group| - 1]) + group[|group| - 1].sources
  }

  /** The tags of a group of games, concatenated in order. */
  ghost function AllTags(group: seq<Game>): seq<Tag>
    decreases |group|
  {
    if group == [] then [] else AllTags(group[..|group| - 1]) + group[|group| - 1].tags
  }

  /** What de-duplication makes of `first`, the first game with its key: the
      game itself when nothing collides with it, and otherwise the game with
      the first-wins union of the listings and tags of every game that shares
      its key. */
  ghost function Collapse(first: Game, games: seq<Game>): Game
  {
    var group := WithKey(games, Key, Key(first));
    if |group| <= 1 then first
    else first.(sources := FirstBy(AllSources(group), StoreOf), tags := FirstBy(AllTags(group), TagName))
  }

  /** The first game of each key, in order of first appearance. */
  ghost function FirstOfEachKey(games: seq<Game>): seq<Game>
  {
    FirstBy(games, Key)
  }

  /** out has one entry per distinct key of games, in order of first
      appearance, and each entry is the collapse of its key's games. */
  ghost predicate IsClosedForm(games: seq<Game>, out: seq<Game>)
  {
    && |out| == |FirstOfEachKey(games)|
    && forall i :: 0 <= i < |out| ==> out[i] == Collapse(FirstOfEachKey(games)[i], games)
  }

  lemma CollapseElsewhere(init: seq<Game>, g: Game, f: Game)
    requires Key(f) != Key(g)
    ensures Collapse(f, init + [g]) == Collapse(f, init)
  {
    assert (init + [g])[..|init|] == init;
  }

  /** Entry i of a closed form carries the key of the i-th first game. */
  lemma ClosedFormKeys(games: seq<Game>, out: seq<Game>)
    requires IsClosedForm(games, out)
    ensures forall i :: 0 <= i < |out| ==> Key(out[i]) == Key(FirstOfEachKey(games)[i])
  {
  }

  /** A game whose key has no entry yet is the first of its key. */
  lemma NewKeyShape(init: seq<Game>, g: Game)
    requires IsClosedForm(init, Dedupe(init))
    requires FindKey(Dedupe(init), Key(g)).None?
    ensures Key(g) !in KeySet(init, Key)
    ensures Dedupe(init + [g]) == Dedupe(init) + [g]
    ensures FirstOfEachKey(init + [g]) == FirstOfEachKey(init) + [g]
    ensures WithKey(init + [g], Key, Key(g)) == [g]
  {
    var games := init + [g];
    assert games[..|games| - 1] == init;
    assert Key(g) !in KeySet(init, Key) by {
      ClosedFormKeys(init, Dedupe(init));
      FirstByFacts(init, Key);
    }
    FirstByFacts(init, Key);
    WithKeyEmpty(init, Key, Key(g));
  }

  /** The step of DedupeClosedForm for a game with a new key. */
  lemma ClosedFormNewKey(init: seq<Game>, g: Game)
    requires IsClosedForm(init, Dedupe(init))
    requires FindKey(Dedupe(init), Key(g)).None?
    ensures IsClosedForm(init + [g], Dedupe(init + [g]))
  {
    var games := init + [g];
    var out, firsts := Dedupe(init), FirstOfEachKey(init);
    NewKeyShape(init, g);
    ClosedFormKeys(init, out);
    forall i | 0 <= i < |out|
      ensures Dedupe(games)[i] == Collapse(FirstOfEachKey(games)[i], games)
    {
      CollapseElsewhere(init, g, firsts[i]);
    }
  }

  /** The step of DedupeClosedForm for a game whose key has entry j. */
  lemma ClosedFormKnownKey(init: seq<Game>, g: Game, j: nat)
    requires IsClosedForm(init, Dedupe(init))
    requires FindKey(Dedupe(init), Key(g)) == Some(j)
    ensures IsClosedForm(init + [g], Dedupe(init + [g]))
  {
    var games := init + [g];
    var out, firsts := Dedupe(init), FirstOfEachKey(init);
    var k := Key(g);
    assert games[..|games| - 1] == init;
    assert Dedupe(games) == out[j := MergeInto(out[j], g)];
    assert Key(firsts[j]) == k by {
      ClosedFormKeys(init, out);
    }
    assert FirstOfEachKey(games) == firsts by {
      FirstByFacts(init, Key);
      assert firsts[j] in firsts;
    }
    forall i | 0 <= i < |out| && i != j
      ensures Dedupe(games)[i] == Collapse(FirstOfEachKey(games)[i], games)
    {
      assert Key(firsts[i]) != k by {
        FirstByFacts(init, Key);
      }
      CollapseElsewhere(init, g, firsts[i]);
    }
    assert WithKey(init, Key, k) != [] && WithKey(init, Key, k)[0] == firsts[j] by {
      FirstByFirstWins(init, Key);
    }
    CollapseMerge(init, g, firsts[j]);
  }

  /** Absorbing one more game with the same key into a collapsed entry gives
      the collapse over the longer input. */
  lemma CollapseMerge(init: seq<Game>, g: Game, first: Game)
    requires Key(first) == Key(g)
    requires WithKey(init, Key, Key(g)) != [] && WithKey(init, Key, Key(g))[0] == first
    ensures MergeInto(Collapse(first, init), g) == Collapse(first, init + [g])
  {
    var k := Key(g);
    var group := WithKey(init, Key, k);
    var sources, tags := AllSources(group) + g.sources, AllTags(group) + g.tags;
    assert WithKey(init + [g], Key, k) == group + [g] by {
      assert (init + [g])[..|init|] == init;
    }
    assert AllSources(group + [g]) == sources && AllTags(group + [g]) == tags by {
      assert (group + [g])[..|group + [g]| - 1] == group;
    }
    assert Collapse(first, init + [g]) == first.(sources := FirstBy(sources, StoreOf), tags := FirstBy(tags, TagName));
    if |group| == 1 {
      assert group == [first];
      assert Collapse(first, init) == first;
      assert AllSources(group) == first.sources by {
        assert group[..0] == [];
      }
      assert AllTags(group) == first.tags by {
        assert group[..0] == [];
      }
    } else {
      var c := Collapse(first, init);
      assert c == first.(sources := FirstBy(AllSources(group), StoreOf), tags := FirstBy(AllTags(group), TagName));
      FirstByAbsorb(AllSources(group), g.sources, StoreOf);
      FirstByAbsorb(AllTags(group), g.tags, TagName);
    }
  }

  /** Dedupe in closed form: the absorbing fold of the source equals, entry by
      entry, the collapse of each key's games taken in order of first
      appearance. */
  lemma {:induction false} DedupeClosedForm(games: seq<Game>)
    ensures IsClosedForm(games, Dedupe(games))
    decreases |games|
  {
    if games != [] {
      var init, g := games[..|games| - 1], games[|games| - 1];
      assert games == init + [g];
      DedupeClosedForm(init);
      match FindKey(Dedupe(init), Key(g))
      case None => ClosedFormNewKey(init, g);
      case Some(j) => ClosedFormKnownKey(init, g, j);
    }
  }

  /** The entries of Dedupe have distinct keys, and every key of the input
      has an entry. */
  lemma DedupeKeys(games: seq<Game>)
    ensures UniqueBy(Dedupe(games), Key)
    ensures KeySet(Dedupe(games), Key) == KeySet(games, Key)
  {
    DedupeClosedForm(games);
    FirstByFacts(games, Key);
    var out, firsts := Dedupe(games), FirstOfEachKey(games);
    assert forall i :: 0 <= i < |out| ==> Key(out[i]) == Key(firsts[i]);
    forall k | k in KeySet(out, Key) ensures k in KeySet(firsts, Key) {
      var x :| x in out && Key(x) == k;
      var i :| 0 <= i < |out| && out[i] == x;
      assert firsts[i] in firsts;
    }
    forall k | k in KeySet(firsts, Key) ensures k in KeySet(out, Key) {
      var x :| x in firsts && Key(x) == k;
      var i :| 0 <= i < |firsts| && firsts[i] == x;
      assert out[i] in out;
    }
  }

  /** First seen wins: entry i of Dedupe is the first game of the input with
      its key, except for its listings and tags; its keys come in order of
      first appearance. */
  lemma DedupeFirstSeenWins(games: seq<Game>)
    ensures |Dedupe(games)| == |FirstOfEachKey(games)|
    ensures forall i :: 0 <= i < |Dedupe(games)| ==>
      var first := FirstOfEachKey(games)[i];
      && first in games
      && WithKey(games, Key, Key(first)) != []
      && WithKey(games, Key, Key(first))[0] == first
      && Dedupe(games)[i] == first.(sources := Dedupe(games)[i].sources, tags := Dedupe(games)[i].tags)
  {
    DedupeClosedForm(games);
    FirstByFacts(games, Key);
    FirstByFirstWins(games, Key);
  }

  /** A game that nothing collides with comes through untouched, even if its
      own listings repeat a store; a game that something collides with ends
      up with listings unique by store and tags unique by name. */
  lemma DedupeEntries(games: seq<Game>)
    ensures |Dedupe(games)| == |FirstOfEachKey(games)|
    ensures forall i :: 0 <= i < |Dedupe(games)| ==>
      var first := FirstOfEachKey(games)[i];
      var group := WithKey(games, Key, Key(first));
      && (|group| == 1 ==> Dedupe(games)[i] == first)
      && (|group| > 1 ==> UniqueBy(Dedupe(games)[i].sources, StoreOf) && UniqueBy(Dedupe(games)[i].tags, TagName))
  {
    DedupeClosedForm(games);
    forall i | 0 <= i < |Dedupe(games)|
      ensures var first := FirstOfEachKey(games)[i];
        |WithKey(games, Key, Key(first))| > 1 ==>
          UniqueBy(Dedupe(games)[i].sources, StoreOf) && UniqueBy(Dedupe(games)[i].tags, TagName)
    {
      var group := WithKey(games, Key, Key(FirstOfEachKey(games)[i]));
      FirstByFacts(AllSources(group), StoreOf);
      FirstByFacts(AllTags(group), TagName);
    }
  }

  /** A sequence whose keys are already distinct comes back unchanged. */
  lemma DedupeOfUnique(games: seq<Game>)
    requires UniqueBy(games, Key)
    ensures Dedupe(games) == games
  {
    DedupeClosedForm(games);
    FirstByOfUnique(games, Key);
    forall i | 0 <= i < |games|
      ensures Collapse(games[i], games) == games[i]
    {
      FirstByFirstWins(games, Key);
      WithKeySingle(games, i);
    }
  }

  lemma {:induction false} WithKeySingle(games: seq<Game>, i: nat)
    requires UniqueBy(games, Key) && i < |games|
    ensures WithKey(games, Key, Key(games[i])) == [games[i]]
    decreases |games|
  {
    var init := games[..|games| - 1];
    assert UniqueBy(init, Key);
    if i < |games| - 1 {
      WithKeySingle(init, i);
    } else {
      assert Key(games[i]) !in KeySet(init, Key);
      WithKeyEmpty(init, Key, Key(games[i]));
    }
  }

  /** De-duplication is idempotent. */
  lemma DedupeIdempotent(games: seq<Game>)
    ensures Dedupe(Dedupe(games)) == Dedupe(games)
  {
    DedupeKeys(games);
    DedupeOfUnique(Dedupe(games));
  }

  /** Two games with the same key, as from two providers listing one game on
      different stores: one entry remains, the first game with the union of
      the listings (first listing per store) and of the tags (first tag per
      name). When both lists are free of repeats the union is the first list
      followed by the entries of the second with a new store or name. */
  lemma DedupeCollision(a: Game, b: Game)
    requires Key(a) == Key(b)
    ensures Dedupe([a, b]) == [a.(sources := UnionByStore(a.sources, b.sources), tags := UnionByName(a.tags, b.tags))]
    ensures UniqueBy(a.sources, StoreOf) ==>
      UnionByStore(a.sources, b.sources)
        == a.sources + FirstBy(WithoutKeys(b.sources, StoreOf, KeySet(a.sources, StoreOf)), StoreOf)
    ensures UniqueBy(a.tags, TagName) ==>
      UnionByName(a.tags, b.tags)
        == a.tags + FirstBy(WithoutKeys(b.tags, TagName, KeySet(a.tags, TagName)), TagName)
  {
    assert Dedupe([a, b]) == Absorb(Dedupe([a]), b) by {
      assert [a, b][..1] == [a];
    }
    assert Dedupe([a]) == [a] by {
      assert [a][..0] == [];
    }
    UnionAfterUnique(a.sources, b.sources, StoreOf);
    UnionAfterUnique(a.tags, b.tags, TagName);
  }

  /** The first-wins union of a list without repeats and another list. */
  lemma UnionAfterUnique<T, K>(a: seq<T>, b: seq<T>, key: T -> K)
    ensures UniqueBy(a, key) ==>
      FirstBy(a + b, key) == a + FirstBy(WithoutKeys(b, key, KeySet(a, key)), key)
  {
    if UniqueBy(a, key) {
      FirstByAppend(a, b, key);
      FirstByOfUnique(a, key);
    }
  }

  /** Every entry of Dedupe keeps at least one listing when every input game
      has one. */
  lemma {:induction false} DedupeKeepsListings(games: seq<Game>)
    requires forall g :: g in games ==> g.sources != []
    ensures forall e :: e in Dedupe(games) ==> e.sources != []
    decreases |games|
  {
    if games != [] {
      var init, g := games[..|games| - 1], games[|games| - 1];
      assert forall h :: h in init ==> h in games;
      DedupeKeepsListings(init);
      var acc := Dedupe(init);
      match FindKey(acc, Key(g))
      case None =>
      case Some(j) =>
        var all := acc[j].sources + g.sources;
        assert acc[j] in acc;
        assert all[0] in all;
        FirstByFacts(all, StoreOf);
        assert StoreOf(all[0]) in KeySet(FirstBy(all, StoreOf), StoreOf);
        forall e | e in acc[j := MergeInto(acc[j], g)]
          ensures e.sources != []
        {
          var i :| 0 <= i < |acc| && acc[j := MergeInto(acc[j], g)][i] == e;
          if i != j {
            assert acc[i] in acc;
          }
        }
    }
  }

  /** Every entry of Dedupe is an input game, up to its listings and tags. */
  lemma DedupeEntriesFromInput(games: seq<Game>)
    ensures forall e :: e in Dedupe(games) ==> exists g :: g in games && e == g.(sources := e.sources, tags := e.tags)
  {
    DedupeFirstSeenWins(games);
    forall e | e in Dedupe(games)
      ensures exists g :: g in games && e == g.(sources := e.sources, tags := e.tags)
    {
      var i :| 0 <= i < |Dedupe(games)| && Dedupe(games)[i] == e;
      assert FirstOfEachKey(games)[i] in games;
    }
  }
}
