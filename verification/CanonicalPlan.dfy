/**
 The write plan of the canonical taxonomy (scripts/p2-06-5-production/tagging-bootstrap.ts):
 keyword seeds shared by two tags are dropped everywhere, identities may not be shared, and
 every distinct seed is kept or skipped for one reason.
 */
module CanonicalPlan {
  import opened Wrappers

  type Seed = string
  type Key = string     // a normalized seed

  datatype Script = Cjk | Latin | OtherScript

  datatype Translation = Translation(locale: string, displayName: string)

  datatype RawTag = RawTag(
    stableId: string, slug: string, aliases: seq<string>, seeds: seq<Seed>,
    isPublic: bool, facet: Option<string>, translations: seq<Translation>)

  /** NFKC and lower-casing, the script test, the known facets and the eligibility overlay. */
  datatype Config = Config(
    normalize: Seed -> Key, script: Seed -> Script, facets: set<string>,
    enabled: map<(string, Key), bool>)

  datatype Keyword = Keyword(value: Seed, key: Key, script: Script)

  datatype PlannedTag = PlannedTag(
    stableId: string, slug: string, aliases: seq<string>, sortOrder: nat,
    translations: seq<Translation>, keywords: seq<Keyword>)

  datatype Skipped = Skipped(collision: nat, otherScript: nat, overlayDisabled: nat)

  datatype Plan = Plan(tags: seq<PlannedTag>, aliasCount: nat, translationCount: nat,
      keywordCount: nat, skipped: Skipped)

  datatype Outcome = InvariantViolation | AliasCollision | Planned(plan: Plan)

  // ---------------------------------------------------------------------
  // Who owns a seed or an identity
  // ---------------------------------------------------------------------

  function KeySet(seeds: seq<Seed>, c: Config): set<Key> {
    set s | s in seeds :: c.normalize(s)
  }

  function KeysOf(t: RawTag, c: Config): set<Key> {
    KeySet(t.seeds, c)
  }

  function IdentitiesOf(t: RawTag): set<string> {
    {t.stableId, t.slug} + set a | a in t.aliases
  }

  /** Two different stable ids own `key`. */
  predicate Collides(tags: seq<RawTag>, c: Config, key: Key) {
    exists i, j :: 0 <= i < |tags| && 0 <= j < |tags| && tags[i].stableId != tags[j].stableId
                   && key in KeysOf(tags[i], c) && key in KeysOf(tags[j], c)
  }

  predicate SharesIdentity(a: RawTag, b: RawTag) {
    a.stableId != b.stableId && IdentitiesOf(a) * IdentitiesOf(b) != {}
  }

  predicate IdentitiesCollide(tags: seq<RawTag>) {
    exists i, j :: 0 <= i < |tags| && 0 <= j < |tags| && SharesIdentity(tags[i], tags[j])
  }

  // ---------------------------------------------------------------------
  // The seeds of one tag
  // ---------------------------------------------------------------------

  /** What the loop over a tag's seeds has done. */
  datatype Tally = Tally(seen: set<Key>, kept: seq<Keyword>, skipped: Skipped)

  function OnSeed(w: Tally, s: Seed, stableId: string, collisions: set<Key>, c: Config): Tally {
    var key := c.normalize(s);
    if key in w.seen then w
    else
      var seen := w.seen + {key};
      if key in collisions then Tally(seen, w.kept, w.skipped.(collision := w.skipped.collision + 1))
      else if c.script(s) == OtherScript then Tally(seen, w.kept, w.skipped.(otherScript := w.skipped.otherScript + 1))
      else if (stableId, key) in c.enabled && !c.enabled[(stableId, key)]
      then Tally(seen, w.kept, w.skipped.(overlayDisabled := w.skipped.overlayDisabled + 1))
      else Tally(seen, w.kept + [Keyword(s, key, c.script(s))], w.skipped)
  }

  function Walk(seeds: seq<Seed>, stableId: string, collisions: set<Key>, c: Config): Tally {
    if seeds == [] then Tally({}, [], Skipped(0, 0, 0))
    else OnSeed(Walk(seeds[..|seeds| - 1], stableId, collisions, c), seeds[|seeds| - 1], stableId, collisions, c)
  }

  /** A keyword as it may be kept: from a seed of the tag, in a known script, colliding with nobody and not disabled. */
  predicate KeywordOk(k: Keyword, seeds: seq<Seed>, stableId: string, collisions: set<Key>, c: Config) {
    && k.value in seeds && k.key == c.normalize(k.value) && k.script == c.script(k.value) != OtherScript
    && k.key !in collisions && !((stableId, k.key) in c.enabled && !c.enabled[(stableId, k.key)])
  }

  predicate TallyOk(w: Tally, seeds: seq<Seed>, stableId: string, collisions: set<Key>, c: Config) {
    && w.seen == KeySet(seeds, c)
    && |w.seen| == |w.kept| + w.skipped.collision + w.skipped.otherScript + w.skipped.overlayDisabled
    && (forall i :: 0 <= i < |w.kept| ==>
          w.kept[i].key in w.seen && KeywordOk(w.kept[i], seeds, stableId, collisions, c))
    && (forall i, j :: 0 <= i < j < |w.kept| ==> w.kept[i].key != w.kept[j].key)
  }

  lemma KeySetSnoc(seeds: seq<Seed>, s: Seed, c: Config)
    ensures KeySet(seeds + [s], c) == KeySet(seeds, c) + {c.normalize(s)}
  {
    forall k ensures k in KeySet(seeds + [s], c) <==> k in KeySet(seeds, c) || k == c.normalize(s) {
      assert (seeds + [s])[|seeds|] == s;
      if i :| 0 <= i < |seeds| && c.normalize(seeds[i]) == k { assert (seeds + [s])[i] == seeds[i]; }
    }
  }

  lemma KeywordStaysOk(k: Keyword, seeds: seq<Seed>, s: Seed, stableId: string, collisions: set<Key>, c: Config)
    requires KeywordOk(k, seeds, stableId, collisions, c)
    ensures KeywordOk(k, seeds + [s], stableId, collisions, c)
  {
    assert k.value in seeds + [s];
  }

  lemma OnSeedOk(w: Tally, seeds: seq<Seed>, s: Seed, stableId: string, collisions: set<Key>, c: Config)
    requires TallyOk(w, seeds, stableId, collisions, c)
    ensures TallyOk(OnSeed(w, s, stableId, collisions, c), seeds + [s], stableId, collisions, c)
  {
    KeySetSnoc(seeds, s, c);
    var v := OnSeed(w, s, stableId, collisions, c);
    forall i | 0 <= i < |w.kept| ensures KeywordOk(w.kept[i], seeds + [s], stableId, collisions, c) {
      KeywordStaysOk(w.kept[i], seeds, s, stableId, collisions, c);
    }
    if |v.kept| > |w.kept| {
      assert s in seeds + [s];
      assert KeywordOk(v.kept[|w.kept|], seeds + [s], stableId, collisions, c);
    }
  }

  /**
   Each distinct normalized seed of a tag is kept once or skipped for exactly one reason;
   what is kept collides with no other tag, has a known script and is not disabled.
   */
  lemma {:induction false} SeedsAccounted(seeds: seq<Seed>, stableId: string, collisions: set<Key>, c: Config)
    ensures TallyOk(Walk(seeds, stableId, collisions, c), seeds, stableId, collisions, c)
  {
    if seeds != [] {
      var front, last := seeds[..|seeds| - 1], seeds[|seeds| - 1];
      SeedsAccounted(front, stableId, collisions, c);
      OnSeedOk(Walk(front, stableId, collisions, c), front, last, stableId, collisions, c);
      assert seeds == front + [last];
    }
  }

  /** No earlier seed of the tag has the same key. */
  predicate First(seeds: seq<Seed>, i: nat, c: Config)
    requires i < |seeds|
  {
    forall j :: 0 <= j < i ==> c.normalize(seeds[j]) != c.normalize(seeds[i])
  }

  predicate Disabled(stableId: string, key: Key, c: Config) {
    (stableId, key) in c.enabled && !c.enabled[(stableId, key)]
  }

  /** The seed at position `i` is the first of its key, shared with nobody, in a known script and not disabled. */
  predicate Keeps(seeds: seq<Seed>, i: nat, stableId: string, collisions: set<Key>, c: Config) {
    && i < |seeds| && First(seeds, i, c) && c.normalize(seeds[i]) !in collisions
    && c.script(seeds[i]) in {Cjk, Latin} && !Disabled(stableId, c.normalize(seeds[i]), c)
  }

  lemma FirstSnoc(seeds: seq<Seed>, s: Seed, c: Config)
    ensures forall i :: 0 <= i < |seeds| ==> (First(seeds + [s], i, c) <==> First(seeds, i, c))
    ensures First(seeds + [s], |seeds|, c) <==> c.normalize(s) !in KeySet(seeds, c)
  {
    var all := seeds + [s];
    forall i | 0 <= i < |seeds| ensures First(all, i, c) <==> First(seeds, i, c) {
      assert forall j :: 0 <= j <= i ==> all[j] == seeds[j];
    }
    if c.normalize(s) in KeySet(seeds, c) {
      var j :| 0 <= j < |seeds| && c.normalize(seeds[j]) == c.normalize(s);
      assert all[j] == seeds[j] && all[|seeds|] == s;
    } else {
      forall j | 0 <= j < |seeds| ensures c.normalize(all[j]) != c.normalize(all[|seeds|]) {
        assert all[j] == seeds[j] && seeds[j] in seeds;
      }
    }
  }

  lemma {:induction false} SeenAreKeys(seeds: seq<Seed>, stableId: string, collisions: set<Key>, c: Config)
    ensures Walk(seeds, stableId, collisions, c).seen == KeySet(seeds, c)
  {
    SeedsAccounted(seeds, stableId, collisions, c);
  }

  lemma KeepsSnoc(seeds: seq<Seed>, s: Seed, stableId: string, collisions: set<Key>, c: Config)
    ensures forall i: nat :: i < |seeds| ==>
      (Keeps(seeds + [s], i, stableId, collisions, c) <==> Keeps(seeds, i, stableId, collisions, c))
    ensures Keeps(seeds + [s], |seeds|, stableId, collisions, c) <==>
      && c.normalize(s) !in KeySet(seeds, c) && c.normalize(s) !in collisions
      && c.script(s) in {Cjk, Latin} && !Disabled(stableId, c.normalize(s), c)
  {
    FirstSnoc(seeds, s, c);
    assert (seeds + [s])[|seeds|] == s;
  }

  /** `at` lists the positions of the kept seeds in increasing order, and `kept` holds their keywords. */
  ghost predicate KeptAt(at: seq<nat>, kept: seq<Keyword>, seeds: seq<Seed>, stableId: string, collisions: set<Key>,
                         c: Config)
  {
    && |at| == |kept|
    && (forall k :: 0 <= k < |at| ==>
          at[k] < |seeds| && kept[k] == Keyword(seeds[at[k]], c.normalize(seeds[at[k]]), c.script(seeds[at[k]])))
    && (forall k, l :: 0 <= k < l < |at| ==> at[k] < at[l])
    && (forall i: nat :: i in at <==> Keeps(seeds, i, stableId, collisions, c))
  }

  lemma KeptAtSnoc(at: seq<nat>, kept: seq<Keyword>, seeds: seq<Seed>, s: Seed, stableId: string,
                   collisions: set<Key>, c: Config)
    requires KeptAt(at, kept, seeds, stableId, collisions, c)
    ensures if Keeps(seeds + [s], |seeds|, stableId, collisions, c)
            then KeptAt(at + [|seeds|], kept + [Keyword(s, c.normalize(s), c.script(s))], seeds + [s], stableId,
                        collisions, c)
            else KeptAt(at, kept, seeds + [s], stableId, collisions, c)
  {
    KeepsSnoc(seeds, s, stableId, collisions, c);
    forall k | 0 <= k < |at| ensures at[k] < |seeds| && (seeds + [s])[at[k]] == seeds[at[k]] {
    }
  }

  /** The keywords of a tag are, in order, exactly its seeds that must be kept. */
  lemma KeptInOrder(seeds: seq<Seed>, stableId: string, collisions: set<Key>, c: Config) returns (at: seq<nat>)
    ensures KeptAt(at, Walk(seeds, stableId, collisions, c).kept, seeds, stableId, collisions, c)
  {
    if seeds == [] {
      at := [];
      return;
    }
    var front, last := seeds[..|seeds| - 1], seeds[|seeds| - 1];
    assert seeds == front + [last];
    at := KeptInOrder(front, stableId, collisions, c);
    SeenAreKeys(front, stableId, collisions, c);
    KeptAtSnoc(at, Walk(front, stableId, collisions, c).kept, front, last, stableId, collisions, c);
    KeepsSnoc(front, last, stableId, collisions, c);
    if Keeps(seeds, |front|, stableId, collisions, c) {
      at := at + [|front|];
    }
  }

  /** The first seeds of their keys: those whose key is shared, */
  function CollidingAt(seeds: seq<Seed>, collisions: set<Key>, c: Config): set<nat> {
    set i: nat | i < |seeds| && First(seeds, i, c) && c.normalize(seeds[i]) in collisions
  }

  /** those of the others in an unknown script, */
  function UnreadableAt(seeds: seq<Seed>, collisions: set<Key>, c: Config): set<nat> {
    set i: nat | i < |seeds| && First(seeds, i, c) && c.normalize(seeds[i]) !in collisions
                 && c.script(seeds[i]) == OtherScript
  }

  /** and those of the rest that are disabled. */
  function DisabledAt(seeds: seq<Seed>, stableId: string, collisions: set<Key>, c: Config): set<nat> {
    set i: nat | i < |seeds| && First(seeds, i, c) && c.normalize(seeds[i]) !in collisions
                 && c.script(seeds[i]) != OtherScript && Disabled(stableId, c.normalize(seeds[i]), c)
  }

  lemma CollidingSnoc(seeds: seq<Seed>, s: Seed, collisions: set<Key>, c: Config)
    ensures |CollidingAt(seeds + [s], collisions, c)| == |CollidingAt(seeds, collisions, c)| +
              (if c.normalize(s) !in KeySet(seeds, c) && c.normalize(s) in collisions then 1 else 0)
  {
    FirstSnoc(seeds, s, c);
    var isNew := c.normalize(s) !in KeySet(seeds, c) && c.normalize(s) in collisions;
    assert CollidingAt(seeds + [s], collisions, c) ==
           CollidingAt(seeds, collisions, c) + (if isNew then {|seeds|} else {});
  }

  lemma UnreadableSnoc(seeds: seq<Seed>, s: Seed, collisions: set<Key>, c: Config)
    ensures |UnreadableAt(seeds + [s], collisions, c)| == |UnreadableAt(seeds, collisions, c)| +
              (if c.normalize(s) !in KeySet(seeds, c) && c.normalize(s) !in collisions && c.script(s) == OtherScript
               then 1 else 0)
  {
    FirstSnoc(seeds, s, c);
    var isNew := c.normalize(s) !in KeySet(seeds, c) && c.normalize(s) !in collisions && c.script(s) == OtherScript;
    assert UnreadableAt(seeds + [s], collisions, c) ==
           UnreadableAt(seeds, collisions, c) + (if isNew then {|seeds|} else {});
  }

  lemma DisabledSnoc(seeds: seq<Seed>, s: Seed, stableId: string, collisions: set<Key>, c: Config)
    ensures |DisabledAt(seeds + [s], stableId, collisions, c)| == |DisabledAt(seeds, stableId, collisions, c)| +
              (if c.normalize(s) !in KeySet(seeds, c) && c.normalize(s) !in collisions && c.script(s) != OtherScript
                  && Disabled(stableId, c.normalize(s), c)
               then 1 else 0)
  {
    FirstSnoc(seeds, s, c);
    var isNew := c.normalize(s) !in KeySet(seeds, c) && c.normalize(s) !in collisions && c.script(s) != OtherScript
        && Disabled(stableId, c.normalize(s), c);
    assert DisabledAt(seeds + [s], stableId, collisions, c) ==
           DisabledAt(seeds, stableId, collisions, c) + (if isNew then {|seeds|} else {});
  }

  /** Each count of skipped seeds is the number of seeds with its property. */
  lemma {:induction false} SkippedExactly(seeds: seq<Seed>, stableId: string, collisions: set<Key>, c: Config)
    ensures Walk(seeds, stableId, collisions, c).skipped ==
              Skipped(|CollidingAt(seeds, collisions, c)|, |UnreadableAt(seeds, collisions, c)|,
                      |DisabledAt(seeds, stableId, collisions, c)|)
  {
    if seeds != [] {
      var front, last := seeds[..|seeds| - 1], seeds[|seeds| - 1];
      assert seeds == front + [last];
      SkippedExactly(front, stableId, collisions, c);
      SeenAreKeys(front, stableId, collisions, c);
      CollidingSnoc(front, last, collisions, c);
      UnreadableSnoc(front, last, collisions, c);
      DisabledSnoc(front, last, stableId, collisions, c);
    }
  }

  // ---------------------------------------------------------------------
  // The whole plan
  // ---------------------------------------------------------------------

  predicate AllNonEmpty(xs: seq<string>) {
    forall i :: 0 <= i < |xs| ==> xs[i] != ""
  }

  predicate ValidTag(t: RawTag, c: Config) {
    && t.stableId != "" && t.slug != "" && t.isPublic
    && (t.facet.Some? ==> t.facet.value in c.facets)
    && t.translations != [] && (forall i :: 0 <= i < |t.translations| ==> t.translations[i].displayName != "")
  }

  predicate DistinctTags(tags: seq<RawTag>) {
    forall i, j :: 0 <= i < j < |tags| ==> tags[i].stableId != tags[j].stableId && tags[i].slug != tags[j].slug
  }

  predicate WellTyped(tags: seq<RawTag>) {
    forall i :: 0 <= i < |tags| ==> AllNonEmpty(tags[i].seeds) && AllNonEmpty(tags[i].aliases)
  }

  ghost predicate IsCollisionSet(collisions: set<Key>, tags: seq<RawTag>, c: Config) {
    forall key :: key in collisions <==> Collides(tags, c, key)
  }

  function PlanTag(t: RawTag, index: nat, collisions: set<Key>, c: Config): PlannedTag {
    PlannedTag(t.stableId, t.slug, t.aliases, index * 10, t.translations, Walk(t.seeds, t.stableId, collisions, c).kept)
  }

  function AddSkipped(a: Skipped, b: Skipped): Skipped {
    Skipped(a.collision + b.collision, a.otherScript + b.otherScript, a.overlayDisabled + b.overlayDisabled)
  }

  function PlanTags(tags: seq<RawTag>, n: nat, collisions: set<Key>, c: Config): Plan
    requires n <= |tags|
  {
    if n == 0 then Plan([], 0, 0, 0, Skipped(0, 0, 0))
    else
      var before := PlanTags(tags, n - 1, collisions, c);
      var t := tags[n - 1];
      var w := Walk(t.seeds, t.stableId, collisions, c);
      Plan(before.tags + [PlanTag(t, n - 1, collisions, c)], before.aliasCount + |t.aliases|,
           before.translationCount + |t.translations|, before.keywordCount + |w.kept|,
           AddSkipped(before.skipped, w.skipped))
  }

  lemma {:induction false} PlanTagsAt(tags: seq<RawTag>, n: nat, collisions: set<Key>, c: Config)
    requires n <= |tags|
    ensures var p := PlanTags(tags, n, collisions, c);
            |p.tags| == n && forall i :: 0 <= i < n ==> p.tags[i] == PlanTag(tags[i], i, collisions, c)
  {
    if n > 0 {
      PlanTagsAt(tags, n - 1, collisions, c);
    }
  }

  /** The sizes of some list of the first `n` tags, added up. */
  function Sizes(tags: seq<RawTag>, n: nat, size: RawTag -> nat): nat
    requires n <= |tags|
  {
    if n == 0 then 0 else Sizes(tags, n - 1, size) + size(tags[n - 1])
  }

  /** The plan has the tags as they came, sorted in steps of ten, and counts their aliases and translations. */
  predicate PlansTags(p: Plan, tags: seq<RawTag>, n: nat)
    requires n <= |tags|
  {
    && |p.tags| == n
    && (forall i :: 0 <= i < n ==>
          && p.tags[i].stableId == tags[i].stableId && p.tags[i].slug == tags[i].slug
          && p.tags[i].aliases == tags[i].aliases && p.tags[i].translations == tags[i].translations
          && p.tags[i].sortOrder == 10 * i)
    && p.aliasCount == Sizes(tags, n, (t: RawTag) => |t.aliases|)
    && p.translationCount == Sizes(tags, n, (t: RawTag) => |t.translations|)
  }

  lemma {:induction false} PlanInFull(tags: seq<RawTag>, n: nat, collisions: set<Key>, c: Config)
    requires n <= |tags|
    ensures PlansTags(PlanTags(tags, n, collisions, c), tags, n)
  {
    if n > 0 {
      PlanInFull(tags, n - 1, collisions, c);
    }
  }

  function DistinctSeeds(tags: seq<RawTag>, n: nat, c: Config): nat
    requires n <= |tags|
  {
    if n == 0 then 0 else DistinctSeeds(tags, n - 1, c) + |KeysOf(tags[n - 1], c)|
  }

  /** Over the whole plan, distinct seeds per tag add up to kept keywords and the three kinds of skips. */
  lemma {:induction false} SeedsConserved(tags: seq<RawTag>, n: nat, collisions: set<Key>, c: Config)
    requires n <= |tags|
    ensures var p := PlanTags(tags, n, collisions, c);
            DistinctSeeds(tags, n, c) ==
              p.keywordCount + p.skipped.collision + p.skipped.otherScript + p.skipped.overlayDisabled
  {
    if n > 0 {
      SeedsConserved(tags, n - 1, collisions, c);
      SeedsAccounted(tags[n - 1].seeds, tags[n - 1].stableId, collisions, c);
    }
  }

  /** What an accepted artifact guarantees. */
  ghost predicate Accepted(tags: seq<RawTag>, c: Config) {
    && WellTyped(tags) && !IdentitiesCollide(tags) && DistinctTags(tags)
    && AllValid(tags, |tags|, c)
  }

  /** No normalized keyword belongs to two tags, and none twice to one. */
  lemma KeywordsBelongToOneTag(tags: seq<RawTag>, collisions: set<Key>, c: Config, i: nat, j: nat, a: nat, b: nat)
    requires Accepted(tags, c) && IsCollisionSet(collisions, tags, c) && i < |tags| && j < |tags|
    requires a < |PlanTag(tags[i], i, collisions, c).keywords| && b < |PlanTag(tags[j], j, collisions, c).keywords|
    requires PlanTag(tags[i], i, collisions, c).keywords[a].key == PlanTag(tags[j], j, collisions, c).keywords[b].key
    ensures i == j && a == b
  {
    SeedsAccounted(tags[i].seeds, tags[i].stableId, collisions, c);
    SeedsAccounted(tags[j].seeds, tags[j].stableId, collisions, c);
    var k, l := PlanTag(tags[i], i, collisions, c).keywords[a], PlanTag(tags[j], j, collisions, c).keywords[b];
    assert KeywordOk(k, tags[i].seeds, tags[i].stableId, collisions, c);
    assert KeywordOk(l, tags[j].seeds, tags[j].stableId, collisions, c);
    assert k.key in KeysOf(tags[i], c) && k.key in KeysOf(tags[j], c);
    assert !Collides(tags, c, k.key);
  }

  /** No stable id, slug or alias belongs to two tags of an accepted artifact. */
  lemma IdentitiesBelongToOneTag(tags: seq<RawTag>, c: Config, i: nat, j: nat, x: string)
    requires Accepted(tags, c) && i < |tags| && j < |tags|
    requires x in IdentitiesOf(tags[i]) && x in IdentitiesOf(tags[j])
    ensures i == j
  {
    assert x in IdentitiesOf(tags[i]) * IdentitiesOf(tags[j]);
    assert !SharesIdentity(tags[i], tags[j]);
  }

  // ---------------------------------------------------------------------
  // buildCanonicalPlan as the script runs it
  // ---------------------------------------------------------------------

  predicate Owns(owners: map<string, set<string>>, x: string, id: string) {
    x in owners && id in owners[x]
  }

  /** `id` is recorded as an owner of `x` when one of the first `n` tags under that stable id lists it. */
  predicate OwnersAt(owners: map<string, set<string>>, tags: seq<RawTag>, lists: RawTag -> set<string>, n: nat,
      x: string, id: string)
    requires n <= |tags|
  {
    Owns(owners, x, id) <==> exists i :: 0 <= i < n && tags[i].stableId == id && x in lists(tags[i])
  }

  ghost predicate OwnersOk(owners: map<string, set<string>>, tags: seq<RawTag>, lists: RawTag -> set<string>, n: nat)
    requires n <= |tags|
  {
    forall x, id :: OwnersAt(owners, tags, lists, n, x, id)
  }

  /** owners.get(x) ?? new Set, add, set: for every listed string of one tag. */
  method AddOwner(owners0: map<string, set<string>>, xs: seq<string>, id: string)
    returns (owners: map<string, set<string>>)
    ensures forall x, o :: Owns(owners, x, o) <==> Owns(owners0, x, o) || (x in xs && o == id)
  {
    owners := owners0;
    for i := 0 to |xs|
      invariant forall x, o :: Owns(owners, x, o) <==> Owns(owners0, x, o) || (x in xs[..i] && o == id)
    {
      ghost var before := owners;
      var mine := if xs[i] in owners then owners[xs[i]] else {};
      owners := owners[xs[i] := mine + {id}];
      assert xs[..i + 1] == xs[..i] + [xs[i]];
      forall x, o ensures Owns(owners, x, o) <==> Owns(before, x, o) || (x == xs[i] && o == id) {}
    }
    assert xs[..|xs|] == xs;
  }

  lemma OwnersStep(owners0: map<string, set<string>>, owners: map<string, set<string>>, tags: seq<RawTag>,
                   lists: RawTag -> set<string>, n: nat)
    requires n < |tags| && OwnersOk(owners0, tags, lists, n)
    requires forall x, o :: Owns(owners, x, o) <==>
        Owns(owners0, x, o) || (x in lists(tags[n]) && o == tags[n].stableId)
    ensures OwnersOk(owners, tags, lists, n + 1)
  {
    var m := n + 1;
    forall x, id ensures OwnersAt(owners, tags, lists, m, x, id) {
      assert OwnersAt(owners0, tags, lists, n, x, id);
      assert Owns(owners, x, id) <==> Owns(owners0, x, id) || (x in lists(tags[n]) && id == tags[n].stableId);
    }
  }

  method NormalizedSeeds(seeds: seq<Seed>, c: Config) returns (keys: seq<Key>)
    ensures forall k :: k in keys <==> k in KeySet(seeds, c)
  {
    keys := [];
    for i := 0 to |seeds|
      invariant |keys| == i && forall j :: 0 <= j < i ==> keys[j] == c.normalize(seeds[j])
    {
      keys := keys + [c.normalize(seeds[i])];
    }
    forall k ensures k in keys <==> k in KeySet(seeds, c) {
      if j :| 0 <= j < |seeds| && c.normalize(seeds[j]) == k { assert keys[j] == k; }
    }
  }

  /** Pass 1: the owners of every normalized seed, and from them the collisions. */
  method FindCollisions(tags: seq<RawTag>, c: Config) returns (collisions: set<Key>)
    ensures IsCollisionSet(collisions, tags, c)
  {
    var occurrences: map<string, set<string>> := map[];
    ghost var lists := (t: RawTag) => KeysOf(t, c);
    for i := 0 to |tags|
      invariant OwnersOk(occurrences, tags, lists, i)
    {
      var keys := NormalizedSeeds(tags[i].seeds, c);
      var next := AddOwner(occurrences, keys, tags[i].stableId);
      OwnersStep(occurrences, next, tags, lists, i);
      occurrences := next;
    }
    collisions := set key | key in occurrences && |occurrences[key]| > 1;
    forall key ensures key in collisions <==> Collides(tags, c, key) {
      SharedIffCollides(occurrences, tags, lists, key);
    }
  }

  lemma SharedIffCollides(owners: map<string, set<string>>, tags: seq<RawTag>, lists: RawTag -> set<string>, x: string)
    requires OwnersOk(owners, tags, lists, |tags|)
    ensures (x in owners && |owners[x]| > 1) <==>
              exists i, j :: 0 <= i < |tags| && 0 <= j < |tags| && tags[i].stableId != tags[j].stableId
                             && x in lists(tags[i]) && x in lists(tags[j])
  {
    if x in owners && |owners[x]| > 1 {
      var a, b := TwoOf(owners[x]);
      assert OwnersAt(owners, tags, lists, |tags|, x, a) && OwnersAt(owners, tags, lists, |tags|, x, b);
    }
    if i, j :| 0 <= i < |tags| && 0 <= j < |tags| && tags[i].stableId != tags[j].stableId
               && x in lists(tags[i]) && x in lists(tags[j]) {
      assert OwnersAt(owners, tags, lists, |tags|, x, tags[i].stableId)
          && OwnersAt(owners, tags, lists, |tags|, x, tags[j].stableId);
      assert {tags[i].stableId, tags[j].stableId} <= owners[x];
      Cardinality({tags[i].stableId, tags[j].stableId}, owners[x]);
    }
  }

  lemma TwoOf(s: set<string>) returns (a: string, b: string)
    requires |s| > 1
    ensures a in s && b in s && a != b
  {
    a :| a in s;
    assert |s - {a}| == |s| - 1;
    b :| b in s - {a};
  }

  lemma Cardinality<T>(small: set<T>, large: set<T>)
    requires small <= large
    ensures |small| <= |large|
  {
    assert large == small + (large - small);
  }

  /** The identity pass: fails exactly when two stable ids share an identity. */
  method FindIdentityCollision(tags: seq<RawTag>) returns (found: bool)
    ensures found <==> IdentitiesCollide(tags)
  {
    var owners: map<string, set<string>> := map[];
    ghost var lists := (t: RawTag) => IdentitiesOf(t);
    for i := 0 to |tags|
      invariant OwnersOk(owners, tags, lists, i)
    {
      var xs := [tags[i].stableId, tags[i].slug] + tags[i].aliases;
      assert forall x :: x in xs <==> x in IdentitiesOf(tags[i]);
      var next := AddOwner(owners, xs, tags[i].stableId);
      OwnersStep(owners, next, tags, lists, i);
      owners := next;
    }
    found := exists x :: x in owners && |owners[x]| > 1;
    SharedIffIdentitiesCollide(owners, tags, lists);
  }

  lemma SharedIffIdentitiesCollide(owners: map<string, set<string>>, tags: seq<RawTag>, lists: RawTag -> set<string>)
    requires OwnersOk(owners, tags, lists, |tags|) && forall t :: lists(t) == IdentitiesOf(t)
    ensures (exists x :: x in owners && |owners[x]| > 1) <==> IdentitiesCollide(tags)
  {
    if x :| x in owners && |owners[x]| > 1 {
      SharedIffCollides(owners, tags, lists, x);
      var i, j :| 0 <= i < |tags| && 0 <= j < |tags| && tags[i].stableId != tags[j].stableId
                  && x in lists(tags[i]) && x in lists(tags[j]);
      assert x in IdentitiesOf(tags[i]) * IdentitiesOf(tags[j]);
      assert SharesIdentity(tags[i], tags[j]);
    }
    if IdentitiesCollide(tags) {
      var i, j :| 0 <= i < |tags| && 0 <= j < |tags| && SharesIdentity(tags[i], tags[j]);
      var x :| x in IdentitiesOf(tags[i]) * IdentitiesOf(tags[j]);
      assert x in lists(tags[i]) && x in lists(tags[j]);
      SharedIffCollides(owners, tags, lists, x);
    }
  }

  /** The loop over one tag's seeds. */
  method BuildKeywords(t: RawTag, collisions: set<Key>, c: Config) returns (w: Tally)
    ensures w == Walk(t.seeds, t.stableId, collisions, c)
  {
    w := Tally({}, [], Skipped(0, 0, 0));
    for i := 0 to |t.seeds|
      invariant w == Walk(t.seeds[..i], t.stableId, collisions, c)
    {
      assert t.seeds[..i + 1][..i] == t.seeds[..i];
      var seed := t.seeds[i];
      var key := c.normalize(seed);
      if key in w.seen {
        continue;
      }
      w := w.(seen := w.seen + {key});
      if key in collisions {
        w := w.(skipped := w.skipped.(collision := w.skipped.collision + 1));
        continue;
      }
      var script := c.script(seed);
      if script == OtherScript {
        w := w.(skipped := w.skipped.(otherScript := w.skipped.otherScript + 1));
        continue;
      }
      if (t.stableId, key) in c.enabled && !c.enabled[(t.stableId, key)] {
        w := w.(skipped := w.skipped.(overlayDisabled := w.skipped.overlayDisabled + 1));
        continue;
      }
      w := w.(kept := w.kept + [Keyword(seed, key, script)]);
    }
    assert t.seeds[..|t.seeds|] == t.seeds;
  }

  /** What the two sets of the pass say of a string. */
  predicate SeenAt(seenIds: set<string>, seenSlugs: set<string>, tags: seq<RawTag>, n: nat, x: string)
    requires n <= |tags|
  {
    && (x in seenIds <==> exists i :: 0 <= i < n && tags[i].stableId == x)
    && (x in seenSlugs <==> exists i :: 0 <= i < n && tags[i].slug == x)
  }

  ghost predicate SeenOk(seenIds: set<string>, seenSlugs: set<string>, tags: seq<RawTag>, n: nat)
    requires n <= |tags|
  {
    forall x :: SeenAt(seenIds, seenSlugs, tags, n, x)
  }

  lemma SeenStep(seenIds: set<string>, seenSlugs: set<string>, tags: seq<RawTag>, n: nat)
    requires n < |tags| && SeenOk(seenIds, seenSlugs, tags, n)
    ensures SeenOk(seenIds + {tags[n].stableId}, seenSlugs + {tags[n].slug}, tags, n + 1)
  {
    var m := n + 1;
    forall x ensures SeenAt(seenIds + {tags[n].stableId}, seenSlugs + {tags[n].slug}, tags, m, x) {
      assert SeenAt(seenIds, seenSlugs, tags, n, x);
    }
  }

  predicate AllValid(tags: seq<RawTag>, n: nat, c: Config)
    requires n <= |tags|
  {
    forall i :: 0 <= i < n ==> ValidTag(tags[i], c)
  }

  /** The checks of one tag against those before it. */
  method CheckTag(tags: seq<RawTag>, n: nat, seenIds: set<string>, seenSlugs: set<string>, c: Config) returns (ok: bool)
    requires n < |tags| && DistinctTags(tags[..n])
    requires SeenOk(seenIds, seenSlugs, tags, n)
    ensures ok <==> ValidTag(tags[n], c) && DistinctTags(tags[..n + 1])
  {
    var t := tags[n];
    ok := t.stableId != "" && t.slug != "" && t.stableId !in seenIds && t.slug !in seenSlugs && ValidTag(t, c);
    var upTo := tags[..n + 1];
    if !ok && ValidTag(t, c) {
      assert SeenAt(seenIds, seenSlugs, tags, n, t.stableId) && SeenAt(seenIds, seenSlugs, tags, n, t.slug);
      assert exists i :: 0 <= i < n && (tags[i].stableId == t.stableId || tags[i].slug == t.slug);
      assert upTo[n] == t;
      assert forall i :: 0 <= i < n ==> upTo[i] == tags[i];
    } else if ok {
      assert SeenAt(seenIds, seenSlugs, tags, n, t.stableId) && SeenAt(seenIds, seenSlugs, tags, n, t.slug);
      forall i, j | 0 <= i < j < |upTo| ensures upTo[i].stableId != upTo[j].stableId && upTo[i].slug != upTo[j].slug {
        assert j < n ==> upTo[i] == tags[..n][i] && upTo[j] == tags[..n][j];
      }
    }
  }

  /** One more tag enters the plan. */
  method ExtendPlan(tags: seq<RawTag>, n: nat, plan0: Plan, collisions: set<Key>, c: Config) returns (plan: Plan)
    requires n < |tags| && plan0 == PlanTags(tags, n, collisions, c)
    ensures plan == PlanTags(tags, n + 1, collisions, c)
  {
    var t := tags[n];
    var w := BuildKeywords(t, collisions, c);
    plan := Plan(plan0.tags + [PlannedTag(t.stableId, t.slug, t.aliases, n * 10, t.translations, w.kept)],
                 plan0.aliasCount + |t.aliases|, plan0.translationCount + |t.translations|,
                 plan0.keywordCount + |w.kept|, AddSkipped(plan0.skipped, w.skipped));
  }

  /** Pass 2 over the tags: a plan, unless some tag violates an invariant. */
  method PlanAllTags(tags: seq<RawTag>, collisions: set<Key>, c: Config) returns (r: Option<Plan>)
    ensures r.Some? <==> DistinctTags(tags) && AllValid(tags, |tags|, c)
    ensures r.Some? ==> r.value == PlanTags(tags, |tags|, collisions, c)
  {
    var plan := Plan([], 0, 0, 0, Skipped(0, 0, 0));
    var seenIds: set<string>, seenSlugs: set<string> := {}, {};
    for n := 0 to |tags|
      invariant plan == PlanTags(tags, n, collisions, c)
      invariant DistinctTags(tags[..n]) && AllValid(tags, n, c) && SeenOk(seenIds, seenSlugs, tags, n)
    {
      var ok := CheckTag(tags, n, seenIds, seenSlugs, c);
      if !ok {
        return None;
      }
      SeenStep(seenIds, seenSlugs, tags, n);
      seenIds, seenSlugs := seenIds + {tags[n].stableId}, seenSlugs + {tags[n].slug};
      plan := ExtendPlan(tags, n, plan, collisions, c);
    }
    assert tags[..|tags|] == tags;
    r := Some(plan);
  }

  /** What a tag of an accepted artifact looks like, field by field. */
  predicate WellFormedTag(t: RawTag, c: Config) {
    && t.stableId != "" && t.slug != "" && t.isPublic && (t.facet.None? || t.facet.value in c.facets)
    && |t.translations| > 0 && (forall k :: 0 <= k < |t.translations| ==> t.translations[k].displayName != "")
    && (forall k :: 0 <= k < |t.seeds| ==> t.seeds[k] != "")
    && (forall k :: 0 <= k < |t.aliases| ==> t.aliases[k] != "")
  }

  lemma AcceptedInFull(tags: seq<RawTag>, c: Config)
    ensures Accepted(tags, c) <==>
      && (forall i :: 0 <= i < |tags| ==> WellFormedTag(tags[i], c))
      && (forall i, j :: 0 <= i < j < |tags| ==>
            tags[i].stableId != tags[j].stableId && tags[i].slug != tags[j].slug)
      && !IdentitiesCollide(tags)
  {
    forall i | 0 <= i < |tags|
      ensures WellFormedTag(tags[i], c) <==>
        ValidTag(tags[i], c) && AllNonEmpty(tags[i].seeds) && AllNonEmpty(tags[i].aliases)
    {
    }
  }

  /** A plan exists exactly for an accepted artifact; shared identities are reported as such. */
  method BuildCanonicalPlan(tags: seq<RawTag>, c: Config) returns (r: Outcome, collisions: set<Key>)
    ensures IsCollisionSet(collisions, tags, c)
    ensures r.Planned? <==> Accepted(tags, c)
    ensures r.AliasCollision? <==> WellTyped(tags) && IdentitiesCollide(tags)
    ensures r.Planned? ==> r.plan == PlanTags(tags, |tags|, collisions, c) && PlansTags(r.plan, tags, |tags|)
  {
    collisions := FindCollisions(tags, c);
    PlanInFull(tags, |tags|, collisions, c);
    if !WellTyped(tags) {
      return InvariantViolation, collisions;
    }
    var clash := FindIdentityCollision(tags);
    if clash {
      return AliasCollision, collisions;
    }
    var plan := PlanAllTags(tags, collisions, c);
    r := if plan.Some? then Planned(plan.value) else InvariantViolation;
  }
}
