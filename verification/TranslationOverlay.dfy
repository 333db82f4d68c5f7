/**
 The translation overlay (scripts/p2-06-5-production/canonical-tag-translation-overlay.ts):
 plan the writes against the database, apply them, and plan again.
 */
module TranslationOverlay {
  import opened Wrappers

  type TagId = nat
  type Locale = string

  datatype OverlayRow = OverlayRow(stableId: string, slug: string, locale: Locale, displayName: string)

  datatype Tag = Tag(id: TagId, slug: string)

  /** CanonicalTag rows by stable id; CanonicalTagTranslation rows by (tag, locale). */
  type Tags = map<string, Tag>
  type Translations = map<(TagId, Locale), string>

  datatype Class = TagMissing | SlugMismatch | Insert | Update | Unchanged

  datatype Write = Write(key: (TagId, Locale), displayName: string)

  datatype Plan = Plan(insert: nat, update: nat, unmodified: nat, exception: int, writes: seq<Write>)

  predicate Exceptional(c: Class) {
    c == TagMissing || c == SlugMismatch
  }

  function Classify(row: OverlayRow, tags: Tags, tr: Translations): Class {
    if row.stableId !in tags then TagMissing
    else if tags[row.stableId].slug != row.slug then SlugMismatch
    else
      var key := (tags[row.stableId].id, row.locale);
      if key !in tr then Insert else if tr[key] == row.displayName then Unchanged else Update
  }

  /** The row's tag exists and has the slug the row names. */
  predicate Matched(row: OverlayRow, tags: Tags) {
    row.stableId in tags && tags[row.stableId].slug == row.slug
  }

  /** The translation of the row's tag in the row's locale, if there is one. */
  function Current(row: OverlayRow, tags: Tags, tr: Translations): Option<string>
    requires Matched(row, tags)
  {
    var key := (tags[row.stableId].id, row.locale);
    if key in tr then Some(tr[key]) else None
  }

  /** Which rows have which class. */
  lemma ClassesInFull(row: OverlayRow, tags: Tags, tr: Translations)
    ensures Classify(row, tags, tr) == TagMissing <==> row.stableId !in tags
    ensures Classify(row, tags, tr) == SlugMismatch <==>
      row.stableId in tags && tags[row.stableId].slug != row.slug
    ensures Classify(row, tags, tr) == Insert <==> Matched(row, tags) && Current(row, tags, tr) == None
    ensures Classify(row, tags, tr) == Unchanged <==>
      Matched(row, tags) && Current(row, tags, tr) == Some(row.displayName)
    ensures Classify(row, tags, tr) == Update <==>
      Matched(row, tags) && Current(row, tags, tr).Some? && Current(row, tags, tr) != Some(row.displayName)
  {
  }

  /** The row writes, or would write, this translation. */
  function KeyOf(row: OverlayRow, tags: Tags): (TagId, Locale)
    requires row.stableId in tags
  {
    (tags[row.stableId].id, row.locale)
  }

  function Count(rows: seq<OverlayRow>, tags: Tags, tr: Translations, c: Class): nat {
    if rows == [] then 0
    else Count(rows[..|rows| - 1], tags, tr, c) + (if Classify(rows[|rows| - 1], tags, tr) == c then 1 else 0)
  }

  function Writes(rows: seq<OverlayRow>, tags: Tags, tr: Translations): seq<Write> {
    if rows == [] then []
    else
      var row := rows[|rows| - 1];
      var c := Classify(row, tags, tr);
      Writes(rows[..|rows| - 1], tags, tr) +
      (if c == Insert || c == Update then [Write(KeyOf(row, tags), row.displayName)] else [])
  }

  function Applied(tr: Translations, writes: seq<Write>): Translations {
    if writes == [] then tr
    else Applied(tr, writes[..|writes| - 1])[writes[|writes| - 1].key := writes[|writes| - 1].displayName]
  }

  function PlanOf(rows: seq<OverlayRow>, tags: Tags, tr: Translations): Plan {
    Plan(Count(rows, tags, tr, Insert), Count(rows, tags, tr, Update), Count(rows, tags, tr, Unchanged),
         |rows| - Count(rows, tags, tr, Insert) - Count(rows, tags, tr, Update) - Count(rows, tags, tr, Unchanged),
         Writes(rows, tags, tr))
  }

  /** The artifact's uniqueness check: one row per stable id and locale. */
  predicate UniqueRows(rows: seq<OverlayRow>) {
    forall i, j :: 0 <= i < j < |rows| ==> rows[i].stableId != rows[j].stableId || rows[i].locale != rows[j].locale
  }

  predicate DistinctTagIds(tags: Tags) {
    forall a, b :: a in tags && b in tags && a != b ==> tags[a].id != tags[b].id
  }

  // ---------------------------------------------------------------------
  // Planning
  // ---------------------------------------------------------------------

  method CheckUnique(rows: seq<OverlayRow>) returns (ok: bool)
    ensures ok <==> UniqueRows(rows)
  {
    var seen: set<(string, Locale)> := {};
    for i := 0 to |rows|
      invariant UniqueRows(rows[..i])
      invariant forall k :: k in seen <==> exists j :: 0 <= j < i && (rows[j].stableId, rows[j].locale) == k
    {
      var key := (rows[i].stableId, rows[i].locale);
      if key in seen {
        return false;
      }
      seen := seen + {key};
    }
    assert rows[..|rows|] == rows;
    ok := true;
  }

  /** `planTranslationOverlayWrites`. */
  method PlanWrites(rows: seq<OverlayRow>, tags: Tags, tr: Translations) returns (p: Plan)
    ensures p == PlanOf(rows, tags, tr)
  {
    var insert, update, unmodified := 0, 0, 0;
    var writes: seq<Write> := [];
    for i := 0 to |rows|
      invariant insert == Count(rows[..i], tags, tr, Insert) && update == Count(rows[..i], tags, tr, Update)
      invariant unmodified == Count(rows[..i], tags, tr, Unchanged) && writes == Writes(rows[..i], tags, tr)
    {
      assert rows[..i + 1][..i] == rows[..i];
      var row := rows[i];
      if row.stableId !in tags {
        continue;
      }
      var tag := tags[row.stableId];
      if tag.slug != row.slug {
        continue;
      }
      if (tag.id, row.locale) !in tr {
        insert := insert + 1;
        writes := writes + [Write((tag.id, row.locale), row.displayName)];
        continue;
      }
      if tr[(tag.id, row.locale)] == row.displayName {
        unmodified := unmodified + 1;
        continue;
      }
      update := update + 1;
      writes := writes + [Write((tag.id, row.locale), row.displayName)];
    }
    assert rows[..|rows|] == rows;
    p := Plan(insert, update, unmodified, |rows| - insert - update - unmodified, writes);
  }

  /** Every planned row is an insert, an update, unchanged or an exception,
      and an exception is a missing tag or another slug. */
  lemma {:induction false} PlanAddsUp(rows: seq<OverlayRow>, tags: Tags, tr: Translations)
    ensures var p := PlanOf(rows, tags, tr);
            && p.insert + p.update + p.unmodified + p.exception == |rows|
            && p.exception == Count(rows, tags, tr, TagMissing) + Count(rows, tags, tr, SlugMismatch)
            && |p.writes| == p.insert + p.update
  {
    if rows != [] {
      PlanAddsUp(rows[..|rows| - 1], tags, tr);
    }
  }

  // ---------------------------------------------------------------------
  // Applying a plan and planning again
  // ---------------------------------------------------------------------

  predicate Concerns(row: OverlayRow, tags: Tags, key: (TagId, Locale)) {
    row.stableId in tags && KeyOf(row, tags) == key
  }

  predicate Planned(rows: seq<OverlayRow>, tags: Tags, key: (TagId, Locale)) {
    exists i :: 0 <= i < |rows| && Concerns(rows[i], tags, key)
  }

  /** The two tables agree on one translation. */
  predicate SameAt(a: Translations, b: Translations, key: (TagId, Locale)) {
    (key in a <==> key in b) && (key in b ==> a[key] == b[key])
  }

  /** One row's write, if the plan against `tr` has one for it. */
  function ApplyRow(row: OverlayRow, tags: Tags, tr: Translations, base: Translations): Translations {
    var c := Classify(row, tags, tr);
    if c == Insert || c == Update then base[KeyOf(row, tags) := row.displayName] else base
  }

  lemma AppliedSnoc(rows: seq<OverlayRow>, tags: Tags, tr: Translations, base: Translations)
    requires rows != []
    ensures Applied(base, Writes(rows, tags, tr)) ==
              ApplyRow(rows[|rows| - 1], tags, tr, Applied(base, Writes(rows[..|rows| - 1], tags, tr)))
  {
    var writes := Writes(rows[..|rows| - 1], tags, tr);
    var row := rows[|rows| - 1];
    var c := Classify(row, tags, tr);
    if c == Insert || c == Update {
      assert (writes + [Write(KeyOf(row, tags), row.displayName)])[..|writes|] == writes;
    } else {
      assert writes + [] == writes;
    }
  }

  /** Translations outside the plan are untouched. */
  lemma {:induction false} OthersUntouched(rows: seq<OverlayRow>, tags: Tags, tr: Translations,
      base: Translations, key: (TagId, Locale))
    requires !Planned(rows, tags, key)
    ensures SameAt(Applied(base, Writes(rows, tags, tr)), base, key)
  {
    if rows != [] {
      var front := rows[..|rows| - 1];
      forall i | 0 <= i < |front| ensures !Concerns(front[i], tags, key) { assert front[i] == rows[i]; }
      OthersUntouched(front, tags, tr, base, key);
      AppliedSnoc(rows, tags, tr, base);
    }
  }

  /** What a row is against `tr` once the plan made against `tr` has been applied. */
  function Settled(row: OverlayRow, tags: Tags, tr: Translations): Class {
    var c := Classify(row, tags, tr);
    if Exceptional(c) then c else Unchanged
  }

  /** The last row's write does not disturb an earlier row. */
  lemma OneWriteKeeps(rows: seq<OverlayRow>, i: nat, tags: Tags, tr: Translations, base: Translations)
    requires UniqueRows(rows) && DistinctTagIds(tags) && i < |rows| - 1
    ensures Classify(rows[i], tags, ApplyRow(rows[|rows| - 1], tags, tr, base)) == Classify(rows[i], tags, base)
  {
    if rows[i].stableId in tags && rows[|rows| - 1].stableId in tags {
      assert KeyOf(rows[i], tags) != KeyOf(rows[|rows| - 1], tags);
    }
  }

  /** The last row's own write settles it, and adds a row exactly when it is an insert. */
  lemma LastSettles(rows: seq<OverlayRow>, tags: Tags, tr: Translations)
    requires UniqueRows(rows) && DistinctTagIds(tags) && rows != []
    ensures var last := rows[|rows| - 1];
            var before := Applied(tr, Writes(rows[..|rows| - 1], tags, tr));
            && Classify(last, tags, ApplyRow(last, tags, tr, before)) == Settled(last, tags, tr)
            && |ApplyRow(last, tags, tr, before)| == |before| + (if Classify(last, tags, tr) == Insert then 1 else 0)
  {
    var last := rows[|rows| - 1];
    if !Exceptional(Classify(last, tags, tr)) {
      OthersUntouched(rows[..|rows| - 1], tags, tr, tr, KeyOf(last, tags));
    }
  }

  /** Applying the plan brings every row without exception to its planned name, and adds a row per insert. */
  lemma {:induction false} AppliedRows(rows: seq<OverlayRow>, tags: Tags, tr: Translations)
    requires UniqueRows(rows) && DistinctTagIds(tags)
    ensures var after := Applied(tr, Writes(rows, tags, tr));
            && |after| == |tr| + Count(rows, tags, tr, Insert)
            && forall i :: 0 <= i < |rows| ==> Classify(rows[i], tags, after) == Settled(rows[i], tags, tr)
  {
    if rows != [] {
      var front := rows[..|rows| - 1];
      AppliedRows(front, tags, tr);
      AppliedSnoc(rows, tags, tr, tr);
      LastSettles(rows, tags, tr);
      var before, after := Applied(tr, Writes(front, tags, tr)), Applied(tr, Writes(rows, tags, tr));
      forall i | 0 <= i < |rows| ensures Classify(rows[i], tags, after) == Settled(rows[i], tags, tr) {
        if i < |front| {
          assert rows[i] == front[i];
          OneWriteKeeps(rows, i, tags, tr, before);
        }
      }
    }
  }

  lemma {:induction false} CountAllUnchanged(rows: seq<OverlayRow>, tags: Tags, tr: Translations, after: Translations)
    requires forall i :: 0 <= i < |rows| ==> Classify(rows[i], tags, after) == Settled(rows[i], tags, tr)
    ensures Writes(rows, tags, after) == [] && Count(rows, tags, after, Insert) == 0
        && Count(rows, tags, after, Update) == 0
    ensures Count(rows, tags, after, Unchanged) ==
              Count(rows, tags, tr, Insert) + Count(rows, tags, tr, Update) + Count(rows, tags, tr, Unchanged)
  {
    if rows != [] {
      CountAllUnchanged(rows[..|rows| - 1], tags, tr, after);
    }
  }

  /**
   Applying a plan and planning again gives zero writes, everything unchanged and the same
   exceptions; the row count grew by exactly `insert`, and translations outside the plan
   are as before.
   */
  lemma {:induction false} ApplyReachesFixpoint(rows: seq<OverlayRow>, tags: Tags, tr: Translations,
        key: (TagId, Locale))
    requires UniqueRows(rows) && DistinctTagIds(tags)
    ensures var p := PlanOf(rows, tags, tr);
            var after := Applied(tr, p.writes);
            && PlanOf(rows, tags, after) == Plan(0, 0, p.insert + p.update + p.unmodified, p.exception, [])
            && |after| == |tr| + p.insert
            && (!Planned(rows, tags, key) ==> SameAt(after, tr, key))
  {
    AppliedRows(rows, tags, tr);
    CountAllUnchanged(rows, tags, tr, Applied(tr, Writes(rows, tags, tr)));
    if !Planned(rows, tags, key) {
      OthersUntouched(rows, tags, tr, tr, key);
    }
  }

  /** The uniqueness check carries that: two rows for one translation that disagree are never settled. */
  lemma RepeatedRowNeverSettles(a: OverlayRow, b: OverlayRow, tags: Tags, tr: Translations)
    requires a.stableId == b.stableId && a.slug == b.slug && a.locale == b.locale && a.displayName != b.displayName
    requires a.stableId in tags && tags[a.stableId].slug == a.slug
    ensures PlanOf([a, b], tags, tr).writes != []
  {
    var rows := [a, b];
    assert rows[..1] == [a] && [a][..0] == [] && Writes([], tags, tr) == [];
    assert Classify(a, tags, tr) != Unchanged || Classify(b, tags, tr) != Unchanged;
    var first := Writes([a], tags, tr);
    if Classify(b, tags, tr) == Insert || Classify(b, tags, tr) == Update {
      assert Writes(rows, tags, tr) == first + [Write(KeyOf(b, tags), b.displayName)];
    } else {
      assert Classify(a, tags, tr) == Update;
      assert first == [Write(KeyOf(a, tags), a.displayName)];
      assert Writes(rows, tags, tr) == first + [];
    }
  }

  lemma NoExceptionIff(rows: seq<OverlayRow>, tags: Tags, tr: Translations)
    ensures PlanOf(rows, tags, tr).exception >= 0
    ensures PlanOf(rows, tags, tr).exception == 0 <==> forall i :: 0 <= i < |rows| ==> Matched(rows[i], tags)
  {
    PlanAddsUp(rows, tags, tr);
    if rows != [] {
      var front := rows[..|rows| - 1];
      NoExceptionIff(front, tags, tr);
      PlanAddsUp(front, tags, tr);
      ClassesInFull(rows[|rows| - 1], tags, tr);
    }
  }

  /** The planned translations have their planned names, and all others are as before. */
  ghost predicate NamesWritten(rows: seq<OverlayRow>, tags: Tags, before: Translations, after: Translations) {
    && (forall i :: 0 <= i < |rows| ==>
          Matched(rows[i], tags) && Current(rows[i], tags, after) == Some(rows[i].displayName))
    && (forall key :: !Planned(rows, tags, key) ==> SameAt(after, before, key))
  }

  lemma {:induction false} AppliedNames(rows: seq<OverlayRow>, tags: Tags, tr: Translations)
    requires UniqueRows(rows) && DistinctTagIds(tags) && forall i :: 0 <= i < |rows| ==> Matched(rows[i], tags)
    ensures NamesWritten(rows, tags, tr, Applied(tr, Writes(rows, tags, tr)))
  {
    var after := Applied(tr, Writes(rows, tags, tr));
    AppliedRows(rows, tags, tr);
    forall i | 0 <= i < |rows| ensures Current(rows[i], tags, after) == Some(rows[i].displayName) {
      ClassesInFull(rows[i], tags, tr);
      ClassesInFull(rows[i], tags, after);
    }
    forall key | !Planned(rows, tags, key) ensures SameAt(after, tr, key) {
      OthersUntouched(rows, tags, tr, tr, key);
    }
  }

  // ---------------------------------------------------------------------
  // The command
  // ---------------------------------------------------------------------

  datatype Outcome = Replayed | RequestConflict | Blocked | AppliedNow(plan: Plan, before: nat, after: nat)

  /** What the audit table says about the request id. */
  datatype Committed = NotCommitted | CommittedSame | CommittedOther

  class OverlayStore {
    const tags: Tags
    var translations: Translations

    constructor (tags: Tags, translations: Translations)
      ensures this.tags == tags && this.translations == translations
    {
      this.tags, this.translations := tags, translations;
    }

    /**
     The apply transaction: nothing is written for a known request or while any row has no
     matching tag; otherwise every planned row ends up with its planned name.
     */
    method Apply(rows: seq<OverlayRow>, committed: Committed) returns (r: Outcome)
      requires UniqueRows(rows) && DistinctTagIds(tags)
      modifies `translations
      ensures r == Replayed <==> committed == CommittedSame
      ensures r == RequestConflict <==> committed == CommittedOther
      ensures r.AppliedNow? <==>
        committed == NotCommitted && forall i :: 0 <= i < |rows| ==> Matched(rows[i], tags)
      ensures r.AppliedNow? ==> NamesWritten(rows, tags, old(translations), translations)
      ensures !r.AppliedNow? ==> translations == old(translations)
      ensures r.AppliedNow? ==>
        && r.plan == PlanOf(rows, tags, old(translations)) && translations == Applied(old(translations), r.plan.writes)
        && r.before == |old(translations)| && r.after == |translations| == r.before + r.plan.insert
        && PlanOf(rows, tags, translations) == Plan(0, 0, |rows|, 0, [])
    {
      var plan := PlanWrites(rows, tags, translations);
      NoExceptionIff(rows, tags, translations);
      var before := |translations|;
      if committed == CommittedSame {
        return Replayed;
      }
      if committed == CommittedOther {
        return RequestConflict;
      }
      if plan.exception > 0 {
        return Blocked;
      }
      for i := 0 to |plan.writes|
        invariant translations == Applied(old(translations), plan.writes[..i])
      {
        assert plan.writes[..i + 1][..i] == plan.writes[..i];
        translations := translations[plan.writes[i].key := plan.writes[i].displayName];
      }
      assert plan.writes[..|plan.writes|] == plan.writes;
      PlanAddsUp(rows, tags, old(translations));
      ApplyReachesFixpoint(rows, tags, old(translations), (0, ""));
      AppliedNames(rows, tags, old(translations));
      r := AppliedNow(plan, before, |translations|);
    }
  }
}
