/**
 Canonical explicit selections (src/domain/catalog-batch.ts).  `parse` is trimming,
 lower-casing and the UUID check: it yields the number a UUID spells, or nothing.
 */
module CatalogSelection {
  import opened Wrappers
  import opened Keyset
  import opened Sequences
  import opened SortedSets

  datatype Outcome = Selected(ids: seq<Id>) | ItemsRequired | IdInvalid

  function AtMost(): (Id, Id) -> bool {
    (a, b) => a <= b
  }

  function ParseAll(raw: seq<string>, parse: string -> Option<Id>): Option<seq<Id>> {
    if raw == [] then Some([])
    else match ParseAll(raw[..|raw| - 1], parse)
      case None => None
      case Some(ids) => if parse(raw[|raw| - 1]).None? then None else Some(ids + [parse(raw[|raw| - 1]).value])
  }

  function Normalize(raw: seq<string>, parse: string -> Option<Id>): Outcome {
    if raw == [] then ItemsRequired
    else match ParseAll(raw, parse)
      case None => IdInvalid
      case Some(ids) => Selected(SortedSet(ids, AtMost()))
  }

  /** The ids a list of raw ids denotes. */
  function Denoted(raw: seq<string>, parse: string -> Option<Id>): set<Id> {
    set s | s in raw && parse(s).Some? :: parse(s).value
  }

  lemma {:induction false} ParsedElements(raw: seq<string>, parse: string -> Option<Id>)
    ensures ParseAll(raw, parse).Some? <==> forall s :: s in raw ==> parse(s).Some?
    ensures ParseAll(raw, parse).Some? ==> Elements(ParseAll(raw, parse).value) == Denoted(raw, parse)
  {
    if raw == [] {
      assert Denoted([], parse) == {};
    } else {
      var front, last := raw[..|raw| - 1], raw[|raw| - 1];
      assert raw == front + [last];
      ParsedElements(front, parse);
      if ParseAll(raw, parse).Some? {
        ElementsSnoc(ParseAll(front, parse).value, parse(last).value);
        assert Denoted(raw, parse) == Denoted(front, parse) + {parse(last).value};
      }
    }
  }

  /**
   A selection is accepted exactly when it is not empty and every id is valid; its ids are
   then strictly increasing and exactly those denoted, so spelling, order and repetition of
   the input do not matter.
   */
  lemma NormalizeIsCanonical(raw: seq<string>, other: seq<string>, parse: string -> Option<Id>)
    ensures Normalize(raw, parse).Selected? <==> raw != [] && forall s :: s in raw ==> parse(s).Some?
    ensures Normalize(raw, parse).ItemsRequired? <==> raw == []
    ensures Normalize(raw, parse).Selected? ==>
              var ids := Normalize(raw, parse).ids;
              && ids != [] && Elements(ids) == Denoted(raw, parse)
              && forall i, j :: 0 <= i < j < |ids| ==> ids[i] < ids[j]
    ensures Normalize(raw, parse).Selected? && Normalize(other, parse).Selected? ==>
              (Normalize(raw, parse) == Normalize(other, parse) <==> Denoted(raw, parse) == Denoted(other, parse))
  {
    ParsedElements(raw, parse);
    ParsedElements(other, parse);
    if Normalize(raw, parse).Selected? {
      var ids := ParseAll(raw, parse).value;
      SortedSetSorted(ids, AtMost());
      SortedSetElements(ids, AtMost());
      assert parse(raw[0]).value in Denoted(raw, parse);
      EmptyElements(SortedSet(ids, AtMost()));
      var sorted := SortedSet(ids, AtMost());
      forall i, j | 0 <= i < j < |sorted| ensures sorted[i] < sorted[j] {
        assert AtMost()(sorted[i], sorted[j]);
      }
      if Normalize(other, parse).Selected? {
        SortedSetCanonical(ids, ParseAll(other, parse).value, AtMost());
      }
    }
  }
}
