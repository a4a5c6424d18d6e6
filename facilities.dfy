/**
 * The facility filter: drop facilities without a category or whose category
 * is one of the non-hospital services, then re-number the rows.
 */
module Facilities {
  import opened Wrappers
  import opened Frames
  import Markers

  /** The categories that are not hospitals (line 56), including the empty string. */
  const ExcludedCategories: seq<string> := [
    "pharmacy", "physiotherapist", "", "dentist",
    "laboratory", "alternative", "optometrist",
    "blood_donation", "rehabilitation"
  ]

  /** A facility row: its "#meta+healthcare" category (None when null) and its GeoJSON feature. */
  datatype Facility = Facility(category: Option<string>, feature: Markers.Feature)

  /** The two masks of lines 61 and 62: a category is present and it is not excluded. */
  predicate Retained(f: Facility) {
    f.category.Some? && f.category.value !in ExcludedCategories
  }

  /** Lines 61-63: the retained facilities, in their original order. */
  function FilterFacilities(facilities: seq<Facility>): (retained: seq<Facility>)
    ensures |retained| <= |facilities|
    ensures forall f :: f in retained ==> f in facilities && Retained(f)
  {
    Where(facilities, Retained)
  }

  /**
   * A facility is in the filtered table exactly when it was in the input and
   * has a category outside the exclusion list; it keeps its multiplicity.
   */
  lemma FilterFacilitiesExactly(facilities: seq<Facility>, f: Facility)
    ensures f in FilterFacilities(facilities) <==>
      f in facilities && f.category.Some? && f.category.value !in ExcludedCategories
    ensures multiset(FilterFacilities(facilities))[f] == if Retained(f) then multiset(facilities)[f] else 0
  {
    if f in facilities && Retained(f) {
      WhereComplete(facilities, Retained, f);
    }
    WhereMultiset(facilities, Retained, f);
  }

  /** No kept facility is a pharmacy, a dentist, ..., or has an empty or null category. */
  lemma NoExcludedCategory(facilities: seq<Facility>, i: nat)
    requires i < |FilterFacilities(facilities)|
    ensures FilterFacilities(facilities)[i].category.Some?
    ensures FilterFacilities(facilities)[i].category.value != ""
    ensures FilterFacilities(facilities)[i].category.value != "pharmacy"
    ensures FilterFacilities(facilities)[i].category.value !in ExcludedCategories
  {
    assert FilterFacilities(facilities)[i] in FilterFacilities(facilities);
  }

  /** Filtering two parts of a table and concatenating is filtering the whole: order is kept. */
  lemma FilterFacilitiesAppend(a: seq<Facility>, b: seq<Facility>)
    ensures FilterFacilities(a + b) == FilterFacilities(a) + FilterFacilities(b)
  {
    WhereAppend(a, b, Retained);
  }

  /** Filtering the filtered table changes nothing. */
  lemma FilterFacilitiesIdempotent(facilities: seq<Facility>)
    ensures FilterFacilities(FilterFacilities(facilities)) == FilterFacilities(facilities)
  {
    WhereIdempotent(facilities, Retained);
  }
}
