/** `Range<U>` (a half-open interval `start..end`) and the three operations
    the repository adds to it. */
module RangeExtension {

  datatype Range = Range(start: int, end: int) {
    /** `Range::contains`: `start <= v < end`. */
    predicate Contains(v: int) {
      start <= v < end
    }

    predicate IsEmpty() {
      end <= start
    }

    /** `contains_range` as the source writes it: both ends of `other` must
        lie in this range, and since `end` is exclusive, `other.end` is
        checked against the open end. */
    predicate ContainsRange(other: Range) {
      Contains(other.start) && Contains(other.end)
    }

    /** What `contains_range` is evidently meant to decide: every value of
        `other` is a value of this range. */
    function Covers(other: Range): (r: bool)
      ensures r <==> forall v :: other.Contains(v) ==> Contains(v)
    {
      if other.IsEmpty() then
        true
      else
        assert other.Contains(other.start) && other.Contains(other.end - 1);
        start <= other.start && other.end <= end
    }

    /** `overlaps`: this range holds the start of `other`, or `other` holds
        the start of this range. */
    function Overlaps(other: Range): (r: bool)
      ensures !IsEmpty() && !other.IsEmpty() ==> (r <==> exists v :: Contains(v) && other.Contains(v))
    {
      var r := Contains(other.start) || other.Contains(start);
      assert !IsEmpty() && !other.IsEmpty() && (exists v :: Contains(v) && other.Contains(v)) ==> r by {
        if !IsEmpty() && !other.IsEmpty() && exists v :: Contains(v) && other.Contains(v) {
          var v :| Contains(v) && other.Contains(v);
        }
      }
      r
    }

    /** `intersection`: from the larger start to the smaller end. */
    function Intersection(other: Range): (r: Range)
      ensures forall v :: r.Contains(v) <==> Contains(v) && other.Contains(v)
      ensures r.IsEmpty() <==> forall v :: !(Contains(v) && other.Contains(v))
    {
      var r := Range(Max(start, other.start), Min(end, other.end));
      assert !r.IsEmpty() ==> r.Contains(r.start);
      r
    }
  }

  function Max(a: int, b: int): int {
    if a < b then b else a
  }

  function Min(a: int, b: int): int {
    if a < b then a else b
  }

  /** `contains_range` rejects every range that shares the end of this one,
      the range itself included, although all its values are here. */
  lemma ContainsRangeMissesSharedEnd(a: Range, b: Range)
    requires !b.IsEmpty() && a.start <= b.start && b.end == a.end
    ensures !a.ContainsRange(b) && a.Covers(b)
  {
  }

  lemma ContainsRangeMissesItself()
    ensures !Range(0, 1).ContainsRange(Range(0, 1)) && Range(0, 1).Covers(Range(0, 1))
  {
    ContainsRangeMissesSharedEnd(Range(0, 1), Range(0, 1));
  }

  /** What `contains_range` decides, spelled out. */
  lemma {:induction false} ContainsRangeBounds(a: Range, b: Range)
    ensures a.ContainsRange(b) <==> a.start <= b.start < a.end && a.start <= b.end < a.end
  {
  }

  lemma {:induction false} IntersectionCommutes(a: Range, b: Range)
    ensures a.Intersection(b) == b.Intersection(a)
    ensures a.Intersection(a) == a
  {
  }

  /** Where `contains_range` says yes it is right: it is stricter than
      `Covers`. */
  lemma {:induction false} ContainsRangeImpliesCovers(a: Range, b: Range)
    requires a.ContainsRange(b)
    ensures a.Covers(b)
  {
  }

  /** Overlapping does not depend on the order of the two ranges. */
  lemma {:induction false} OverlapsIsSymmetric(a: Range, b: Range)
    ensures a.Overlaps(b) == b.Overlaps(a)
  {
  }

  /** For non-empty ranges, overlapping is a non-empty intersection. */
  lemma {:induction false} OverlapsIffIntersection(a: Range, b: Range)
    requires !a.IsEmpty() && !b.IsEmpty()
    ensures a.Overlaps(b) <==> !a.Intersection(b).IsEmpty()
  {
  }
}
