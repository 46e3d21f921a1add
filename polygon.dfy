/**
 * The GeoJSON polygon value object of dev.morphia.geo.Polygon.
 *
 * A polygon's coordinates are a list of linear rings: the first ring is the
 * exterior boundary and every further ring is an interior boundary (a hole),
 * as in section 3.1.6 of RFC 7946. Both fields of the Java class are final,
 * so the polygon is a datatype value and its operations are functions.
 *
 * A ring (a LineString) is an element type L whose `equals` is Dafny's `==`
 * and whose `hashCode` is a caller-supplied function into 32-bit integers.
 */
module Geo {
  import opened Wrappers

  /** Java's `int`. */
  type Int32 = x: int | -0x8000_0000 <= x < 0x8000_0000

  /** Two's-complement truncation of Java `int` arithmetic. */
  function Wrap32(x: int): (r: Int32)
    ensures (r - x) % 0x1_0000_0000 == 0
    ensures -0x8000_0000 <= x < 0x8000_0000 ==> r == x
  {
    (x + 0x8000_0000) % 0x1_0000_0000 - 0x8000_0000
  }

  /** A polygon built by `Polygon(LineString exteriorBoundary, LineString... interiorBoundaries)`. */
  datatype Polygon<L> = Polygon(exterior: L, interiors: seq<L>)

  /** `List.get(0)` on an empty list. */
  datatype Error = IndexOutOfBounds(index: int, size: int)

  /** `Polygon(List<LineString> boundaries)`: the head of the list is the
      exterior, the tail, in order, the holes; an empty list throws. */
  function FromBoundaries<L>(boundaries: seq<L>): (r: Result<Polygon<L>, Error>)
    ensures r.Failure? <==> |boundaries| == 0
    ensures r.Failure? ==> r.error == IndexOutOfBounds(0, 0)
    ensures r.Success? ==>
      && r.value.exterior == boundaries[0]
      && |r.value.interiors| == |boundaries| - 1
      && forall i :: 0 <= i < |r.value.interiors| ==> r.value.interiors[i] == boundaries[i + 1]
  {
    if |boundaries| == 0 then
      Failure(IndexOutOfBounds(0, 0))
    else if |boundaries| > 1 then
      Success(Polygon(boundaries[0], boundaries[1..]))
    else
      Success(Polygon(boundaries[0], []))
  }

  /** `getCoordinates`: a fresh list holding the exterior, then every hole. */
  function Coordinates<L>(p: Polygon<L>): (cs: seq<L>)
    ensures |cs| == 1 + |p.interiors|
    ensures cs[0] == p.exterior
    ensures forall i :: 0 <= i < |p.interiors| ==> cs[i + 1] == p.interiors[i]
  {
    [p.exterior] + p.interiors
  }

  /** `getExteriorBoundary`: the first ring of the coordinates. */
  function ExteriorBoundary<L>(p: Polygon<L>): (e: L)
    ensures e == Coordinates(p)[0]
  {
    p.exterior
  }

  /** `getInteriorBoundaries`: the (possibly empty) rings after the first. */
  function InteriorBoundaries<L>(p: Polygon<L>): (holes: seq<L>)
    ensures [ExteriorBoundary(p)] + holes == Coordinates(p)
  {
    p.interiors
  }

  /** `List.equals` as java.util.List specifies it, compared front to back:
      both lists have the same length and every pair of corresponding
      elements is equal. */
  function ListEquals<L(==)>(s: seq<L>, t: seq<L>): (b: bool)
    ensures b <==> |s| == |t| && forall i :: 0 <= i < |s| ==> s[i] == t[i]
    decreases |s|
  {
    if s == [] || t == [] then s == [] && t == []
    else s[0] == t[0] && ListEquals(s[1..], t[1..])
  }

  lemma ListEqualsIsStructural<L>(s: seq<L>, t: seq<L>)
    ensures ListEquals(s, t) <==> s == t
  {
  }

  /** `equals(Object o)`: a null argument is unequal; otherwise both
      exteriors and both hole lists must be equal. */
  function Equals<L(==)>(p: Polygon<L>, o: Option<Polygon<L>>): (b: bool)
    ensures b <==> o.Some? && p.exterior == o.value.exterior && p.interiors == o.value.interiors
    ensures b <==> o == Some(p)
  {
    match o
    case None => false
    case Some(q) =>
      ListEqualsIsStructural(p.interiors, q.interiors);
      p.exterior == q.exterior && ListEquals(p.interiors, q.interiors)
  }

  /** `List.hashCode` as java.util.List specifies it: start from 1 and,
      for each element, multiply by 31 and add the element's hash, in `int`
      arithmetic. The result is the exact sum truncated once to 32 bits. */
  function ListHash<L>(h: L -> Int32, s: seq<L>): (r: Int32)
    ensures r == Wrap32(ExactListHashFrom(h, 1, s))
  {
    ListHashFromTruncatesOnce(h, 1, 1, s);
    ListHashFrom(h, 1, s)
  }

  /** The `List.hashCode` loop from accumulator `acc`, truncating every step. */
  function ListHashFrom<L>(h: L -> Int32, acc: Int32, s: seq<L>): (r: Int32)
    decreases |s|
  {
    if s == [] then acc else ListHashFrom(h, Wrap32(31 * acc + h(s[0])), s[1..])
  }

  /** The same recurrence in unbounded arithmetic. */
  function ExactListHashFrom<L>(h: L -> Int32, acc: int, s: seq<L>): (r: int)
    decreases |s|
  {
    if s == [] then acc else ExactListHashFrom(h, 31 * acc + h(s[0]), s[1..])
  }

  /** `hashCode`: 31 times the exterior's hash plus the holes' list hash, in
      `int` arithmetic, which is the exact value truncated once. */
  function HashCode<L>(h: L -> Int32, p: Polygon<L>): (r: Int32)
    ensures r == Wrap32(31 * h(p.exterior) + ExactListHashFrom(h, 1, p.interiors))
  {
    var exact := ExactListHashFrom(h, 1, p.interiors);
    WrapCongruent(31 * h(p.exterior) + ListHash(h, p.interiors), 31 * h(p.exterior) + exact);
    Wrap32(31 * h(p.exterior) + ListHash(h, p.interiors))
  }

  /** Numbers congruent modulo 2^32 truncate to the same `int`. */
  lemma WrapCongruent(x: int, y: int)
    requires (x - y) % 0x1_0000_0000 == 0
    ensures Wrap32(x) == Wrap32(y)
  {
  }

  /** Truncating at every step of the `List.hashCode` loop gives the same
      result as truncating the exact sum once at the end. */
  lemma {:induction false} ListHashFromTruncatesOnce<L>(h: L -> Int32, acc: Int32, exact: int, s: seq<L>)
    requires (exact - acc) % 0x1_0000_0000 == 0
    ensures ListHashFrom(h, acc, s) == Wrap32(ExactListHashFrom(h, exact, s))
    decreases |s|
  {
    if s == [] {
      WrapCongruent(exact, acc);
    } else {
      var next := Wrap32(31 * acc + h(s[0]));
      var a := (exact - acc) / 0x1_0000_0000;
      var b := (31 * acc + h(s[0]) - next) / 0x1_0000_0000;
      assert (31 * exact + h(s[0])) - next == (31 * a + b) * 0x1_0000_0000;
      ListHashFromTruncatesOnce(h, next, 31 * exact + h(s[0]), s[1..]);
    }
  }

  /** Two lists whose elements hash alike, position by position, hash alike. */
  lemma {:induction false} ListHashFromRespectsElementHashes<L>(h: L -> Int32, acc: Int32, s: seq<L>, t: seq<L>)
    requires |s| == |t|
    requires forall i :: 0 <= i < |s| ==> h(s[i]) == h(t[i])
    ensures ListHashFrom(h, acc, s) == ListHashFrom(h, acc, t)
    decreases |s|
  {
    if s != [] {
      assert h(s[0]) == h(t[0]);
      ListHashFromRespectsElementHashes(h, Wrap32(31 * acc + h(s[0])), s[1..], t[1..]);
    }
  }

  /** The polygon hash depends only on the hashes of its rings, so it is
      consistent with any ring equality that LineString.hashCode respects. */
  lemma HashCodeDependsOnRingHashes<L>(h: L -> Int32, p: Polygon<L>, q: Polygon<L>)
    requires h(p.exterior) == h(q.exterior)
    requires |p.interiors| == |q.interiors|
    requires forall i :: 0 <= i < |p.interiors| ==> h(p.interiors[i]) == h(q.interiors[i])
    ensures HashCode(h, p) == HashCode(h, q)
  {
    ListHashFromRespectsElementHashes(h, 1, p.interiors, q.interiors);
  }

  /** The hash is consistent with every ring equality `eq` that the ring
      hash respects: polygons whose rings are `eq` position by position
      hash alike. */
  lemma HashCodeConsistentWithRingEquality<L>(h: L -> Int32, eq: (L, L) -> bool, p: Polygon<L>, q: Polygon<L>)
    requires forall a, b :: eq(a, b) ==> h(a) == h(b)
    requires eq(p.exterior, q.exterior)
    requires |p.interiors| == |q.interiors|
    requires forall i :: 0 <= i < |p.interiors| ==> eq(p.interiors[i], q.interiors[i])
    ensures HashCode(h, p) == HashCode(h, q)
  {
    HashCodeDependsOnRingHashes(h, p, q);
  }

  /** Equal polygons have equal hash codes. */
  lemma HashCodeConsistentWithEquals<L>(h: L -> Int32, p: Polygon<L>, q: Polygon<L>)
    requires Equals(p, Some(q))
    ensures HashCode(h, p) == HashCode(h, q)
  {
  }

  /** `equals` is an equivalence on polygons. */
  lemma EqualsIsEquivalence<L>(p: Polygon<L>, q: Polygon<L>, s: Polygon<L>)
    ensures Equals(p, Some(p))
    ensures Equals(p, Some(q)) ==> Equals(q, Some(p))
    ensures Equals(p, Some(q)) && Equals(q, Some(s)) ==> Equals(p, Some(s))
  {
  }

  /** Building from a non-empty boundary list and reading the coordinates
      back gives the list unchanged. */
  lemma CoordinatesOfFromBoundaries<L>(boundaries: seq<L>)
    requires |boundaries| > 0
    ensures FromBoundaries(boundaries).Success?
    ensures Coordinates(FromBoundaries(boundaries).value) == boundaries
  {
  }

  /** Reading the coordinates and rebuilding from them gives the same polygon. */
  lemma FromBoundariesOfCoordinates<L>(p: Polygon<L>)
    ensures FromBoundaries(Coordinates(p)) == Success(p)
  {
  }

  /** Distinct polygons have distinct coordinates. */
  lemma CoordinatesInjective<L>(p: Polygon<L>, q: Polygon<L>)
    requires Coordinates(p) == Coordinates(q)
    ensures p == q
  {
  }

  /** The varargs constructor and the list constructor agree: the same
      polygon under `equals`, with the same hash and the same coordinates. */
  lemma ConstructorsAgree<L>(h: L -> Int32, exterior: L, interiors: seq<L>)
    ensures FromBoundaries([exterior] + interiors).Success?
    ensures Equals(Polygon(exterior, interiors), Some(FromBoundaries([exterior] + interiors).value))
    ensures HashCode(h, Polygon(exterior, interiors)) == HashCode(h, FromBoundaries([exterior] + interiors).value)
    ensures Coordinates(Polygon(exterior, interiors)) == [exterior] + interiors
  {
  }
}
