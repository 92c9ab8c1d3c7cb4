/** `LocationRepository.getNearbyPlaces`: six synthetic places at fixed
    offsets around the user, ranked by their distance from the user. The
    great-circle distance is a parameter: its floating-point trigonometry is
    outside this model. */
module NearbyPlaces {
  import opened Model
  import opened Text
  import opened DistanceSort

  /** Great-circle distance in metres from an origin to a point. */
  type Distance = (Coordinate, Coordinate) -> real

  /** One synthetic candidate: its name and its offset in degrees from the origin. */
  datatype Offset = Offset(name: string, dLat: real, dLng: real)

  const Offsets: seq<Offset> := [
    Offset("Central Park", 0.003, 0.002),
    Offset("Sunrise Cafe", -0.002, 0.005),
    Offset("City Library", 0.005, -0.003),
    Offset("Metro Station", -0.004, -0.001),
    Offset("Sports Complex", 0.007, 0.004),
    Offset("Night Market", -0.006, 0.007)
  ]

  /** `"place_$index"`. */
  function PlaceId(index: nat): string
  {
    "place_" + NatToString(index)
  }

  function CategoryOf(index: nat): string
  {
    if index % 2 == 0 then "park" else "restaurant"
  }

  function Candidate(origin: Coordinate, dist: Distance, index: nat): Place
    requires index < |Offsets|
  {
    var o := Offsets[index];
    var point := Coordinate(origin.latitude + o.dLat, origin.longitude + o.dLng);
    Place(PlaceId(index), o.name, point.latitude, point.longitude, CategoryOf(index), dist(origin, point))
  }

  /** The `mapIndexed` list, before sorting. */
  function Candidates(origin: Coordinate, dist: Distance): (c: seq<Place>)
    ensures |c| == |Offsets| == 6
    ensures forall i :: 0 <= i < |c| ==> GeneratedAt(c[i], origin.latitude, origin.longitude, dist, i)
  {
    seq(|Offsets|, i requires 0 <= i < |Offsets| => Candidate(origin, dist, i))
  }

  lemma CandidateIdsDistinct(origin: Coordinate, dist: Distance)
    ensures IdsDistinct(Candidates(origin, dist))
  {
    var c := Candidates(origin, dist);
    forall i, j | 0 <= i < j < |c| ensures c[i].id != c[j].id {
      NatToStringInjective(i, j);
      assert c[i].id[6..] == NatToString(i);
      assert c[j].id[6..] == NatToString(j);
    }
  }

  /** The ranked list shown to the user. */
  function GetNearbyPlaces(lat: real, lng: real, dist: Distance): (r: seq<Place>)
    ensures |r| == 6
    ensures multiset(r) == multiset(Candidates(Coordinate(lat, lng), dist))
    ensures Sorted(r)
    ensures SameTies(r, Candidates(Coordinate(lat, lng), dist))
    ensures IdsDistinct(r)
  {
    var candidates := Candidates(Coordinate(lat, lng), dist);
    CandidateIdsDistinct(Coordinate(lat, lng), dist);
    SortKeepsIdsDistinct(candidates);
    SortByDistance(candidates)
  }

  /** p is what index i of the synthetic list produces around (lat, lng): the
      id of that position, the category of its parity, that candidate's
      coordinate, and its distance from the origin. */
  ghost predicate GeneratedAt(p: Place, lat: real, lng: real, dist: Distance, i: nat)
  {
    && i < |Offsets|
    && p.id == PlaceId(i)
    && p.name == Offsets[i].name
    && (p.category == "park" <==> i % 2 == 0)
    && (p.category == "restaurant" <==> i % 2 == 1)
    && p.latitude == lat + Offsets[i].dLat
    && p.longitude == lng + Offsets[i].dLng
    && p.distanceMeters == dist(Coordinate(lat, lng), Coordinate(p.latitude, p.longitude))
  }

  /** Every ranked place is one of the generated candidates. */
  lemma RankedPlacesGenerated(lat: real, lng: real, dist: Distance)
    ensures forall p :: p in GetNearbyPlaces(lat, lng, dist) ==>
      exists i: nat :: GeneratedAt(p, lat, lng, dist, i)
  {
    var c := Candidates(Coordinate(lat, lng), dist);
    forall p | p in GetNearbyPlaces(lat, lng, dist)
      ensures exists i: nat :: GeneratedAt(p, lat, lng, dist, i)
    {
      assert p in multiset(c);
      var i :| 0 <= i < |c| && c[i] == p;
      assert GeneratedAt(p, lat, lng, dist, i);
    }
  }

  /** Every generated candidate appears in the ranking. */
  lemma EveryCandidateRanked(lat: real, lng: real, dist: Distance, i: nat)
    requires i < 6
    ensures Candidate(Coordinate(lat, lng), dist, i) in GetNearbyPlaces(lat, lng, dist)
  {
    var c := Candidates(Coordinate(lat, lng), dist);
    assert c[i] in multiset(c);
  }
}
