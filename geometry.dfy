/** Road geometry shown beside a prediction (slope and curve radius derived from
    a location's coordinates), the table of ghat roads whose coordinates are
    known, and the short display names of locations. */
module Geometry {
  import opened Wrappers
  import opened Text

  function Abs(x: real): real {
    if x < 0.0 then -x else x
  }

  function Min(a: real, b: real): real {
    if a <= b then a else b
  }

  function Max(a: real, b: real): real {
    if a >= b then a else b
  }

  /** Slope in degrees and curve radius in metres. */
  datatype RoadShape = RoadShape(slope: real, radius: real)

  /** `calculate_dynamic_slope_radius(latitude, longitude)`: a base slope of 5 and
      radius of 30, adjusted by the absolute coordinates and clamped to a
      plausible range. */
  function SlopeRadius(latitude: real, longitude: real): (g: RoadShape)
    ensures 5.0 <= g.slope <= 20.0
    ensures 20.0 <= g.radius <= 100.0
  {
    var slope := 5.0 + Abs(latitude) * 0.5 + Abs(longitude) * 0.3;
    var radius := 30.0 + Abs(longitude) * 10.0 - Abs(latitude) * 5.0;
    RoadShape(Max(5.0, Min(slope, 20.0)), Max(20.0, Min(radius, 100.0)))
  }

  /** Only the magnitudes of the coordinates matter, not the hemisphere. */
  lemma SlopeRadiusSignFree(latitude: real, longitude: real)
    ensures SlopeRadius(latitude, longitude) == SlopeRadius(Abs(latitude), Abs(longitude))
    ensures SlopeRadius(latitude, longitude) == SlopeRadius(-latitude, -longitude)
  {
  }

  /** The (0, 0) stand-in for a location without coordinates gives slope 5 and radius 30. */
  lemma UnknownLocationShape()
    ensures SlopeRadius(0.0, 0.0) == RoadShape(5.0, 30.0)
  {
  }

  /** Slope grows with both magnitudes; radius grows with longitude and shrinks with latitude. */
  lemma SlopeRadiusMonotone(lat1: real, lon1: real, lat2: real, lon2: real)
    ensures Abs(lat1) <= Abs(lat2) && Abs(lon1) <= Abs(lon2) ==>
              SlopeRadius(lat1, lon1).slope <= SlopeRadius(lat2, lon2).slope
    ensures Abs(lat1) >= Abs(lat2) && Abs(lon1) <= Abs(lon2) ==>
              SlopeRadius(lat1, lon1).radius <= SlopeRadius(lat2, lon2).radius
  {
  }

  /** Both clamps saturate for any valid latitude once the longitude is 57 degrees
      or more from the meridian, which covers every road in India. */
  lemma SlopeRadiusSaturates(latitude: real, longitude: real)
    requires Abs(latitude) <= 90.0 && Abs(longitude) >= 57.0
    ensures SlopeRadius(latitude, longitude) == RoadShape(20.0, 100.0)
  {
  }

  /** `shorten_location_name(location)`: the first whitespace-separated word,
      capitalized; `None` where `split()[0]` raises `IndexError`. */
  function ShortenLocationName(location: string): Option<string> {
    var words := Split(location);
    if words == [] then None else Some(Capitalize(words[0]))
  }

  /** A short name exists exactly when the location has a word; it is the first
      word, as long as that word, upper-cased at its head and lower-cased after. */
  lemma ShortenLocationNameSpec(location: string)
    ensures ShortenLocationName(location).Some? <==> HasWord(location)
    ensures HasWord(location) ==>
              var w := TakeWord(SkipSpace(location));
              var r := ShortenLocationName(location).value;
              && r == Capitalize(w)
              && r != [] && |r| == |w| && SpaceFree(r) && IsCapitalized(r)
  {
    SplitNonEmpty(location);
    if HasWord(location) {
      FirstWordOfSplit(location);
      CapitalizeShape(TakeWord(SkipSpace(location)));
    }
  }

  /** The part of the specification the start-up loop needs. */
  lemma ShortenLocationNameDefined(location: string)
    ensures ShortenLocationName(location).Some? <==> HasWord(location)
  {
    SplitNonEmpty(location);
  }

  /** Shortening a short name changes nothing. */
  lemma ShortenLocationNameIdempotent(location: string)
    requires HasWord(location)
    ensures ShortenLocationName(location).Some?
    ensures ShortenLocationName(ShortenLocationName(location).value) == ShortenLocationName(location)
  {
    ShortenLocationNameSpec(location);
    var r := ShortenLocationName(location).value;
    SplitOfWord(r);
    CapitalizeFixesCapitalized(r);
  }

  /** One row of the dataset's `Location`, `Latitude`, `Longitude` columns. */
  datatype Place = Place(location: string, latitude: real, longitude: real)

  /** Position of the first occurrence of `p` in `rows`. */
  function FirstIndex(rows: seq<Place>, p: Place): (i: nat)
    requires p in rows
    ensures i < |rows| && rows[i] == p
    ensures forall j :: 0 <= j < i ==> rows[j] != p
  {
    if rows[0] == p then 0 else FirstIndex(rows[1..], p) + 1
  }

  /** Appending a row does not move the first occurrence of an earlier row. */
  lemma FirstIndexExtend(init: seq<Place>, last: Place, p: Place)
    requires p in init
    ensures FirstIndex(init + [last], p) == FirstIndex(init, p)
  {
    var rows := init + [last];
    var b := FirstIndex(init, p);
    assert rows[b] == p;
  }

  /** A row seen for the first time at the end has its first occurrence there. */
  lemma FirstIndexOfLast(init: seq<Place>, last: Place)
    requires last !in init
    ensures FirstIndex(init + [last], last) == |init|
  {
    var a := FirstIndex(init + [last], last);
    assert forall j :: 0 <= j < |init| ==> (init + [last])[j] == init[j];
  }

  /** `drop_duplicates()`: each distinct row once, at its first occurrence, in
      the order of first occurrence. */
  function DropDuplicates(rows: seq<Place>): (r: seq<Place>)
    ensures forall p :: p in r <==> p in rows
    ensures forall i, j :: 0 <= i < j < |r| ==> r[i] != r[j]
    ensures forall i, j :: 0 <= i < j < |r| ==> FirstIndex(rows, r[i]) < FirstIndex(rows, r[j])
  {
    if rows == [] then []
    else
      var init := rows[..|rows| - 1];
      var last := rows[|rows| - 1];
      assert rows == init + [last];
      var kept := DropDuplicates(init);
      var r := if last in kept then kept else kept + [last];
      forall i, j | 0 <= i < j < |r|
        ensures FirstIndex(rows, r[i]) < FirstIndex(rows, r[j])
      {
        assert r[i] == kept[i] && r[i] in init;
        FirstIndexExtend(init, last, r[i]);
        if j < |kept| {
          assert r[j] == kept[j] && r[j] in init;
          FirstIndexExtend(init, last, r[j]);
        } else {
          FirstIndexOfLast(init, last);
        }
      }
      r
  }

  /** The `ghat_roads` table: the first ten distinct (location, latitude,
      longitude) rows, in the order they first occur; a distinct row is left out
      only when ten rows occur first before it. */
  function GhatRoadTable(rows: seq<Place>): (table: seq<Place>)
    ensures table <= DropDuplicates(rows)
    ensures |table| == if |DropDuplicates(rows)| <= 10 then |DropDuplicates(rows)| else 10
    ensures forall p :: p in rows && p !in table ==>
              && |table| == 10
              && forall k :: 0 <= k < |table| ==> FirstIndex(rows, table[k]) < FirstIndex(rows, p)
  {
    var d := DropDuplicates(rows);
    var table := if |d| <= 10 then d else d[..10];
    forall p | p in rows && p !in table
      ensures |table| == 10
      ensures forall k :: 0 <= k < |table| ==> FirstIndex(rows, table[k]) < FirstIndex(rows, p)
    {
      var m :| 0 <= m < |d| && d[m] == p;
      assert m >= 10;
      forall k | 0 <= k < |table|
        ensures FirstIndex(rows, table[k]) < FirstIndex(rows, p)
      {
        assert table[k] == d[k];
      }
    }
    table
  }

  /** Index of the first road named `location`. */
  function FirstMatch(roads: seq<Place>, location: string): (i: Option<nat>)
    ensures i.Some? ==> i.value < |roads| && roads[i.value].location == location
    ensures i.Some? ==> forall j :: 0 <= j < i.value ==> roads[j].location != location
    ensures i.None? ==> forall j :: 0 <= j < |roads| ==> roads[j].location != location
  {
    if roads == [] then None
    else if roads[0].location == location then Some(0)
    else match FirstMatch(roads[1..], location)
      case None => None
      case Some(k) => Some(k + 1)
  }

  /** The latitude and longitude of the first road in the table with the given
      location, or (0, 0) when there is none. */
  function Coordinates(roads: seq<Place>, location: string): (latLon: (real, real)) {
    match FirstMatch(roads, location)
    case None => (0.0, 0.0)
    case Some(i) => (roads[i].latitude, roads[i].longitude)
  }

  /** A location in the table gets the coordinates of its first row; any other
      location gets the slope and radius of (0, 0). */
  lemma CoordinatesSpec(roads: seq<Place>, location: string)
    ensures (exists j :: 0 <= j < |roads| && roads[j].location == location) ==>
              exists j :: 0 <= j < |roads| && roads[j].location == location
                && Coordinates(roads, location) == (roads[j].latitude, roads[j].longitude)
                && forall k :: 0 <= k < j ==> roads[k].location != location
    ensures (forall j :: 0 <= j < |roads| ==> roads[j].location != location) ==>
              SlopeRadius(Coordinates(roads, location).0, Coordinates(roads, location).1) == RoadShape(5.0, 30.0)
  {
    var i := FirstMatch(roads, location);
    if i.Some? {
      assert roads[i.value].location == location;
    }
  }

  /** A `ghat_roads` entry: the row, plus the keys the start-up loop adds. */
  datatype GhatRoad = GhatRoad(
    place: Place,
    description: Option<string>,
    image: Option<string>,
    shortLocation: Option<string>)

  /** `f'road{i+1}.jpg'` */
  function ImageName(i: nat): string {
    "road" + NatToString(i + 1) + ".jpg"
  }

  /** Index of the first entry whose location has no word, or the length. */
  function FirstWordless(roads: seq<GhatRoad>): (k: nat)
    ensures k <= |roads|
    ensures forall j :: 0 <= j < k ==> HasWord(roads[j].place.location)
    ensures k < |roads| ==> !HasWord(roads[k].place.location)
  {
    if roads == [] || !HasWord(roads[0].place.location) then 0
    else 1 + FirstWordless(roads[1..])
  }

  /** An entry whose location has a word, after a prefix of such entries, lies
      before the first wordless entry. */
  lemma BeforeFirstWordless(roads: seq<GhatRoad>, i: nat)
    requires i < |roads| && i <= FirstWordless(roads)
    requires HasWord(roads[i].place.location)
    ensures i < FirstWordless(roads)
  {
  }

  /** The entry the loop writes at index `i`, once its short name has been computed. */
  function DecoratedEntry(g: GhatRoad, i: nat, descriptions: seq<string>): (d: GhatRoad)
    requires i < |descriptions|
    ensures d.place == g.place
  {
    g.(description := Some(descriptions[i]), image := Some(ImageName(i)),
       shortLocation := ShortenLocationName(g.place.location))
  }

  /** A decorated entry carries its own description and a numbered image name, and
      its short name is the capitalized first word of its location. */
  lemma DecoratedEntrySpec(g: GhatRoad, i: nat, descriptions: seq<string>)
    requires i < |descriptions| && HasWord(g.place.location)
    ensures var d := DecoratedEntry(g, i, descriptions);
            && d.place == g.place
            && d.description == Some(descriptions[i])
            && d.image == Some("road" + NatToString(i + 1) + ".jpg")
            && d.shortLocation.Some?
            && d.shortLocation.value == Capitalize(TakeWord(SkipSpace(g.place.location)))
            && IsCapitalized(d.shortLocation.value)
  {
    ShortenLocationNameSpec(g.place.location);
  }

  /** The table once its first `i` entries have been decorated. */
  function DecoratedPrefix(roads: seq<GhatRoad>, descriptions: seq<string>, i: nat): (r: seq<GhatRoad>)
    requires i <= |roads| <= |descriptions|
    ensures |r| == |roads|
  {
    seq(|roads|, j requires 0 <= j < |roads| =>
      if j < i then DecoratedEntry(roads[j], j, descriptions) else roads[j])
  }

  /** Decorating entry `i` of the table whose first `i` entries are decorated. */
  lemma DecoratedPrefixStep(roads: seq<GhatRoad>, descriptions: seq<string>, i: nat)
    requires i < |roads| <= |descriptions|
    ensures DecoratedPrefix(roads, descriptions, i)[i] == roads[i]
    ensures DecoratedPrefix(roads, descriptions, i)[i := DecoratedEntry(roads[i], i, descriptions)]
            == DecoratedPrefix(roads, descriptions, i + 1)
  {
    var before := DecoratedPrefix(roads, descriptions, i);
    var after := DecoratedPrefix(roads, descriptions, i + 1);
    var e := DecoratedEntry(roads[i], i, descriptions);
    forall j | 0 <= j < |roads|
      ensures before[i := e][j] == after[j]
    {
    }
  }

  /** The start-up loop over `enumerate(ghat_roads)` that adds a description, an
      image name and a short name to each entry in place. A location without a
      word makes `shorten_location_name` raise after the description and image
      of that entry have been set; `ok` is false then and later entries are
      untouched. */
  method DecorateGhatRoads(roads: array<GhatRoad>, descriptions: seq<string>) returns (ok: bool)
    requires roads.Length <= |descriptions|
    modifies roads
    ensures ok <==> FirstWordless(old(roads[..])) == roads.Length
    ensures ok ==> roads[..] == DecoratedPrefix(old(roads[..]), descriptions, roads.Length)
    ensures !ok ==> var k := FirstWordless(old(roads[..]));
              roads[..] == DecoratedPrefix(old(roads[..]), descriptions, k)[k :=
                old(roads[k]).(description := Some(descriptions[k]), image := Some(ImageName(k)))]
  {
    ghost var s := roads[..];
    ghost var k := FirstWordless(s);
    var i := 0;
    while i < roads.Length
      invariant i <= k
      invariant roads[..] == DecoratedPrefix(s, descriptions, i)
    {
      DecoratedPrefixStep(s, descriptions, i);
      var short := ShortenLocationName(roads[i].place.location);
      ShortenLocationNameDefined(roads[i].place.location);
      if short.None? {
        roads[i] := roads[i].(description := Some(descriptions[i]), image := Some(ImageName(i)));
        return false;
      }
      BeforeFirstWordless(s, i);
      roads[i] := DecoratedEntry(roads[i], i, descriptions);
      i := i + 1;
    }
    return true;
  }
}
