/**
 * The OpenStreetMap parser: projects geodetic points into the local planar
 * frame around an origin, and turns an Overpass element list into building
 * footprints with heights.
 */
module OsmParser {
  import opened JsValues
  import Seqs

  /** Earth radius in meters. */
  const EarthRadius: real := 6371000.0
  /** `Math.PI` as a decimal. */
  const Pi: real := 3.141592653589793
  /** Degrees to radians, `Math.PI / 180`. */
  const DegToRad: real := Pi / 180.0

  datatype GeoPoint = GeoPoint(lat: real, lon: real)

  /** Meters from the origin: `x` grows eastward, `z` grows southward. */
  datatype PlanarPoint = PlanarPoint(x: real, z: real)

  /**
   * The parser's origin. `cosLat` is `Math.cos(lat * Math.PI / 180)`, the
   * cosine being computed by the host and given here as a number.
   */
  datatype Origin = Origin(lat: real, lon: real, cosLat: real)

  /**
   * The planar position `(x, z)` of `(lat, lon)` relative to the origin: the
   * origin lands on (0, 0), points north of the origin get a negative `z`
   * (latitude grows northward, `z` southward), and away from the poles the
   * projection is undone by `MetersToLatLon`.
   */
  function LatLonToMeters(o: Origin, lat: real, lon: real): (p: PlanarPoint)
    ensures lat == o.lat && lon == o.lon ==> p == PlanarPoint(0.0, 0.0)
    ensures p.z < 0.0 <==> lat > o.lat
    ensures p.z == 0.0 <==> lat == o.lat
    ensures o.cosLat != 0.0 ==> MetersToLatLon(o, p) == GeoPoint(lat, lon)
  {
    var dLat := (lat - o.lat) * DegToRad;
    var dLon := (lon - o.lon) * DegToRad;
    var p := PlanarPoint(dLon * EarthRadius * o.cosLat, -dLat * EarthRadius);
    var k := DegToRad * EarthRadius;
    assert k > 0.0;
    assert p.z == -(lat - o.lat) * k;
    assert p.z / k == -(lat - o.lat);
    assert o.cosLat != 0.0 ==> p.x / (k * o.cosLat) == lon - o.lon by {
      assert p.x == (lon - o.lon) * (k * o.cosLat);
    }
    p
  }

  /** Of two points, the more northern one has the smaller `z`. */
  lemma ZDecreasesNorthward(o: Origin, p: GeoPoint, q: GeoPoint)
    requires p.lat < q.lat
    ensures LatLonToMeters(o, q.lat, q.lon).z < LatLonToMeters(o, p.lat, p.lon).z
  {
  }

  /**
   * The inverse of the projection, defined whenever the cosine factor is
   * non-zero (away from the poles).
   */
  function MetersToLatLon(o: Origin, p: PlanarPoint): (g: GeoPoint)
    requires o.cosLat != 0.0
  {
    GeoPoint(o.lat - p.z / (DegToRad * EarthRadius),
             o.lon + p.x / (DegToRad * EarthRadius * o.cosLat))
  }

  /** Inverting and then projecting gives the planar point back. */
  lemma InverseRoundTrip(o: Origin, p: PlanarPoint)
    requires o.cosLat != 0.0
    ensures var g := MetersToLatLon(o, p); LatLonToMeters(o, g.lat, g.lon) == p
  {
    var k := DegToRad * EarthRadius;
    var g := MetersToLatLon(o, p);
    assert g.lat - o.lat == -(p.z / k);
    assert g.lon - o.lon == p.x / (k * o.cosLat);
    assert (p.x / (k * o.cosLat)) * (k * o.cosLat) == p.x;
    assert LatLonToMeters(o, g.lat, g.lon).x == (g.lon - o.lon) * (k * o.cosLat);
  }

  /** Away from the poles distinct points have distinct projections. */
  lemma ProjectionInjective(o: Origin, g: GeoPoint, h: GeoPoint)
    requires o.cosLat != 0.0
    requires LatLonToMeters(o, g.lat, g.lon) == LatLonToMeters(o, h.lat, h.lon)
    ensures g == h
  {
    assert MetersToLatLon(o, LatLonToMeters(o, g.lat, g.lon)) == g;
    assert MetersToLatLon(o, LatLonToMeters(o, h.lat, h.lon)) == h;
  }

  /**
   * The building height from its tags: a truthy `height` is parsed, else a
   * truthy `building:levels` is parsed and multiplied by 3 m, else 10 m.
   * Without either tag the height is the 10 m default, and a NaN height only
   * comes from a tag that does not parse.
   */
  function GetBuildingHeight(tags: Tags, parseFloat: string -> Number): (h: Number)
    ensures !Truthy(tags, "height") && !Truthy(tags, "building:levels") ==> h == Finite(10.0)
    ensures h.NaN? ==>
      (Truthy(tags, "height") && parseFloat(tags["height"]).NaN?) ||
      (Truthy(tags, "building:levels") && parseFloat(tags["building:levels"]).NaN?)
  {
    if Truthy(tags, "height") then parseFloat(tags["height"])
    else if Truthy(tags, "building:levels") then Triple(parseFloat(tags["building:levels"]))
    else Finite(10.0)
  }

  /**
   * The precedence of the height sources: a truthy `height` wins whatever
   * `building:levels` says; otherwise the levels give three meters each, NaN
   * staying NaN and a product too large for a double becoming an infinity.
   */
  lemma HeightPrecedence(tags: Tags, parseFloat: string -> Number)
    ensures Truthy(tags, "height") ==>
      GetBuildingHeight(tags, parseFloat) == parseFloat(tags["height"]) &&
      GetBuildingHeight(tags, parseFloat) == GetBuildingHeight(tags - {"building:levels"}, parseFloat)
    ensures !Truthy(tags, "height") && Truthy(tags, "building:levels") ==>
      var levels := parseFloat(tags["building:levels"]);
      var h := GetBuildingHeight(tags, parseFloat);
      (levels.NaN? <==> h.NaN?) &&
      (levels.Infinity? ==> h == levels) &&
      (levels.Finite? && -OverflowBound < 3.0 * levels.value < OverflowBound ==> h == Finite(3.0 * levels.value)) &&
      (levels.Finite? && 3.0 * levels.value >= OverflowBound ==> h == Infinity(false))
  {
    if Truthy(tags, "height") {
      assert Truthy(tags - {"building:levels"}, "height");
    }
  }

  /** Only the `height` and `building:levels` tags influence the height. */
  lemma HeightDependsOnlyOnHeightTags(t1: Tags, t2: Tags, parseFloat: string -> Number)
    requires Truthy(t1, "height") == Truthy(t2, "height")
    requires Truthy(t1, "height") ==> t1["height"] == t2["height"]
    requires Truthy(t1, "building:levels") == Truthy(t2, "building:levels")
    requires Truthy(t1, "building:levels") ==> t1["building:levels"] == t2["building:levels"]
    ensures GetBuildingHeight(t1, parseFloat) == GetBuildingHeight(t2, parseFloat)
  {
  }

  /**
   * The height is positive whenever every tag it may be read from parses to a
   * positive number (the 10 m default is positive). It is then finite unless
   * three times the levels overflows a double, which gives positive infinity.
   */
  lemma HeightPositive(tags: Tags, parseFloat: string -> Number)
    requires Truthy(tags, "height") ==> parseFloat(tags["height"]).Finite? && parseFloat(tags["height"]).value > 0.0
    requires Truthy(tags, "building:levels") ==>
      parseFloat(tags["building:levels"]).Finite? && parseFloat(tags["building:levels"]).value > 0.0
    ensures var h := GetBuildingHeight(tags, parseFloat);
      (h.Finite? && h.value > 0.0) || h == Infinity(false)
    ensures var h := GetBuildingHeight(tags, parseFloat);
      h.Infinity? ==>
        !Truthy(tags, "height") && Truthy(tags, "building:levels") &&
        3.0 * parseFloat(tags["building:levels"]).value >= OverflowBound
  {
  }

  /** An element of an Overpass response. */
  datatype Element =
    | NodeElement(id: int, lat: real, lon: real)
    | WayElement(id: int, tags: Option<Tags>, nodeRefs: seq<int>)
    | OtherElement(id: int)

  datatype Building = Building(height: Number, footprint: seq<PlanarPoint>)

  /** The way is a building: it has tags and its `building` tag is truthy. */
  predicate IsBuildingWay(el: Element)
  {
    el.WayElement? && el.tags.Some? && Truthy(el.tags.value, "building")
  }

  predicate IsNode(el: Element)
  {
    el.NodeElement?
  }

  /** The node dictionary after the first pass over `els`: later nodes overwrite earlier ones. */
  function NodeIndex(els: seq<Element>): map<int, GeoPoint>
  {
    if els == [] then map[]
    else
      var index := NodeIndex(els[..|els| - 1]);
      match els[|els| - 1]
      case NodeElement(id, lat, lon) => index[id := GeoPoint(lat, lon)]
      case _ => index
  }

  /** A node id is indexed exactly when some node element carries it. */
  lemma {:induction false} NodeIndexKeys(els: seq<Element>, id: int)
    ensures id in NodeIndex(els) <==> exists i :: 0 <= i < |els| && IsNode(els[i]) && els[i].id == id
  {
    if els != [] {
      var n := |els| - 1;
      NodeIndexKeys(els[..n], id);
      if id in NodeIndex(els[..n]) {
        var i :| 0 <= i < n && IsNode(els[..n][i]) && els[..n][i].id == id;
        assert els[i] == els[..n][i];
      }
      if exists i :: 0 <= i < |els| && IsNode(els[i]) && els[i].id == id {
        var i :| 0 <= i < |els| && IsNode(els[i]) && els[i].id == id;
        if i < n {
          assert els[..n][i] == els[i];
        }
      }
    }
  }

  /** For duplicate ids, the last node element with the id decides its position. */
  lemma {:induction false} NodeIndexLastWins(els: seq<Element>, i: int)
    requires 0 <= i < |els| && IsNode(els[i])
    requires forall j :: i < j < |els| && IsNode(els[j]) ==> els[j].id != els[i].id
    ensures els[i].id in NodeIndex(els)
    ensures NodeIndex(els)[els[i].id] == GeoPoint(els[i].lat, els[i].lon)
  {
    var n := |els| - 1;
    if i < n {
      forall j | i < j < n && IsNode(els[..n][j]) ensures els[..n][j].id != els[..n][i].id {
        assert els[..n][j] == els[j];
      }
      NodeIndexLastWins(els[..n], i);
    }
  }

  /** Elements other than nodes do not affect the index, wherever they stand. */
  lemma {:induction false} NodeIndexIgnoresNonNodes(a: seq<Element>, w: Element, b: seq<Element>)
    requires !IsNode(w)
    ensures NodeIndex(a + [w] + b) == NodeIndex(a + b)
  {
    if b == [] {
      assert (a + [w] + b)[..|a| + 1 - 1] == a;
      assert a + b == a;
    } else {
      var n := |b| - 1;
      NodeIndexIgnoresNonNodes(a, w, b[..n]);
      assert (a + [w] + b)[..|a + [w] + b| - 1] == a + [w] + b[..n];
      assert (a + b)[..|a + b| - 1] == a + b[..n];
    }
  }

  function Project(o: Origin, g: GeoPoint): PlanarPoint
  {
    LatLonToMeters(o, g.lat, g.lon)
  }

  /** The footprint of a way: the projections of its resolved node references, in order. */
  function Footprint(o: Origin, index: map<int, GeoPoint>, refs: seq<int>): seq<PlanarPoint>
  {
    if refs == [] then []
    else
      var points := Footprint(o, index, refs[..|refs| - 1]);
      var id := refs[|refs| - 1];
      if id in index then points + [Project(o, index[id])] else points
  }

  /** The node references that resolve in the index, in their order. */
  function Resolved(index: map<int, GeoPoint>, refs: seq<int>): (r: seq<int>)
  {
    Seqs.Filter(refs, id => id in index)
  }

  /**
   * A footprint is, point by point, the projection of the resolved references:
   * unresolved references are skipped and the order is kept.
   */
  lemma {:induction false} FootprintIsResolvedProjection(o: Origin, index: map<int, GeoPoint>, refs: seq<int>)
    ensures |Footprint(o, index, refs)| == |Resolved(index, refs)|
    ensures forall k :: 0 <= k < |Resolved(index, refs)| ==>
      Resolved(index, refs)[k] in index &&
      Footprint(o, index, refs)[k] == Project(o, index[Resolved(index, refs)[k]])
  {
    if refs != [] {
      var n := |refs| - 1;
      FootprintIsResolvedProjection(o, index, refs[..n]);
      assert refs == refs[..n] + [refs[n]];
      Seqs.FilterAppend(refs[..n], [refs[n]], id => id in index);
      assert Seqs.Filter([refs[n]], id => id in index) == if refs[n] in index then [refs[n]] else [];
    }
  }

  /** The buildings found by the second pass over `els`, using `index` to resolve node ids. */
  function Buildings(o: Origin, parseFloat: string -> Number, index: map<int, GeoPoint>, els: seq<Element>): seq<Building>
  {
    if els == [] then []
    else
      var found := Buildings(o, parseFloat, index, els[..|els| - 1]);
      var el := els[|els| - 1];
      if IsBuildingWay(el) then
        var footprint := Footprint(o, index, el.nodeRefs);
        if |footprint| > 2 then found + [Building(GetBuildingHeight(el.tags.value, parseFloat), footprint)]
        else found
      else found
  }

  /** What `parse` returns: the second pass resolves against the index of the whole list. */
  function ParseSpec(o: Origin, parseFloat: string -> Number, els: seq<Element>): seq<Building>
  {
    Buildings(o, parseFloat, NodeIndex(els), els)
  }

  /** The second pass is order-preserving: it works element by element. */
  lemma {:induction false} BuildingsAppend(o: Origin, parseFloat: string -> Number, index: map<int, GeoPoint>,
                                           a: seq<Element>, b: seq<Element>)
    ensures Buildings(o, parseFloat, index, a + b) ==
      Buildings(o, parseFloat, index, a) + Buildings(o, parseFloat, index, b)
  {
    if b == [] {
      assert a + b == a;
    } else {
      var n := |b| - 1;
      BuildingsAppend(o, parseFloat, index, a, b[..n]);
      assert (a + b)[..|a + b| - 1] == a + b[..n];
      assert (a + b)[|a + b| - 1] == b[n];
    }
  }

  /** Every emitted footprint has at least three points and comes with its tag-derived height. */
  lemma {:induction false} BuildingsAreSolid(o: Origin, parseFloat: string -> Number, index: map<int, GeoPoint>,
                                             els: seq<Element>)
    ensures forall b :: b in Buildings(o, parseFloat, index, els) ==> |b.footprint| >= 3
  {
    if els != [] {
      BuildingsAreSolid(o, parseFloat, index, els[..|els| - 1]);
    }
  }

  /** At most one building per building-tagged way. */
  lemma {:induction false} BuildingsBound(o: Origin, parseFloat: string -> Number, index: map<int, GeoPoint>,
                                          els: seq<Element>)
    ensures |Buildings(o, parseFloat, index, els)| <= Seqs.Count(els, IsBuildingWay)
  {
    if els != [] {
      var n := |els| - 1;
      BuildingsBound(o, parseFloat, index, els[..n]);
      assert els == els[..n] + [els[n]];
      Seqs.CountAppend(els[..n], [els[n]], IsBuildingWay);
    }
  }

  /** Elements that are not building-tagged ways contribute nothing to the output. */
  lemma {:induction false} OnlyBuildingWaysContribute(o: Origin, parseFloat: string -> Number,
                                                      index: map<int, GeoPoint>, els: seq<Element>)
    requires forall i :: 0 <= i < |els| ==> !IsBuildingWay(els[i])
    ensures Buildings(o, parseFloat, index, els) == []
  {
    if els != [] {
      var n := |els| - 1;
      assert forall i :: 0 <= i < n ==> els[..n][i] == els[i];
      OnlyBuildingWaysContribute(o, parseFloat, index, els[..n]);
    }
  }

  /**
   * `parse`: a first pass indexes every node, a second pass builds a footprint
   * for every building way and keeps those with more than two points.
   */
  method Parse(o: Origin, parseFloat: string -> Number, elements: seq<Element>) returns (buildings: seq<Building>)
    ensures buildings == ParseSpec(o, parseFloat, elements)
    ensures forall b :: b in buildings ==> |b.footprint| >= 3
    ensures |buildings| <= Seqs.Count(elements, IsBuildingWay)
  {
    var nodes: map<int, GeoPoint> := map[];
    var i := 0;
    while i < |elements|
      invariant 0 <= i <= |elements|
      invariant nodes == NodeIndex(elements[..i])
    {
      assert elements[..i + 1][..i] == elements[..i];
      var el := elements[i];
      if el.NodeElement? {
        nodes := nodes[el.id := GeoPoint(el.lat, el.lon)];
      }
      i := i + 1;
    }
    assert elements[..|elements|] == elements;

    buildings := [];
    var j := 0;
    while j < |elements|
      invariant 0 <= j <= |elements|
      invariant buildings == Buildings(o, parseFloat, nodes, elements[..j])
    {
      assert elements[..j + 1][..j] == elements[..j];
      var el := elements[j];
      if el.WayElement? && el.tags.Some? && Truthy(el.tags.value, "building") {
        var height := GetBuildingHeight(el.tags.value, parseFloat);
        var footprint: seq<PlanarPoint> := [];
        var k := 0;
        while k < |el.nodeRefs|
          invariant 0 <= k <= |el.nodeRefs|
          invariant footprint == Footprint(o, nodes, el.nodeRefs[..k])
        {
          assert el.nodeRefs[..k + 1][..k] == el.nodeRefs[..k];
          var nodeId := el.nodeRefs[k];
          if nodeId in nodes {
            var pos := LatLonToMeters(o, nodes[nodeId].lat, nodes[nodeId].lon);
            footprint := footprint + [pos];
          }
          k := k + 1;
        }
        assert el.nodeRefs[..|el.nodeRefs|] == el.nodeRefs;
        if |footprint| > 2 {
          buildings := buildings + [Building(height, footprint)];
        }
      }
      j := j + 1;
    }
    assert elements[..|elements|] == elements;
    BuildingsAreSolid(o, parseFloat, nodes, elements);
    BuildingsBound(o, parseFloat, nodes, elements);
  }
}
