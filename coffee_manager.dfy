/**
 * The venue registry: the list of coffee shops near the user, their current
 * sun state and its predicted change, and the queries the map and list views
 * make of it.
 */
module Coffee {
  import opened JsValues
  import opened SunPrediction
  import OsmParser
  import Seqs

  /** The tri-state `isSunny`: `null` (not checked yet), `true` or `false`. */
  datatype SunState = Unknown | Sunny | Shaded

  /**
   * A venue record. `sunnyAt` is set only for venues not known to be sunny
   * and `shadesAt` only for sunny ones.
   */
  datatype Shop = Shop(
    id: int,
    name: string,
    lat: real,
    lon: real,
    x: real,
    z: real,
    distance: int,
    address: Option<string>,
    isSunny: SunState,
    sunnyAt: Option<int>,
    shadesAt: Option<Stamp>)

  /**
   * `calculateDistance(lat1, lon1, lat2, lon2)`: the rounded haversine
   * distance in meters, computed in floating point by the host.
   */
  type Distance = (real, real, real, real) -> int

  // ---------------------------------------------------------------------------
  // Addresses

  /** The address tags, in the order they are joined. */
  const AddressKeys: seq<string> := ["addr:housenumber", "addr:street", "addr:city"]

  /** The values of those of `keys` that are truthy in `tags`, in key order. */
  function TruthyValues(tags: Tags, keys: seq<string>): seq<string>
  {
    if keys == [] then []
    else (if Truthy(tags, keys[0]) then [tags[keys[0]]] else []) + TruthyValues(tags, keys[1..])
  }

  /** The address parts that are present, in house number, street, city order. */
  function PresentParts(tags: Tags): seq<string>
  {
    TruthyValues(tags, AddressKeys)
  }

  /** `parts.join(' ')`. */
  function JoinWithSpaces(parts: seq<string>): string
  {
    if parts == [] then ""
    else if |parts| == 1 then parts[0]
    else parts[0] + " " + JoinWithSpaces(parts[1..])
  }

  /**
   * `buildAddress`: push each truthy address tag in turn, then join the parts
   * with single spaces; `null` when there is none.
   */
  method BuildAddress(tags: Tags) returns (address: Option<string>)
    ensures address.None? <==>
      !Truthy(tags, "addr:housenumber") && !Truthy(tags, "addr:street") && !Truthy(tags, "addr:city")
    ensures address.Some? ==> address.value == JoinWithSpaces(PresentParts(tags)) && address.value != ""
  {
    var parts: seq<string> := [];
    if Truthy(tags, "addr:housenumber") {
      parts := parts + [tags["addr:housenumber"]];
    }
    if Truthy(tags, "addr:street") {
      parts := parts + [tags["addr:street"]];
    }
    if Truthy(tags, "addr:city") {
      parts := parts + [tags["addr:city"]];
    }
    AddressPartsInOrder(tags);
    if |parts| > 0 {
      JoinNonEmpty(parts);
    }
    address := if |parts| > 0 then Some(JoinWithSpaces(parts)) else None;
  }

  /** The present parts are the truthy tags among house number, street and city, in that order. */
  lemma AddressPartsInOrder(tags: Tags)
    ensures PresentParts(tags) ==
      (if Truthy(tags, "addr:housenumber") then [tags["addr:housenumber"]] else []) +
      (if Truthy(tags, "addr:street") then [tags["addr:street"]] else []) +
      (if Truthy(tags, "addr:city") then [tags["addr:city"]] else [])
  {
    var cityOnly := ["addr:city"];
    var streetAndCity := ["addr:street", "addr:city"];
    assert cityOnly[1..] == [];
    assert TruthyValues(tags, cityOnly) == if Truthy(tags, "addr:city") then [tags["addr:city"]] else [];
    assert streetAndCity[1..] == cityOnly;
    var street := if Truthy(tags, "addr:street") then [tags["addr:street"]] else [];
    assert TruthyValues(tags, streetAndCity) == street + TruthyValues(tags, cityOnly);
    assert AddressKeys[1..] == streetAndCity;
    var number := if Truthy(tags, "addr:housenumber") then [tags["addr:housenumber"]] else [];
    assert TruthyValues(tags, AddressKeys) == number + TruthyValues(tags, streetAndCity);
    assert number + (street + TruthyValues(tags, cityOnly)) == number + street + TruthyValues(tags, cityOnly);
  }

  /** A house number, street and city give "number street city". */
  lemma FullAddress(tags: Tags)
    requires Truthy(tags, "addr:housenumber") && Truthy(tags, "addr:street") && Truthy(tags, "addr:city")
    ensures JoinWithSpaces(PresentParts(tags)) ==
      tags["addr:housenumber"] + " " + tags["addr:street"] + " " + tags["addr:city"]
  {
    AddressPartsInOrder(tags);
    var parts := PresentParts(tags);
    assert parts == [tags["addr:housenumber"], tags["addr:street"], tags["addr:city"]];
    assert parts[1..] == [tags["addr:street"], tags["addr:city"]];
    assert parts[1..][1..] == [tags["addr:city"]];
    var n, st, c := tags["addr:housenumber"], tags["addr:street"], tags["addr:city"];
    assert JoinWithSpaces(parts[1..]) == st + " " + c;
    assert JoinWithSpaces(parts) == n + " " + (st + " " + c);
  }

  /** Joining non-empty parts gives a non-empty string. */
  lemma {:induction false} JoinNonEmpty(parts: seq<string>)
    requires parts != [] && forall i :: 0 <= i < |parts| ==> parts[i] != ""
    ensures JoinWithSpaces(parts) != ""
  {
    if |parts| > 1 {
      assert |parts[0] + " " + JoinWithSpaces(parts[1..])| >= |" "|;
    }
  }

  // ---------------------------------------------------------------------------
  // Lookup

  /** The index of the first shop with the id (`Array.prototype.find`). */
  function FindIndex(shops: seq<Shop>, id: int): (r: Option<nat>)
    ensures r.None? <==> forall j :: 0 <= j < |shops| ==> shops[j].id != id
    ensures r.Some? ==> r.value < |shops| && shops[r.value].id == id &&
                        forall j :: 0 <= j < r.value ==> shops[j].id != id
  {
    if shops == [] then None
    else if shops[0].id == id then Some(0)
    else
      match FindIndex(shops[1..], id)
      case None => None
      case Some(k) => Some(k + 1)
  }

  // ---------------------------------------------------------------------------
  // Filters and ordering

  predicate IsSunnyShop(s: Shop)
  {
    s.isSunny == Sunny
  }

  predicate IsShadedShop(s: Shop)
  {
    s.isSunny == Shaded
  }

  /**
   * The shop's sun state is not `e`. The comparator is consistent on shops
   * that all avoid `null` or all avoid `false` (`e` is `Unknown` or `Shaded`).
   */
  predicate Avoids(s: Shop, e: SunState)
  {
    s.isSunny != e
  }

  /** `null` and `false` are not both present among the shops. */
  predicate ConsistentStates(s: seq<Shop>)
  {
    (forall k :: 0 <= k < |s| ==> s[k].isSunny != Unknown) ||
    (forall k :: 0 <= k < |s| ==> s[k].isSunny != Shaded)
  }

  /** The comparator of `getShopsSorted`: sunny first, then by distance. */
  function Compare(a: Shop, b: Shop): int
  {
    if a.isSunny != b.isSunny then (if a.isSunny == Sunny then -1 else 1)
    else a.distance - b.distance
  }

  /** Every pair is in comparator order. */
  predicate Sorted(s: seq<Shop>)
  {
    forall i, j :: 0 <= i < j < |s| ==> Compare(s[i], s[j]) <= 0
  }

  /** Sunny shops precede all others, and within each sun state distances do not decrease. */
  predicate SunnyFirstThenNearest(s: seq<Shop>)
  {
    forall i, j :: 0 <= i < j < |s| ==>
      (IsSunnyShop(s[j]) ==> IsSunnyShop(s[i])) &&
      (s[i].isSunny == s[j].isSunny ==> s[i].distance <= s[j].distance)
  }

  /** Insert `x` after every element that does not compare greater (a stable insertion). */
  function Insert(x: Shop, s: seq<Shop>): (r: seq<Shop>)
    ensures multiset(r) == multiset(s) + multiset{x}
    ensures |r| == |s| + 1
    ensures forall y :: y in r ==> y == x || y in s
  {
    if s == [] then [x]
    else if Compare(x, s[0]) < 0 then [x] + s
    else
      assert s == [s[0]] + s[1..];
      [s[0]] + Insert(x, s[1..])
  }

  /** Stable insertion sort by `Compare`. */
  function SortShops(s: seq<Shop>): (r: seq<Shop>)
    ensures multiset(r) == multiset(s)
    ensures |r| == |s|
  {
    if s == [] then []
    else
      assert s == s[..|s| - 1] + [s[|s| - 1]];
      Insert(s[|s| - 1], SortShops(s[..|s| - 1]))
  }

  /**
   * The comparator is a total preorder on shops that all avoid `null` or all
   * avoid `false`: with at most two sun states, one of them `true`, the state
   * test is consistent.
   */
  lemma CompareConsistent(a: Shop, b: Shop, c: Shop, e: SunState)
    requires e != Sunny
    requires Avoids(a, e) && Avoids(b, e) && Avoids(c, e)
    ensures Compare(b, a) == -Compare(a, b)
    ensures Compare(a, b) <= 0 && Compare(b, c) <= 0 ==> Compare(a, c) <= 0
  {
  }

  /**
   * With `null` and `false` mixed the comparator is inconsistent: each of the
   * two shops compares greater than the other, so the engine's sort order is
   * then unspecified.
   */
  lemma CompareInconsistentWhenUnknown(a: Shop, b: Shop)
    requires a.isSunny == Unknown && b.isSunny == Shaded
    ensures Compare(a, b) > 0 && Compare(b, a) > 0
  {
  }

  /** A shop placed before a sorted list it precedes keeps the list sorted (all avoiding the same state `e`). */
  lemma InsertSortedFront(x: Shop, s: seq<Shop>, e: SunState)
    requires e != Sunny
    requires Avoids(x, e) && forall k :: 0 <= k < |s| ==> Avoids(s[k], e)
    requires Sorted(s) && s != [] && Compare(x, s[0]) < 0
    ensures Sorted([x] + s)
  {
    var r := [x] + s;
    forall i, j | 0 <= i < j < |r| ensures Compare(r[i], r[j]) <= 0 {
      if i == 0 {
        assert r[j] == s[j - 1];
        if j > 1 {
          CompareConsistent(x, s[0], s[j - 1], e);
        }
      } else {
        assert r[i] == s[i - 1] && r[j] == s[j - 1];
      }
    }
  }

  /** The head of a sorted list, put before a sorted list of `x` and later elements, keeps it sorted. */
  lemma InsertSortedCons(x: Shop, s: seq<Shop>, rest: seq<Shop>, e: SunState)
    requires e != Sunny
    requires Avoids(x, e) && s != [] && Avoids(s[0], e)
    requires Sorted(s) && Sorted(rest) && Compare(x, s[0]) >= 0
    requires forall y :: y in rest ==> y == x || y in s[1..]
    ensures Sorted([s[0]] + rest)
  {
    CompareConsistent(x, s[0], s[0], e);
    var r := [s[0]] + rest;
    forall i, j | 0 <= i < j < |r| ensures Compare(r[i], r[j]) <= 0 {
      if i == 0 {
        assert r[j] == rest[j - 1] && r[j] in rest;
        if r[j] != x {
          var m :| 0 <= m < |s[1..]| && s[1..][m] == r[j];
          assert s[m + 1] == r[j];
        }
      } else {
        assert r[i] == rest[i - 1] && r[j] == rest[j - 1];
      }
    }
  }

  lemma {:induction false} InsertSorted(x: Shop, s: seq<Shop>, e: SunState)
    requires e != Sunny
    requires Avoids(x, e) && forall k :: 0 <= k < |s| ==> Avoids(s[k], e)
    requires Sorted(s)
    ensures Sorted(Insert(x, s))
  {
    if s != [] {
      if Compare(x, s[0]) < 0 {
        InsertSortedFront(x, s, e);
      } else {
        assert forall k :: 0 <= k < |s| - 1 ==> s[1..][k] == s[k + 1];
        InsertSorted(x, s[1..], e);
        InsertSortedCons(x, s, Insert(x, s[1..]), e);
      }
    }
  }

  lemma {:induction false} SortShopsSorted(s: seq<Shop>, e: SunState)
    requires e != Sunny
    requires forall k :: 0 <= k < |s| ==> Avoids(s[k], e)
    ensures Sorted(SortShops(s))
  {
    if s != [] {
      var n := |s| - 1;
      assert forall k :: 0 <= k < n ==> s[..n][k] == s[k];
      SortShopsSorted(s[..n], e);
      var sorted := SortShops(s[..n]);
      forall k | 0 <= k < |sorted| ensures Avoids(sorted[k], e) {
        assert sorted[k] in multiset(s[..n]);
        var m :| 0 <= m < n && s[..n][m] == sorted[k];
      }
      InsertSorted(s[n], sorted, e);
    }
  }

  /**
   * Unless `null` and `false` are mixed, the sorted list puts sunny shops
   * before all others and is ordered by distance within each sun state.
   */
  lemma SortedMeansSunnyFirst(s: seq<Shop>, e: SunState)
    requires e != Sunny
    requires forall k :: 0 <= k < |s| ==> Avoids(s[k], e)
    ensures SunnyFirstThenNearest(SortShops(s))
  {
    SortShopsSorted(s, e);
    var r := SortShops(s);
    forall i, j | 0 <= i < j < |r|
      ensures IsSunnyShop(r[j]) ==> IsSunnyShop(r[i])
      ensures r[i].isSunny == r[j].isSunny ==> r[i].distance <= r[j].distance
    {
      assert Compare(r[i], r[j]) <= 0;
    }
  }

  // ---------------------------------------------------------------------------
  // Prediction

  /** What `predictSunnyTimes` makes of one shop: reset both predictions, then search in the shop's branch. */
  function Predicted(s: Shop, sky: Sky): (p: Shop)
    ensures p == s.(sunnyAt := p.sunnyAt, shadesAt := p.shadesAt)
    ensures s.isSunny == Sunny ==> p.sunnyAt.None? && p.shadesAt.Some?
    ensures s.isSunny != Sunny ==> p.shadesAt.None?
    ensures p.sunnyAt.Some? ==> sky.now < p.sunnyAt.value <= sky.now + HorizonMinutes * MinuteMs
  {
    var reset := s.(sunnyAt := None, shadesAt := None);
    if s.isSunny == Sunny then reset.(shadesAt := Some(ShadesAt(sky, s.x, s.z)))
    else reset.(sunnyAt := SunnyAt(sky, s.x, s.z))
  }

  /** Predictions already on the shop have no influence: both are reset first. */
  lemma PredictionResets(s: Shop, sky: Sky, sunnyAt: Option<int>, shadesAt: Option<Stamp>)
    ensures Predicted(s, sky) == Predicted(s.(sunnyAt := sunnyAt, shadesAt := shadesAt), sky)
  {
  }

  /**
   * A sunny shop ends with no `sunnyAt` and a `shadesAt` never after a real
   * sunset: sunset itself or the first shaded 10-minute step.
   */
  lemma SunnyShopPrediction(s: Shop, sky: Sky)
    requires s.isSunny == Sunny
    ensures var p := Predicted(s, sky);
      p.sunnyAt.None? && p.shadesAt.Some? &&
      (sky.sunset.Valid? ==> p.shadesAt.value.Valid? && p.shadesAt.value.ms <= sky.sunset.ms) &&
      (p.shadesAt.value == sky.sunset ||
       exists k :: 1 <= k <= 48 && p.shadesAt.value == Valid(SunnyStep(sky, k)) &&
         !After(SunnyStep(sky, k), sky.sunset) && !LitAt(sky, s.x, s.z, SunnyStep(sky, k)) &&
         forall j :: 1 <= j < k ==> LitAt(sky, s.x, s.z, SunnyStep(sky, j)))
  {
    ShadesAtIsSunsetOrFirstShadedStep(sky, s.x, s.z);
  }

  /**
   * A shop whose `isSunny` is `false` or `null` takes the shaded branch: no
   * `shadesAt`, and a `sunnyAt`, if any, at the first lit 15-minute step.
   */
  lemma ShadedShopPrediction(s: Shop, sky: Sky)
    requires s.isSunny != Sunny
    ensures var p := Predicted(s, sky);
      p.shadesAt.None? &&
      (p.sunnyAt.Some? ==>
        var t := p.sunnyAt.value;
        sky.now < t <= sky.now + HorizonMinutes * MinuteMs &&
        (sky.sunset.Valid? ==> t <= sky.sunset.ms) && LitAt(sky, s.x, s.z, t) &&
        exists k :: 1 <= k <= 32 && t == ShadedStep(sky, k) && SunStepQualifies(sky, s.x, s.z, k) &&
          forall j :: 1 <= j < k ==> !SunStepQualifies(sky, s.x, s.z, j)) &&
      (p.sunnyAt.None? <==> forall k :: 1 <= k <= 32 ==> !SunStepQualifies(sky, s.x, s.z, k))
  {
    SunnyAtNoneIffNeverLit(sky, s.x, s.z);
    if SunnyAt(sky, s.x, s.z).Some? {
      SunScanFound(sky, s.x, s.z, 1);
    }
  }

  // ---------------------------------------------------------------------------
  // The registry

  class CoffeeManager {
    /** The shops, in fetch order. */
    var coffeeShops: seq<Shop>
    /** The user's location; `None` until it is first set (latitude and longitude are always set together). */
    var userLocation: Option<OsmParser.GeoPoint>

    constructor ()
      ensures coffeeShops == [] && userLocation == None
    {
      coffeeShops := [];
      userLocation := None;
    }

    /** `setUserLocation`: record the location, then refresh every distance. */
    method SetUserLocation(lat: real, lon: real, calculateDistance: Distance)
      modifies this
      ensures userLocation == Some(OsmParser.GeoPoint(lat, lon))
      ensures |coffeeShops| == |old(coffeeShops)|
      ensures forall i :: 0 <= i < |coffeeShops| ==>
        coffeeShops[i] == old(coffeeShops)[i].(distance := calculateDistance(lat, lon, old(coffeeShops)[i].lat, old(coffeeShops)[i].lon))
    {
      userLocation := Some(OsmParser.GeoPoint(lat, lon));
      UpdateDistances(calculateDistance);
    }

    /** `updateDistances`: nothing while the location is unknown, else set each shop's distance from the user. */
    method UpdateDistances(calculateDistance: Distance)
      modifies this
      ensures userLocation == old(userLocation)
      ensures userLocation.None? ==> coffeeShops == old(coffeeShops)
      ensures |coffeeShops| == |old(coffeeShops)|
      ensures userLocation.Some? ==> forall i :: 0 <= i < |coffeeShops| ==>
        coffeeShops[i] == old(coffeeShops)[i].(distance := calculateDistance(
          userLocation.value.lat, userLocation.value.lon, old(coffeeShops)[i].lat, old(coffeeShops)[i].lon))
    {
      if userLocation.None? {
        return;
      }
      var user := userLocation.value;
      var i := 0;
      while i < |coffeeShops|
        invariant 0 <= i <= |coffeeShops| == |old(coffeeShops)|
        invariant userLocation == old(userLocation)
        invariant forall j :: 0 <= j < i ==>
          coffeeShops[j] == old(coffeeShops)[j].(distance := calculateDistance(user.lat, user.lon, old(coffeeShops)[j].lat, old(coffeeShops)[j].lon))
        invariant forall j :: i <= j < |coffeeShops| ==> coffeeShops[j] == old(coffeeShops)[j]
      {
        var shop := coffeeShops[i];
        coffeeShops := coffeeShops[i := shop.(distance := calculateDistance(user.lat, user.lon, shop.lat, shop.lon))];
        i := i + 1;
      }
    }

    /** `getShopById`: the first shop with the id, if any. */
    function GetShopById(id: int): (r: Option<Shop>)
      reads this
      ensures r.None? <==> forall j :: 0 <= j < |coffeeShops| ==> coffeeShops[j].id != id
      ensures r.Some? ==> exists k :: 0 <= k < |coffeeShops| && coffeeShops[k] == r.value && r.value.id == id &&
                                      forall j :: 0 <= j < k ==> coffeeShops[j].id != id
    {
      match FindIndex(coffeeShops, id)
      case None => None
      case Some(k) => Some(coffeeShops[k])
    }

    /** `updateSunStatus`: set `isSunny` on the first shop with the id; nothing else changes, and nothing at all without a match. */
    method UpdateSunStatus(id: int, isSunny: SunState)
      modifies this
      ensures userLocation == old(userLocation)
      ensures |coffeeShops| == |old(coffeeShops)|
      ensures match FindIndex(old(coffeeShops), id)
        case None => coffeeShops == old(coffeeShops)
        case Some(k) => coffeeShops == old(coffeeShops)[k := old(coffeeShops)[k].(isSunny := isSunny)]
    {
      var found := FindIndex(coffeeShops, id);
      if found.Some? {
        var k := found.value;
        coffeeShops := coffeeShops[k := coffeeShops[k].(isSunny := isSunny)];
      }
    }

    /** `getSunnyShops`: the shops whose `isSunny` is `true`, in registry order. */
    function GetSunnyShops(): (r: seq<Shop>)
      reads this
      ensures Seqs.IsSubsequence(r, coffeeShops)
      ensures forall s :: s in r <==> s in coffeeShops && s.isSunny == Sunny
      ensures |r| == Seqs.Count(coffeeShops, IsSunnyShop)
    {
      Seqs.Filter(coffeeShops, IsSunnyShop)
    }

    /** `getShadedShops`: the shops whose `isSunny` is `false`, in registry order. */
    function GetShadedShops(): (r: seq<Shop>)
      reads this
      ensures Seqs.IsSubsequence(r, coffeeShops)
      ensures forall s :: s in r <==> s in coffeeShops && s.isSunny == Shaded
      ensures |r| == Seqs.Count(coffeeShops, IsShadedShop)
    {
      Seqs.Filter(coffeeShops, IsShadedShop)
    }

    /**
     * `getShopsSorted`: a sorted copy (the registry itself is not touched): a
     * permutation of the shops, sunny first and then nearest first unless
     * `null` and `false` sun states are mixed.
     */
    function GetShopsSorted(): (r: seq<Shop>)
      reads this
      ensures multiset(r) == multiset(coffeeShops)
      ensures ConsistentStates(coffeeShops) ==> SunnyFirstThenNearest(r)
    {
      if forall k :: 0 <= k < |coffeeShops| ==> coffeeShops[k].isSunny != Unknown then
        SortedMeansSunnyFirst(coffeeShops, Unknown);
        SortShops(coffeeShops)
      else if forall k :: 0 <= k < |coffeeShops| ==> coffeeShops[k].isSunny != Shaded then
        SortedMeansSunnyFirst(coffeeShops, Shaded);
        SortShops(coffeeShops)
      else
        SortShops(coffeeShops)
    }

    /**
     * `predictSunnyTimes`: for every shop, reset both predictions, then search
     * forward for `shadesAt` (sunny shops) or `sunnyAt` (all others).
     */
    method PredictSunnyTimes(sky: Sky)
      modifies this
      ensures userLocation == old(userLocation)
      ensures |coffeeShops| == |old(coffeeShops)|
      ensures forall i :: 0 <= i < |coffeeShops| ==> coffeeShops[i] == Predicted(old(coffeeShops)[i], sky)
    {
      var now := sky.now;
      var sunset := sky.sunset;
      var i := 0;
      while i < |coffeeShops|
        invariant 0 <= i <= |coffeeShops| == |old(coffeeShops)|
        invariant userLocation == old(userLocation)
        invariant forall j :: 0 <= j < i ==> coffeeShops[j] == Predicted(old(coffeeShops)[j], sky)
        invariant forall j :: i <= j < |coffeeShops| ==> coffeeShops[j] == old(coffeeShops)[j]
      {
        var shop := coffeeShops[i];
        shop := shop.(sunnyAt := None, shadesAt := None);
        ghost var reset := shop;

        if shop.isSunny == Sunny {
          var mins := 10;
          while mins <= 480
            invariant 10 <= mins <= 490
            invariant shop == reset
            invariant ShadeScan(sky, shop.x, shop.z, mins) == ShadesAt(sky, shop.x, shop.z)
          {
            var futureTime := now + mins * 60000;
            if After(futureTime, sunset) {
              shop := shop.(shadesAt := Some(sunset));
              break;
            }
            if !sky.sunUp(futureTime) {
              shop := shop.(shadesAt := Some(Valid(futureTime)));
              break;
            }
            var willBeSunny := sky.sunlit(shop.x, shop.z, futureTime);
            if !willBeSunny {
              shop := shop.(shadesAt := Some(Valid(futureTime)));
              break;
            }
            mins := mins + 10;
          }
          if shop.shadesAt.None? {
            shop := shop.(shadesAt := Some(sunset));
          }
        } else {
          var mins := 15;
          while mins <= 480
            invariant 15 <= mins <= 495
            invariant shop == reset
            invariant SunScan(sky, shop.x, shop.z, mins) == SunnyAt(sky, shop.x, shop.z)
          {
            var futureTime := now + mins * 60000;
            if After(futureTime, sunset) {
              break;
            }
            if !sky.sunUp(futureTime) {
              mins := mins + 15;
              continue;
            }
            var isSunny := sky.sunlit(shop.x, shop.z, futureTime);
            if isSunny {
              shop := shop.(sunnyAt := Some(futureTime));
              break;
            }
            mins := mins + 15;
          }
        }
        coffeeShops := coffeeShops[i := shop];
        i := i + 1;
      }
    }
  }
}
