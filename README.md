# SunApp sun-exposure core in Dafny

SunApp tells a user which coffee shops near them have their terraces in direct
sunlight right now, and when that will change. This project models three parts
of its JavaScript code and proves properties of them.

- **The OSM parser** (`js/osm-parser.js`). It projects latitude/longitude onto
  a local metric plane with an equirectangular projection. It picks a building
  height from OSM tags. It then parses an Overpass response in two passes: an
  index of nodes, then building footprints resolved from way node references.
  Modelled in `osm_parser.dfy` (module `OsmParser`). `Parse` is a method with
  the source's loops, proved equal to the fold `ParseSpec`.
- **The shadow engine** (`js/shadow-engine.js`). It holds the list of building
  meshes and casts a ray from table height (0.75 m) toward the sun, within
  2000 m. A point is sunny iff the ray hits no mesh. Modelled in
  `shadow_engine.dfy` (module `Shadow`) as a class `ShadowEngine` with a
  `seq<Mesh>` field. The ray/mesh intersection test is an oracle `hits`.
- **The coffee-shop registry and the sun/shade predictor**
  (`js/coffee-manager.js`). The registry has address building, lookup and
  update by id, filters by the tri-state `isSunny`, and the "sunny first, then
  nearest" sort. The predictor is `predictSunnyTimes`, a bounded forward
  search. For a sunny shop it steps 10 minutes at a time and finds when the
  shop goes into shade. For any other shop it steps 15 minutes at a time and
  finds when the sun arrives. Both searches stop at 480 minutes and at sunset.
  - The search loops are specified by the recursive functions `ShadeScan` and
    `SunScan` in `sun_prediction.dfy` (module `SunPrediction`). That file proves
    the "earliest step" characterisations.
  - The registry is the class `CoffeeManager` in `coffee_manager.dfy` (module
    `Coffee`).

`js_values.dfy` holds the JavaScript values the code handles: nullable values,
the numbers `parseFloat` returns (including NaN), and truthiness of tag values.
`seqs.dfy` holds an order-preserving filter with its counting lemmas.

Things that come from outside the core are modelled as parameters:

| Source of the value | Modelled as |
|---|---|
| the clock (`new Date()`) | `Sky.now` |
| SunCalc's sunset | `Sky.sunset`, a `Stamp` that may be `Invalid` (SunCalc returns an Invalid Date when the sun does not set) |
| the altitude sign at an instant | `Sky.sunUp` |
| the scene's `checkSunAtPosition` at an instant | `Sky.sunlit` |
| `parseFloat` | a function `string -> Number` |
| `Math.cos(lat0 * PI / 180)` | the field `Origin.cosLat` |
| `calculateDistance` | a function `Distance` |
| vector normalisation | a function `Vec3 -> Vec3` |

Times are integer milliseconds.

In a few places the code behaves differently from what one might expect of
it, and the model follows the code:

- A sun at or below the horizon does not make `checkSunAtPosition` answer
  "shaded": it has no altitude test, and only the ray decides. The predictor
  makes the altitude test itself. `Shadow.EmptyEngineIsSunny` holds for any
  direction.
- Building heights are not always positive. `getBuildingHeight` returns
  whatever `parseFloat` gives, so the result can be NaN, zero, negative or
  infinite. `OsmParser.HeightPositive` states when the height is positive.
- `addBuildings` does not discard earlier meshes: it appends to them, and
  `clearBuildings` is a separate operation. `Shadow.ShadowEngine.AddBuildings`
  keeps the old meshes.
- The source comment at `js/osm-parser.js:25` says 3.5 m per floor. The code
  multiplies by 3, and the model uses 3.
- A shop whose `isSunny` is `null` takes the shaded branch of the predictor,
  because the test is truthiness (`js/coffee-manager.js:137`).

## Model

| member | source | states |
|---|---|---|
| JsValues.Triple | js/osm-parser.js:25 | `levels * 3` keeps NaN and the infinities as they are; a finite result is three times `levels`; a product below the double overflow threshold in magnitude is finite, and one at or beyond it is an infinity of the product's sign |
| Seqs.Filter | js/coffee-manager.js:111-117 | an `Array.prototype.filter` result is a subsequence of its input holding exactly the elements that satisfy the predicate, and its length is their count |
| OsmParser.LatLonToMeters | js/osm-parser.js:8-16 | the origin projects to (0, 0); z is negative iff the point is north of the origin and 0 iff on its latitude; when cos(lat0) ≠ 0, `MetersToLatLon` gives the point back |
| OsmParser.ZDecreasesNorthward | js/osm-parser.js:14 | of two points, the more northern one has the smaller z |
| OsmParser.InverseRoundTrip | js/osm-parser.js:8-16 | when cos(lat0) ≠ 0, projecting the inverse of a planar point gives back that point |
| OsmParser.ProjectionInjective | js/osm-parser.js:8-16 | when cos(lat0) ≠ 0, distinct points have distinct projections |
| OsmParser.GetBuildingHeight | js/osm-parser.js:20-29 | with neither tag truthy the height is the 10 m default, and a NaN height only comes from a truthy tag that parses to NaN |
| OsmParser.HeightPrecedence | js/osm-parser.js:20-29 | a truthy `height` tag gives `parseFloat(height)` whatever `building:levels` says; otherwise a truthy `building:levels` gives NaN iff it parses to NaN, an infinity for an infinity, three times a finite value below the overflow threshold, and +Infinity at or beyond it |
| OsmParser.HeightDependsOnlyOnHeightTags | js/osm-parser.js:20-29 | two tag maps that agree on `height` and `building:levels` give the same height |
| OsmParser.HeightPositive | js/osm-parser.js:20-29 | when each truthy height tag parses to a positive finite number, the height is positive: finite, or +Infinity only when three times the levels overflows a double |
| OsmParser.NodeIndexKeys | js/osm-parser.js:37-41 | an id is in the node index iff some node element has it, wherever that node stands among the elements |
| OsmParser.NodeIndexLastWins | js/osm-parser.js:37-41 | for duplicate node ids, the last node's coordinates are the ones kept |
| OsmParser.NodeIndexIgnoresNonNodes | js/osm-parser.js:38 | removing a way or other non-node element does not change the node index |
| OsmParser.FootprintIsResolvedProjection | js/osm-parser.js:50-56 | the footprint is, in order, the projections of exactly those way node ids found in the index; unresolved ids are skipped |
| OsmParser.BuildingsAppend | js/osm-parser.js:44-62 | the building pass over `a + b` is the pass over `a` followed by the pass over `b`, so element order is kept |
| OsmParser.BuildingsAreSolid | js/osm-parser.js:58-60 | every emitted building has at least three footprint points |
| OsmParser.BuildingsBound | js/osm-parser.js:44-45 | there are no more buildings than ways with tags and a truthy `building` tag |
| OsmParser.OnlyBuildingWaysContribute | js/osm-parser.js:45 | elements with no building way among them give no buildings |
| OsmParser.Parse | js/osm-parser.js:32-65 | the two-pass loop computes the index-then-buildings fold; every footprint has at least three points, and the output is no longer than the number of building ways |
| Shadow.MeshesForUsable | js/shadow-engine.js:41-47 | `addBuildings` makes one mesh per building with more than two points, in input order, and none for the others |
| Shadow.MeshesAreSolid | js/shadow-engine.js:42 | every mesh has a footprint of at least three points |
| Shadow.NoHitsIffSunlit | js/shadow-engine.js:68-70 | the list of intersected meshes is empty iff no mesh is hit by the ray |
| Shadow.SunlitAppend | js/shadow-engine.js:68-70 | a point is lit among `a + b` iff it is lit among `a` and among `b`, so adding buildings never adds sun |
| Shadow.EmptyEngineIsSunny | js/shadow-engine.js:61-71 | with no meshes every point is sunny, whatever the direction (no altitude test) |
| Shadow.ShadowEngine.constructor | js/shadow-engine.js:4-10 | the engine starts with no meshes |
| Shadow.ShadowEngine.AddBuildings | js/shadow-engine.js:38-50 | the new mesh list is the old one followed by the meshes for the usable buildings |
| Shadow.ShadowEngine.ClearBuildings | js/shadow-engine.js:52-59 | the mesh list is left empty |
| Shadow.ShadowEngine.CheckSunAtPosition | js/shadow-engine.js:61-71 | sunny iff no mesh is hit by the ray from (x, 0.75, z) along the direction within 2000 |
| Shadow.ShadowEngine.CheckSunAtPositions | js/shadow-engine.js:74-83 | a result per position, in order, carrying its id, x and z, sunny iff lit along the normalised direction; the meshes are not modified |
| SunPrediction.ShadesAt | js/coffee-manager.js:140-167 | the sunny-branch prediction is never after a real sunset, and one other than the sunset lies in (now, now + 480 min]; its step characterisation is in the three lemmas below |
| SunPrediction.ShadesAtEarliestShadedStep | js/coffee-manager.js:140-162 | if step k (1 ≤ k ≤ 48) is not past sunset and is dark or blocked, and every earlier step was lit, then `shadesAt` is `now + 10k` minutes |
| SunPrediction.ShadesAtSunsetWhenNeverShaded | js/coffee-manager.js:140-167 | if every step up to sunset is lit, `shadesAt` is the sunset |
| SunPrediction.ShadesAtIsSunsetOrFirstShadedStep | js/coffee-manager.js:140-167 | `shadesAt` is either the sunset or the first step that is not past sunset and is dark or blocked, all earlier steps being lit |
| SunPrediction.SunnyAt | js/coffee-manager.js:170-185 | a shaded-branch prediction lies in (now, now + 480 min], is no later than a real sunset, and has the sun up and the venue lit; its step characterisation is in the lemmas below |
| SunPrediction.SunnyAtIsEarliestLitStep | js/coffee-manager.js:170-185 | `sunnyAt` is `now + 15k` minutes iff step k (1 ≤ k ≤ 32) is not past sunset, the sun is up and the venue lit there, and no earlier step qualifies |
| SunPrediction.SunnyAtNoneIffNeverLit | js/coffee-manager.js:170-185 | no `sunnyAt` is set iff no step qualifies |
| SunPrediction.NightGivesNoSunnyAt | js/coffee-manager.js:175 | if the sun is down at every step, no `sunnyAt` is set |
| Coffee.BuildAddress | js/coffee-manager.js:90-96 | null iff none of house number, street and city is truthy; otherwise a non-empty string joined from the present parts |
| Coffee.AddressPartsInOrder | js/coffee-manager.js:91-94 | the parts are the truthy house number, street and city, in that order |
| Coffee.FullAddress | js/coffee-manager.js:90-96 | with all three present the address is "number street city", single-spaced |
| Coffee.JoinNonEmpty | js/coffee-manager.js:95 | joining non-empty parts gives a non-empty string |
| Coffee.FindIndex | js/coffee-manager.js:103 | `find` by id: none iff no shop has the id, otherwise the first shop that has it |
| Coffee.Predicted | js/coffee-manager.js:133-186 | one shop after prediction: only `sunnyAt` and `shadesAt` change; a sunny shop gets `shadesAt` and no `sunnyAt`; any other shop gets no `shadesAt`; a `sunnyAt` lies in (now, now + 480 min] |
| Coffee.Insert | js/coffee-manager.js:120-125 | inserting a shop adds exactly that shop to the multiset |
| Coffee.SortShops | js/coffee-manager.js:120-125 | the sort returns a permutation of its input |
| Coffee.CompareConsistent | js/coffee-manager.js:120-125 | on shops that all avoid `null` or all avoid `false` the comparator is antisymmetric and transitive |
| Coffee.CompareInconsistentWhenUnknown | js/coffee-manager.js:121-122 | for a `null` shop against a `false` shop each compares greater than the other |
| Coffee.InsertSorted | js/coffee-manager.js:120-125 | inserting a shop into a sorted list keeps it sorted when all avoid `null` or all avoid `false` |
| Coffee.SortShopsSorted | js/coffee-manager.js:120-125 | when the shops all avoid `null` or all avoid `false`, the result is in comparator order |
| Coffee.SortedMeansSunnyFirst | js/coffee-manager.js:119-126 | when the shops all avoid `null` or all avoid `false`, every sunny shop precedes every other one, and distance is non-decreasing within each sun state |
| Coffee.PredictionResets | js/coffee-manager.js:132-135 | the prediction does not depend on the `sunnyAt`/`shadesAt` the shop had before |
| Coffee.SunnyShopPrediction | js/coffee-manager.js:137-167 | a sunny shop ends with `sunnyAt` null and `shadesAt` set, no later than a real sunset, and either the sunset or the first shaded step |
| Coffee.ShadedShopPrediction | js/coffee-manager.js:137-185 | a shop whose `isSunny` is `false` or `null` ends with `shadesAt` null; a set `sunnyAt` lies in (now, now + 480 min], no later than a real sunset, and is the earliest qualifying 15-minute step; none is set iff no step qualifies |
| Coffee.CoffeeManager.constructor | js/coffee-manager.js:4-9 | no shops and no user location |
| Coffee.CoffeeManager.SetUserLocation | js/coffee-manager.js:11-15 | the location is set and every shop's distance is recomputed from it, nothing else changing |
| Coffee.CoffeeManager.UpdateDistances | js/coffee-manager.js:28-33 | nothing changes while the location is unknown; otherwise only each shop's distance changes, to its distance from the user |
| Coffee.CoffeeManager.GetShopById | js/coffee-manager.js:102-104 | none iff no shop has the id, otherwise the first shop that has it |
| Coffee.CoffeeManager.UpdateSunStatus | js/coffee-manager.js:106-109 | only `isSunny` of the first shop with the id changes; with no match nothing changes |
| Coffee.CoffeeManager.GetSunnyShops | js/coffee-manager.js:111-113 | an order-preserving sublist holding exactly the shops whose `isSunny` is `true` |
| Coffee.CoffeeManager.GetShadedShops | js/coffee-manager.js:115-117 | an order-preserving sublist holding exactly the shops whose `isSunny` is `false`, so `null` shops are in neither list |
| Coffee.CoffeeManager.GetShopsSorted | js/coffee-manager.js:119-126 | a permutation of the shops, leaving them untouched; unless `null` and `false` are mixed, sunny first, then nearest within each sun state |
| Coffee.CoffeeManager.PredictSunnyTimes | js/coffee-manager.js:128-188 | each shop becomes its prediction by the branch its `isSunny` selects; shop order, the other fields and the user location are unchanged |

## Left out

- `fetchCoffeeShops` (js/coffee-manager.js:35-88) is an Overpass network request with async/await. It is not modelled. Neither is its mapping from elements to shop records: shops enter the model already built.
- `calculateDistance` (js/coffee-manager.js:17-26) is a floating-point haversine distance. It is the parameter `Distance`.
- `createBuilding` (js/shadow-engine.js:12-36) builds Three.js geometry. A mesh is modelled as its footprint and height. Scene add/remove, `dispose` and the raycaster's intersection math are left out; intersection is the oracle `hits`.
- `getCoffeeShops` (js/coffee-manager.js:98-100) returns the field itself. It is the field `coffeeShops`.
- `console.log` calls are not modelled.
- js/scene.js, js/map-manager.js and js/sun-manager.js are not part of this model. SunCalc's positions and sunset, `sunPositionToVector` and the scene's sun test appear only as the fields of `Sky`.
- Shops are values, so aliasing between the registry and shop objects held elsewhere is not modelled.
- `userLat` and `userLon` are one optional point. The source always sets them together.
- `Coffee.SortShops`: JavaScript's `sort` is modelled as a stable insertion sort. The comparator is consistent whenever `null` and `false` do not both occur. That includes all-`null` lists, such as the state right after a fetch, which sort by distance. When both occur the comparator is inconsistent (`Coffee.CompareInconsistentWhenUnknown`), and the engine's order is unspecified. Only then does `Coffee.CoffeeManager.GetShopsSorted` promise just a permutation.
- `OsmParser.LatLonToMeters` works over reals: `Math.PI` is the double's decimal value and `cos(lat0)` is supplied. Floating-point rounding is not modelled.
- `SunPrediction.ShadesAt`: step times are exact integers `now + mins·60000`. Date arithmetic beyond the safe-integer range is not modelled.
- `JsValues.Triple`: a finite product is the exact real `3 * levels`, not rounded to the nearest double. Overflow to an infinity at the round-to-nearest threshold 2^1024 - 2^970 is modelled.
- `OsmParser.HeightPrecedence`: the levels height is the exact real `3 * levels`, without double rounding (as in `JsValues.Triple`).
- `SunPrediction.Sky`: the predictor passes the normalised sun vector to `sceneManager.checkSunAtPosition`. Which object the caller passes as `sceneManager` is not among the files modelled. If it is the shadow engine, the ray runs along that vector. If it is the scene in js/scene.js, that method takes a sun position and aims the ray at the vector minus `(x, 1, z)`. The model takes the answer as the oracle `sunlit` either way.
- `OsmParser.GetBuildingHeight` takes `parseFloat` as an abstract function. OSM's parsing of strings like "12 m" is not modelled.
- `OsmParser.Parse`: the element fields `el.lat`/`el.lon` are taken as numbers on every node. Missing coordinates (`undefined`) are not modelled.
