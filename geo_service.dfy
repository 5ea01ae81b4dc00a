/** The geoService factory: the memo table of feature files, the cache of
    plotted map points, the self-location marker, the guards of plotting a
    point, and the San Francisco bounds check on the browser's location.
    Drawing on the SVG is reduced to the decision of what would be drawn
    (a Plot); the projection itself is not modelled. */
module Geo {
  import opened Wrappers
  import opened Seqs

  /** A JavaScript number after coercion, as `isNaN` sees it. The feed's
      coordinates arrive as strings; a string that is not numeric is NaN. */
  datatype Num = NaN | Real(value: real)

  /** A position in the order the code passes it around: `[lng, lat]`. */
  datatype LngLat = LngLat(lng: Num, lat: Num)

  /** The `Point` record: latitude, longitude and a type, which is the cache key. */
  datatype Point = Point(lat: Num, lng: Num, kind: string)

  /** A feature file as the server returns it; `Null` stands for any falsy value. */
  datatype GeoJson = Null | Doc(features: seq<string>)

  /** One browser location fix. */
  datatype Fix = Fix(lat: real, lng: real)

  /** What the location callback receives: a fix, or the error. */
  datatype LocResult = Located(fix: Fix) | Failed(message: string)

  /** An image that `plotMapPoint` appends: icon file, element id, the index of
      the `g` group it goes into, its position, and the position it is
      animated from when the point was already in the cache. */
  datatype Plot = Plot(icon: string, id: string, group: nat, at: LngLat, from: Option<LngLat>)

  /** The key and type of the self-location marker. */
  const ClocKey := "_ico_cloc"
  const BusIcon := "assets/icons/_ico_bus.png"
  const ClocIcon := "assets/icons/_ico_cloc.png"
  const LocationError := "Failed to serve location"

  /** The decision `plotMapPoint` takes: nothing is drawn when a coordinate
      is NaN or the SVG holds no `g` group; otherwise one image goes into the
      last group, with the self-location icon exactly for the `_ico_cloc` key. */
  function PlotMapPoint(point: LngLat, groups: nat, idx: string, oldMapPoint: Option<LngLat>): (r: Option<Plot>)
    ensures r.None? <==> point.lng.NaN? || point.lat.NaN? || groups == 0
    ensures r.Some? ==> r.value.id == idx && r.value.at == point && r.value.from == oldMapPoint
    ensures r.Some? ==> r.value.group + 1 == groups
    ensures r.Some? ==> (r.value.icon == ClocIcon <==> idx == ClocKey)
    ensures r.Some? ==> (r.value.icon == BusIcon <==> idx != ClocKey)
  {
    if point.lng.NaN? || point.lat.NaN? then None
    else if groups == 0 then None
    else
      var fill := if idx == ClocKey then ClocIcon else BusIcon;
      Some(Plot(fill, idx, groups - 1, point, oldMapPoint))
  }

  /** The bounds test in `location`. The longitude clause asks for a value
      below 121.5 and above 123.5 at once, so only the latitude decides. */
  predicate InBounds(lat: real, lng: real): (ok: bool)
    ensures ok <==> 36.5 <= lat <= 38.5
  {
    !(lat < 36.5 || lat > 38.5 || (lng < 121.5 && lng > 123.5))
  }

  /** What the json callback receives is a truthy document: either the
      cache holds one under the name, or the fetch returns one. */
  predicate Serves(cache: map<string, GeoJson>, name: string, response: Option<GeoJson>)
  {
    if name in cache && cache[name].Doc? then true
    else response.Some? && response.value.Doc?
  }

  /** A document cached under a name is never replaced or dropped. */
  ghost predicate KeepsDocs(before: map<string, GeoJson>, after: map<string, GeoJson>) {
    forall k :: k in before && before[k].Doc? ==> k in after && after[k] == before[k]
  }

  /** The memo table after `json(name, …)` when the fetch, if one is made,
      answers `response`: only the entry for the name can change, a cached
      document stays, and once the callback has received a document the name
      is cached with a document, so the next call makes no fetch. */
  function Memoised(cache: map<string, GeoJson>, name: string, response: Option<GeoJson>): (r: map<string, GeoJson>)
    ensures KeepsDocs(cache, r)
    ensures forall k :: k != name ==> (k in r <==> k in cache)
    ensures forall k :: k != name && k in r ==> r[k] == cache[k]
    ensures Serves(cache, name, response) ==> name in r && r[name].Doc?
  {
    if name in cache && cache[name].Doc? then cache
    else if response.Some? then cache[name := response.value]
    else cache
  }

  /** Whatever the second fetch would answer, a name served once is served
      again from the cache, with the same document. */
  lemma ServedTwice(cache: map<string, GeoJson>, name: string, first: Option<GeoJson>, second: Option<GeoJson>)
    requires Serves(cache, name, first)
    ensures Serves(Memoised(cache, name, first), name, second)
    ensures Memoised(Memoised(cache, name, first), name, second) == Memoised(cache, name, first)
  {
  }

  /** The position `putMapPoint` hands on for the key: the cached one, if
      any, turned from the Point's (lat, lng) into `[lng, lat]`. */
  function Previous(m: map<string, Point>, idx: string): (r: Option<LngLat>)
    ensures r.Some? <==> idx in m
    ensures r.Some? ==> r.value.lng == m[idx].lng && r.value.lat == m[idx].lat
  {
    if idx in m then Some(LngLat(m[idx].lng, m[idx].lat)) else None
  }

  /** Every cached point's type is its own key: `putMapPoint` stores
      `Point(lat, lng, idx)` under `idx`, and the cache is otherwise only reset. */
  ghost predicate KindsMatchKeys(m: map<string, Point>) {
    forall k :: k in m ==> m[k].kind == k
  }

  /** The image `restoreMapPoints` draws again for the cached key k: the
      point is put back at its own position, and since the key is present
      the old position handed on is that same position. */
  function Restored(m: map<string, Point>, k: string, groups: nat): (r: Option<Plot>)
    requires k in m
    ensures r.None? <==> m[k].lat.NaN? || m[k].lng.NaN? || groups == 0
    ensures r.Some? ==> r.value.id == k && r.value.at == LngLat(m[k].lng, m[k].lat)
    ensures r.Some? ==> r.value.from == Some(r.value.at)
  {
    var p := LngLat(m[k].lng, m[k].lat);
    PlotMapPoint(p, groups, k, Some(p))
  }

  class GeoService {
    var jsonCache: map<string, GeoJson>
    var mapPoints: map<string, Point>
    var meMapPoint: Option<Point>
    var curLoc: Option<Fix>

    ghost predicate Valid()
      reads this
    {
      KindsMatchKeys(mapPoints)
    }

    constructor ()
      ensures Valid()
      ensures jsonCache == map[] && mapPoints == map[] && meMapPoint.None? && curLoc.None?
    {
      jsonCache := map[];
      mapPoints := map[];
      meMapPoint := None;
      curLoc := None;
    }

    /** `json(jsonName, callback)`: a truthy cached value is handed over
        without a fetch; otherwise the file is fetched (`response`, None
        when the request fails) and a successful result is cached under the
        name before it is handed over. `delivered` is what the callback gets. */
    method Json(name: string, response: Option<GeoJson>) returns (delivered: Option<GeoJson>, fetched: bool)
      modifies this`jsonCache
      ensures fetched <==> !(name in old(jsonCache) && old(jsonCache)[name].Doc?)
      ensures !fetched ==> delivered == Some(old(jsonCache)[name]) && jsonCache == old(jsonCache)
      ensures fetched ==> delivered == response
      ensures jsonCache == Memoised(old(jsonCache), name, response)
      ensures (delivered.Some? && delivered.value.Doc?) == Serves(old(jsonCache), name, response)
    {
      if name in jsonCache && jsonCache[name].Doc? {
        return Some(jsonCache[name]), false;
      }
      fetched := true;
      delivered := None;
      if response.Some? {
        jsonCache := jsonCache[name := response.value];
        delivered := response;
      }
    }

    /** `setMeMapPoint`: remembers the user's position with the
        self-location type and draws it; the point cache is not touched. */
    method SetMeMapPoint(point: LngLat, groups: nat) returns (plot: Option<Plot>)
      modifies this`meMapPoint
      ensures meMapPoint == Some(Point(point.lat, point.lng, ClocKey))
      ensures plot == PlotMapPoint(point, groups, ClocKey, None)
    {
      meMapPoint := Some(Point(point.lat, point.lng, ClocKey));
      plot := PlotMapPoint(point, groups, ClocKey, None);
    }

    /** `putMapPoint(point, svg, projection, idx)`: overwrites the one key and
        hands the previous position on when, and only when, the key was there. */
    method PutMapPoint(point: LngLat, groups: nat, idx: string) returns (oldMapPoint: Option<LngLat>, plot: Option<Plot>)
      requires Valid()
      modifies this`mapPoints
      ensures Valid()
      ensures mapPoints == old(mapPoints)[idx := Point(point.lat, point.lng, idx)]
      ensures oldMapPoint == Previous(old(mapPoints), idx)
      ensures oldMapPoint.Some? <==> idx in old(mapPoints)
      ensures plot == PlotMapPoint(point, groups, idx, oldMapPoint)
    {
      oldMapPoint := None;
      if idx in mapPoints {
        var mapPoint := mapPoints[idx];
        oldMapPoint := Some(LngLat(mapPoint.lng, mapPoint.lat));
      }
      mapPoints := mapPoints[idx := Point(point.lat, point.lng, idx)];
      plot := PlotMapPoint(point, groups, idx, oldMapPoint);
    }

    /** `restoreMapPoints`: every cached point is put again at its own
        position, then the self-location marker is drawn; the cache is left
        as it was. `order` is the order in which the keys are visited, which
        the model leaves open: each key exactly once. */
    method RestoreMapPoints(groups: nat) returns (order: seq<string>, plots: seq<Option<Plot>>)
      requires Valid()
      modifies this`mapPoints
      ensures Valid()
      ensures mapPoints == old(mapPoints)
      ensures NoDup(order) && |order| == |mapPoints|
      ensures forall k :: k in mapPoints <==> k in order
      ensures |plots| == |order| + (if meMapPoint.Some? then 1 else 0)
      ensures forall i :: 0 <= i < |order| ==> order[i] in mapPoints && plots[i] == Restored(mapPoints, order[i], groups)
      ensures meMapPoint.Some? ==>
        plots[|plots| - 1] == PlotMapPoint(LngLat(meMapPoint.value.lng, meMapPoint.value.lat), groups, meMapPoint.value.kind, None)
    {
      order, plots := RestoreKeys(groups);
      if meMapPoint.Some? {
        var point := LngLat(meMapPoint.value.lng, meMapPoint.value.lat);
        plots := plots + [PlotMapPoint(point, groups, meMapPoint.value.kind, None)];
      }
    }

    /** The loop of `restoreMapPoints` over the cached keys. */
    method RestoreKeys(groups: nat) returns (order: seq<string>, plots: seq<Option<Plot>>)
      requires Valid()
      modifies this`mapPoints
      ensures mapPoints == old(mapPoints)
      ensures NoDup(order) && |order| == |mapPoints| && |plots| == |order|
      ensures forall k :: k in mapPoints <==> k in order
      ensures forall i :: 0 <= i < |order| ==> order[i] in mapPoints && plots[i] == Restored(mapPoints, order[i], groups)
    {
      ghost var m := mapPoints;
      var todo := mapPoints.Keys;
      ghost var done: set<string> := {};
      order, plots := [], [];
      while todo != {}
        invariant mapPoints == m
        invariant todo <= m.Keys && done == m.Keys - todo
        invariant NoDup(order) && |plots| == |order|
        invariant forall k :: k in done <==> k in order
        invariant forall i :: 0 <= i < |order| ==> order[i] in m && plots[i] == Restored(m, order[i], groups)
        decreases |todo|
      {
        var key :| key in todo;
        var val := mapPoints[key];
        var _, plot := PutMapPoint(LngLat(val.lng, val.lat), groups, key);
        assert mapPoints == m;
        assert key !in order;
        AppendNoDup(order, key);
        order, plots := order + [key], plots + [plot];
        todo := todo - {key};
        done := done + {key};
      }
      assert done == m.Keys;
      NoDupCard(order, m.Keys);
    }

    /** `location(callback)`: with geolocation available and a callback, a
        delivered fix inside the bounds is kept as `curLoc` and handed over,
        one outside is answered with the error; without geolocation the
        callback gets the error. `fix` is None when the browser never calls
        back; the result is None when no callback is called. */
    method Location(hasGeolocation: bool, hasCallback: bool, fix: Option<Fix>) returns (r: Option<LocResult>)
      modifies this`curLoc
      ensures hasGeolocation && hasCallback && fix.Some? && InBounds(fix.value.lat, fix.value.lng) ==>
        r == Some(Located(fix.value)) && curLoc == fix
      ensures hasGeolocation && hasCallback && fix.Some? && !InBounds(fix.value.lat, fix.value.lng) ==>
        r == Some(Failed(LocationError)) && curLoc == old(curLoc)
      ensures hasGeolocation && hasCallback && fix.None? ==> r.None? && curLoc == old(curLoc)
      ensures !(hasGeolocation && hasCallback) ==>
        r == (if hasCallback then Some(Failed(LocationError)) else None) && curLoc == old(curLoc)
    {
      if hasGeolocation && hasCallback {
        r := None;
        if fix.Some? {
          if !InBounds(fix.value.lat, fix.value.lng) {
            r := Some(Failed(LocationError));
          } else {
            curLoc := fix;
            r := Some(Located(fix.value));
          }
        }
      } else {
        r := if hasCallback then Some(Failed(LocationError)) else None;
      }
    }
  }
}
