/** The d3Map directive: the `g` groups ("layers") of the map's SVG and the
    zoom-threshold policy `reRender` applies to them, the initial rendering
    chain of `link`, and `plotLocation`, which turns a vehicleLocations
    response into map points. The SVG is reduced to its sequence of layers,
    in the order they were appended; projection, paths and transitions are
    not modelled. Feature files are fetched through the geo service's memo
    table; `feed(name)` is what fetching `sfmaps/<name>.json` would answer
    (None when the request fails), and every callback completes at once. */
module MapDirective {
  import opened Wrappers
  import opened Seqs
  import Geo
  import NextBus

  /** A feature layer; its element id is also the name of its feature file. */
  datatype Layer = Neighborhoods | Streets | Freeways | Arteries

  function LayerName(l: Layer): string
  {
    match l
    case Neighborhoods => "neighborhoods"
    case Streets => "streets"
    case Freeways => "freeways"
    case Arteries => "arteries"
  }

  /** The four zoom ranges `reRender` tests, one `if` each. */
  predicate CoarseBand(zoom: real) { zoom <= 400000.0 }
  predicate FreewayBand(zoom: real) { 400000.0 < zoom <= 800000.0 }
  predicate ArteryBand(zoom: real) { 800000.0 < zoom <= 2200000.0 }
  predicate StreetBand(zoom: real) { zoom > 2200000.0 }

  /** Exactly one of the four `if`s of `reRender` applies to any zoom value. */
  lemma ExactlyOneBand(zoom: real)
    ensures CoarseBand(zoom) || FreewayBand(zoom) || ArteryBand(zoom) || StreetBand(zoom)
    ensures CoarseBand(zoom) ==> !FreewayBand(zoom) && !ArteryBand(zoom) && !StreetBand(zoom)
    ensures FreewayBand(zoom) ==> !ArteryBand(zoom) && !StreetBand(zoom)
    ensures ArteryBand(zoom) ==> !StreetBand(zoom)
  {
  }

  /** Whether rendering the layer reaches its continuation: `render` stops
      unless the json callback receives a document. */
  predicate Served(cache: map<string, Geo.GeoJson>, feed: string -> Option<Geo.GeoJson>, l: Layer)
  {
    Geo.Serves(cache, LayerName(l), feed(LayerName(l)))
  }

  /** The layers `reRender(zoom)` leaves, given the layers before and the
      memo table of feature files at the call. It never adds a neighborhoods
      layer, and a streets layer survives only above 2200000. */
  function Policy(layers: seq<Layer>, zoom: real, cache: map<string, Geo.GeoJson>,
                  feed: string -> Option<Geo.GeoJson>): (r: seq<Layer>)
    ensures forall i :: 0 <= i < |r| ==> r[i] in layers || r[i] != Neighborhoods
    ensures Streets in r ==> StreetBand(zoom)
  {
    if CoarseBand(zoom) then Except(layers, {Streets, Arteries, Freeways})
    else if FreewayBand(zoom) then
      var kept := Except(layers, {Streets, Arteries});
      if Freeways in kept then kept else kept + [Freeways]
    else if ArteryBand(zoom) then
      var kept := Except(layers, {Streets});
      if Arteries in kept then kept else kept + [Arteries]
    else if Streets in layers then layers
    else Except(layers, {Arteries, Freeways}) + Chain(cache, feed, [Streets, Freeways, Arteries])
  }

  /** The layers a chain of nested `render` calls appends: each layer of
      `order` in turn, the next one only once the feature file of the one
      before has been received. What is appended is a non-empty prefix of
      the order. */
  function Chain(cache: map<string, Geo.GeoJson>, feed: string -> Option<Geo.GeoJson>, order: seq<Layer>): (r: seq<Layer>)
    ensures r <= order
    ensures order != [] ==> |r| >= 1
    ensures |r| == |order| <==> forall i :: 0 <= i < |order| - 1 ==> Served(cache, feed, order[i])
  {
    if order == [] then []
    else [order[0]] + (if Served(cache, feed, order[0]) then Chain(cache, feed, order[1..]) else [])
  }

  /** The layers `reRender(zoom)` keeps: the old ones after its removals. */
  function Kept(layers: seq<Layer>, zoom: real): seq<Layer>
  {
    if CoarseBand(zoom) then Except(layers, {Streets, Arteries, Freeways})
    else if FreewayBand(zoom) then Except(layers, {Streets, Arteries})
    else if ArteryBand(zoom) then Except(layers, {Streets})
    else if Streets in layers then layers
    else Except(layers, {Arteries, Freeways})
  }

  /** The layers `reRender(zoom)` renders, in order: what `Policy` appends
      after the kept ones. */
  function Added(layers: seq<Layer>, zoom: real, cache: map<string, Geo.GeoJson>,
                 feed: string -> Option<Geo.GeoJson>): (added: seq<Layer>)
    ensures Policy(layers, zoom, cache, feed) == Kept(layers, zoom) + added
  {
    if CoarseBand(zoom) then []
    else if FreewayBand(zoom) then (if Freeways in Kept(layers, zoom) then [] else [Freeways])
    else if ArteryBand(zoom) then (if Arteries in Kept(layers, zoom) then [] else [Arteries])
    else if Streets in layers then []
    else Chain(cache, feed, [Streets, Freeways, Arteries])
  }

  /** The memo table after `json` was called, in order, for the feature file
      of each rendered layer. */
  function Fetched(cache: map<string, Geo.GeoJson>, feed: string -> Option<Geo.GeoJson>, rendered: seq<Layer>): map<string, Geo.GeoJson>
  {
    if rendered == [] then cache
    else
      var last := rendered[|rendered| - 1];
      Geo.Memoised(Fetched(cache, feed, rendered[..|rendered| - 1]), LayerName(last), feed(LayerName(last)))
  }

  /** What rendering does to the memo table: documents stay, the entries of
      layers not rendered (and of any other name) are left as they were, and
      every rendered layer whose file was served is cached as a document. */
  lemma FetchedMemoises(cache: map<string, Geo.GeoJson>, feed: string -> Option<Geo.GeoJson>, rendered: seq<Layer>)
    ensures var r := Fetched(cache, feed, rendered);
      && Geo.KeepsDocs(cache, r)
      && (forall l :: l !in rendered ==> (LayerName(l) in r <==> LayerName(l) in cache))
      && (forall l :: l !in rendered && LayerName(l) in r ==> r[LayerName(l)] == cache[LayerName(l)])
      && (forall k :: k !in Names ==> (k in r <==> k in cache) && (k in r ==> r[k] == cache[k]))
      && (forall i :: 0 <= i < |rendered| && Served(cache, feed, rendered[i]) ==>
            LayerName(rendered[i]) in r && r[LayerName(rendered[i])].Doc?)
  {
    FetchedKeepsDocs(cache, feed, rendered);
    FetchedLeavesOthers(cache, feed, rendered);
    FetchedCachesServed(cache, feed, rendered);
  }

  lemma {:induction false} FetchedKeepsDocs(cache: map<string, Geo.GeoJson>, feed: string -> Option<Geo.GeoJson>, rendered: seq<Layer>)
    ensures Geo.KeepsDocs(cache, Fetched(cache, feed, rendered))
  {
    if rendered != [] {
      FetchedKeepsDocs(cache, feed, rendered[..|rendered| - 1]);
    }
  }

  lemma {:induction false} FetchedLeavesOthers(cache: map<string, Geo.GeoJson>, feed: string -> Option<Geo.GeoJson>, rendered: seq<Layer>)
    ensures var r := Fetched(cache, feed, rendered);
      && (forall l :: l !in rendered ==> (LayerName(l) in r <==> LayerName(l) in cache))
      && (forall l :: l !in rendered && LayerName(l) in r ==> r[LayerName(l)] == cache[LayerName(l)])
      && (forall k :: k !in Names ==> (k in r <==> k in cache) && (k in r ==> r[k] == cache[k]))
  {
    if rendered != [] {
      var init, last := rendered[..|rendered| - 1], rendered[|rendered| - 1];
      FetchedLeavesOthers(cache, feed, init);
      assert forall l :: l in rendered && l != last ==> l in init;
      LayerNames(last);
    }
  }

  lemma {:induction false} FetchedCachesServed(cache: map<string, Geo.GeoJson>, feed: string -> Option<Geo.GeoJson>, rendered: seq<Layer>)
    ensures var r := Fetched(cache, feed, rendered);
      forall i :: 0 <= i < |rendered| && Served(cache, feed, rendered[i]) ==>
        LayerName(rendered[i]) in r && r[LayerName(rendered[i])].Doc?
  {
    if rendered != [] {
      var init, last := rendered[..|rendered| - 1], rendered[|rendered| - 1];
      FetchedCachesServed(cache, feed, init);
      FetchedKeepsDocs(cache, feed, init);
      assert forall i :: 0 <= i < |init| ==> rendered[i] == init[i];
    }
  }

  /** The names of the feature files. */
  const Names := {"neighborhoods", "streets", "freeways", "arteries"}

  lemma LayerNames(l: Layer)
    ensures LayerName(l) in Names
    ensures forall m :: LayerName(m) == LayerName(l) ==> m == l
  {
  }

  /** Rendering one more layer memoises its file on top of the earlier ones. */
  lemma FetchedSnoc(cache: map<string, Geo.GeoJson>, feed: string -> Option<Geo.GeoJson>, rendered: seq<Layer>, l: Layer)
    ensures Fetched(cache, feed, rendered + [l]) ==
      Geo.Memoised(Fetched(cache, feed, rendered), LayerName(l), feed(LayerName(l)))
  {
    assert (rendered + [l])[..|rendered|] == rendered;
  }

  /** The chain of the top zoom range written out. */
  lemma StreetsChainUnfold(cache: map<string, Geo.GeoJson>, feed: string -> Option<Geo.GeoJson>)
    ensures Chain(cache, feed, [Streets, Freeways, Arteries]) ==
      [Streets] + (if Served(cache, feed, Streets)
                   then [Freeways] + (if Served(cache, feed, Freeways) then [Arteries] else [])
                   else [])
  {
    var order := [Streets, Freeways, Arteries];
    assert order[1..] == [Freeways, Arteries] && order[1..][1..] == [Arteries];
    assert Chain(cache, feed, [Arteries]) == [Arteries];
  }

  /** Up to 400000 the detailed layers go and nothing is added. */
  lemma PolicyCoarse(layers: seq<Layer>, zoom: real, cache: map<string, Geo.GeoJson>,
                     feed: string -> Option<Geo.GeoJson>)
    requires CoarseBand(zoom)
    ensures forall x :: x in Policy(layers, zoom, cache, feed) <==> x in layers && x == Neighborhoods
  {
    forall x ensures x in Policy(layers, zoom, cache, feed) <==> x in layers && x == Neighborhoods {
      ExceptMember(layers, {Streets, Arteries, Freeways}, x);
    }
  }

  /** Up to 800000 streets and arteries go and freeways are there afterwards. */
  lemma PolicyFreeways(layers: seq<Layer>, zoom: real, cache: map<string, Geo.GeoJson>,
                       feed: string -> Option<Geo.GeoJson>)
    requires FreewayBand(zoom)
    ensures forall x :: x in Policy(layers, zoom, cache, feed) <==> x == Freeways || (x in layers && x == Neighborhoods)
  {
    forall x ensures x in Policy(layers, zoom, cache, feed) <==> x == Freeways || (x in layers && x == Neighborhoods) {
      ExceptMember(layers, {Streets, Arteries}, x);
    }
  }

  /** Up to 2200000 streets go, arteries are there afterwards, and freeways
      are left as they were. */
  lemma PolicyArteries(layers: seq<Layer>, zoom: real, cache: map<string, Geo.GeoJson>,
                       feed: string -> Option<Geo.GeoJson>)
    requires ArteryBand(zoom)
    ensures forall x :: x in Policy(layers, zoom, cache, feed) <==> x == Arteries || (x in layers && x != Streets)
  {
    forall x ensures x in Policy(layers, zoom, cache, feed) <==> x == Arteries || (x in layers && x != Streets) {
      ExceptMember(layers, {Streets}, x);
    }
  }

  /** Above 2200000, present streets leave everything as it was; otherwise
      arteries and freeways go and streets, then freeways, then arteries are
      appended, each one only once the feature file of the one before has
      been received. */
  lemma PolicyStreets(layers: seq<Layer>, zoom: real, cache: map<string, Geo.GeoJson>,
                      feed: string -> Option<Geo.GeoJson>)
    requires StreetBand(zoom)
    ensures Streets in layers ==> Policy(layers, zoom, cache, feed) == layers
    ensures Streets !in layers ==>
      var r, kept := Policy(layers, zoom, cache, feed), Except(layers, {Arteries, Freeways});
      && r[..|kept|] == kept && |r| > |kept| && r[|kept|] == Streets
      && (Freeways in r <==> Served(cache, feed, Streets))
      && (Arteries in r <==> Served(cache, feed, Streets) && Served(cache, feed, Freeways))
      && (|r| > |kept| + 1 ==> r[|kept| + 1] == Freeways)
  {
    if Streets !in layers {
      var kept := Except(layers, {Arteries, Freeways});
      var order := [Streets, Freeways, Arteries];
      var tail := Chain(cache, feed, order);
      var r := Policy(layers, zoom, cache, feed);
      assert r == kept + tail;
      assert Freeways !in kept && Arteries !in kept;
      assert order[1..] == [Freeways, Arteries] && order[1..][1..] == [Arteries];
      assert Chain(cache, feed, [Arteries]) == [Arteries];
      assert Chain(cache, feed, [Freeways, Arteries]) ==
        [Freeways] + (if Served(cache, feed, Freeways) then [Arteries] else []);
    }
  }

  /** Membership in a filtered sequence, for one value. */
  lemma ExceptMember(s: seq<Layer>, drop: set<Layer>, x: Layer)
    ensures x in Except(s, drop) <==> x in s && x !in drop
  {
    if x in s && x !in drop {
      var i :| 0 <= i < |s| && s[i] == x;
      assert s[i] !in drop;
    }
    if x in Except(s, drop) {
      var r := Except(s, drop);
      var i :| 0 <= i < |r| && r[i] == x;
      assert r[i] in s && r[i] !in drop;
    }
  }

  /** The neighborhoods layer is never removed (nor added) by `reRender`. */
  lemma PolicyKeepsNeighborhoods(layers: seq<Layer>, zoom: real, cache: map<string, Geo.GeoJson>,
                                 feed: string -> Option<Geo.GeoJson>)
    ensures Neighborhoods in Policy(layers, zoom, cache, feed) <==> Neighborhoods in layers
  {
    if CoarseBand(zoom) {
      PolicyCoarse(layers, zoom, cache, feed);
    } else if FreewayBand(zoom) {
      PolicyFreeways(layers, zoom, cache, feed);
    } else if ArteryBand(zoom) {
      PolicyArteries(layers, zoom, cache, feed);
    } else if Streets !in layers {
      var kept, order := Except(layers, {Arteries, Freeways}), [Streets, Freeways, Arteries];
      var tail := Chain(cache, feed, order);
      ExceptMember(layers, {Arteries, Freeways}, Neighborhoods);
      assert tail == order[..|tail|];
      assert Neighborhoods !in tail;
    }
  }

  /** Distinct layers stay distinct: no layer id is appended twice. */
  lemma PolicyNoDup(layers: seq<Layer>, zoom: real, cache: map<string, Geo.GeoJson>,
                    feed: string -> Option<Geo.GeoJson>)
    requires NoDup(layers)
    ensures NoDup(Policy(layers, zoom, cache, feed))
  {
    if CoarseBand(zoom) {
      ExceptNoDup(layers, {Streets, Arteries, Freeways});
    } else if FreewayBand(zoom) {
      AddIfAbsentNoDup(layers, {Streets, Arteries}, Freeways);
    } else if ArteryBand(zoom) {
      AddIfAbsentNoDup(layers, {Streets}, Arteries);
    } else if Streets !in layers {
      var kept := Except(layers, {Arteries, Freeways});
      ExceptNoDup(layers, {Arteries, Freeways});
      ExceptMember(layers, {Arteries, Freeways}, Streets);
      var order := [Streets, Freeways, Arteries];
      var tail := Chain(cache, feed, order);
      assert tail == order[..|tail|];
      forall j | 0 <= j < |tail| ensures tail[j] !in kept {
        assert tail[j] == order[j];
      }
      AppendFreshNoDup(kept, tail);
    }
  }

  /** Filtering and then appending a layer only when it is absent keeps the
      layers distinct. */
  lemma AddIfAbsentNoDup(layers: seq<Layer>, drop: set<Layer>, l: Layer)
    requires NoDup(layers)
    ensures var kept := Except(layers, drop); NoDup(if l in kept then kept else kept + [l])
  {
    var kept := Except(layers, drop);
    ExceptNoDup(layers, drop);
    if l !in kept {
      AppendFreshNoDup(kept, [l]);
    }
  }

  /** Appending distinct layers none of which is present keeps the sequence
      free of duplicates. */
  lemma AppendFreshNoDup(kept: seq<Layer>, tail: seq<Layer>)
    requires NoDup(kept) && NoDup(tail)
    requires forall j :: 0 <= j < |tail| ==> tail[j] !in kept
    ensures NoDup(kept + tail)
  {
    var r := kept + tail;
    forall i, j | 0 <= i < j < |r| ensures r[i] != r[j] {
      if j >= |kept| {
        assert r[j] == tail[j - |kept|];
        if i < |kept| { assert r[i] in kept; } else { assert r[i] == tail[i - |kept|]; }
      }
    }
  }

  /** Re-rendering at the same zoom changes nothing more, whatever the memo
      table and the server answer the second time. */
  lemma PolicyIdempotent(layers: seq<Layer>, zoom: real, cache: map<string, Geo.GeoJson>,
                         feed: string -> Option<Geo.GeoJson>,
                         cache2: map<string, Geo.GeoJson>, feed2: string -> Option<Geo.GeoJson>)
    ensures Policy(Policy(layers, zoom, cache, feed), zoom, cache2, feed2) == Policy(layers, zoom, cache, feed)
  {
    var r := Policy(layers, zoom, cache, feed);
    if CoarseBand(zoom) {
      ExceptIdempotent(layers, {Streets, Arteries, Freeways});
    } else if FreewayBand(zoom) {
      PolicyFreeways(layers, zoom, cache, feed);
      forall i | 0 <= i < |r| ensures r[i] !in {Streets, Arteries} {
        assert r[i] in r;
      }
      ExceptNothing(r, {Streets, Arteries});
    } else if ArteryBand(zoom) {
      PolicyArteries(layers, zoom, cache, feed);
      forall i | 0 <= i < |r| ensures r[i] !in {Streets} {
        assert r[i] in r;
      }
      ExceptNothing(r, {Streets});
    } else if Streets !in layers {
      PolicyStreets(layers, zoom, cache, feed);
      assert Streets in r;
    }
  }

  /** Rendering one layer does not change whether another layer's file is served. */
  lemma ServedAfter(cache: map<string, Geo.GeoJson>, feed: string -> Option<Geo.GeoJson>, done: Layer, l: Layer)
    requires done != l
    ensures Served(Geo.Memoised(cache, LayerName(done), feed(LayerName(done))), feed, l) == Served(cache, feed, l)
  {
    assert LayerName(done) != LayerName(l);
  }

  /** The layers of the map after `link`'s rendering chain: neighborhoods,
      then streets, freeways and arteries, each appended only once the
      feature file of the one before has been received. */
  function InitialLayers(cache: map<string, Geo.GeoJson>, feed: string -> Option<Geo.GeoJson>): seq<Layer>
  {
    Chain(cache, feed, [Neighborhoods, Streets, Freeways, Arteries])
  }

  /** The chain of `link` written out. */
  lemma InitialLayersUnfold(cache: map<string, Geo.GeoJson>, feed: string -> Option<Geo.GeoJson>)
    ensures var fa := if Served(cache, feed, Freeways) then [Arteries] else [];
            var sfa := if Served(cache, feed, Streets) then [Freeways] + fa else [];
            InitialLayers(cache, feed) == [Neighborhoods] + (if Served(cache, feed, Neighborhoods) then [Streets] + sfa else [])
  {
    var order := [Neighborhoods, Streets, Freeways, Arteries];
    assert order[1..] == [Streets, Freeways, Arteries] && order[1..][1..] == [Freeways, Arteries];
    assert order[1..][1..][1..] == [Arteries];
    assert Chain(cache, feed, [Arteries]) == [Arteries];
    assert Chain(cache, feed, [Freeways, Arteries]) ==
      [Freeways] + (if Served(cache, feed, Freeways) then [Arteries] else []);
    assert Chain(cache, feed, [Streets, Freeways, Arteries]) ==
      [Streets] + (if Served(cache, feed, Streets) then Chain(cache, feed, [Freeways, Arteries]) else []);
  }

  /** The initial layers are distinct. */
  lemma InitialLayersNoDup(cache: map<string, Geo.GeoJson>, feed: string -> Option<Geo.GeoJson>)
    ensures NoDup(InitialLayers(cache, feed))
  {
    var order := [Neighborhoods, Streets, Freeways, Arteries];
    var r := InitialLayers(cache, feed);
    assert r == order[..|r|];
  }

  /** The cache key of a vehicle's map point. It starts with `_vehicle_`
      and so is never the self-location key: vehicles always get the bus icon. */
  function VehicleKey(v: NextBus.Vehicle): (key: string)
    ensures |key| > 9 && key[..9] == "_vehicle_"
    ensures key != Geo.ClocKey
  {
    var key := "_vehicle_" + v.id + "_" + v.routeTag;
    assert key[1] == 'v' && Geo.ClocKey[1] == 'i';
    key
  }

  /** The key spells the id right after its prefix, followed by an underscore. */
  lemma KeyAt(v: NextBus.Vehicle, i: int)
    ensures 0 <= i < |v.id| ==> VehicleKey(v)[9 + i] == v.id[i]
    ensures i == |v.id| ==> VehicleKey(v)[9 + i] == '_'
  {
  }

  /** Two vehicles whose ids contain no underscore share a key exactly when
      they have the same id and the same route tag. */
  lemma VehicleKeyInjective(v: NextBus.Vehicle, w: NextBus.Vehicle)
    requires '_' !in v.id && '_' !in w.id
    ensures VehicleKey(v) == VehicleKey(w) <==> v.id == w.id && v.routeTag == w.routeTag
  {
    if VehicleKey(v) == VehicleKey(w) {
      var kv, kw := VehicleKey(v), VehicleKey(w);
      var p := "_vehicle_";
      assert |v.id| == |w.id| by {
        if |v.id| < |w.id| {
          KeyAt(v, |v.id|);
          KeyAt(w, |v.id|);
          assert false;
        } else if |w.id| < |v.id| {
          KeyAt(v, |w.id|);
          KeyAt(w, |w.id|);
          assert false;
        }
      }
      assert v.id == kv[|p|..|p| + |v.id|] == kw[|p|..|p| + |w.id|] == w.id;
      assert v.routeTag == kv[|p| + |v.id| + 1..] == kw[|p| + |w.id| + 1..] == w.routeTag;
    }
  }

  /** The direction flag of `plotLocation`: 'I' exactly when the direction
      tag is present, contains an 'I', and none of its first three characters
      is an 'I'. */
  function Direction(v: NextBus.Vehicle): (dir: Option<char>)
    ensures dir.Some? ==> dir.value == 'I'
    ensures dir.Some? <==>
      && v.dirTag.Some? && 'I' in v.dirTag.value
      && forall j :: 0 <= j < |v.dirTag.value| && j <= 2 ==> v.dirTag.value[j] != 'I'
  {
    if v.dirTag.Some? && IndexOf(v.dirTag.value, 'I') > 2 then Some('I') else None
  }

  /** The vehicles `angular.forEach` visits in a response body: none when
      the field is absent, a list element by element. A single object is
      only visited after `plotLocation` has wrapped it. */
  function Visited(data: NextBus.Body): (vs: seq<NextBus.Vehicle>)
    ensures data.vehicle.NoVehicle? ==> vs == []
    ensures data.vehicle.VehicleList? ==> vs == data.vehicle.vehicles
    ensures data.vehicle.OneVehicle? ==> vs == [data.vehicle.vehicle]
  {
    match data.vehicle
    case NoVehicle => []
    case OneVehicle(v) => [v]
    case VehicleList(vs) => vs
  }

  /** The body after `plotLocation`'s first step: a single vehicle object is
      wrapped in a one-element list; anything else is left as it is. */
  function Normalised(data: NextBus.Body): (r: NextBus.Body)
    ensures !r.vehicle.OneVehicle?
    ensures Visited(r) == Visited(data)
    ensures !data.vehicle.OneVehicle? ==> r == data
  {
    match data.vehicle
    case OneVehicle(v) => NextBus.Body(NextBus.VehicleList([v]))
    case _ => data
  }

  /** The map point stored for a vehicle. */
  function PointOf(v: NextBus.Vehicle): Geo.Point
  {
    Geo.Point(v.lat, v.lon, VehicleKey(v))
  }

  /** The point cache after putting the vehicles in order: its keys are the
      old keys and the vehicles' keys. */
  function PutVehicles(m: map<string, Geo.Point>, vs: seq<NextBus.Vehicle>): (r: map<string, Geo.Point>)
    ensures forall k :: k in r <==> k in m || exists j :: 0 <= j < |vs| && VehicleKey(vs[j]) == k
  {
    if vs == [] then m
    else PutVehicles(m, vs[..|vs| - 1])[VehicleKey(vs[|vs| - 1]) := PointOf(vs[|vs| - 1])]
  }

  /** A vehicle's key holds the point of the last vehicle with that key. */
  lemma {:induction false} PutVehiclesLast(m: map<string, Geo.Point>, vs: seq<NextBus.Vehicle>, i: nat)
    requires i < |vs|
    requires forall j :: i < j < |vs| ==> VehicleKey(vs[j]) != VehicleKey(vs[i])
    ensures VehicleKey(vs[i]) in PutVehicles(m, vs)
    ensures PutVehicles(m, vs)[VehicleKey(vs[i])] == PointOf(vs[i])
  {
    if i < |vs| - 1 {
      PutVehiclesLast(m, vs[..|vs| - 1], i);
    }
  }

  /** Keys no vehicle has are left as they were. */
  lemma {:induction false} PutVehiclesElsewhere(m: map<string, Geo.Point>, vs: seq<NextBus.Vehicle>, k: string)
    requires forall j :: 0 <= j < |vs| ==> VehicleKey(vs[j]) != k
    ensures k in PutVehicles(m, vs) <==> k in m
    ensures k in m ==> PutVehicles(m, vs)[k] == m[k]
  {
    if vs != [] {
      PutVehiclesElsewhere(m, vs[..|vs| - 1], k);
    }
  }

  /** Putting vehicles keeps every cached point's type equal to its key. */
  lemma {:induction false} PutVehiclesKinds(m: map<string, Geo.Point>, vs: seq<NextBus.Vehicle>)
    requires Geo.KindsMatchKeys(m)
    ensures Geo.KindsMatchKeys(PutVehicles(m, vs))
  {
    if vs != [] {
      PutVehiclesKinds(m, vs[..|vs| - 1]);
    }
  }

  /** The image plotted for the i-th vehicle, given the cache it found. */
  function VehiclePlot(m: map<string, Geo.Point>, vs: seq<NextBus.Vehicle>, i: nat, groups: nat): Option<Geo.Plot>
    requires i < |vs|
  {
    var key := VehicleKey(vs[i]);
    Geo.PlotMapPoint(Geo.LngLat(vs[i].lon, vs[i].lat), groups, key, Geo.Previous(PutVehicles(m, vs[..i]), key))
  }

  /** The name under which the directive registers as observer of new vehicle locations. */
  const PlotLocationCallback := NextBus.Callback("plotLocation")
  /** The name under which the directive registers as refresher. */
  const RefreshSvgCallback := NextBus.Callback("refreshSvg")

  /** The initial map centre, as the marker receives it (`[lng, lat]`). */
  const InitialLoc := Geo.LngLat(Geo.Real(-122.4367), Geo.Real(37.7603))

  class D3Map {
    const geo: Geo.GeoService
    /** The `g` groups of the map's SVG, in the order they were appended. */
    var layers: seq<Layer>
    /** `scope.loc` as the self-location marker receives it:
        `[-1 * scope.loc.lng, scope.loc.lat]`. */
    var loc: Geo.LngLat

    /** No layer id occurs twice, and the point cache is consistent. */
    ghost predicate Valid()
      reads this, geo
    {
      NoDup(layers) && geo.Valid()
    }

    /** The directive before `link`: no layer yet, the map centred on San Francisco. */
    constructor (geo: Geo.GeoService)
      requires geo.Valid()
      ensures Valid()
      ensures this.geo == geo && layers == [] && loc == InitialLoc
    {
      this.geo := geo;
      layers := [];
      loc := InitialLoc;
    }

    /** `svg.selectAll([...ids]).remove()`: the named ids go, the others stay in order. */
    method RemoveLayers(drop: set<Layer>)
      modifies this`layers
      ensures layers == Except(old(layers), drop)
      ensures forall l :: l in layers <==> l in old(layers) && l !in drop
      ensures NoDup(old(layers)) ==> NoDup(layers)
    {
      forall l ensures l in Except(layers, drop) <==> l in layers && l !in drop {
        ExceptMember(layers, drop, l);
      }
      if NoDup(layers) {
        ExceptNoDup(layers, drop);
      }
      layers := Except(layers, drop);
    }

    /** `render(name, svg, …, next)`: the group is appended at once; whether
        the continuation runs depends on the feature file being received. */
    method Render(layer: Layer, feed: string -> Option<Geo.GeoJson>) returns (served: bool)
      modifies this`layers, geo`jsonCache
      ensures layers == old(layers) + [layer]
      ensures geo.jsonCache == Geo.Memoised(old(geo.jsonCache), LayerName(layer), feed(LayerName(layer)))
      ensures served == Served(old(geo.jsonCache), feed, layer)
      ensures forall l :: l != layer ==> Served(geo.jsonCache, feed, l) == Served(old(geo.jsonCache), feed, l)
    {
      forall l | l != layer
        ensures Served(Geo.Memoised(geo.jsonCache, LayerName(layer), feed(LayerName(layer))), feed, l) == Served(geo.jsonCache, feed, l)
      {
        ServedAfter(geo.jsonCache, feed, layer, l);
      }
      layers := layers + [layer];
      var delivered, _ := geo.Json(LayerName(layer), feed(LayerName(layer)));
      served := delivered.Some? && delivered.value.Doc?;
    }

    /** `reRender(zoom)`: the four threshold tests in turn, then every cached
        map point is drawn again on the last layer, in the key order `order`,
        and the self-location marker last. */
    method ReRender(zoom: real, feed: string -> Option<Geo.GeoJson>) returns (order: seq<string>, plots: seq<Option<Geo.Plot>>)
      requires Valid()
      modifies this`layers, geo`jsonCache, geo`mapPoints
      ensures Valid()
      ensures layers == Policy(old(layers), zoom, old(geo.jsonCache), feed)
      ensures geo.jsonCache == Fetched(old(geo.jsonCache), feed, Added(old(layers), zoom, old(geo.jsonCache), feed))
      ensures Geo.KeepsDocs(old(geo.jsonCache), geo.jsonCache)
      ensures geo.mapPoints == old(geo.mapPoints) && geo.meMapPoint == old(geo.meMapPoint)
      ensures NoDup(order) && |order| == |geo.mapPoints|
      ensures forall k :: k in geo.mapPoints <==> k in order
      ensures |plots| == |order| + (if geo.meMapPoint.Some? then 1 else 0)
      ensures forall i :: 0 <= i < |order| ==>
        order[i] in geo.mapPoints && plots[i] == Geo.Restored(geo.mapPoints, order[i], |layers|)
      ensures geo.meMapPoint.Some? ==>
        var me := geo.meMapPoint.value;
        plots[|plots| - 1] == Geo.PlotMapPoint(Geo.LngLat(me.lng, me.lat), |layers|, me.kind, None)
    {
      ApplyThresholds(zoom, feed);
      order, plots := geo.RestoreMapPoints(|layers|);
    }

    /** The four threshold tests of `reRender`, each an `if` of its own. */
    method ApplyThresholds(zoom: real, feed: string -> Option<Geo.GeoJson>)
      requires Valid()
      modifies this`layers, geo`jsonCache
      ensures Valid()
      ensures layers == Policy(old(layers), zoom, old(geo.jsonCache), feed)
      ensures geo.jsonCache == Fetched(old(geo.jsonCache), feed, Added(old(layers), zoom, old(geo.jsonCache), feed))
      ensures Geo.KeepsDocs(old(geo.jsonCache), geo.jsonCache)
    {
      ghost var before, cache := layers, geo.jsonCache;
      ghost var added := Added(before, zoom, cache, feed);
      if zoom <= 400000.0 {
        RemoveLayers({Streets, Arteries, Freeways});
        assert layers == Kept(before, zoom) + added;
      }
      if 400000.0 < zoom <= 800000.0 {
        RemoveLayers({Streets, Arteries});
        if Freeways !in layers {
          var _ := Render(Freeways, feed);
          FetchedSnoc(cache, feed, [], Freeways);
          assert [] + [Freeways] == added;
        }
        assert layers == Kept(before, zoom) + added;
      }
      if 800000.0 < zoom <= 2200000.0 {
        RemoveLayers({Streets});
        if Arteries !in layers {
          var _ := Render(Arteries, feed);
          FetchedSnoc(cache, feed, [], Arteries);
          assert [] + [Arteries] == added;
        }
        assert layers == Kept(before, zoom) + added;
      }
      if zoom > 2200000.0 {
        if Streets !in layers {
          RemoveLayers({Arteries, Freeways});
          RenderStreetsChain(feed);
        }
        assert layers == Kept(before, zoom) + added;
      }
      PolicyNoDup(before, zoom, cache, feed);
      FetchedMemoises(cache, feed, added);
    }

    /** The nested chain of the top zoom range: streets, then freeways once
        the streets file is in, then arteries once the freeways file is in. */
    method RenderStreetsChain(feed: string -> Option<Geo.GeoJson>)
      modifies this`layers, geo`jsonCache
      ensures layers == old(layers) + Chain(old(geo.jsonCache), feed, [Streets, Freeways, Arteries])
      ensures geo.jsonCache == Fetched(old(geo.jsonCache), feed, Chain(old(geo.jsonCache), feed, [Streets, Freeways, Arteries]))
    {
      ghost var cache := geo.jsonCache;
      ghost var chain := Chain(cache, feed, [Streets, Freeways, Arteries]);
      StreetsChainUnfold(cache, feed);
      var streets := Render(Streets, feed);
      FetchedSnoc(cache, feed, [], Streets);
      assert [] + [Streets] == [Streets];
      if !streets {
        assert chain == [Streets];
      } else {
        var freeways := Render(Freeways, feed);
        FetchedSnoc(cache, feed, [Streets], Freeways);
        assert [Streets] + [Freeways] == [Streets, Freeways];
        if !freeways {
          assert chain == [Streets, Freeways];
        } else {
          var _ := Render(Arteries, feed);
          FetchedSnoc(cache, feed, [Streets, Freeways], Arteries);
          assert [Streets, Freeways] + [Arteries] == [Streets, Freeways, Arteries];
          assert chain == [Streets, Freeways, Arteries];
        }
      }
    }

    /** `plotLocation(data)`: normalises the body, then puts every vehicle's
        point into the cache under its key, in order, on the last layer. */
    method PlotLocation(data: NextBus.Body) returns (normalised: NextBus.Body, plots: seq<Option<Geo.Plot>>)
      requires geo.Valid()
      modifies geo`mapPoints
      ensures geo.Valid()
      ensures normalised == Normalised(data)
      ensures geo.mapPoints == PutVehicles(old(geo.mapPoints), Visited(data))
      ensures |plots| == |Visited(data)|
      ensures forall i :: 0 <= i < |plots| ==> plots[i] == VehiclePlot(old(geo.mapPoints), Visited(data), i, |layers|)
    {
      normalised := data;
      if data.vehicle.OneVehicle? {
        normalised := NextBus.Body(NextBus.VehicleList([data.vehicle.vehicle]));
      }
      var vs := Visited(normalised);
      ghost var m := geo.mapPoints;
      plots := [];
      var i := 0;
      while i < |vs|
        invariant 0 <= i <= |vs|
        invariant geo.Valid()
        invariant geo.mapPoints == PutVehicles(m, vs[..i])
        invariant |plots| == i
        invariant forall j :: 0 <= j < i ==> plots[j] == VehiclePlot(m, vs, j, |layers|)
      {
        var v := vs[i];
        var id := VehicleKey(v);
        var _, plot := geo.PutMapPoint(Geo.LngLat(v.lon, v.lat), |layers|, id);
        assert vs[..i + 1][..i] == vs[..i];
        plots := plots + [plot];
        i := i + 1;
      }
      assert vs[..i] == vs;
    }

    /** The rendering chain of `link` on a new SVG: neighborhoods, streets,
        freeways and arteries, each rendered from the continuation of the one
        before. `complete` says whether the last continuation ran. */
    method RenderMap(feed: string -> Option<Geo.GeoJson>) returns (complete: bool)
      modifies this`layers, geo`jsonCache
      ensures layers == InitialLayers(old(geo.jsonCache), feed)
      ensures geo.jsonCache == Fetched(old(geo.jsonCache), feed, layers)
      ensures complete <==> |layers| == 4 && Served(old(geo.jsonCache), feed, Arteries)
    {
      ghost var cache := geo.jsonCache;
      InitialLayersUnfold(cache, feed);
      layers := [];
      complete := false;
      var ok := Render(Neighborhoods, feed);
      FetchedSnoc(cache, feed, [], Neighborhoods);
      if ok {
        ok := Render(Streets, feed);
        FetchedSnoc(cache, feed, [Neighborhoods], Streets);
        if ok {
          ok := Render(Freeways, feed);
          FetchedSnoc(cache, feed, [Neighborhoods, Streets], Freeways);
          if ok {
            complete := Render(Arteries, feed);
            FetchedSnoc(cache, feed, [Neighborhoods, Streets, Freeways], Arteries);
          }
        }
      }
    }

    /** `link`: the browser's location is asked for first; a fix inside the
        bounds moves `scope.loc` there. Then the map is rendered; once the
        arteries file is in, the self-location marker is set at `scope.loc`
        and the directive registers its observer and its refresher with the
        polling service. `fix` is the fix the browser delivers before the
        rendering chain ends (None when it delivers none by then). */
    method Link(hasGeolocation: bool, fix: Option<Geo.Fix>, feed: string -> Option<Geo.GeoJson>,
                nbs: NextBus.NextBusService) returns (complete: bool)
      requires geo.Valid()
      modifies this`layers, this`loc, geo`jsonCache, geo`meMapPoint, geo`curLoc,
               nbs`observerCallbacks, nbs`refresherCallbacks
      ensures Valid()
      ensures layers == InitialLayers(old(geo.jsonCache), feed)
      ensures geo.jsonCache == Fetched(old(geo.jsonCache), feed, layers)
      ensures complete <==> |layers| == 4 && Served(old(geo.jsonCache), feed, Arteries)
      ensures hasGeolocation && fix.Some? && Geo.InBounds(fix.value.lat, fix.value.lng) ==>
        loc == Geo.LngLat(Geo.Real(fix.value.lng), Geo.Real(fix.value.lat)) && geo.curLoc == fix
      ensures !(hasGeolocation && fix.Some? && Geo.InBounds(fix.value.lat, fix.value.lng)) ==>
        loc == old(loc) && geo.curLoc == old(geo.curLoc)
      ensures complete ==> geo.meMapPoint == Some(Geo.Point(loc.lat, loc.lng, Geo.ClocKey))
      ensures complete ==> nbs.observerCallbacks == old(nbs.observerCallbacks) + [PlotLocationCallback]
      ensures complete ==> nbs.refresherCallbacks == old(nbs.refresherCallbacks) + [RefreshSvgCallback]
      ensures !complete ==> geo.meMapPoint == old(geo.meMapPoint)
      ensures !complete ==> nbs.observerCallbacks == old(nbs.observerCallbacks)
      ensures !complete ==> nbs.refresherCallbacks == old(nbs.refresherCallbacks)
    {
      var located := geo.Location(hasGeolocation, true, fix);
      if located.Some? && located.value.Located? {
        var at := located.value.fix;
        loc := Geo.LngLat(Geo.Real(at.lng), Geo.Real(at.lat));
      }
      complete := RenderMap(feed);
      InitialLayersNoDup(old(geo.jsonCache), feed);
      if complete {
        var _ := geo.SetMeMapPoint(loc, |layers|);
        nbs.RegisterObserver(PlotLocationCallback);
        nbs.RegisterRefresher(RefreshSvgCallback);
      }
    }
  }
}
