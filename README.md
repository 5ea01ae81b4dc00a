# BusZit state logic in Dafny

BusZit is a browser map of San Francisco Muni routes. It polls the NextBus
feed for vehicle positions and draws them over a D3 map. This project models
the state logic under the rendering, in three modules and two helper
modules:

- `NextBus` (`next_bus_service.dfy`) is the `nextBusService` factory. It
  holds the ordered list of selected route tags (`tagList`), the cached
  `routeList`, the `$interval` handle `stop`, and the observer and refresher
  registries. `toggleTag` flips a route's membership and its `_selected` flag
  and then restarts the service. A restart cancels the old timer, empties the
  map-point cache, calls every refresher, pings every selected route and
  schedules a new timer. Everything the service does to the outside world is
  recorded in order in an event trace: scheduling, cancelling, refresher
  calls, pings and observer calls. The trace is what the contracts speak of.
- `Geo` (`geo_service.dfy`) is the `geoService` factory. It covers the memo
  table of feature files (`json`) and the map-point cache (`putMapPoint`,
  `restoreMapPoints`, `setMeMapPoint`). It also covers the guards and the
  icon choice of `plotMapPoint`, and the San Francisco bounds test of
  `location`. That test depends on the latitude alone, because its longitude
  clause (`lng < 121.5 && lng > 123.5`) can never hold.
- `MapDirective` (`map_directive.dfy`) is the `d3Map` directive. The SVG is
  reduced to its sequence of `g` layers (neighborhoods, streets, freeways,
  arteries). `reRender(zoom)` applies one of four disjoint zoom ranges to it.
  `link` runs the initial rendering chain. `plotLocation` wraps a single
  vehicle object into a list and puts each vehicle into the point cache
  under the key `_vehicle_<id>_<routeTag>`.
- `Seqs` and `Wrappers` hold shared helpers. `Seqs` has `indexOf`,
  `splice(i, 1)`, a filter and the no-duplicates predicate. `Wrappers` has
  `Option`.

Modelling choices:

- HTTP responses are parameters. `feed(name)` is what a request for a
  feature file or a route returns; `None` means the request failed.
- Every asynchronous callback completes at once, in the order the source
  nests it. The `$watch` listeners, whose first run the source schedules
  before the rendering chain of `link` ends, are not run (see "Left out").
- A layer's continuation in `render` runs only when the json callback gets
  a document (`if(!json) return`). So `reRender`'s result depends on the memo
  table at the call and on the responses. `Policy` states it as a function of
  both.
- JavaScript numbers that reach `isNaN` are `Num = NaN | Real(r)`.
- Every `Point` in the map-point cache has its own key as its type. That is
  why redrawing the cache leaves it unchanged.

## Model

| member | source | states |
|---|---|---|
| `Seqs.IndexOf` | app/ng/services/core-services.js:463 | `indexOf`: -1 exactly when the tag is absent; otherwise the first index holding it |
| `Seqs.RemoveAt` | app/ng/services/core-services.js:470 | `splice(index, 1)`: one element shorter; elements before the index stay put, the ones after shift down by one |
| `NextBus.Toggled` | app/ng/services/core-services.js:463-471 | an absent tag is pushed at the end; for a present tag exactly one occurrence goes (the multiset loses one copy) and every other tag stays |
| `NextBus.ToggledFlips` | app/ng/services/core-services.js:462-471 | on a duplicate-free list the tag is present after the toggle iff it was absent before; an absent tag is appended at the end; a present one is removed and the list shrinks by one |
| `NextBus.ToggledNoDup` | app/ng/services/core-services.js:463-471 | toggling keeps `tagList` free of duplicates |
| `NextBus.ToggledKeepsOthers` | app/ng/services/core-services.js:463-471 | the tags other than the toggled one are the same, in the same relative order |
| `NextBus.ToggledTwice` | app/ng/services/core-services.js:462-471 | selecting an absent tag and then unselecting it gives the original list back |
| `NextBus.RefreshTrace` | app/ng/services/core-services.js:544-548 | `notifyRefreshers` calls each registered refresher exactly once, in registration order |
| `NextBus.NotifyTrace` | app/ng/services/core-services.js:535-539 | `notifyObservers(data)` calls each registered observer exactly once with `data`, in registration order |
| `NextBus.PingOne` | app/ng/services/core-services.js:406-420 | one request for the tag, first; then, only when it succeeds, one call per observer in registration order with the response; no timer is touched |
| `NextBus.PingTrace` | app/ng/services/core-services.js:502-506 | pinging all routes neither schedules nor cancels a timer |
| `NextBus.PingsOfPingTrace` | app/ng/services/core-services.js:502-506 | the pings issued are exactly the tags of `tagList`, once each, in list order |
| `NextBus.StopTrace` | app/ng/services/core-services.js:511-516 | `stopService` leaves no live timer of the handle it held, and sends no request |
| `NextBus.EpochOf` | app/ng/services/core-services.js:392-398 | `getEpoch` is 0 exactly while `geoService.curLoc` is undefined |
| `NextBus.RestartTrace` | app/ng/services/core-services.js:480-516 | a restart from the held handle leaves exactly the new timer live, and its requests are exactly the selected tags, in list order |
| `NextBus.RestartLeavesOneTimer` | app/ng/services/core-services.js:480-516 | if the live timers before a restart are exactly the held handle, then after the restart exactly one timer is live: the new one |
| `NextBus.NextBusService.constructor` | app/ng/services/core-services.js:281-308 | before `init` runs, the service has no selected tags, no route list, no timer and empty registries |
| `NextBus.NextBusService.RegisterObserver` | app/ng/services/core-services.js:521-523 | the observer is appended to the registry; earlier registrations are kept |
| `NextBus.NextBusService.RegisterRefresher` | app/ng/services/core-services.js:528-530 | the refresher is appended to the registry; earlier registrations are kept |
| `NextBus.NextBusService.NotifyObservers` | app/ng/services/core-services.js:535-539 | the loop appends exactly the calls of `NotifyTrace` to the trace; the one-live-timer invariant is kept |
| `NextBus.NextBusService.NotifyRefreshers` | app/ng/services/core-services.js:544-548 | the loop appends exactly the calls of `RefreshTrace` to the trace; the one-live-timer invariant is kept |
| `NextBus.NextBusService.PingVehicleLocation` | app/ng/services/core-services.js:406-420 | one request for the tag; when it succeeds, the response goes to every observer; the one-live-timer invariant is kept |
| `NextBus.NextBusService.PingAllVehicleLocations` | app/ng/services/core-services.js:502-506 | the loop issues one ping per selected tag, in list order; the one-live-timer invariant is kept |
| `NextBus.NextBusService.StopService` | app/ng/services/core-services.js:511-516 | afterwards no handle is held; a held timer is cancelled; with no handle nothing happens, so a second call changes nothing |
| `NextBus.NextBusService.StartService` | app/ng/services/core-services.js:480-497 | in order: the old handle is cancelled, the map-point cache is emptied, the refreshers are told, the tags are pinged, and one new timer is scheduled; exactly one timer is live afterwards |
| `NextBus.NextBusService.ToggleTag` | app/ng/services/core-services.js:462-474 | `tagList` is toggled; `_selected` is true iff the tag was absent, i.e. iff it is now listed; the list stays duplicate-free; then the service restarts |
| `NextBus.NextBusService.Tick` | app/ng/services/core-services.js:493-495 | a firing of the live interval pings every selected tag and keeps exactly one timer live, so a toggle can follow; with no timer nothing happens |
| `NextBus.NextBusService.GetRoutes` | app/ng/services/core-services.js:362-384 | a route list already set is returned without a request and no route's `_selected` changes; otherwise the response becomes the list, in order, every route unselected, and goes to the callback |
| `NextBus.NextBusService.Init` | app/ng/services/core-services.js:447-453 | the routes are fetched, `isLoaded` is set only when they arrive, and the service starts; the selected tags and the observer and refresher registries are untouched |
| `Geo.PlotMapPoint` | app/ng/services/core-services.js:171-216 | nothing is drawn iff a coordinate is NaN or the SVG has no `g`; otherwise one image goes into the last group, animated from the old position when there is one; the icon is `_ico_cloc` exactly when the key is `_ico_cloc` |
| `Geo.InBounds` | app/ng/services/core-services.js:252 | a location is accepted exactly when 36.5 <= lat <= 38.5; the longitude never matters |
| `Geo.Memoised` | app/ng/services/core-services.js:36-48 | the memo table after `json(name)`: only the entry for the name can change; a cached document is never replaced; once a document was delivered, the name holds a document |
| `Geo.ServedTwice` | app/ng/services/core-services.js:36-48 | after a name was served once, a second `json(name)` is a cache hit whatever the server would answer, and leaves the table unchanged |
| `Geo.Previous` | app/ng/services/core-services.js:150-154 | the old position is passed on iff the key is cached, as `[lng, lat]` of the cached point |
| `Geo.Restored` | app/ng/services/core-services.js:125-127 | a cached point is redrawn unless a coordinate is NaN or there is no `g`; it is drawn under its key at its own position and animated from that same position |
| `Geo.GeoService.constructor` | app/ng/services/core-services.js:19-26 | the json cache and the map-point cache start empty |
| `Geo.GeoService.Json` | app/ng/services/core-services.js:36-49 | a cached document is delivered without a fetch; otherwise the fetch result is delivered and, on success, stored under the name |
| `Geo.GeoService.SetMeMapPoint` | app/ng/services/core-services.js:101-104 | the self-location is stored with type `_ico_cloc` and drawn; `mapPoints` is not touched |
| `Geo.GeoService.PutMapPoint` | app/ng/services/core-services.js:143-159 | `mapPoints[idx]` becomes `Point(lat, lng, idx)` and every other key is unchanged; the old `[lng, lat]` is passed on iff `idx` was already a key |
| `Geo.GeoService.RestoreMapPoints` | app/ng/services/core-services.js:122-133 | the keys are visited in some order, each exactly once; the i-th image is the redraw of the i-th key at its own position; then the self-location marker; the cache is left unchanged |
| `Geo.GeoService.Location` | app/ng/services/core-services.js:244-266 | a fix inside the bounds is stored and handed over; one outside, or no geolocation, is answered with the error |
| `MapDirective.ExactlyOneBand` | app/ng/directives/d3directives.js:156-183 | exactly one of the four zoom tests of `reRender` holds for any zoom value |
| `MapDirective.Policy` | app/ng/directives/d3directives.js:156-183 | `reRender` never adds a neighborhoods layer, and a streets layer is left only above 2200000 |
| `MapDirective.Chain` | app/ng/directives/d3directives.js:177-181 | nested `render` calls append a non-empty prefix of their order; the whole order exactly when every file but the last is received |
| `MapDirective.PolicyCoarse` | app/ng/directives/d3directives.js:156-158 | with zoom <= 400000 streets, arteries and freeways are removed and nothing is added: only a present neighborhoods layer remains |
| `MapDirective.PolicyFreeways` | app/ng/directives/d3directives.js:160-166 | with 400000 < zoom <= 800000 streets and arteries are removed and freeways are present afterwards (added if absent) |
| `MapDirective.PolicyArteries` | app/ng/directives/d3directives.js:167-173 | with 800000 < zoom <= 2200000 streets are removed, arteries are present afterwards (added if absent), and every other layer, freeways included, is left as it was |
| `MapDirective.PolicyStreets` | app/ng/directives/d3directives.js:174-183 | with zoom > 2200000 present streets leave the layers unchanged; otherwise arteries and freeways are removed, the other layers kept in order, and streets, freeways and arteries appended in that order, each only once the previous file has arrived |
| `MapDirective.PolicyKeepsNeighborhoods` | app/ng/directives/d3directives.js:156-183 | the neighborhoods layer is present after `reRender` iff it was present before |
| `MapDirective.PolicyNoDup` | app/ng/directives/d3directives.js:156-183 | `reRender` never creates a second layer with the same id |
| `MapDirective.PolicyIdempotent` | app/ng/directives/d3directives.js:156-183 | a second `reRender` at the same zoom leaves the layers as the first left them, whatever the cache and the server answer |
| `MapDirective.InitialLayersUnfold` | app/ng/directives/d3directives.js:267-288 | `link` renders neighborhoods, then streets, freeways and arteries, each only after the previous file arrived |
| `MapDirective.InitialLayersNoDup` | app/ng/directives/d3directives.js:267-288 | the initial layers are distinct |
| `MapDirective.VehicleKey` | app/ng/directives/d3directives.js:203 | every vehicle key starts with `_vehicle_`, so none equals `_ico_cloc` and a vehicle is always drawn with the bus icon |
| `MapDirective.VehicleKeyInjective` | app/ng/directives/d3directives.js:203 | for ids without `_`, two vehicles share a key iff they share id and route tag |
| `MapDirective.Direction` | app/ng/directives/d3directives.js:198-201 | `dir` is `'I'` exactly when `_dirTag` is present, contains an `I`, and none of its first three characters is `I` |
| `MapDirective.Visited` | app/ng/directives/d3directives.js:197 | `forEach` visits nothing when the vehicle field is absent and a list element by element; a wrapped single vehicle is visited once |
| `MapDirective.Normalised` | app/ng/directives/d3directives.js:193-195 | after normalisation the body never holds a single vehicle object; it visits the same vehicles in the same order; any other body is left as it was |
| `MapDirective.PutVehicles` | app/ng/directives/d3directives.js:197-214 | after the vehicles are put, the cache's keys are the old keys and the vehicles' keys, no more |
| `MapDirective.PutVehiclesLast` | app/ng/directives/d3directives.js:197-214 | after `plotLocation`, a vehicle's key holds the point of the last vehicle in the list with that key |
| `MapDirective.PutVehiclesElsewhere` | app/ng/directives/d3directives.js:197-214 | keys that no vehicle in the list has keep their points |
| `MapDirective.D3Map.constructor` | app/ng/directives/d3directives.js:20-25 | before `link` the SVG has no layer, `scope.loc` is the San Francisco centre, and the invariant holds |
| `MapDirective.Added` | app/ng/directives/d3directives.js:156-183 | `reRender`'s layers are the kept old ones followed by the ones it renders: none in the lowest range, the missing freeways or arteries layer in the middle ranges, the streets chain in the top range when no streets layer is present |
| `MapDirective.FetchedMemoises` | app/ng/services/core-services.js:36-48 | after `json` for each rendered layer in turn, cached documents stay, the entries of unrendered layers and of other names are unchanged, and every rendered layer whose file was served holds a document |
| `MapDirective.FetchedSnoc` | app/ng/services/core-services.js:36-48 | rendering one more layer is one more `json` step on the memo table |
| `MapDirective.StreetsChainUnfold` | app/ng/directives/d3directives.js:177-181 | above 2200000 streets is rendered, freeways once the streets file is in, arteries once the freeways file is in |
| `MapDirective.D3Map.RenderStreetsChain` | app/ng/directives/d3directives.js:177-181 | the nested streets, freeways and arteries renders append exactly the chain and leave the memo table after `json` for each of its layers |
| `MapDirective.D3Map.RemoveLayers` | app/ng/directives/d3directives.js:157 | `selectAll(ids).remove()`: exactly the named layers go, the others stay in order, and distinct ids stay distinct |
| `MapDirective.D3Map.Render` | app/ng/services/core-services.js:60-86 | the layer's group is appended at once; the continuation runs iff the file is received; the memo table is updated as `json` does |
| `MapDirective.D3Map.ApplyThresholds` | app/ng/directives/d3directives.js:156-183 | the four threshold `if`s in turn leave exactly `Policy` of the old layers; ids stay distinct; the memo table is the old one after `json` for each appended layer (`Fetched` over `Added`), so cached documents stay |
| `MapDirective.D3Map.ReRender` | app/ng/directives/d3directives.js:151-188 | the layers become `Policy` of the old layers; ids stay distinct; the memo table is the old one after `json` for each appended layer, so cached documents stay; the point cache and the marker are unchanged; each cached key is redrawn exactly once on the last layer, then the marker |
| `MapDirective.D3Map.PlotLocation` | app/ng/directives/d3directives.js:191-216 | the body is normalised; every vehicle is put into the point cache under its key, in list order; the i-th image is the plot of the i-th vehicle from the cache as it stood then |
| `MapDirective.D3Map.RenderMap` | app/ng/directives/d3directives.js:267-277 | the layers of a new SVG are the initial chain; the memo table is the old one after `json` for each of those layers; the chain completes iff all four layers are present and the arteries file arrived |
| `MapDirective.D3Map.Link` | app/ng/directives/d3directives.js:107-288 | an in-bounds fix delivered before the chain ends moves `scope.loc` and becomes `curLoc`; any other outcome leaves both; the memo table is the old one after `json` for each rendered layer; after the chain completes the marker is at `scope.loc` and the observer and refresher are registered once; otherwise neither happens |

## Left out

- D3 rendering is not modelled: the albers projection, path generation, the
  SVG images, the 15000 ms transitions and the unfinished `translateAlong`.
  These are calls into a library the model cannot see. Only the layer
  sequence, the cache contents and the plot decisions are kept.
- `plotLocation`'s removal of a vehicle's old image and label by element id
  is not modelled, since images are not part of the layer model.
- The `dir` and `routeTag` arguments that `plotLocation` passes to
  `putMapPoint` are not modelled. `putMapPoint` takes four parameters and
  ignores them, so `Direction` is computed but has no effect on the state.
- `$http`, `nbs.command` and the X2JS XML-to-JSON conversion are not
  modelled. They are network I/O and a foreign library. Responses are
  parameters.
- `$interval` timing is not modelled. The timer is a handle that is held or
  not, and each firing is an explicit `Tick`.
- The order of asynchronous completion is not modelled. Fetches and render
  continuations complete synchronously. In the source, the freeways and
  arteries of the top zoom range may be appended after `restoreMapPoints`
  has run, or interleave with other events.
- The drag and zoom gesture handlers are not modelled. The same holds for
  the zoom slider, the `$watch`ers on scale, location and window width, and
  `refreshSvg`. They are DOM-event and floating-point driven. `reRender`
  takes the zoom product as a parameter.
- `navigator.geolocation` is not modelled. Whether it exists and what fix
  it delivers are parameters. `getEpoch`'s clock read is not modelled
  either: it is reduced to `Zero` or `Now`.
- Observers and refreshers are named values whose calls are recorded. The
  directive's `plotLocation` and `refreshSvg` do not run inside the
  service's notification in this model.
- `PlotLocation` returns the normalised body instead of rewriting
  `data.body.vehicle` inside a shared object. Aliasing of the response
  object is not modelled.
- The fallback in `putMapPoint` that replaces a falsy `idx` by a function is
  not modelled. A function is meaningless as an object key.
- Calling `json` without a callback is not modelled. On a cache miss that
  would throw inside the success handler.
- `restoreMapPoints` visits object keys in insertion order. The model leaves
  the visiting order open.
- `D3Map.Link`: the `$watch` listeners on `scale`, `loc` and the window
  width (d3directives.js:123-148) are not run. On the first link their
  first run comes before the neighborhoods file arrives. (On a re-link `json`
  answers from the memo table at once, core-services.js:37-39, so the chain
  ends inside `link` and no layer is appended twice.) With the default zoom
  `2210 * 1000 = 2210000`, in the streets range, that `reRender` appends a
  `streets` group, and the chain of `link` then appends `streets`,
  `freeways` and `arteries` again, since `render` appends a `g`
  unconditionally. The distinct layer ids of `D3Map.Valid`, `PolicyNoDup`
  and `Link`'s `ensures Valid()` hold only when the chain completes before
  any `reRender`, as on a re-link. A fix that arrives after the chain has ended moves the
  marker only through the `loc` watcher, which is likewise not modelled.
- `ExactlyOneBand`: the zoom is a real number. A non-numeric `zoom`
  attribute makes the product NaN in the source, and then none of the four
  tests of `reRender` applies and the layers are left as they were.
- `app/ng/controllers/mapView.js`, `app/ng/app.js` and
  `app/components/version/version_test.js` are not modelled. They are a
  controller that delegates to the service, the route configuration, and a
  version test.
