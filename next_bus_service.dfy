/** The nextBusService factory: the ordered list of selected route tags,
    the cached route list, the repeating timer that pings the feed, and the two
    callback registries. Everything the service does to the outside world
    (creating and cancelling the interval, calling a refresher or an
    observer, sending a vehicleLocations request) is recorded, in order, in
    the field `trace`. Feed responses are parameters; callbacks complete at
    once. */
module NextBus {
  import opened Wrappers
  import opened Seqs
  import Geo

  /** One vehicle of a vehicleLocations response (the fields the map uses). */
  datatype Vehicle = Vehicle(id: string, routeTag: string, dirTag: Option<string>, lon: Geo.Num, lat: Geo.Num)

  /** `body.vehicle` after XML-to-JSON conversion: absent, a single object
      when the route has one vehicle, or a list. */
  datatype VehicleField = NoVehicle | OneVehicle(vehicle: Vehicle) | VehicleList(vehicles: seq<Vehicle>)

  datatype Body = Body(vehicle: VehicleField)

  /** A registered callback closure, known by name. */
  datatype Callback = Callback(name: string)

  /** An `$interval` promise. */
  type Handle = nat

  /** The `&t=` parameter of a ping: 0 before the user's location is known,
      the current time afterwards. */
  datatype Epoch = Zero | Now

  datatype Event =
    | Scheduled(handle: Handle)
    | Cancelled(handle: Handle)
    | Refreshed(refresher: Callback)
    | Pinged(tag: string, epoch: Epoch)
    | Observed(observer: Callback, data: Body)

  /** A route of the routeList command; `selected` is the `_selected` flag. */
  class RouteTag {
    var tag: string
    var title: string
    var selected: bool

    constructor (tag: string, title: string)
      ensures this.tag == tag && this.title == title && !selected
    {
      this.tag := tag;
      this.title := title;
      selected := false;
    }
  }

  /** The selected-tag list after `toggleTag`: an absent tag is pushed, a
      present one spliced out at its first index, so exactly one occurrence
      of it goes and every other tag stays. */
  function Toggled(tags: seq<string>, t: string): (r: seq<string>)
    ensures t !in tags ==> r == tags + [t]
    ensures t in tags ==> multiset(r) == multiset(tags) - multiset{t}
  {
    var index := IndexOf(tags, t);
    if index == -1 then tags + [t]
    else
      assert tags == tags[..index] + [tags[index]] + tags[index + 1..];
      RemoveAt(tags, index)
  }

  /** Membership flips: an absent tag ends up last, a present one is gone. */
  lemma ToggledFlips(tags: seq<string>, t: string)
    requires NoDup(tags)
    ensures t in Toggled(tags, t) <==> t !in tags
    ensures t !in tags ==> Toggled(tags, t) == tags + [t]
    ensures t in tags ==> |Toggled(tags, t)| == |tags| - 1
  {
    if t in tags {
      RemoveAtNoDup(tags, IndexOf(tags, t));
    }
  }

  /** Toggling keeps the list free of duplicates. */
  lemma ToggledNoDup(tags: seq<string>, t: string)
    requires NoDup(tags)
    ensures NoDup(Toggled(tags, t))
  {
    var index := IndexOf(tags, t);
    if index != -1 {
      RemoveAtNoDup(tags, index);
    } else {
      var r := tags + [t];
      forall i, j | 0 <= i < j < |r| ensures r[i] != r[j] {
        if j == |tags| { assert r[i] == tags[i]; }
      }
    }
  }

  /** The other tags stay, in the same relative order. */
  lemma ToggledKeepsOthers(tags: seq<string>, t: string)
    ensures Except(Toggled(tags, t), {t}) == Except(tags, {t})
  {
    var index := IndexOf(tags, t);
    if index == -1 {
      ExceptAppend(tags, [t], {t});
      assert Except([t], {t}) == [];
    } else {
      RemoveAtKeepsOthers(tags, index);
    }
  }

  /** Selecting and then unselecting a tag gives the list back. */
  lemma ToggledTwice(tags: seq<string>, t: string)
    requires t !in tags
    ensures Toggled(Toggled(tags, t), t) == tags
  {
    var once := tags + [t];
    assert once[|tags|] == t;
    assert IndexOf(once, t) == |tags|;
    assert RemoveAt(once, |tags|) == tags;
  }

  /** The calls `notifyRefreshers` makes: each refresher once, in registration order. */
  function RefreshTrace(refreshers: seq<Callback>): (r: seq<Event>)
    ensures |r| == |refreshers|
    ensures forall i :: 0 <= i < |r| ==> r[i] == Refreshed(refreshers[i])
  {
    if refreshers == [] then []
    else RefreshTrace(refreshers[..|refreshers| - 1]) + [Refreshed(refreshers[|refreshers| - 1])]
  }

  /** The calls `notifyObservers(data)` makes: each observer once, in registration order. */
  function NotifyTrace(observers: seq<Callback>, data: Body): (r: seq<Event>)
    ensures |r| == |observers|
    ensures forall i :: 0 <= i < |r| ==> r[i] == Observed(observers[i], data)
  {
    if observers == [] then []
    else NotifyTrace(observers[..|observers| - 1], data) + [Observed(observers[|observers| - 1], data)]
  }

  /** Neither schedules nor cancels a timer. */
  ghost predicate TimerFree(t: seq<Event>) {
    forall i :: 0 <= i < |t| ==> !t[i].Scheduled? && !t[i].Cancelled?
  }

  /** `pingVehicleLocation(tag)`: one request; when it succeeds, every
      observer is told about the response. */
  function PingOne(tag: string, observers: seq<Callback>, feed: string -> Option<Body>, epoch: Epoch): (r: seq<Event>)
    ensures |r| == 1 + (if feed(tag).Some? then |observers| else 0)
    ensures r[0] == Pinged(tag, epoch)
    ensures forall i :: 1 <= i < |r| ==> feed(tag).Some? && r[i] == Observed(observers[i - 1], feed(tag).value)
    ensures TimerFree(r)
  {
    [Pinged(tag, epoch)] + (if feed(tag).Some? then NotifyTrace(observers, feed(tag).value) else [])
  }

  /** `pingAllVehicleLocations`: one ping per tag, in list order. */
  function PingTrace(tags: seq<string>, observers: seq<Callback>, feed: string -> Option<Body>, epoch: Epoch): (r: seq<Event>)
    ensures TimerFree(r)
  {
    if tags == [] then []
    else PingTrace(tags[..|tags| - 1], observers, feed, epoch) + PingOne(tags[|tags| - 1], observers, feed, epoch)
  }

  /** The tags of the requests in a trace, in order. */
  function Pings(t: seq<Event>): seq<string>
  {
    if t == [] then []
    else Pings(t[..|t| - 1]) + (if t[|t| - 1].Pinged? then [t[|t| - 1].tag] else [])
  }

  lemma {:induction false} PingsAppend(a: seq<Event>, b: seq<Event>)
    ensures Pings(a + b) == Pings(a) + Pings(b)
  {
    if b != [] {
      assert (a + b)[..|a + b| - 1] == a + b[..|b| - 1];
      PingsAppend(a, b[..|b| - 1]);
    } else {
      assert a + b == a;
    }
  }

  /** A trace without a request pings nothing. */
  lemma {:induction false} PingsNone(t: seq<Event>)
    requires forall i :: 0 <= i < |t| ==> !t[i].Pinged?
    ensures Pings(t) == []
  {
    if t != [] {
      var init := t[..|t| - 1];
      assert forall i :: 0 <= i < |init| ==> init[i] == t[i];
      PingsNone(init);
    }
  }

  lemma PingsOfPingOne(tag: string, observers: seq<Callback>, feed: string -> Option<Body>, epoch: Epoch)
    ensures Pings(PingOne(tag, observers, feed, epoch)) == [tag]
  {
    var rest := if feed(tag).Some? then NotifyTrace(observers, feed(tag).value) else [];
    assert PingOne(tag, observers, feed, epoch) == [Pinged(tag, epoch)] + rest;
    PingsAppend([Pinged(tag, epoch)], rest);
    assert Pings([Pinged(tag, epoch)]) == [tag] by {
      assert [Pinged(tag, epoch)][..0] == [];
    }
    PingsNone(rest);
  }

  /** Exactly the selected tags are pinged, once each, in list order. */
  lemma {:induction false} PingsOfPingTrace(tags: seq<string>, observers: seq<Callback>, feed: string -> Option<Body>, epoch: Epoch)
    ensures Pings(PingTrace(tags, observers, feed, epoch)) == tags
  {
    if tags != [] {
      var init, last := tags[..|tags| - 1], tags[|tags| - 1];
      PingsOfPingTrace(init, observers, feed, epoch);
      PingsAppend(PingTrace(init, observers, feed, epoch), PingOne(last, observers, feed, epoch));
      PingsOfPingOne(last, observers, feed, epoch);
      assert tags == init + [last];
    }
  }

  /** The timer handles live after the events of t, starting from `live`. */
  function LiveAfter(live: set<Handle>, t: seq<Event>): set<Handle>
  {
    if t == [] then live
    else
      var before := LiveAfter(live, t[..|t| - 1]);
      match t[|t| - 1]
      case Scheduled(h) => before + {h}
      case Cancelled(h) => before - {h}
      case _ => before
  }

  lemma {:induction false} LiveAfterAppend(live: set<Handle>, a: seq<Event>, b: seq<Event>)
    ensures LiveAfter(live, a + b) == LiveAfter(LiveAfter(live, a), b)
  {
    if b == [] {
      assert a + b == a;
    } else {
      assert (a + b)[..|a + b| - 1] == a + b[..|b| - 1];
      LiveAfterAppend(live, a, b[..|b| - 1]);
    }
  }

  /** Events that touch no timer leave the live handles alone. */
  lemma {:induction false} LiveAfterTimerFree(live: set<Handle>, t: seq<Event>)
    requires TimerFree(t)
    ensures LiveAfter(live, t) == live
  {
    if t != [] {
      var init := t[..|t| - 1];
      assert TimerFree(init) by {
        forall i | 0 <= i < |init| ensures !init[i].Scheduled? && !init[i].Cancelled? {
          assert init[i] == t[i];
        }
      }
      LiveAfterTimerFree(live, init);
    }
  }

  /** Events that touch no timer, appended to a trace, leave its live timers alone. */
  lemma LiveKept(t: seq<Event>, x: seq<Event>)
    requires TimerFree(x)
    ensures LiveAfter({}, t + x) == LiveAfter({}, t)
  {
    LiveAfterAppend({}, t, x);
    LiveAfterTimerFree(LiveAfter({}, t), x);
  }

  function HandleSet(stop: Option<Handle>): set<Handle>
  {
    if stop.Some? then {stop.value} else {}
  }

  /** What `stopService` cancels: afterwards no timer of the one held is live. */
  function StopTrace(stop: Option<Handle>): (r: seq<Event>)
    ensures LiveAfter(HandleSet(stop), r) == {}
    ensures forall i :: 0 <= i < |r| ==> !r[i].Pinged?
  {
    if stop.Some? then
      assert [Cancelled(stop.value)][..0] == [];
      [Cancelled(stop.value)]
    else []
  }

  /** `getEpoch`: 0 until the user's location is known, the current time after. */
  function EpochOf(curLoc: Option<Geo.Fix>): (e: Epoch)
    ensures e == Zero <==> curLoc.None?
  {
    if curLoc.Some? then Now else Zero
  }

  /** The service after a restart: the previous timer cancelled, the cache
      of map points emptied, the refreshers told, the selected tags pinged,
      and one new timer scheduled. From the held handle as the only live
      timer, exactly the new one is live, and the pings are the tags. */
  function RestartTrace(stop: Option<Handle>, refreshers: seq<Callback>, tags: seq<string>,
                        observers: seq<Callback>, feed: string -> Option<Body>, epoch: Epoch, h: Handle): (r: seq<Event>)
    ensures LiveAfter(HandleSet(stop), r) == {h}
    ensures Pings(r) == tags
  {
    var s, f, p := StopTrace(stop), RefreshTrace(refreshers), PingTrace(tags, observers, feed, epoch);
    RestartLive(HandleSet(stop), s, f, p, h);
    RestartPings(s, f, p, h);
    PingsOfPingTrace(tags, observers, feed, epoch);
    s + f + p + [Scheduled(h)]
  }

  /** The live timers across the pieces of RestartTrace. */
  lemma RestartLive(live: set<Handle>, s: seq<Event>, f: seq<Event>, p: seq<Event>, h: Handle)
    requires LiveAfter(live, s) == {} && TimerFree(f) && TimerFree(p)
    ensures LiveAfter(live, s + f + p + [Scheduled(h)]) == {h}
  {
    var sf := s + f;
    var sfp := sf + p;
    LiveAfterAppend(live, s, f);
    LiveAfterTimerFree({}, f);
    LiveAfterAppend(live, sf, p);
    LiveAfterTimerFree({}, p);
    assert (sfp + [Scheduled(h)])[..|sfp|] == sfp;
  }

  /** The pings across the pieces of RestartTrace. */
  lemma RestartPings(s: seq<Event>, f: seq<Event>, p: seq<Event>, h: Handle)
    requires forall i :: 0 <= i < |s| ==> !s[i].Pinged?
    requires forall i :: 0 <= i < |f| ==> !f[i].Pinged?
    ensures Pings(s + f + p + [Scheduled(h)]) == Pings(p)
  {
    var sf := s + f;
    var sfp := sf + p;
    PingsNone(s);
    PingsNone(f);
    PingsNone([Scheduled(h)]);
    PingsAppend(s, f);
    PingsAppend(sf, p);
    PingsAppend(sfp, [Scheduled(h)]);
  }

  /** The four steps of `startService` each extend the trace; together they
      extend it by the pieces in order. Stated on its own so that the method's
      proof does not have to regroup the concatenations itself. */
  lemma RestartShape(t0: seq<Event>, t1: seq<Event>, t2: seq<Event>, t3: seq<Event>, t4: seq<Event>,
                     a: seq<Event>, r: seq<Event>, p: seq<Event>, x: seq<Event>)
    requires t1 == t0 + a && t2 == t1 + r && t3 == t2 + p && t4 == t3 + x
    ensures t4 == t0 + (a + r + p + x)
  {
  }

  /** After any restart exactly one timer is live: the new one. */
  lemma RestartLeavesOneTimer(t: seq<Event>, stop: Option<Handle>, refreshers: seq<Callback>, tags: seq<string>,
                              observers: seq<Callback>, feed: string -> Option<Body>, epoch: Epoch, h: Handle)
    requires LiveAfter({}, t) == HandleSet(stop)
    ensures LiveAfter({}, t + RestartTrace(stop, refreshers, tags, observers, feed, epoch, h)) == {h}
  {
    LiveAfterAppend({}, t, RestartTrace(stop, refreshers, tags, observers, feed, epoch, h));
  }

  class NextBusService {
    const geo: Geo.GeoService
    /** The selected route tags, in selection order. */
    var tagList: seq<string>
    var routeList: Option<seq<RouteTag>>
    var isLoaded: bool
    /** The `$interval` handle, undefined when no timer runs. */
    var stop: Option<Handle>
    /** The handle the next `$interval` call returns. */
    var nextHandle: Handle
    var observerCallbacks: seq<Callback>
    var refresherCallbacks: seq<Callback>
    var trace: seq<Event>

    /** No tag is selected twice, and the live timers are exactly the handle held. */
    ghost predicate Valid()
      reads this
    {
      && NoDup(tagList)
      && LiveAfter({}, trace) == HandleSet(stop)
      && (stop.Some? ==> stop.value < nextHandle)
    }

    /** The service object before `init` runs. */
    constructor (geo: Geo.GeoService)
      ensures Valid() && this.geo == geo
      ensures tagList == [] && routeList.None? && !isLoaded && stop.None?
      ensures observerCallbacks == [] && refresherCallbacks == [] && trace == []
    {
      this.geo := geo;
      tagList := [];
      routeList := None;
      isLoaded := false;
      stop := None;
      nextHandle := 0;
      observerCallbacks := [];
      refresherCallbacks := [];
      trace := [];
    }

    method RegisterObserver(callback: Callback)
      modifies this`observerCallbacks
      ensures observerCallbacks == old(observerCallbacks) + [callback]
    {
      observerCallbacks := observerCallbacks + [callback];
    }

    method RegisterRefresher(callback: Callback)
      modifies this`refresherCallbacks
      ensures refresherCallbacks == old(refresherCallbacks) + [callback]
    {
      refresherCallbacks := refresherCallbacks + [callback];
    }

    method NotifyObservers(data: Body)
      requires Valid()
      modifies this`trace
      ensures Valid()
      ensures trace == old(trace) + NotifyTrace(observerCallbacks, data)
    {
      var i := 0;
      while i < |observerCallbacks|
        invariant 0 <= i <= |observerCallbacks|
        invariant trace == old(trace) + NotifyTrace(observerCallbacks[..i], data)
      {
        assert observerCallbacks[..i + 1][..i] == observerCallbacks[..i];
        trace := trace + [Observed(observerCallbacks[i], data)];
        i := i + 1;
      }
      assert observerCallbacks[..i] == observerCallbacks;
      LiveKept(old(trace), NotifyTrace(observerCallbacks, data));
    }

    method NotifyRefreshers()
      requires Valid()
      modifies this`trace
      ensures Valid()
      ensures trace == old(trace) + RefreshTrace(refresherCallbacks)
    {
      var i := 0;
      while i < |refresherCallbacks|
        invariant 0 <= i <= |refresherCallbacks|
        invariant trace == old(trace) + RefreshTrace(refresherCallbacks[..i])
      {
        assert refresherCallbacks[..i + 1][..i] == refresherCallbacks[..i];
        trace := trace + [Refreshed(refresherCallbacks[i])];
        i := i + 1;
      }
      assert refresherCallbacks[..i] == refresherCallbacks;
      LiveKept(old(trace), RefreshTrace(refresherCallbacks));
    }

    /** `pingVehicleLocation(tag, callback)`: `data` is what the callback
        receives, None when the request fails. */
    method PingVehicleLocation(tag: string, feed: string -> Option<Body>) returns (data: Option<Body>)
      requires Valid()
      modifies this`trace
      ensures Valid()
      ensures data == feed(tag)
      ensures trace == old(trace) + PingOne(tag, observerCallbacks, feed, EpochOf(geo.curLoc))
    {
      trace := trace + [Pinged(tag, EpochOf(geo.curLoc))];
      LiveKept(old(trace), [Pinged(tag, EpochOf(geo.curLoc))]);
      data := feed(tag);
      if data.Some? {
        NotifyObservers(data.value);
      }
    }

    method PingAllVehicleLocations(feed: string -> Option<Body>)
      requires Valid()
      modifies this`trace
      ensures Valid()
      ensures trace == old(trace) + PingTrace(tagList, observerCallbacks, feed, EpochOf(geo.curLoc))
    {
      var i := 0;
      while i < |tagList|
        invariant 0 <= i <= |tagList|
        invariant Valid()
        invariant trace == old(trace) + PingTrace(tagList[..i], observerCallbacks, feed, EpochOf(geo.curLoc))
      {
        assert tagList[..i + 1][..i] == tagList[..i];
        var _ := PingVehicleLocation(tagList[i], feed);
        i := i + 1;
      }
      assert tagList[..i] == tagList;
    }

    /** `stopService`: cancels a running timer and forgets its handle; with
        no timer it does nothing, so a second call changes nothing. */
    method StopService()
      requires Valid()
      modifies this`stop, this`trace
      ensures Valid()
      ensures stop.None?
      ensures trace == old(trace) + StopTrace(old(stop))
    {
      if stop.Some? {
        var h := stop.value;
        ghost var before := trace;
        trace := trace + [Cancelled(h)];
        assert trace[..|trace| - 1] == before;
        assert LiveAfter({}, trace) == LiveAfter({}, before) - {h};
        stop := None;
      }
    }

    /** `startService`: cancel the old timer, empty the map-point cache,
        tell the refreshers, ping every selected tag, then schedule one new
        timer with a handle never used before. */
    method StartService(feed: string -> Option<Body>)
      requires Valid()
      modifies this`stop, this`nextHandle, this`trace, geo`mapPoints
      ensures Valid()
      ensures geo.mapPoints == map[]
      ensures stop == Some(old(nextHandle)) && nextHandle == old(nextHandle) + 1
      ensures trace == old(trace) + RestartTrace(old(stop), refresherCallbacks, tagList, observerCallbacks,
                                                 feed, EpochOf(geo.curLoc), old(nextHandle))
    {
      ghost var t0, s0 := trace, stop;
      if stop.Some? {
        StopService();
      }
      ghost var t1 := trace;
      geo.mapPoints := map[];
      NotifyRefreshers();
      ghost var t2 := trace;
      PingAllVehicleLocations(feed);
      ghost var t3 := trace;
      trace := trace + [Scheduled(nextHandle)];
      stop := Some(nextHandle);
      nextHandle := nextHandle + 1;
      RestartShape(t0, t1, t2, t3, trace, StopTrace(s0), RefreshTrace(refresherCallbacks),
                   PingTrace(tagList, observerCallbacks, feed, EpochOf(geo.curLoc)), [Scheduled(old(nextHandle))]);
      RestartLeavesOneTimer(t0, s0, refresherCallbacks, tagList, observerCallbacks,
                            feed, EpochOf(geo.curLoc), old(nextHandle));
    }

    /** `toggleTag(tag)`: flips the tag's membership in `tagList` and its
        `_selected` flag together, then restarts the service. */
    method ToggleTag(tag: RouteTag, feed: string -> Option<Body>)
      requires Valid()
      modifies this`tagList, tag`selected, this`stop, this`nextHandle, this`trace, geo`mapPoints
      ensures Valid()
      ensures tagList == Toggled(old(tagList), tag.tag)
      ensures tag.selected <==> tag.tag !in old(tagList)
      ensures tag.selected <==> tag.tag in tagList
      ensures geo.mapPoints == map[]
      ensures stop == Some(old(nextHandle))
      ensures trace == old(trace) + RestartTrace(old(stop), refresherCallbacks, tagList, observerCallbacks,
                                                 feed, EpochOf(geo.curLoc), old(nextHandle))
    {
      var t := tag.tag;
      ToggledFlips(tagList, t);
      ToggledNoDup(tagList, t);
      var index := IndexOf(tagList, t);
      if index == -1 {
        tag.selected := true;
        tagList := tagList + [t];
      } else {
        tag.selected := false;
        tagList := tagList[..index] + tagList[index + 1..];
      }
      assert tagList == Toggled(old(tagList), t);
      StartService(feed);
    }

    /** A firing of the interval: while a timer is live, ping every selected tag. */
    method Tick(feed: string -> Option<Body>)
      requires Valid()
      modifies this`trace
      ensures Valid()
      ensures stop.Some? ==> trace == old(trace) + PingTrace(tagList, observerCallbacks, feed, EpochOf(geo.curLoc))
      ensures stop.None? ==> trace == old(trace)
    {
      if stop.Some? {
        PingAllVehicleLocations(feed);
      }
    }

    /** `getRoutes(callback)`: a route list already set is returned as it
        is. Otherwise the routeList response (None when the request fails)
        becomes the list, in order, with every route unselected, and is
        handed to the callback (`delivered`). */
    method GetRoutes(response: Option<seq<RouteTag>>) returns (returned: Option<seq<RouteTag>>, delivered: Option<seq<RouteTag>>)
      modifies this`routeList, (if response.Some? then set r | r in response.value else {})`selected
      ensures old(routeList).Some? ==> returned == old(routeList) && delivered.None? && routeList == old(routeList)
      ensures old(routeList).None? ==> returned.None? && delivered == response && routeList == response
      ensures old(routeList).None? && response.Some? ==> forall r :: r in response.value ==> !r.selected
      ensures old(routeList).Some? && response.Some? ==> forall r :: r in response.value ==> r.selected == old(r.selected)
    {
      if routeList.Some? {
        return routeList, None;
      }
      returned, delivered := None, None;
      if response.Some? {
        var routes := response.value;
        var list: seq<RouteTag> := [];
        var i := 0;
        while i < |routes|
          invariant 0 <= i <= |routes|
          invariant list == routes[..i]
          invariant forall r :: r in list ==> !r.selected
        {
          routes[i].selected := false;
          list := list + [routes[i]];
          i := i + 1;
        }
        assert list == routes;
        routeList := Some(list);
        delivered := routeList;
      }
    }

    /** `init`: fetch the routes, marking the service loaded when they
        arrive, and start the service. */
    method Init(routes: Option<seq<RouteTag>>, feed: string -> Option<Body>)
      requires Valid()
      modifies this`routeList, this`isLoaded, this`stop, this`nextHandle, this`trace, geo`mapPoints,
               (if routes.Some? then set r | r in routes.value else {})`selected
      ensures Valid()
      ensures old(routeList).None? ==> routeList == routes
      ensures old(routeList).Some? ==> routeList == old(routeList)
      ensures isLoaded <==> old(isLoaded) || (old(routeList).None? && routes.Some?)
      ensures tagList == old(tagList) && geo.mapPoints == map[] && stop == Some(old(nextHandle))
      ensures observerCallbacks == old(observerCallbacks) && refresherCallbacks == old(refresherCallbacks)
      ensures old(routeList).None? && routes.Some? ==> forall r :: r in routes.value ==> !r.selected
      ensures old(routeList).Some? && routes.Some? ==> forall r :: r in routes.value ==> r.selected == old(r.selected)
      ensures trace == old(trace) + RestartTrace(old(stop), refresherCallbacks, tagList, observerCallbacks,
                                                 feed, EpochOf(geo.curLoc), old(nextHandle))
    {
      var _, delivered := GetRoutes(routes);
      if delivered.Some? {
        isLoaded := true;
      }
      StartService(feed);
    }
  }
}
