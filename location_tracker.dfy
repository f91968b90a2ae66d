/**
 * The IoT service's location tracker: the current location of each agent, a bounded history
 * per agent, the filtered and limited read-back of a history and the agents within a radius
 * of a point, nearest first.
 *
 * The haversine distance is the parameter `distance` (floating point is not modelled); the
 * clock is `now`; date parsing of the query's time bounds is done by the caller. Agent ids
 * come from the topic exactly as device ids do for telemetry.
 */
module LocationTracking {
  import opened Wrappers
  import opened JsText
  import Telemetry

  const HistorySize: nat := 1000

  datatype Message = Message(latitude: real, longitude: real, accuracy: Option<real>,
                             altitude: Option<real>, speed: Option<real>, heading: Option<real>,
                             timestamp: Option<int>, address: Option<string>)

  datatype Location = Location(agentId: Option<string>, latitude: real, longitude: real, accuracy: real,
                               altitude: Option<real>, speed: Option<real>, heading: Option<real>,
                               timestamp: int, address: Option<string>)

  /** The stored location: `accuracy || 0` and `timestamp || Date.now()`. */
  function LocationOf(agentId: Option<string>, m: Message, now: int): (loc: Location)
    ensures loc.accuracy == (if m.accuracy.Some? then m.accuracy.value else 0.0)
    ensures loc.timestamp == (if m.timestamp.Some? && m.timestamp.value != 0 then m.timestamp.value else now)
    ensures loc.agentId == agentId && loc.latitude == m.latitude && loc.longitude == m.longitude
  {
    Location(agentId, m.latitude, m.longitude, if m.accuracy.Some? then m.accuracy.value else 0.0,
             m.altitude, m.speed, m.heading,
             if m.timestamp.Some? && m.timestamp.value != 0 then m.timestamp.value else now, m.address)
  }

  predicate InWindow(loc: Location, start: Option<int>, end: Option<int>)
  {
    (start.None? || loc.timestamp >= start.value) && (end.None? || loc.timestamp <= end.value)
  }

  function Window(history: seq<Location>, start: Option<int>, end: Option<int>): (r: seq<Location>)
    ensures forall loc :: loc in r <==> loc in history && InWindow(loc, start, end)
    ensures |r| <= |history|
  {
    if history == [] then []
    else Window(history[..|history| - 1], start, end)
         + (if InWindow(history[|history| - 1], start, end) then [history[|history| - 1]] else [])
  }

  /** `getLocationHistory` as written: `filtered.slice(-limit)`, where a limit of 0 slices from 0. */
  function HistoryAsWritten(history: seq<Location>, start: Option<int>, end: Option<int>, limit: int): seq<Location>
  {
    SliceFrom(Window(history, start, end), -limit)
  }

  /** `getLocationHistory` as intended: the last `limit` entries in the window, none for a limit of 0. */
  function History(history: seq<Location>, start: Option<int>, end: Option<int>, limit: int): (r: seq<Location>)
    ensures limit <= 0 ==> r == []
    ensures limit > 0 ==> |r| == (if |Window(history, start, end)| <= limit then |Window(history, start, end)| else limit)
    ensures r == Window(history, start, end)[|Window(history, start, end)| - |r|..]
  {
    if limit <= 0 then [] else Telemetry.LastN(Window(history, start, end), limit)
  }

  /** For a positive limit the code does what was intended. */
  lemma HistoryAgreesForPositiveLimit(history: seq<Location>, start: Option<int>, end: Option<int>, limit: int)
    requires limit > 0
    ensures HistoryAsWritten(history, start, end, limit) == History(history, start, end, limit)
  {
  }

  /** The discrepancy: asking for no entries returns the whole window. */
  lemma ZeroLimitReturnsEverything(history: seq<Location>, start: Option<int>, end: Option<int>)
    ensures HistoryAsWritten(history, start, end, 0) == Window(history, start, end)
    ensures History(history, start, end, 0) == []
  {
  }

  /** A negative limit, as written, drops the oldest entries instead of returning the newest. */
  lemma NegativeLimitDropsOldest(history: seq<Location>, start: Option<int>, end: Option<int>, k: int)
    requires k > 0
    ensures var w := Window(history, start, end);
      HistoryAsWritten(history, start, end, -k) == w[if k <= |w| then k else |w|..]
    ensures History(history, start, end, -k) == []
  {
  }

  /** Concrete histories make the discrepancy plain: limit 0 returns the entry, limit -1 the newer one. */
  lemma NonPositiveLimitExample(a: Location, b: Location)
    ensures HistoryAsWritten([a], None, None, 0) == [a] && History([a], None, None, 0) == []
    ensures HistoryAsWritten([a, b], None, None, -1) == [b] && History([a, b], None, None, -1) == []
  {
    assert Window([a], None, None) == [a] by {
      assert [a][..0] == [];
    }
    assert Window([a, b], None, None) == [a, b] by {
      assert [a, b][..1] == [a];
      assert [a, b][..1][..0] == [];
    }
  }

  /** The routes' `parseInt(limit) || 100`: a missing, unparsable or zero limit becomes 100. */
  function RouteLimit(parsed: Option<int>): (limit: int)
    ensures limit != 0
    ensures parsed.Some? && parsed.value != 0 ==> limit == parsed.value
  {
    if parsed.Some? && parsed.value != 0 then parsed.value else 100
  }

  /** Through the routes a limit of 0 never arrives, but a negative one does. */
  lemma RouteLimitExamples()
    ensures RouteLimit(Some(0)) == 100 && RouteLimit(None) == 100 && RouteLimit(Some(-5)) == -5
  {
  }

  datatype Nearby = Nearby(agentId: Option<string>, location: Location, distance: real)

  function EntryOf(id: Option<string>, locs: map<Option<string>, Location>, lat: real, lon: real,
                   distance: (real, real, real, real) -> real): Nearby
    requires id in locs
  {
    Nearby(id, locs[id], distance(lat, lon, locs[id].latitude, locs[id].longitude))
  }

  /** The agents of `ids`, in that order, whose distance is within the radius. */
  function Candidates(ids: seq<Option<string>>, locs: map<Option<string>, Location>, lat: real, lon: real,
                      radius: real, distance: (real, real, real, real) -> real): (r: seq<Nearby>)
    requires forall id :: id in ids ==> id in locs
    ensures forall e :: e in r ==> e.agentId in ids && e == EntryOf(e.agentId, locs, lat, lon, distance) && e.distance <= radius
    ensures forall id :: id in ids && EntryOf(id, locs, lat, lon, distance).distance <= radius ==>
              EntryOf(id, locs, lat, lon, distance) in r
  {
    if ids == [] then []
    else
      var last := ids[|ids| - 1];
      var e := EntryOf(last, locs, lat, lon, distance);
      assert forall id :: id in ids ==> id in ids[..|ids| - 1] || id == last;
      Candidates(ids[..|ids| - 1], locs, lat, lon, radius, distance) + (if e.distance <= radius then [e] else [])
  }

  predicate SortedByDistance(s: seq<Nearby>)
  {
    forall i, j :: 0 <= i < j < |s| ==> s[i].distance <= s[j].distance
  }

  /** Place `x` before the first entry that is not nearer than it. */
  function Insert(x: Nearby, s: seq<Nearby>): seq<Nearby>
  {
    if s == [] || x.distance <= s[0].distance then [x] + s
    else [s[0]] + Insert(x, s[1..])
  }

  lemma {:induction false} InsertPerm(x: Nearby, s: seq<Nearby>)
    ensures multiset(Insert(x, s)) == multiset(s) + multiset{x}
  {
    if !(s == [] || x.distance <= s[0].distance) {
      InsertPerm(x, s[1..]);
      assert s == [s[0]] + s[1..];
    }
  }

  lemma {:induction false} InsertSorted(x: Nearby, s: seq<Nearby>)
    requires SortedByDistance(s)
    ensures SortedByDistance(Insert(x, s))
    ensures forall j :: 0 <= j < |Insert(x, s)| ==>
              Insert(x, s)[j].distance >= x.distance || Insert(x, s)[j].distance >= (if s == [] then x.distance else s[0].distance)
  {
    var r := Insert(x, s);
    if s == [] || x.distance <= s[0].distance {
      assert r == [x] + s;
    } else {
      InsertSorted(x, s[1..]);
      assert r == [s[0]] + Insert(x, s[1..]);
    }
  }

  /** `sort((a, b) => a.distance - b.distance)`: nearest first, the same entries. */
  function SortByDistance(s: seq<Nearby>): (r: seq<Nearby>)
    ensures SortedByDistance(r)
    ensures multiset(r) == multiset(s)
  {
    if s == [] then []
    else
      var t := SortByDistance(s[1..]);
      InsertSorted(s[0], t);
      InsertPerm(s[0], t);
      assert s == [s[0]] + s[1..];
      Insert(s[0], t)
  }

  /** The entries of `s` at distance `d`, in their order in `s`. */
  function AtDistance(s: seq<Nearby>, d: real): (r: seq<Nearby>)
    ensures |r| <= |s|
  {
    if s == [] then []
    else (if s[0].distance == d then [s[0]] else []) + AtDistance(s[1..], d)
  }

  /** Inserting `x` puts it ahead of every entry at its own distance. */
  lemma {:induction false} InsertAtDistance(x: Nearby, s: seq<Nearby>, d: real)
    ensures AtDistance(Insert(x, s), d) == (if x.distance == d then [x] else []) + AtDistance(s, d)
  {
    if s == [] || x.distance <= s[0].distance {
      assert ([x] + s)[1..] == s;
    } else {
      InsertAtDistance(x, s[1..], d);
      assert ([s[0]] + Insert(x, s[1..]))[1..] == Insert(x, s[1..]);
    }
  }

  /**
   * The sort is stable (as `Array.prototype.sort` is required to be): entries at the same
   * distance keep their input order.
   */
  lemma {:induction false} SortByDistanceStable(s: seq<Nearby>, d: real)
    ensures AtDistance(SortByDistance(s), d) == AtDistance(s, d)
  {
    if s != [] {
      SortByDistanceStable(s[1..], d);
      InsertAtDistance(s[0], SortByDistance(s[1..]), d);
    }
  }

  class LocationTracker {
    var locations: map<Option<string>, Location>
    /** The keys of `locations` in insertion order (the iteration order of a JavaScript Map). */
    var order: seq<Option<string>>
    var locationHistory: map<Option<string>, seq<Location>>
    /** Every location each agent has reported, oldest first. */
    ghost var received: map<Option<string>, seq<Location>>

    ghost predicate Valid()
      reads this
    {
      && (forall i, j :: 0 <= i < j < |order| ==> order[i] != order[j])
      && (forall id :: id in order <==> id in locations)
      && locationHistory.Keys == received.Keys
      && (forall id :: id in locationHistory ==> locationHistory[id] == Telemetry.LastN(received[id], HistorySize))
    }

    constructor()
      ensures Valid() && locations == map[] && locationHistory == map[]
    {
      locations := map[];
      order := [];
      locationHistory := map[];
      received := map[];
    }

    /** `processLocationUpdate`: replace the current location and append to the bounded history. */
    method ProcessLocationUpdate(topic: string, message: Message, now: int)
      requires Valid()
      modifies this
      ensures Valid()
      ensures var id := Telemetry.DeviceIdOf(topic);
        var loc := LocationOf(id, message, now);
        && locations == old(locations)[id := loc]
        && order == (if id in old(locations) then old(order) else old(order) + [id])
        && received == old(received)[id := (if id in old(received) then old(received)[id] else []) + [loc]]
    {
      var id := Telemetry.DeviceIdOf(topic);
      var loc := LocationOf(id, message, now);
      if id !in locations {
        AppendFresh(order, id);
        order := order + [id];
      }
      locations := locations[id := loc];
      var past := if id in received then received[id] else [];
      var history := if id in locationHistory then locationHistory[id] else [];
      assert history == Telemetry.LastN(past, HistorySize);
      LastNPush(past, loc);
      history := history + [loc];
      if |history| > HistorySize {
        history := history[1..];
      }
      assert history == Telemetry.LastN(past + [loc], HistorySize);
      locationHistory := locationHistory[id := history];
      received := received[id := past + [loc]];
      WindowsKept(old(locationHistory), old(received), id, past, loc);
    }

    /** Every history holds at most 1000 locations and ends with the agent's latest report. */
    lemma HistoryBounded(id: Option<string>)
      requires Valid() && id in locationHistory
      ensures |locationHistory[id]| <= HistorySize
      ensures received[id] != [] ==> locationHistory[id] != [] && locationHistory[id][|locationHistory[id]| - 1] == received[id][|received[id]| - 1]
    {
    }

    function GetAgentLocation(agentId: Option<string>): (loc: Option<Location>)
      reads this
      ensures loc.Some? <==> agentId in locations
      ensures loc.Some? ==> loc.value == locations[agentId]
    {
      if agentId in locations then Some(locations[agentId]) else None
    }

    /** `getLocationHistory`, corrected: the agent's last `limit` locations in the window, oldest first; none for a limit of 0 or less. */
    function GetLocationHistory(agentId: Option<string>, start: Option<int>, end: Option<int>, limit: int): (r: seq<Location>)
      reads this
      ensures agentId !in locationHistory ==> r == []
      ensures forall loc :: loc in r ==> InWindow(loc, start, end) && agentId in locationHistory && loc in locationHistory[agentId]
      ensures |r| <= (if limit <= 0 then 0 else limit)
      ensures r == History(if agentId in locationHistory then locationHistory[agentId] else [], start, end, limit)
    {
      var h := if agentId in locationHistory then locationHistory[agentId] else [];
      var r := History(h, start, end, limit);
      assert forall loc :: loc in r ==> loc in Window(h, start, end);
      r
    }

    /** `getNearbyAgents`: every tracked agent within the radius, and only those, nearest first. */
    method GetNearbyAgents(lat: real, lon: real, radius: real, distance: (real, real, real, real) -> real)
      returns (r: seq<Nearby>)
      requires Valid()
      ensures SortedByDistance(r)
      ensures multiset(r) == multiset(Candidates(order, locations, lat, lon, radius, distance))
      ensures forall e :: e in r ==> e.agentId in locations && e == EntryOf(e.agentId, locations, lat, lon, distance) && e.distance <= radius
      ensures forall id :: id in locations && EntryOf(id, locations, lat, lon, distance).distance <= radius ==>
                EntryOf(id, locations, lat, lon, distance) in r
    {
      var nearby: seq<Nearby> := [];
      var i := 0;
      while i < |order|
        invariant 0 <= i <= |order|
        invariant nearby == Candidates(order[..i], locations, lat, lon, radius, distance)
      {
        var id := order[i];
        var loc := locations[id];
        var d := distance(lat, lon, loc.latitude, loc.longitude);
        if d <= radius {
          nearby := nearby + [Nearby(id, loc, d)];
        }
        assert order[..i + 1][..i] == order[..i];
        i := i + 1;
      }
      assert order[..i] == order;
      r := SortByDistance(nearby);
      forall e | e in r
        ensures e in nearby
      {
        assert e in multiset(r);
      }
      forall id | id in locations && EntryOf(id, locations, lat, lon, distance).distance <= radius
        ensures EntryOf(id, locations, lat, lon, distance) in r
      {
        assert EntryOf(id, locations, lat, lon, distance) in multiset(nearby);
      }
    }

    function GetTrackedAgentsCount(): (n: nat)
      reads this
      ensures n == |locations|
    {
      |locations|
    }

    /** Each tracked agent appears once in the iteration order, so the count is the number of agents iterated. */
    lemma TrackedCountIsOrderLength()
      requires Valid()
      ensures GetTrackedAgentsCount() == |order|
    {
      DistinctCard(order, locations.Keys);
    }
  }

  lemma {:induction false} DistinctCard<T>(s: seq<T>, keys: set<T>)
    requires forall i, j :: 0 <= i < j < |s| ==> s[i] != s[j]
    requires forall x :: x in s <==> x in keys
    ensures |keys| == |s|
    decreases |s|
  {
    if s != [] {
      var last := s[|s| - 1];
      var rest := s[..|s| - 1];
      assert forall x :: x in rest <==> x in keys - {last} by {
        forall x
          ensures x in rest <==> x in keys - {last}
        {
          if x in rest {
            var k :| 0 <= k < |rest| && rest[k] == x;
            assert s[k] == x;
          }
          if x in keys - {last} {
            assert x in s;
            var k :| 0 <= k < |s| && s[k] == x;
            assert k != |s| - 1;
            assert rest[k] == x;
          }
        }
      }
      DistinctCard(rest, keys - {last});
    }
  }

  lemma WindowsKept(hist: map<Option<string>, seq<Location>>, recv: map<Option<string>, seq<Location>>,
                    id: Option<string>, past: seq<Location>, loc: Location)
    requires hist.Keys == recv.Keys
    requires forall k :: k in hist ==> hist[k] == Telemetry.LastN(recv[k], HistorySize)
    requires past == if id in recv then recv[id] else []
    ensures var h := Telemetry.LastN(past + [loc], HistorySize);
      var hist' := hist[id := h];
      var recv' := recv[id := past + [loc]];
      hist'.Keys == recv'.Keys && forall k :: k in hist' ==> hist'[k] == Telemetry.LastN(recv'[k], HistorySize)
  {
  }

  lemma AppendFresh<T>(s: seq<T>, x: T)
    requires forall i, j :: 0 <= i < j < |s| ==> s[i] != s[j]
    requires x !in s
    ensures forall i, j :: 0 <= i < j < |s + [x]| ==> (s + [x])[i] != (s + [x])[j]
  {
    forall i, j | 0 <= i < j < |s + [x]|
      ensures (s + [x])[i] != (s + [x])[j]
    {
      if j == |s| {
        assert (s + [x])[i] == s[i];
      }
    }
  }

  /** A history that holds the last 1000 locations still does after one more. */
  lemma LastNPush(past: seq<Location>, loc: Location)
    ensures var h := Telemetry.LastN(past, HistorySize) + [loc];
      (if |h| > HistorySize then h[1..] else h) == Telemetry.LastN(past + [loc], HistorySize)
  {
    var all := past + [loc];
    if |past| >= HistorySize {
      assert (past[|past| - HistorySize..] + [loc])[1..] == all[|all| - HistorySize..];
    }
  }
}
