/**
 * The IoT service's telemetry processor: a bounded per-device buffer of readings, a health
 * record per device classified from its latest battery, signal and temperature readings,
 * the filtered read-back of a device's buffer and the per-status device counts.
 *
 * Times are milliseconds; the clock is the parameter `now`; date parsing of the query's
 * time bounds is done by the caller. A device id is `None` when the topic has fewer than
 * three levels (JavaScript's `undefined`, which the maps accept as a key).
 */
module Telemetry {
  import opened Wrappers
  import opened JsText

  const BufferSize: nat := 1000

  datatype Message = Message(metric: string, value: real, unit: Option<string>, timestamp: Option<int>)

  datatype Reading = Reading(deviceId: Option<string>, metric: string, value: real, unit: string, timestamp: int)

  datatype Status = Healthy | Warning | Critical

  datatype Issue = LowBattery | WeakSignal | HighTemperature

  datatype Health = Health(deviceId: Option<string>, status: Status,
                           batteryLevel: Option<real>, signalStrength: Option<real>,
                           temperature: Option<real>, uptime: Option<real>,
                           lastUpdate: int, issues: seq<Issue>)

  /** eazepay/devices/{deviceId}/telemetry: the third level of the topic. */
  function DeviceIdOf(topic: string): Option<string>
  {
    var parts := Split(topic, '/');
    if |parts| > 2 then Some(parts[2]) else None
  }

  /** The third level of a topic is its device id, whatever follows it. */
  lemma DeviceIdOfTopic(root: string, kind: string, device: string, suffix: string)
    requires '/' !in root && '/' !in kind && '/' !in device
    ensures DeviceIdOf(root + ['/'] + (kind + ['/'] + (device + ['/'] + suffix))) == Some(device)
  {
    var t3 := device + ['/'] + suffix;
    var t2 := kind + ['/'] + t3;
    SplitCons(device, '/', suffix);
    SplitCons(kind, '/', t3);
    SplitCons(root, '/', t2);
  }

  /** A topic of one or two levels names no device. */
  lemma ShortTopicHasNoDevice(a: string, b: string)
    requires '/' !in a && '/' !in b
    ensures DeviceIdOf(a) == None
    ensures DeviceIdOf(a + ['/'] + b) == None
  {
    SplitCons(a, '/', b);
  }

  /** The stored reading: `unit || ''` and `timestamp || Date.now()`. */
  function ReadingOf(deviceId: Option<string>, m: Message, now: int): (r: Reading)
    ensures r.unit == (if m.unit.Some? then m.unit.value else "")
    ensures r.timestamp == (if m.timestamp.Some? && m.timestamp.value != 0 then m.timestamp.value else now)
    ensures r.deviceId == deviceId && r.metric == m.metric && r.value == m.value
  {
    Reading(deviceId, m.metric, m.value, if m.unit.Some? then m.unit.value else "",
            if m.timestamp.Some? && m.timestamp.value != 0 then m.timestamp.value else now)
  }

  /** The last `n` elements of `s` (all of it when shorter). */
  function LastN<T>(s: seq<T>, n: nat): (r: seq<T>)
    ensures |r| == if |s| <= n then |s| else n
  {
    if |s| <= n then s else s[|s| - n..]
  }

  /** push, then shift when over the bound. */
  function Push(buf: seq<Reading>, r: Reading): seq<Reading>
  {
    var b := buf + [r];
    if |b| > BufferSize then b[1..] else b
  }

  /** A buffer that holds the last 1000 readings of a history still does after one more. */
  lemma PushKeepsWindow(history: seq<Reading>, r: Reading)
    ensures Push(LastN(history, BufferSize), r) == LastN(history + [r], BufferSize)
    ensures |Push(LastN(history, BufferSize), r)| <= BufferSize
    ensures Push(LastN(history, BufferSize), r)[|Push(LastN(history, BufferSize), r)| - 1] == r
  {
    var h := history + [r];
    if |history| >= BufferSize {
      assert LastN(history, BufferSize) + [r] == history[|history| - BufferSize..] + [r];
      assert (history[|history| - BufferSize..] + [r])[1..] == h[|h| - BufferSize..];
    }
  }

  function Issues(battery: Option<real>, signal: Option<real>, temperature: Option<real>): (issues: seq<Issue>)
    ensures LowBattery in issues <==> battery.Some? && battery.value < 20.0
    ensures WeakSignal in issues <==> signal.Some? && signal.value < 30.0
    ensures HighTemperature in issues <==> temperature.Some? && temperature.value > 60.0
    ensures |issues| <= 3
  {
    (if battery.Some? && battery.value < 20.0 then [LowBattery] else [])
    + (if signal.Some? && signal.value < 30.0 then [WeakSignal] else [])
    + (if temperature.Some? && temperature.value > 60.0 then [HighTemperature] else [])
  }

  function StatusOf(issueCount: nat): Status
  {
    if issueCount == 0 then Healthy else if issueCount <= 2 then Warning else Critical
  }

  /** `updateDeviceHealth`: record the reading's metric, stamp the time, recompute issues and status. */
  function UpdateHealth(h: Option<Health>, deviceId: Option<string>, r: Reading): (g: Health)
    ensures g.lastUpdate == r.timestamp && g.deviceId == (if h.Some? then h.value.deviceId else deviceId)
    ensures g.issues == Issues(g.batteryLevel, g.signalStrength, g.temperature)
  {
    var base := if h.Some? then h.value else Health(deviceId, Healthy, None, None, None, None, r.timestamp, []);
    var b :=
      if r.metric == "battery_level" then base.(batteryLevel := Some(r.value))
      else if r.metric == "signal_strength" then base.(signalStrength := Some(r.value))
      else if r.metric == "temperature" then base.(temperature := Some(r.value))
      else if r.metric == "uptime" then base.(uptime := Some(r.value))
      else base;
    var issues := Issues(b.batteryLevel, b.signalStrength, b.temperature);
    b.(lastUpdate := r.timestamp, issues := issues, status := StatusOf(|issues|))
  }

  /** The status is HEALTHY with no issue, CRITICAL only with all three, WARNING otherwise. */
  lemma StatusClassification(h: Option<Health>, deviceId: Option<string>, r: Reading)
    ensures var g := UpdateHealth(h, deviceId, r);
      && (g.status == Healthy <==> g.issues == [])
      && (g.status == Critical <==> LowBattery in g.issues && WeakSignal in g.issues && HighTemperature in g.issues)
      && (g.status == Warning <==> g.issues != [] && !(LowBattery in g.issues && WeakSignal in g.issues && HighTemperature in g.issues))
  {
  }

  /** A reading records its own metric and leaves the other three readings as they were. */
  lemma UpdateRecordsMetric(h: Health, r: Reading)
    ensures var g := UpdateHealth(Some(h), h.deviceId, r);
      && g.batteryLevel == (if r.metric == "battery_level" then Some(r.value) else h.batteryLevel)
      && g.signalStrength == (if r.metric == "signal_strength" then Some(r.value) else h.signalStrength)
      && g.temperature == (if r.metric == "temperature" then Some(r.value) else h.temperature)
      && g.uptime == (if r.metric == "uptime" then Some(r.value) else h.uptime)
  {
  }

  /** A first low-battery reading on a new device gives a WARNING with just that issue. */
  lemma FirstLowBattery(deviceId: Option<string>, r: Reading)
    requires r.metric == "battery_level" && r.value < 20.0
    ensures UpdateHealth(None, deviceId, r).issues == [LowBattery]
    ensures UpdateHealth(None, deviceId, r).status == Warning
  {
  }

  datatype Alert = CriticalBattery | OverTemperature | SignalLost

  /** `checkAlerts`: the warnings a single reading raises. */
  function AlertsFor(r: Reading): (alerts: seq<Alert>)
    ensures CriticalBattery in alerts <==> r.metric == "battery_level" && r.value < 10.0
    ensures OverTemperature in alerts <==> r.metric == "temperature" && r.value > 70.0
    ensures SignalLost in alerts <==> r.metric == "signal_strength" && r.value < 20.0
    ensures |alerts| <= 1
  {
    if r.metric == "battery_level" && r.value < 10.0 then [CriticalBattery]
    else if r.metric == "temperature" && r.value > 70.0 then [OverTemperature]
    else if r.metric == "signal_strength" && r.value < 20.0 then [SignalLost]
    else []
  }

  /** A reading that raises an alert also raises the matching health issue. */
  lemma AlertImpliesIssue(h: Option<Health>, deviceId: Option<string>, r: Reading)
    ensures CriticalBattery in AlertsFor(r) ==> LowBattery in UpdateHealth(h, deviceId, r).issues
    ensures OverTemperature in AlertsFor(r) ==> HighTemperature in UpdateHealth(h, deviceId, r).issues
    ensures SignalLost in AlertsFor(r) ==> WeakSignal in UpdateHealth(h, deviceId, r).issues
  {
  }

  /** The query filters: a metric name ("" for none) and optional inclusive time bounds. */
  predicate Selected(d: Reading, metric: string, start: Option<int>, end: Option<int>)
  {
    (metric == "" || d.metric == metric)
    && (start.None? || d.timestamp >= start.value)
    && (end.None? || d.timestamp <= end.value)
  }

  function Select(data: seq<Reading>, metric: string, start: Option<int>, end: Option<int>): (r: seq<Reading>)
    ensures |r| <= |data|
  {
    if data == [] then []
    else Select(data[..|data| - 1], metric, start, end)
         + (if Selected(data[|data| - 1], metric, start, end) then [data[|data| - 1]] else [])
  }

  /** Exactly the readings that pass the filters are selected. */
  lemma {:induction false} SelectMembers(data: seq<Reading>, metric: string, start: Option<int>, end: Option<int>)
    ensures forall d :: d in Select(data, metric, start, end) <==> d in data && Selected(d, metric, start, end)
    decreases |data|
  {
    if data != [] {
      SelectMembers(data[..|data| - 1], metric, start, end);
      assert data == data[..|data| - 1] + [data[|data| - 1]];
    }
  }

  /** Filtering keeps arrival order: the selection of a concatenation is the concatenation of selections. */
  lemma {:induction false} SelectAppend(a: seq<Reading>, b: seq<Reading>, metric: string, start: Option<int>, end: Option<int>)
    ensures Select(a + b, metric, start, end) == Select(a, metric, start, end) + Select(b, metric, start, end)
    decreases |b|
  {
    if b != [] {
      SelectAppend(a, b[..|b| - 1], metric, start, end);
      assert (a + b)[..|a + b| - 1] == a + b[..|b| - 1];
      assert (a + b)[|a + b| - 1] == b[|b| - 1];
    } else {
      assert a + b == a;
    }
  }

  /** With no filter the whole buffer comes back. */
  lemma {:induction false} SelectAll(data: seq<Reading>)
    ensures Select(data, "", None, None) == data
    decreases |data|
  {
    if data != [] {
      SelectAll(data[..|data| - 1]);
    }
  }

  function CountStatus(health: map<Option<string>, Health>, s: Status): nat
  {
    |set k | k in health && health[k].status == s|
  }

  /** Every known device is counted exactly once across the three statuses. */
  lemma CountsPartition(health: map<Option<string>, Health>)
    ensures CountStatus(health, Healthy) + CountStatus(health, Warning) + CountStatus(health, Critical) == |health|
  {
    var a := set k | k in health && health[k].status == Healthy;
    var b := set k | k in health && health[k].status == Warning;
    var c := set k | k in health && health[k].status == Critical;
    assert a !! b && a !! c && b !! c;
    forall k | k in health.Keys
      ensures k in a + b + c
    {
      match health[k].status
      case Healthy => assert k in a;
      case Warning => assert k in b;
      case Critical => assert k in c;
    }
    assert a + b + c == health.Keys;
  }

  /** Each buffer holds exactly the last 1000 readings its device sent. */
  ghost predicate BuffersAreWindows(buffers: map<Option<string>, seq<Reading>>, received: map<Option<string>, seq<Reading>>)
  {
    && buffers.Keys == received.Keys
    && forall k :: k in buffers ==> buffers[k] == LastN(received[k], BufferSize)
  }

  /** Pushing one reading onto one device's buffer keeps every buffer a window of its history. */
  lemma PushKeepsWindows(buffers: map<Option<string>, seq<Reading>>, received: map<Option<string>, seq<Reading>>,
                         id: Option<string>, history: seq<Reading>, r: Reading)
    requires BuffersAreWindows(buffers, received)
    requires history == (if id in received then received[id] else [])
    ensures BuffersAreWindows(buffers[id := LastN(history + [r], BufferSize)], received[id := history + [r]])
  {
    var b' := buffers[id := LastN(history + [r], BufferSize)];
    var r' := received[id := history + [r]];
    forall k | k in b'
      ensures b'[k] == LastN(r'[k], BufferSize)
    {
      if k != id {
        assert b'[k] == buffers[k] && r'[k] == received[k];
      }
    }
  }

  class TelemetryProcessor {
    var telemetryData: map<Option<string>, seq<Reading>>
    var deviceHealth: map<Option<string>, Health>
    /** Every reading each device has sent, oldest first. */
    ghost var received: map<Option<string>, seq<Reading>>

    ghost predicate Valid()
      reads this
    {
      BuffersAreWindows(telemetryData, received)
    }

    constructor()
      ensures Valid() && telemetryData == map[] && deviceHealth == map[]
    {
      telemetryData := map[];
      deviceHealth := map[];
      received := map[];
    }

    /** `processTelemetry`: the device id is the topic's third level; store the reading, then update the device's health. */
    method ProcessTelemetry(topic: string, message: Message, now: int)
      requires Valid()
      modifies this
      ensures Valid()
      ensures var id := DeviceIdOf(topic);
        var r := ReadingOf(id, message, now);
        && received == old(received)[id := (if id in old(received) then old(received)[id] else []) + [r]]
        && telemetryData == old(telemetryData)[id := Push(if id in old(telemetryData) then old(telemetryData)[id] else [], r)]
        && deviceHealth == old(deviceHealth)[id := UpdateHealth(if id in old(deviceHealth) then Some(old(deviceHealth)[id]) else None, id, r)]
    {
      var id := DeviceIdOf(topic);
      var r := ReadingOf(id, message, now);
      StoreReading(id, r);
      UpdateDeviceHealth(id, r);
    }

    /** The buffering step: append the reading to its device's buffer and shift out the oldest beyond 1000. */
    method StoreReading(id: Option<string>, r: Reading)
      requires Valid()
      modifies this
      ensures Valid()
      ensures received == old(received)[id := (if id in old(received) then old(received)[id] else []) + [r]]
      ensures telemetryData == old(telemetryData)[id := Push(if id in old(telemetryData) then old(telemetryData)[id] else [], r)]
      ensures deviceHealth == old(deviceHealth)
    {
      var history := if id in received then received[id] else [];
      var data := if id in telemetryData then telemetryData[id] else [];
      assert data == LastN(history, BufferSize);
      PushKeepsWindow(history, r);
      PushKeepsWindows(telemetryData, received, id, history, r);
      telemetryData := telemetryData[id := Push(data, r)];
      received := received[id := history + [r]];
    }

    /** `updateDeviceHealth`: the device's record (a fresh one for a new device) updated from the reading. */
    method UpdateDeviceHealth(id: Option<string>, r: Reading)
      modifies this
      ensures deviceHealth == old(deviceHealth)[id := UpdateHealth(if id in old(deviceHealth) then Some(old(deviceHealth)[id]) else None, id, r)]
      ensures telemetryData == old(telemetryData) && received == old(received)
    {
      var h := if id in deviceHealth then Some(deviceHealth[id]) else None;
      deviceHealth := deviceHealth[id := UpdateHealth(h, id, r)];
    }

    /** `getTelemetry`: the device's buffer (empty when unknown) filtered, in arrival order. */
    function GetTelemetry(deviceId: Option<string>, metric: string, start: Option<int>, end: Option<int>): (r: seq<Reading>)
      reads this
      ensures deviceId !in telemetryData ==> r == []
      ensures forall d :: d in r <==> deviceId in telemetryData && d in telemetryData[deviceId] && Selected(d, metric, start, end)
      ensures deviceId in telemetryData ==> |r| <= |telemetryData[deviceId]|
    {
      var buffer := if deviceId in telemetryData then telemetryData[deviceId] else [];
      SelectMembers(buffer, metric, start, end);
      Select(buffer, metric, start, end)
    }

    function GetDeviceHealth(deviceId: Option<string>): (h: Option<Health>)
      reads this
      ensures h.Some? <==> deviceId in deviceHealth
      ensures h.Some? ==> h.value == deviceHealth[deviceId]
    {
      if deviceId in deviceHealth then Some(deviceHealth[deviceId]) else None
    }

    function HealthyDevicesCount(): nat
      reads this
    {
      CountStatus(deviceHealth, Healthy)
    }

    function WarningDevicesCount(): nat
      reads this
    {
      CountStatus(deviceHealth, Warning)
    }

    function CriticalDevicesCount(): nat
      reads this
    {
      CountStatus(deviceHealth, Critical)
    }

    /** The three counts add up to the number of devices seen. */
    lemma CountsAddUp()
      ensures HealthyDevicesCount() + WarningDevicesCount() + CriticalDevicesCount() == |deviceHealth|
    {
      CountsPartition(deviceHealth);
    }
  }
}
