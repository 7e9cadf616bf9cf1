/** Incident records built from vCenter events, and their statistics.
    Each builder receives the events the VMware client returned (or the
    error it raised) instead of querying vCenter. */
module IncidentCollector {
  import opened Wrappers
  import opened PyValues
  import opened Stats

  type Event = Dict
  type Incident = Dict

  const SecondsPerDay := 86400

  // =====================================================================
  // Event fields

  /** `event.get('eventTypeId', '')` is a string, so `in` can search it. */
  predicate TypeIsText(ev: Event) {
    "eventTypeId" !in ev || ev["eventTypeId"].VStr?
  }

  predicate AllText(events: seq<Event>) {
    forall k :: 0 <= k < |events| ==> TypeIsText(events[k])
  }

  function EventType(ev: Event): string
    requires TypeIsText(ev)
  {
    if "eventTypeId" in ev then ev["eventTypeId"].s else ""
  }

  // =====================================================================
  // Severity, root cause and resolution estimates

  const CriticalEvents: seq<Value> := [VStr("VmFailedToPowerOnEvent"), VStr("HostConnectionLostEvent")]
  const HighEvents: seq<Value> := [VStr("VmSuspendedEvent"), VStr("HostDisconnectedEvent")]
  const MediumEvents: seq<Value> := [VStr("VmMigrateFailedEvent"), VStr("DvsPortLinkDownEvent")]

  /** The severity of an event, by exact event type. */
  function DetermineSeverity(ev: Event): (severity: string)
    ensures severity in {"critical", "high", "medium", "low"}
    ensures var t := GetOr(ev, "eventTypeId", VStr(""));
      && (severity == "critical" <==> t in CriticalEvents)
      && (severity == "high" <==> t !in CriticalEvents && t in HighEvents)
      && (severity == "medium" <==> t !in CriticalEvents && t !in HighEvents && t in MediumEvents)
      && (severity == "low" <==> t !in CriticalEvents + HighEvents + MediumEvents)
  {
    var eventType := GetOr(ev, "eventTypeId", VStr(""));
    if eventType in CriticalEvents then "critical"
    else if eventType in HighEvents then "high"
    else if eventType in MediumEvents then "medium"
    else "low"
  }

  /** Each of the six listed event types has its own level (the three lists are
      disjoint, so the order of the tests does not matter), and an event with
      no type or any other type is "low". */
  lemma SeverityTable(ev: Event)
    ensures GetOr(ev, "eventTypeId", VStr("")) in CriticalEvents ==> DetermineSeverity(ev) == "critical"
    ensures GetOr(ev, "eventTypeId", VStr("")) in HighEvents ==> DetermineSeverity(ev) == "high"
    ensures GetOr(ev, "eventTypeId", VStr("")) in MediumEvents ==> DetermineSeverity(ev) == "medium"
    ensures "eventTypeId" !in ev ==> DetermineSeverity(ev) == "low"
  {
    var t := GetOr(ev, "eventTypeId", VStr(""));
    if t in HighEvents {
      assert t !in CriticalEvents by {
        assert |HighEvents[0].s| != |CriticalEvents[0].s| && |HighEvents[0].s| != |CriticalEvents[1].s|;
        assert |HighEvents[1].s| != |CriticalEvents[0].s| && |HighEvents[1].s| != |CriticalEvents[1].s|;
      }
    }
    if t in MediumEvents {
      assert t !in CriticalEvents + HighEvents by {
        assert MediumEvents[0].s[2] != CriticalEvents[0].s[2] && |MediumEvents[0].s| != |CriticalEvents[1].s|;
        assert |MediumEvents[0].s| != |HighEvents[0].s| && |MediumEvents[0].s| != |HighEvents[1].s|;
        assert |MediumEvents[1].s| != |CriticalEvents[0].s| && |MediumEvents[1].s| != |CriticalEvents[1].s|;
        assert |MediumEvents[1].s| != |HighEvents[0].s| && |MediumEvents[1].s| != |HighEvents[1].s|;
      }
    }
  }

  /** The root cause, from the first marker the event type contains, in the
      order PowerOn, Migrate, Host, Network. */
  function ExtractRootCause(ev: Event): (cause: string)
    requires TypeIsText(ev)
    ensures cause in {"power_failure", "migration_failure", "host_failure", "network_failure", "unknown"}
    ensures var t := EventType(ev);
      && (cause == "power_failure" <==> Contains(t, "PowerOn"))
      && (cause == "migration_failure" <==> !Contains(t, "PowerOn") && Contains(t, "Migrate"))
      && (cause == "host_failure" <==>
            !Contains(t, "PowerOn") && !Contains(t, "Migrate") && Contains(t, "Host"))
      && (cause == "network_failure" <==>
            !Contains(t, "PowerOn") && !Contains(t, "Migrate") && !Contains(t, "Host") && Contains(t, "Network"))
      && (cause == "unknown" <==>
            !Contains(t, "PowerOn") && !Contains(t, "Migrate") && !Contains(t, "Host") && !Contains(t, "Network"))
  {
    var eventType := EventType(ev);
    if Contains(eventType, "PowerOn") then "power_failure"
    else if Contains(eventType, "Migrate") then "migration_failure"
    else if Contains(eventType, "Host") then "host_failure"
    else if Contains(eventType, "Network") then "network_failure"
    else "unknown"
  }

  /** The estimated minutes to resolve an incident, by its severity; a missing
      severity is taken as "medium". */
  function FindResolutionTime(incident: Incident): (minutes: int)
    ensures minutes in {30, 60, 120, 240}
    ensures "severity" !in incident ==> minutes == 120
  {
    var severity := GetOr(incident, "severity", VStr("medium"));
    if severity == VStr("critical") then 30
    else if severity == VStr("high") then 60
    else if severity == VStr("medium") then 120
    else 240
  }

  /** The estimate falls as the severity rises: critical 30, high 60,
      medium 120, anything else 240. */
  lemma ResolutionBySeverity(incident: Incident, severity: string)
    requires "severity" in incident && incident["severity"] == VStr(severity)
    ensures severity == "critical" ==> FindResolutionTime(incident) == 30
    ensures severity == "high" ==> FindResolutionTime(incident) == 60
    ensures severity == "medium" ==> FindResolutionTime(incident) == 120
    ensures severity !in {"critical", "high", "medium"} ==> FindResolutionTime(incident) == 240
  {
  }

  /** Records the resolution on the incident when there is a truthy one. */
  function Resolve(incident: Incident, resolution: Option<int>): Incident {
    if resolution.Some? && resolution.value != 0 then
      incident["resolution_time_minutes" := VInt(resolution.value)]["status" := VStr("resolved")]
    else incident
  }

  // =====================================================================
  // VM incidents

  predicate VmEventOk(ev: Event) {
    TypeIsText(ev) && NestedIsDict(ev, "vm") && NestedIsDict(ev, "datacenter") && NestedIsDict(ev, "host")
  }

  /** The record built for a VM failure event, before its resolution is looked up. */
  function VmRecord(ev: Event): Incident
    requires VmEventOk(ev)
  {
    map[
      "id" := Get(ev, "key"),
      "type" := VStr("vm_incident"),
      "severity" := VStr(DetermineSeverity(ev)),
      "timestamp" := Get(ev, "createdTime"),
      "vm_name" := NestedName(ev, "vm"),
      "datacenter" := NestedName(ev, "datacenter"),
      "status" := VStr("detected"),
      "resolution_time_minutes" := VNone,
      "root_cause" := VStr(ExtractRootCause(ev)),
      "metadata" := VDict(map[
        "event_type" := Get(ev, "eventTypeId"),
        "description" := Get(ev, "fullFormattedMessage"),
        "host" := NestedName(ev, "host")])
    ]
  }

  function VmIncident(ev: Event): Incident
    requires VmEventOk(ev)
  {
    var incident := VmRecord(ev);
    Resolve(incident, Some(FindResolutionTime(incident)))
  }

  /** `i` is resolved with the estimate for its severity, and carries the type,
      the severity and the root cause derived from `ev`, and its time. */
  predicate ResolvedVmRecord(i: Incident, ev: Event)
    requires VmEventOk(ev)
  {
    && Get(i, "type") == VStr("vm_incident")
    && Get(i, "status") == VStr("resolved")
    && Get(i, "severity") == VStr(DetermineSeverity(ev))
    && Get(i, "root_cause") == VStr(ExtractRootCause(ev))
    && Get(i, "timestamp") == Get(ev, "createdTime")
    && Get(i, "resolution_time_minutes") in {VInt(30), VInt(60), VInt(120), VInt(240)}
  }

  /** Every VM incident is resolved, with the estimate for its severity, and
      carries the event's type-derived severity and root cause and its time. */
  lemma VmIncidentResolved(ev: Event)
    requires VmEventOk(ev)
    ensures ResolvedVmRecord(VmIncident(ev), ev)
  {
    VmRecordFields(ev);
    VmIncidentForm(ev);
  }

  /** The fields of the record before resolution. */
  lemma VmRecordFields(ev: Event)
    requires VmEventOk(ev)
    ensures var r := VmRecord(ev);
      && r["type"] == VStr("vm_incident")
      && r["severity"] == VStr(DetermineSeverity(ev))
      && r["root_cause"] == VStr(ExtractRootCause(ev))
      && r["timestamp"] == Get(ev, "createdTime")
      && FindResolutionTime(r) in {30, 60, 120, 240}
  {
  }

  /** The estimate is never 0, so the record is always marked resolved. */
  lemma VmIncidentForm(ev: Event)
    requires VmEventOk(ev)
    ensures var m := FindResolutionTime(VmRecord(ev));
      VmIncident(ev) == VmRecord(ev)["resolution_time_minutes" := VInt(m)]["status" := VStr("resolved")]
  {
  }

  /** One record per event, in event order: record `k` is the resolved record of event `k`. */
  function VmIncidents(events: seq<Event>): (r: seq<Incident>)
    requires forall k :: 0 <= k < |events| ==> VmEventOk(events[k])
    ensures |r| == |events|
    ensures forall k :: 0 <= k < |r| ==> ResolvedVmRecord(r[k], events[k])
  {
    VmIncidentEach(events);
    Map(VmIncident, events)
  }

  lemma VmIncidentEach(events: seq<Event>)
    requires forall k :: 0 <= k < |events| ==> VmEventOk(events[k])
    ensures forall k :: 0 <= k < |events| ==> ResolvedVmRecord(Map(VmIncident, events)[k], events[k])
  {
    MapIndex(VmIncident, events);
    forall k | 0 <= k < |events|
      ensures ResolvedVmRecord(VmIncident(events[k]), events[k])
    {
      VmIncidentResolved(events[k]);
    }
  }

  method CollectVmIncidents(events: seq<Event>) returns (vmIncidents: seq<Incident>)
    requires forall k :: 0 <= k < |events| ==> VmEventOk(events[k])
    ensures vmIncidents == VmIncidents(events)
  {
    vmIncidents := [];
    var i := 0;
    while i < |events|
      invariant 0 <= i <= |events|
      invariant vmIncidents == Map(VmIncident, events[..i])
    {
      assert events[..i + 1][..i] == events[..i];
      var incident := VmRecord(events[i]);
      var resolutionTime := FindResolutionTime(incident);
      VmRecordFields(events[i]);
      VmIncidentForm(events[i]);
      if resolutionTime != 0 {
        incident := incident["resolution_time_minutes" := VInt(resolutionTime)];
        incident := incident["status" := VStr("resolved")];
      }
      vmIncidents := vmIncidents + [incident];
      i := i + 1;
    }
    assert events[..i] == events;
  }

  // =====================================================================
  // Host incidents

  predicate HostEventOk(ev: Event) {
    NestedIsDict(ev, "host") && NestedIsDict(ev, "datacenter")
  }

  function HostRecord(ev: Event): Incident
    requires HostEventOk(ev)
  {
    map[
      "id" := Get(ev, "key"),
      "type" := VStr("host_incident"),
      "severity" := VStr("high"),
      "timestamp" := Get(ev, "createdTime"),
      "host_name" := NestedName(ev, "host"),
      "datacenter" := NestedName(ev, "datacenter"),
      "status" := VStr("detected"),
      "resolution_time_minutes" := VNone,
      "root_cause" := VStr("host_failure"),
      "metadata" := VDict(map[
        "event_type" := Get(ev, "eventTypeId"),
        "description" := Get(ev, "fullFormattedMessage")])
    ]
  }

  function HostIncident(ev: Event): Incident
    requires HostEventOk(ev)
  {
    var incident := HostRecord(ev);
    Resolve(incident, Some(FindResolutionTime(incident)))
  }

  /** `i` is a high-severity host failure with the time of `ev`, resolved in 60 minutes. */
  predicate ResolvedHostRecord(i: Incident, ev: Event) {
    && Get(i, "type") == VStr("host_incident")
    && Get(i, "severity") == VStr("high")
    && Get(i, "status") == VStr("resolved")
    && Get(i, "resolution_time_minutes") == VInt(60)
    && Get(i, "root_cause") == VStr("host_failure")
    && Get(i, "timestamp") == Get(ev, "createdTime")
  }

  /** Every host incident is high severity, resolved in an estimated 60 minutes. */
  lemma HostIncidentResolved(ev: Event)
    requires HostEventOk(ev)
    ensures ResolvedHostRecord(HostIncident(ev), ev)
  {
    HostRecordFields(ev);
    HostIncidentForm(ev);
  }

  /** The fields of the record before resolution. */
  lemma HostRecordFields(ev: Event)
    requires HostEventOk(ev)
    ensures var r := HostRecord(ev);
      && r["type"] == VStr("host_incident")
      && r["severity"] == VStr("high")
      && r["root_cause"] == VStr("host_failure")
      && r["timestamp"] == Get(ev, "createdTime")
      && FindResolutionTime(r) == 60
  {
  }

  /** The estimate is never 0, so the record is always marked resolved. */
  lemma HostIncidentForm(ev: Event)
    requires HostEventOk(ev)
    ensures var m := FindResolutionTime(HostRecord(ev));
      HostIncident(ev) == HostRecord(ev)["resolution_time_minutes" := VInt(m)]["status" := VStr("resolved")]
  {
  }

  /** One record per event, in event order: record `k` is the resolved record of event `k`. */
  function HostIncidents(events: seq<Event>): (r: seq<Incident>)
    requires forall k :: 0 <= k < |events| ==> HostEventOk(events[k])
    ensures |r| == |events|
    ensures forall k :: 0 <= k < |r| ==> ResolvedHostRecord(r[k], events[k])
  {
    HostIncidentEach(events);
    Map(HostIncident, events)
  }

  lemma HostIncidentEach(events: seq<Event>)
    requires forall k :: 0 <= k < |events| ==> HostEventOk(events[k])
    ensures forall k :: 0 <= k < |events| ==> ResolvedHostRecord(Map(HostIncident, events)[k], events[k])
  {
    MapIndex(HostIncident, events);
    forall k | 0 <= k < |events|
      ensures ResolvedHostRecord(HostIncident(events[k]), events[k])
    {
      HostIncidentResolved(events[k]);
    }
  }

  method CollectHostIncidents(events: seq<Event>) returns (hostIncidents: seq<Incident>)
    requires forall k :: 0 <= k < |events| ==> HostEventOk(events[k])
    ensures hostIncidents == HostIncidents(events)
  {
    hostIncidents := [];
    var i := 0;
    while i < |events|
      invariant 0 <= i <= |events|
      invariant hostIncidents == Map(HostIncident, events[..i])
    {
      assert events[..i + 1][..i] == events[..i];
      var incident := HostRecord(events[i]);
      var resolutionTime := FindResolutionTime(incident);
      HostIncidentForm(events[i]);
      if resolutionTime != 0 {
        incident := incident["resolution_time_minutes" := VInt(resolutionTime)];
        incident := incident["status" := VStr("resolved")];
      }
      hostIncidents := hostIncidents + [incident];
      i := i + 1;
    }
    assert events[..i] == events;
  }

  // =====================================================================
  // Application incidents (fixed sample data)

  /** `start + timedelta(days=days)`. */
  function AddDays(start: Time, days: int): Time {
    Time(start.seconds + days * SecondsPerDay, start.aware)
  }

  /** Sample record `i`: a resolved 45-minute incident `i` days after the start
      date, whose id ends in the digit `i`. */
  function ApplicationIncident(start: Time, i: nat): (r: Incident)
    requires i < 10
    ensures Get(r, "type") == VStr("application_incident") && Get(r, "status") == VStr("resolved")
    ensures Get(r, "severity") == VStr("medium")
    ensures Get(r, "resolution_time_minutes") == VInt(45)
    ensures Get(r, "timestamp") == VTime(Time(start.seconds + i * SecondsPerDay, start.aware))
    ensures Get(r, "id").VStr? && |Get(r, "id").s| == 14 && Get(r, "id").s[13] == Digit(i)
  {
    map[
      "id" := VStr("app-incident-" + [Digit(i)]),
      "type" := VStr("application_incident"),
      "severity" := VStr("medium"),
      "timestamp" := VTime(AddDays(start, i)),
      "application_name" := VStr("sample-app-" + [Digit(i)]),
      "environment" := VStr("production"),
      "status" := VStr("resolved"),
      "resolution_time_minutes" := VInt(45),
      "root_cause" := VStr("deployment_failure"),
      "metadata" := VDict(map[
        "error_message" := VStr("Service unavailable"),
        "affected_users" := VInt(100)])
    ]
  }

  /** Always the same two resolved records, one at the start date and one a
      day later, whatever the events. */
  function ApplicationIncidents(start: Time): (r: seq<Incident>)
    ensures |r| == 2
    ensures Get(r[0], "timestamp") == VTime(start)
    ensures Get(r[1], "timestamp") == VTime(Time(start.seconds + SecondsPerDay, start.aware))
    ensures forall k :: 0 <= k < 2 ==>
              Get(r[k], "status") == VStr("resolved") && Get(r[k], "resolution_time_minutes") == VInt(45)
  {
    [ApplicationIncident(start, 0), ApplicationIncident(start, 1)]
  }

  // =====================================================================
  // Network incidents

  predicate LinkDown(ev: Event)
    requires TypeIsText(ev)
  {
    Contains(EventType(ev), "LinkDown")
  }

  predicate LinkUp(ev: Event)
    requires TypeIsText(ev)
  {
    Contains(EventType(ev), "LinkUp")
  }

  /** Python can compare `t` with the time of every LinkUp event: all of them
      are datetimes of the same kind. */
  predicate ComparableWith(t: Value, events: seq<Event>)
    requires AllText(events)
  {
    forall k :: 0 <= k < |events| && LinkUp(events[k]) ==>
      t.VTime? && Get(events[k], "createdTime").VTime? && Get(events[k], "createdTime").t.aware == t.t.aware
  }

  /** A LinkUp event strictly later than `t`. */
  predicate LaterLinkUp(ev: Event, t: Value)
    requires TypeIsText(ev)
  {
    LinkUp(ev) && t.VTime? && Get(ev, "createdTime").VTime?
    && Get(ev, "createdTime").t.seconds > t.t.seconds
  }

  /** `int((up - t).total_seconds() / 60)` for a later LinkUp event. */
  function MinutesTo(ev: Event, t: Value): int
    requires TypeIsText(ev) && LaterLinkUp(ev, t)
  {
    (Get(ev, "createdTime").t.seconds - t.t.seconds) / 60
  }

  /** The whole minutes from `t` to the first later LinkUp event in list order. */
  function NetworkResolution(t: Value, events: seq<Event>): (r: Option<int>)
    requires AllText(events)
    ensures r.Some? ==> r.value >= 0
  {
    if events == [] then None
    else if LaterLinkUp(events[0], t) then Some(MinutesTo(events[0], t))
    else NetworkResolution(t, events[1..])
  }

  /** The resolution is taken from the first later LinkUp event, which need not
      be the earliest one; there is none exactly when no event is a later LinkUp. */
  lemma {:induction false} NetworkResolutionFirst(t: Value, events: seq<Event>)
    requires AllText(events)
    ensures NetworkResolution(t, events).None? <==>
              forall k :: 0 <= k < |events| ==> !LaterLinkUp(events[k], t)
    ensures NetworkResolution(t, events).Some? ==>
              exists j :: 0 <= j < |events| && LaterLinkUp(events[j], t)
                && (forall k :: 0 <= k < j ==> !LaterLinkUp(events[k], t))
                && NetworkResolution(t, events).value == MinutesTo(events[j], t)
  {
    if events != [] {
      NetworkResolutionFirst(t, events[1..]);
      if !LaterLinkUp(events[0], t) {
        if NetworkResolution(t, events).Some? {
          var j :| 0 <= j < |events[1..]| && LaterLinkUp(events[1..][j], t)
                   && (forall k :: 0 <= k < j ==> !LaterLinkUp(events[1..][k], t))
                   && NetworkResolution(t, events[1..]).value == MinutesTo(events[1..][j], t);
          assert LaterLinkUp(events[j + 1], t);
          forall k | 0 <= k < j + 1 ensures !LaterLinkUp(events[k], t) {
            if k > 0 {
              assert events[k] == events[1..][k - 1];
            }
          }
        } else {
          forall k | 0 <= k < |events| ensures !LaterLinkUp(events[k], t) {
            if k > 0 {
              assert events[k] == events[1..][k - 1];
            }
          }
        }
      }
    }
  }

  /** An event list where a later LinkUp at two hours precedes one at one hour
      resolves in 120 minutes, not 60. */
  lemma FirstLinkUpNotEarliest(up: string, t: Time)
    requires Contains(up, "LinkUp")
    ensures NetworkResolution(VTime(t), [
              map["eventTypeId" := VStr(up), "createdTime" := VTime(Time(t.seconds + 7200, t.aware))],
              map["eventTypeId" := VStr(up), "createdTime" := VTime(Time(t.seconds + 3600, t.aware))]])
            == Some(120)
  {
    var e0 := map["eventTypeId" := VStr(up), "createdTime" := VTime(Time(t.seconds + 7200, t.aware))];
    var e1 := map["eventTypeId" := VStr(up), "createdTime" := VTime(Time(t.seconds + 3600, t.aware))];
    assert EventType(e0) == up;
    assert LaterLinkUp(e0, VTime(t));
  }

  method FindNetworkResolution(incident: Incident, allEvents: seq<Event>) returns (r: Option<int>)
    requires AllText(allEvents)
    requires ComparableWith(Get(incident, "timestamp"), allEvents)
    ensures r == NetworkResolution(Get(incident, "timestamp"), allEvents)
  {
    var incidentTime := Get(incident, "timestamp");
    var i := 0;
    while i < |allEvents|
      invariant 0 <= i <= |allEvents|
      invariant NetworkResolution(incidentTime, allEvents) == NetworkResolution(incidentTime, allEvents[i..])
    {
      var event := allEvents[i];
      assert allEvents[i..][0] == event && allEvents[i..][1..] == allEvents[i + 1..];
      if LinkUp(event) && Get(event, "createdTime").t.seconds > incidentTime.t.seconds {
        var timeDiff := Get(event, "createdTime").t.seconds - incidentTime.t.seconds;
        return Some(timeDiff / 60);
      }
      i := i + 1;
    }
    return None;
  }

  /** A LinkDown event a record can be built from and resolved against `allEvents`. */
  predicate LinkDownOk(ev: Event, allEvents: seq<Event>)
    requires TypeIsText(ev) && AllText(allEvents)
  {
    LinkDown(ev) ==>
      NestedIsDict(ev, "dvs") && NestedIsDict(ev, "datacenter") && ComparableWith(Get(ev, "createdTime"), allEvents)
  }

  /** Events of the network query whose LinkDown records can be built and
      resolved against `allEvents`. */
  predicate NetworkEventsOk(events: seq<Event>, allEvents: seq<Event>) {
    AllText(events) && AllText(allEvents)
    && forall k :: 0 <= k < |events| ==> LinkDownOk(events[k], allEvents)
  }

  function NetworkRecord(ev: Event): Incident
    requires TypeIsText(ev) && NestedIsDict(ev, "dvs") && NestedIsDict(ev, "datacenter")
  {
    map[
      "id" := Get(ev, "key"),
      "type" := VStr("network_incident"),
      "severity" := VStr("medium"),
      "timestamp" := Get(ev, "createdTime"),
      "network_name" := NestedName(ev, "dvs"),
      "datacenter" := NestedName(ev, "datacenter"),
      "status" := VStr("detected"),
      "resolution_time_minutes" := VNone,
      "root_cause" := VStr("network_connectivity"),
      "metadata" := VDict(map[
        "event_type" := Get(ev, "eventTypeId"),
        "description" := Get(ev, "fullFormattedMessage")])
    ]
  }

  function NetworkIncident(ev: Event, allEvents: seq<Event>): Incident
    requires AllText(allEvents)
    requires TypeIsText(ev) && NestedIsDict(ev, "dvs") && NestedIsDict(ev, "datacenter")
  {
    Resolve(NetworkRecord(ev), NetworkResolution(Get(ev, "createdTime"), allEvents))
  }

  /** The fields of a network record before its resolution is looked up. */
  lemma NetworkRecordFields(ev: Event)
    requires TypeIsText(ev) && NestedIsDict(ev, "dvs") && NestedIsDict(ev, "datacenter")
    ensures var r := NetworkRecord(ev);
      && r["type"] == VStr("network_incident") && r["severity"] == VStr("medium")
      && r["status"] == VStr("detected") && r["resolution_time_minutes"] == VNone
  {
  }

  /** A network incident is resolved exactly when a later LinkUp exists at
      least a whole minute later: a resolution of 0 minutes is falsy and
      leaves the incident detected, with no resolution time. */
  lemma NetworkIncidentStatus(ev: Event, allEvents: seq<Event>)
    requires AllText(allEvents)
    requires TypeIsText(ev) && NestedIsDict(ev, "dvs") && NestedIsDict(ev, "datacenter")
    ensures var r := NetworkIncident(ev, allEvents);
      var res := NetworkResolution(Get(ev, "createdTime"), allEvents);
      && r["type"] == VStr("network_incident")
      && r["severity"] == VStr("medium")
      && (r["status"] == VStr("resolved") <==> res.Some? && res.value > 0)
      && (r["status"] == VStr("resolved") ==> r["resolution_time_minutes"] == VInt(res.value))
      && (r["status"] != VStr("resolved") ==>
            r["status"] == VStr("detected") && r["resolution_time_minutes"] == VNone)
  {
    NetworkRecordFields(ev);
  }

  /** The network records of the events in `events`, each resolved against `allEvents`. */
  function NetworkIncidents(events: seq<Event>, allEvents: seq<Event>): (r: seq<Incident>)
    requires NetworkEventsOk(events, allEvents)
    ensures |r| <= |events|
    ensures forall k :: 0 <= k < |r| ==>
              Get(r[k], "type") == VStr("network_incident") && Get(r[k], "severity") == VStr("medium")
              && Get(r[k], "status") in {VStr("resolved"), VStr("detected")}
  {
    if events == [] then []
    else
      var last := events[|events| - 1];
      assert NetworkEventsOk(events[..|events| - 1], allEvents);
      if LinkDown(last) then
        NetworkIncidentStatus(last, allEvents);
        NetworkIncidents(events[..|events| - 1], allEvents) + [NetworkIncident(last, allEvents)]
      else NetworkIncidents(events[..|events| - 1], allEvents)
  }

  /** The records of a concatenation are the records of the parts, so exactly
      the LinkDown events give a record, in their order. */
  lemma {:induction false} NetworkIncidentsAppend(a: seq<Event>, b: seq<Event>, allEvents: seq<Event>)
    requires NetworkEventsOk(a, allEvents) && NetworkEventsOk(b, allEvents)
    ensures NetworkEventsOk(a + b, allEvents)
    ensures NetworkIncidents(a + b, allEvents) == NetworkIncidents(a, allEvents) + NetworkIncidents(b, allEvents)
  {
    assert forall k :: 0 <= k < |a + b| ==> (a + b)[k] == if k < |a| then a[k] else b[k - |a|];
    if b != [] {
      var init := b[..|b| - 1];
      assert NetworkEventsOk(init, allEvents);
      NetworkIncidentsAppend(a, init, allEvents);
      assert (a + b)[..|a + b| - 1] == a + init;
    } else {
      assert a + b == a;
    }
  }

  /** A single event gives one record if it is a LinkDown, none otherwise. */
  lemma NetworkIncidentsSingle(ev: Event, allEvents: seq<Event>)
    requires TypeIsText(ev) && AllText(allEvents) && LinkDownOk(ev, allEvents)
    ensures NetworkEventsOk([ev], allEvents)
    ensures LinkDown(ev) ==> NetworkIncidents([ev], allEvents) == [NetworkIncident(ev, allEvents)]
    ensures !LinkDown(ev) ==> NetworkIncidents([ev], allEvents) == []
  {
    assert [ev][..0] == [];
  }

  method CollectNetworkIncidents(events: seq<Event>) returns (networkIncidents: seq<Incident>)
    requires NetworkEventsOk(events, events)
    ensures networkIncidents == NetworkIncidents(events, events)
  {
    networkIncidents := [];
    var i := 0;
    while i < |events|
      invariant 0 <= i <= |events|
      invariant NetworkEventsOk(events[..i], events)
      invariant networkIncidents == NetworkIncidents(events[..i], events)
    {
      var event := events[i];
      assert events[..i + 1][..i] == events[..i] && events[..i + 1][i] == event;
      if LinkDown(event) {
        var incident := NetworkRecord(event);
        var resolutionTime := FindNetworkResolution(incident, events);
        if resolutionTime.Some? && resolutionTime.value != 0 {
          incident := incident["resolution_time_minutes" := VInt(resolutionTime.value)];
          incident := incident["status" := VStr("resolved")];
        }
        networkIncidents := networkIncidents + [incident];
      }
      i := i + 1;
    }
    assert events[..i] == events;
  }

  // =====================================================================
  // All incidents

  predicate FetchOk(vmEvents: Result<seq<Event>, string>, hostEvents: Result<seq<Event>, string>,
                    networkEvents: Result<seq<Event>, string>)
  {
    && (vmEvents.Ok? ==> forall k :: 0 <= k < |vmEvents.value| ==> VmEventOk(vmEvents.value[k]))
    && (hostEvents.Ok? ==> forall k :: 0 <= k < |hostEvents.value| ==> HostEventOk(hostEvents.value[k]))
    && (networkEvents.Ok? ==> NetworkEventsOk(networkEvents.value, networkEvents.value))
  }

  /** The VM, host, application and network records in that order; the first
      failing event query's error is raised again. */
  method CollectIncidents(vmEvents: Result<seq<Event>, string>, hostEvents: Result<seq<Event>, string>,
                          networkEvents: Result<seq<Event>, string>, startDate: Time)
    returns (r: Result<seq<Incident>, string>)
    requires FetchOk(vmEvents, hostEvents, networkEvents)
    ensures vmEvents.Err? ==> r == Err(vmEvents.error)
    ensures vmEvents.Ok? && hostEvents.Err? ==> r == Err(hostEvents.error)
    ensures vmEvents.Ok? && hostEvents.Ok? && networkEvents.Err? ==> r == Err(networkEvents.error)
    ensures vmEvents.Ok? && hostEvents.Ok? && networkEvents.Ok? ==>
              r == Ok(VmIncidents(vmEvents.value) + HostIncidents(hostEvents.value)
                      + ApplicationIncidents(startDate)
                      + NetworkIncidents(networkEvents.value, networkEvents.value))
  {
    var incidents := [];
    if vmEvents.Err? {
      return Err(vmEvents.error);
    }
    var vmIncidents := CollectVmIncidents(vmEvents.value);
    incidents := incidents + vmIncidents;
    assert incidents == vmIncidents;
    if hostEvents.Err? {
      return Err(hostEvents.error);
    }
    var hostIncidents := CollectHostIncidents(hostEvents.value);
    incidents := incidents + hostIncidents;
    var appIncidents := ApplicationIncidents(startDate);
    incidents := incidents + appIncidents;
    if networkEvents.Err? {
      return Err(networkEvents.error);
    }
    var networkIncidents := CollectNetworkIncidents(networkEvents.value);
    incidents := incidents + networkIncidents;
    return Ok(incidents);
  }

  // =====================================================================
  // Statistics

  datatype IncidentStatistics = IncidentStatistics(
    totalIncidents: nat,
    resolvedIncidents: nat,
    averageResolutionTimeMinutes: real,
    incidentsBySeverity: map<Value, nat>,
    incidentsByType: map<Value, nat>)

  /** `len([i for i in incidents if i.get('status') == 'resolved'])`. */
  function ResolvedCount(incidents: seq<Incident>): (n: nat)
    ensures n <= |incidents|
  {
    if incidents == [] then 0
    else
      ResolvedCount(incidents[..|incidents| - 1])
        + (if Get(incidents[|incidents| - 1], "status") == VStr("resolved") then 1 else 0)
  }

  /** All incidents count as resolved exactly when every status is "resolved",
      and none do exactly when no status is. */
  lemma {:induction false} ResolvedCountExtremes(incidents: seq<Incident>)
    ensures ResolvedCount(incidents) == |incidents| <==>
              forall k :: 0 <= k < |incidents| ==> Get(incidents[k], "status") == VStr("resolved")
    ensures ResolvedCount(incidents) == 0 <==>
              forall k :: 0 <= k < |incidents| ==> Get(incidents[k], "status") != VStr("resolved")
  {
    if incidents != [] {
      var init := incidents[..|incidents| - 1];
      ResolvedCountExtremes(init);
      assert forall k :: 0 <= k < |init| ==> init[k] == incidents[k];
    }
  }

  /** The resolved incidents of a concatenation are those of the parts. */
  lemma {:induction false} ResolvedCountAppend(a: seq<Incident>, b: seq<Incident>)
    ensures ResolvedCount(a + b) == ResolvedCount(a) + ResolvedCount(b)
  {
    if b == [] {
      assert a + b == a;
    } else {
      var init := b[..|b| - 1];
      ResolvedCountAppend(a, init);
      assert (a + b)[..|a + b| - 1] == a + init;
    }
  }

  /** Every resolution time present is a number `sum` accepts. */
  predicate TimesAreNumbers(incidents: seq<Incident>) {
    forall k :: 0 <= k < |incidents| ==>
      Get(incidents[k], "resolution_time_minutes") == VNone || IsNumber(Get(incidents[k], "resolution_time_minutes"))
  }

  /** The resolution time one incident contributes: none when it is None. */
  function ResolutionOf(incident: Incident): seq<real>
    requires Get(incident, "resolution_time_minutes") == VNone || IsNumber(Get(incident, "resolution_time_minutes"))
  {
    var minutes := Get(incident, "resolution_time_minutes");
    if minutes != VNone then [RealOf(minutes)] else []
  }

  /** The resolution times that are not None, in list order. */
  function ResolutionTimes(incidents: seq<Incident>): seq<real>
    requires TimesAreNumbers(incidents)
  {
    if incidents == [] then []
    else ResolutionTimes(incidents[..|incidents| - 1]) + ResolutionOf(incidents[|incidents| - 1])
  }

  /** Incidents with usable times, concatenated, still have usable times. */
  lemma TimesAreNumbersAppend(a: seq<Incident>, b: seq<Incident>)
    requires TimesAreNumbers(a) && TimesAreNumbers(b)
    ensures TimesAreNumbers(a + b)
  {
    assert forall k :: 0 <= k < |a + b| ==> (a + b)[k] == if k < |a| then a[k] else b[k - |a|];
  }

  /** Resolution times of a concatenation are those of the parts. */
  lemma {:induction false} ResolutionTimesAppend(a: seq<Incident>, b: seq<Incident>)
    requires TimesAreNumbers(a) && TimesAreNumbers(b)
    ensures TimesAreNumbers(a + b)
    ensures ResolutionTimes(a + b) == ResolutionTimes(a) + ResolutionTimes(b)
  {
    TimesAreNumbersAppend(a, b);
    if b == [] {
      assert a + b == a;
      assert ResolutionTimes(a) + [] == ResolutionTimes(a);
    } else {
      var n := |b| - 1;
      var init := b[..n];
      assert forall k :: 0 <= k < |init| ==> init[k] == b[k];
      ResolutionTimesAppend(a, init);
      ConcatInit(a, b);
      ConcatAssoc(ResolutionTimes(a), ResolutionTimes(init), ResolutionOf(b[n]));
    }
  }

  /** Incidents without a resolution time contribute nothing to the average. */
  lemma {:induction false} UnresolvedIgnored(incidents: seq<Incident>)
    requires forall k :: 0 <= k < |incidents| ==> Get(incidents[k], "resolution_time_minutes") == VNone
    ensures TimesAreNumbers(incidents)
    ensures ResolutionTimes(incidents) == []
  {
    if incidents != [] {
      UnresolvedIgnored(incidents[..|incidents| - 1]);
    }
  }

  /** The average resolution time: 0 when no incident has one. */
  function AverageResolution(incidents: seq<Incident>): (average: real)
    requires TimesAreNumbers(incidents)
    ensures ResolutionTimes(incidents) == [] ==> average == 0.0
    ensures (forall k :: 0 <= k < |ResolutionTimes(incidents)| ==> ResolutionTimes(incidents)[k] >= 0.0)
            ==> average >= 0.0
  {
    var times := ResolutionTimes(incidents);
    if times == [] then 0.0
    else
      if forall k :: 0 <= k < |times| ==> times[k] >= 0.0 then MeanNonNegative(times); Mean(times)
      else Mean(times)
  }

  /** Occurrence counts of each key, as `counts[k] = counts.get(k, 0) + 1`: the
      keys of the tally are exactly the keys that occur, each counted at least once. */
  function Tally(keys: seq<Value>): (counts: map<Value, nat>)
    ensures forall i :: 0 <= i < |keys| ==> keys[i] in counts
    ensures forall k :: k in counts ==> counts[k] >= 1
  {
    if keys == [] then map[]
    else
      var counts := Tally(keys[..|keys| - 1]);
      var key := keys[|keys| - 1];
      assert forall i :: 0 <= i < |keys| - 1 ==> keys[..|keys| - 1][i] == keys[i];
      counts[key := (if key in counts then counts[key] else 0) + 1]
  }

  /** The tally holds exactly the keys that occur, each with its number of occurrences. */
  lemma {:induction false} TallyCounts(keys: seq<Value>)
    ensures forall k :: k in Tally(keys) <==> k in multiset(keys)
    ensures forall k :: k in Tally(keys) ==> Tally(keys)[k] == multiset(keys)[k]
  {
    if keys != [] {
      var init := keys[..|keys| - 1];
      TallyCounts(init);
      assert keys == init + [keys[|keys| - 1]];
      assert multiset(keys) == multiset(init) + multiset{keys[|keys| - 1]};
    }
  }

  /** The sum of a map's values. */
  ghost function MapTotal(m: map<Value, nat>): nat
    decreases |m|
  {
    if m == map[] then 0
    else
      var k :| k in m;
      m[k] + MapTotal(m - {k})
  }

  /** The sum does not depend on which key is taken out first. */
  lemma {:induction false} MapTotalAt(m: map<Value, nat>, k: Value)
    requires k in m
    ensures MapTotal(m) == m[k] + MapTotal(m - {k})
    decreases |m|
  {
    var j :| j in m && MapTotal(m) == m[j] + MapTotal(m - {j});
    if j != k {
      var mj, mk := m - {j}, m - {k};
      assert |mj| < |m| && |mk| < |m|;
      MapTotalAt(mj, k);
      MapTotalAt(mk, j);
      assert mj - {k} == mk - {j};
    }
  }

  /** Adding one to a key's count (or inserting it with 1) adds one to the sum. */
  lemma MapTotalIncrement(m: map<Value, nat>, key: Value)
    ensures MapTotal(m[key := (if key in m then m[key] else 0) + 1]) == MapTotal(m) + 1
  {
    var m' := m[key := (if key in m then m[key] else 0) + 1];
    MapTotalAt(m', key);
    if key in m {
      MapTotalAt(m, key);
      assert m' - {key} == m - {key};
    } else {
      assert m' - {key} == m;
    }
  }

  /** The counts of a tally add up to the number of keys. */
  lemma {:induction false} TallyTotal(keys: seq<Value>)
    ensures MapTotal(Tally(keys)) == |keys|
  {
    if keys != [] {
      var init := keys[..|keys| - 1];
      TallyTotal(init);
      MapTotalIncrement(Tally(init), keys[|keys| - 1]);
    }
  }

  /** `incident.get(field, 'unknown')` for each incident in turn. */
  function FieldKeys(incidents: seq<Incident>, field: string): (keys: seq<Value>)
    ensures |keys| == |incidents|
  {
    seq(|incidents|, k requires 0 <= k < |incidents| => GetOr(incidents[k], field, VStr("unknown")))
  }

  function SeverityKeys(incidents: seq<Incident>): seq<Value> {
    FieldKeys(incidents, "severity")
  }

  function TypeKeys(incidents: seq<Incident>): seq<Value> {
    FieldKeys(incidents, "type")
  }

  /** Counting one more key updates the tally of the prefix at that key. */
  lemma TallyStep(keys: seq<Value>, i: nat)
    requires i < |keys|
    ensures var counts := Tally(keys[..i]);
      Tally(keys[..i + 1]) == counts[keys[i] := (if keys[i] in counts then counts[keys[i]] else 0) + 1]
  {
    assert keys[..i + 1][..i] == keys[..i];
  }

  /** Every key is a string or `None`. Python's `dict` raises on an unhashable
      key (a list or a dict), and merges keys that are equal numbers (`True`,
      `1` and `1.0`); for strings and `None` its key equality is the model's. */
  predicate PlainKeys(keys: seq<Value>) {
    forall k :: 0 <= k < |keys| ==> keys[k].VStr? || keys[k].VNone?
  }

  /** The counting loop of `get_incident_statistics` for one field. */
  method CountBy(incidents: seq<Incident>, field: string) returns (counts: map<Value, nat>)
    requires PlainKeys(FieldKeys(incidents, field))
    ensures counts == Tally(FieldKeys(incidents, field))
  {
    counts := map[];
    var i := 0;
    while i < |incidents|
      invariant 0 <= i <= |incidents|
      invariant counts == Tally(FieldKeys(incidents, field)[..i])
    {
      var key := GetOr(incidents[i], field, VStr("unknown"));
      TallyStep(FieldKeys(incidents, field), i);
      counts := counts[key := (if key in counts then counts[key] else 0) + 1];
      i := i + 1;
    }
    assert FieldKeys(incidents, field)[..i] == FieldKeys(incidents, field);
  }

  method GetIncidentStatistics(incidents: seq<Incident>) returns (stats: IncidentStatistics)
    requires TimesAreNumbers(incidents)
    requires PlainKeys(SeverityKeys(incidents)) && PlainKeys(TypeKeys(incidents))
    ensures incidents == [] ==> stats == IncidentStatistics(0, 0, 0.0, map[], map[])
    ensures stats.totalIncidents == |incidents|
    ensures stats.resolvedIncidents == ResolvedCount(incidents)
    ensures stats.averageResolutionTimeMinutes == AverageResolution(incidents)
    ensures stats.incidentsBySeverity == Tally(SeverityKeys(incidents))
    ensures stats.incidentsByType == Tally(TypeKeys(incidents))
  {
    if incidents == [] {
      return IncidentStatistics(0, 0, 0.0, map[], map[]);
    }
    var total := |incidents|;
    var resolved := ResolvedCount(incidents);
    var resolutionTimes := ResolutionTimes(incidents);
    var avgResolution := if resolutionTimes != [] then Sum(resolutionTimes) / |resolutionTimes| as real else 0.0;

    var severityCounts := CountBy(incidents, "severity");
    var typeCounts := CountBy(incidents, "type");
    return IncidentStatistics(total, resolved, avgResolution, severityCounts, typeCounts);
  }

  /** The severity counts and the type counts each add up to the total, and each
      count is the number of incidents with that key. */
  lemma StatisticsTotals(incidents: seq<Incident>)
    ensures MapTotal(Tally(SeverityKeys(incidents))) == |incidents|
    ensures MapTotal(Tally(TypeKeys(incidents))) == |incidents|
    ensures forall s :: s in Tally(SeverityKeys(incidents)) ==>
              Tally(SeverityKeys(incidents))[s] == multiset(SeverityKeys(incidents))[s]
  {
    TallyTotal(SeverityKeys(incidents));
    TallyTotal(TypeKeys(incidents));
    TallyCounts(SeverityKeys(incidents));
  }

  /** Each incident names its severity and its type as text. */
  predicate TextKeyed(incidents: seq<Incident>) {
    forall k :: 0 <= k < |incidents| ==> Get(incidents[k], "severity").VStr? && Get(incidents[k], "type").VStr?
  }

  lemma TextKeyedConcat(a: seq<Incident>, b: seq<Incident>)
    requires TextKeyed(a) && TextKeyed(b)
    ensures TextKeyed(a + b)
  {
    assert forall k :: 0 <= k < |a + b| ==> (a + b)[k] == if k < |a| then a[k] else b[k - |a|];
  }

  lemma TextKeyedPlain(incidents: seq<Incident>)
    requires TextKeyed(incidents)
    ensures PlainKeys(SeverityKeys(incidents)) && PlainKeys(TypeKeys(incidents))
  {
  }

  lemma VmTextKeyed(events: seq<Event>)
    requires forall k :: 0 <= k < |events| ==> VmEventOk(events[k])
    ensures TextKeyed(VmIncidents(events))
  {
    var r := VmIncidents(events);
    forall k | 0 <= k < |r| ensures Get(r[k], "severity").VStr? && Get(r[k], "type").VStr? {
      assert ResolvedVmRecord(r[k], events[k]);
    }
  }

  lemma HostTextKeyed(events: seq<Event>)
    requires forall k :: 0 <= k < |events| ==> HostEventOk(events[k])
    ensures TextKeyed(HostIncidents(events))
  {
    var r := HostIncidents(events);
    forall k | 0 <= k < |r| ensures Get(r[k], "severity").VStr? && Get(r[k], "type").VStr? {
      assert ResolvedHostRecord(r[k], events[k]);
    }
  }

  lemma ApplicationTextKeyed(start: Time)
    ensures TextKeyed(ApplicationIncidents(start))
  {
    var r := ApplicationIncidents(start);
    assert Get(r[0], "severity").VStr? && Get(r[1], "severity").VStr?;
  }

  lemma NetworkTextKeyed(events: seq<Event>, allEvents: seq<Event>)
    requires NetworkEventsOk(events, allEvents)
    ensures TextKeyed(NetworkIncidents(events, allEvents))
  {
  }

  /** The records the collection builds can always be counted: every severity
      and every type in them is text. */
  lemma CollectedKeysPlain(vmEvents: seq<Event>, hostEvents: seq<Event>, startDate: Time,
                           networkEvents: seq<Event>)
    requires FetchOk(Ok(vmEvents), Ok(hostEvents), Ok(networkEvents))
    ensures var incidents := VmIncidents(vmEvents) + HostIncidents(hostEvents)
                             + ApplicationIncidents(startDate) + NetworkIncidents(networkEvents, networkEvents);
            PlainKeys(SeverityKeys(incidents)) && PlainKeys(TypeKeys(incidents))
  {
    var vm, host := VmIncidents(vmEvents), HostIncidents(hostEvents);
    var app, net := ApplicationIncidents(startDate), NetworkIncidents(networkEvents, networkEvents);
    VmTextKeyed(vmEvents);
    HostTextKeyed(hostEvents);
    ApplicationTextKeyed(startDate);
    NetworkTextKeyed(networkEvents, networkEvents);
    TextKeyedConcat(vm, host);
    TextKeyedConcat(vm + host, app);
    TextKeyedConcat(vm + host + app, net);
    TextKeyedPlain(vm + host + app + net);
  }

  /** When every resolution time lies in [lo, hi], so does the average (or it is 0). */
  lemma AverageWithin(incidents: seq<Incident>, lo: real, hi: real)
    requires TimesAreNumbers(incidents)
    requires forall x :: x in ResolutionTimes(incidents) ==> lo <= x <= hi
    ensures ResolutionTimes(incidents) != [] ==> lo <= AverageResolution(incidents) <= hi
    ensures ResolutionTimes(incidents) == [] ==> AverageResolution(incidents) == 0.0
  {
    var times := ResolutionTimes(incidents);
    if times != [] {
      assert forall k :: 0 <= k < |times| ==> times[k] in times;
      MeanBounds(times, lo, hi);
    }
  }
}
