/** Deployment records built from vCenter events, and their success statistics.
    The event queries of the VMware client are inputs: each is either the list
    of event maps it returned or the error it raised. */
module DeploymentCollector {
  import opened Wrappers
  import opened PyValues
  import opened Stats

  type Event = Dict
  type Deployment = Dict

  /** The estimated duration of a VM deployment; the event is not consulted. */
  function CalculateDeploymentDuration(ev: Event): (minutes: int)
    ensures minutes > 0
  {
    10
  }

  // =====================================================================
  // VM deployments

  predicate VmEventOk(ev: Event) {
    NestedIsDict(ev, "vm") && NestedIsDict(ev, "datacenter")
  }

  function VmDeployment(ev: Event): Deployment
    requires VmEventOk(ev)
  {
    map[
      "id" := Get(ev, "key"),
      "type" := VStr("vm_deployment"),
      "timestamp" := Get(ev, "createdTime"),
      "vm_name" := NestedName(ev, "vm"),
      "datacenter" := NestedName(ev, "datacenter"),
      "user" := Get(ev, "userName"),
      "status" := VStr("success"),
      "duration_minutes" := VInt(CalculateDeploymentDuration(ev)),
      "metadata" := VDict(map[
        "event_type" := Get(ev, "eventTypeId"),
        "description" := Get(ev, "fullFormattedMessage")])
    ]
  }

  /** A VM deployment is a successful 10-minute `vm_deployment` carrying the
      event's key, creation time and VM name. */
  lemma VmDeploymentFields(ev: Event)
    requires VmEventOk(ev)
    ensures var d := VmDeployment(ev);
      && Get(d, "type") == VStr("vm_deployment")
      && Get(d, "status") == VStr("success")
      && Get(d, "duration_minutes") == VInt(10)
      && Get(d, "id") == Get(ev, "key")
      && Get(d, "timestamp") == Get(ev, "createdTime")
      && Get(d, "vm_name") == NestedName(ev, "vm")
  {
    assert CalculateDeploymentDuration(ev) == 10;
  }

  /** `d` is a successful 10-minute `vm_deployment` with the key and the
      creation time of `ev`. */
  predicate VmDeploymentOf(d: Deployment, ev: Event) {
    && Get(d, "type") == VStr("vm_deployment")
    && Get(d, "status") == VStr("success")
    && Get(d, "duration_minutes") == VInt(10)
    && Get(d, "id") == Get(ev, "key")
    && Get(d, "timestamp") == Get(ev, "createdTime")
  }

  /** One record per event, in event order: record `k` is the VM deployment of event `k`. */
  function VmDeployments(events: seq<Event>): (r: seq<Deployment>)
    requires forall k :: 0 <= k < |events| ==> VmEventOk(events[k])
    ensures |r| == |events|
    ensures forall k :: 0 <= k < |r| ==> VmDeploymentOf(r[k], events[k])
  {
    VmDeploymentEach(events);
    Map(VmDeployment, events)
  }

  lemma VmDeploymentEach(events: seq<Event>)
    requires forall k :: 0 <= k < |events| ==> VmEventOk(events[k])
    ensures forall k :: 0 <= k < |events| ==> VmDeploymentOf(Map(VmDeployment, events)[k], events[k])
  {
    MapIndex(VmDeployment, events);
    forall k | 0 <= k < |events|
      ensures VmDeploymentOf(VmDeployment(events[k]), events[k])
    {
      VmDeploymentFields(events[k]);
    }
  }

  method CollectVmDeployments(events: seq<Event>) returns (vmDeployments: seq<Deployment>)
    requires forall k :: 0 <= k < |events| ==> VmEventOk(events[k])
    ensures vmDeployments == VmDeployments(events)
  {
    vmDeployments := [];
    var i := 0;
    while i < |events|
      invariant 0 <= i <= |events|
      invariant vmDeployments == Map(VmDeployment, events[..i])
    {
      assert events[..i + 1][..i] == events[..i];
      var deployment := VmDeployment(events[i]);
      vmDeployments := vmDeployments + [deployment];
      i := i + 1;
    }
    assert events[..i] == events;
  }

  // =====================================================================
  // Application deployments (fixed sample data)

  /** Sample record `i`: a successful 15-minute deployment at the start date,
      whose id ends in the digit `i`. */
  function ApplicationDeployment(start: Time, i: nat): (d: Deployment)
    requires i < 10
    ensures Get(d, "type") == VStr("application_deployment") && Get(d, "status") == VStr("success")
    ensures Get(d, "duration_minutes") == VInt(15) && Get(d, "timestamp") == VTime(start)
    ensures Get(d, "id").VStr? && |Get(d, "id").s| == 12 && Get(d, "id").s[11] == Digit(i)
  {
    map[
      "id" := VStr("app-deploy-" + [Digit(i)]),
      "type" := VStr("application_deployment"),
      "timestamp" := VTime(start),
      "application_name" := VStr("sample-app-" + [Digit(i)]),
      "version" := VStr("v1." + [Digit(i)] + ".0"),
      "environment" := VStr("production"),
      "status" := VStr("success"),
      "duration_minutes" := VInt(15),
      "commit_sha" := VStr("abc123" + [Digit(i)]),
      "metadata" := VDict(map[
        "pipeline_id" := VStr("pipeline-" + [Digit(i)]),
        "branch" := VStr("main")])
    ]
  }

  /** Always five successful 15-minute records at the start date, numbered 0 to 4,
      whatever the events. */
  function ApplicationDeployments(start: Time): (r: seq<Deployment>)
    ensures |r| == 5
    ensures forall k :: 0 <= k < 5 ==>
              && Get(r[k], "id") == VStr("app-deploy-" + [Digit(k)])
              && Get(r[k], "type") == VStr("application_deployment")
              && Get(r[k], "timestamp") == VTime(start)
              && Get(r[k], "status") == VStr("success")
              && Get(r[k], "duration_minutes") == VInt(15)
  {
    seq(5, i requires 0 <= i < 5 => ApplicationDeployment(start, i))
  }

  /** The five sample records have pairwise different ids. */
  lemma ApplicationIdsDistinct(start: Time, j: nat, k: nat)
    requires j < 5 && k < 5 && j != k
    ensures Get(ApplicationDeployments(start)[j], "id") != Get(ApplicationDeployments(start)[k], "id")
  {
    var r := ApplicationDeployments(start);
    assert Get(r[j], "id").s[11] == Digit(j);
    assert Get(r[k], "id").s[11] == Digit(k);
  }

  // =====================================================================
  // Infrastructure changes

  function InfrastructureChange(ev: Event): Deployment {
    map[
      "id" := Get(ev, "key"),
      "type" := VStr("infrastructure_change"),
      "timestamp" := Get(ev, "createdTime"),
      "target" := Get(ev, "objectName"),
      "change_type" := Get(ev, "eventTypeId"),
      "user" := Get(ev, "userName"),
      "status" := VStr("success"),
      "duration_minutes" := VInt(5),
      "metadata" := VDict(map[
        "description" := Get(ev, "fullFormattedMessage"),
        "object_type" := Get(ev, "objectType")])
    ]
  }

  /** An infrastructure change is a successful 5-minute `infrastructure_change`
      carrying the event's key, creation time, object and event type. */
  lemma InfrastructureChangeFields(ev: Event)
    ensures var d := InfrastructureChange(ev);
      && Get(d, "type") == VStr("infrastructure_change")
      && Get(d, "status") == VStr("success")
      && Get(d, "duration_minutes") == VInt(5)
      && Get(d, "id") == Get(ev, "key")
      && Get(d, "timestamp") == Get(ev, "createdTime")
      && Get(d, "target") == Get(ev, "objectName")
      && Get(d, "change_type") == Get(ev, "eventTypeId")
  {
  }

  /** `d` is a successful 5-minute `infrastructure_change` with the key, the
      creation time, the object and the event type of `ev`. */
  predicate ChangeOf(d: Deployment, ev: Event) {
    && Get(d, "type") == VStr("infrastructure_change")
    && Get(d, "status") == VStr("success")
    && Get(d, "duration_minutes") == VInt(5)
    && Get(d, "id") == Get(ev, "key")
    && Get(d, "timestamp") == Get(ev, "createdTime")
    && Get(d, "target") == Get(ev, "objectName")
    && Get(d, "change_type") == Get(ev, "eventTypeId")
  }

  /** One record per event, in event order: record `k` is the change of event `k`. */
  function InfrastructureChanges(events: seq<Event>): (r: seq<Deployment>)
    ensures |r| == |events|
    ensures forall k :: 0 <= k < |r| ==> ChangeOf(r[k], events[k])
  {
    ChangeEach(events);
    Map(InfrastructureChange, events)
  }

  lemma ChangeEach(events: seq<Event>)
    ensures forall k :: 0 <= k < |events| ==> ChangeOf(Map(InfrastructureChange, events)[k], events[k])
  {
    MapIndex(InfrastructureChange, events);
    forall k | 0 <= k < |events|
      ensures ChangeOf(InfrastructureChange(events[k]), events[k])
    {
      InfrastructureChangeFields(events[k]);
    }
  }

  method CollectInfrastructureChanges(events: seq<Event>) returns (infraChanges: seq<Deployment>)
    ensures infraChanges == InfrastructureChanges(events)
  {
    infraChanges := [];
    var i := 0;
    while i < |events|
      invariant 0 <= i <= |events|
      invariant infraChanges == Map(InfrastructureChange, events[..i])
    {
      assert events[..i + 1][..i] == events[..i];
      var change := InfrastructureChange(events[i]);
      infraChanges := infraChanges + [change];
      i := i + 1;
    }
    assert events[..i] == events;
  }

  // =====================================================================
  // All deployments

  predicate FetchOk(vmEvents: Result<seq<Event>, string>) {
    vmEvents.Ok? ==> forall k :: 0 <= k < |vmEvents.value| ==> VmEventOk(vmEvents.value[k])
  }

  /** The records `collect_deployments` returns once both queries succeed. */
  function AllDeployments(vmEvents: seq<Event>, configEvents: seq<Event>, start: Time): (r: seq<Deployment>)
    requires forall k :: 0 <= k < |vmEvents| ==> VmEventOk(vmEvents[k])
    ensures |r| == |vmEvents| + 5 + |configEvents|
    ensures forall k :: 0 <= k < |vmEvents| ==> Get(r[k], "type") == VStr("vm_deployment")
    ensures forall k :: |vmEvents| <= k < |vmEvents| + 5 ==> Get(r[k], "type") == VStr("application_deployment")
    ensures forall k :: |vmEvents| + 5 <= k < |r| ==> Get(r[k], "type") == VStr("infrastructure_change")
  {
    VmDeployments(vmEvents) + ApplicationDeployments(start) + InfrastructureChanges(configEvents)
  }

  /** The VM, application and infrastructure records in that order; the first
      failing event query's error is raised again. */
  method CollectDeployments(vmEvents: Result<seq<Event>, string>, configEvents: Result<seq<Event>, string>,
                            startDate: Time)
    returns (r: Result<seq<Deployment>, string>)
    requires FetchOk(vmEvents)
    ensures vmEvents.Err? ==> r == Err(vmEvents.error)
    ensures vmEvents.Ok? && configEvents.Err? ==> r == Err(configEvents.error)
    ensures vmEvents.Ok? && configEvents.Ok? ==>
              r == Ok(AllDeployments(vmEvents.value, configEvents.value, startDate))
    ensures r.Ok? ==> |r.value| == |vmEvents.value| + 5 + |configEvents.value|
  {
    var deployments := [];
    if vmEvents.Err? {
      return Err(vmEvents.error);
    }
    var vmDeployments := CollectVmDeployments(vmEvents.value);
    deployments := deployments + vmDeployments;
    assert deployments == vmDeployments;
    var appDeployments := ApplicationDeployments(startDate);
    deployments := deployments + appDeployments;
    if configEvents.Err? {
      return Err(configEvents.error);
    }
    var infraChanges := CollectInfrastructureChanges(configEvents.value);
    deployments := deployments + infraChanges;
    return Ok(deployments);
  }

  /** With no events at all, the collection is still the five sample records. */
  lemma NoEventsStillFive(start: Time)
    ensures AllDeployments([], [], start) == ApplicationDeployments(start)
    ensures |AllDeployments([], [], start)| == 5
  {
    assert VmDeployments([]) == [] && InfrastructureChanges([]) == [];
  }

  /** A record as the collectors build it: a success with a duration of 5, 10
      or 15 minutes. */
  predicate Collected(d: Deployment) {
    Get(d, "status") == VStr("success") && Get(d, "duration_minutes") in {VInt(5), VInt(10), VInt(15)}
  }

  /** A property of every element of `a` and of `b` holds of every element of `a + b`. */
  lemma AllOfConcat<T>(a: seq<T>, b: seq<T>, p: T -> bool)
    requires forall k :: 0 <= k < |a| ==> p(a[k])
    requires forall k :: 0 <= k < |b| ==> p(b[k])
    ensures forall k :: 0 <= k < |a + b| ==> p((a + b)[k])
  {
  }

  lemma VmCollected(events: seq<Event>)
    requires forall k :: 0 <= k < |events| ==> VmEventOk(events[k])
    ensures forall k :: 0 <= k < |VmDeployments(events)| ==> Collected(VmDeployments(events)[k])
  {
    var r := VmDeployments(events);
    assert forall k :: 0 <= k < |r| ==> VmDeploymentOf(r[k], events[k]);
  }

  lemma AppCollected(start: Time)
    ensures forall k :: 0 <= k < |ApplicationDeployments(start)| ==> Collected(ApplicationDeployments(start)[k])
  {
  }

  lemma ChangesCollected(events: seq<Event>)
    ensures forall k :: 0 <= k < |InfrastructureChanges(events)| ==> Collected(InfrastructureChanges(events)[k])
  {
    var r := InfrastructureChanges(events);
    assert forall k :: 0 <= k < |r| ==> ChangeOf(r[k], events[k]);
  }

  /** Every collected record is a success with a duration of 5, 10 or 15 minutes. */
  lemma AllCollectedSucceed(vmEvents: seq<Event>, configEvents: seq<Event>, start: Time)
    requires forall k :: 0 <= k < |vmEvents| ==> VmEventOk(vmEvents[k])
    ensures var all := AllDeployments(vmEvents, configEvents, start);
      forall k :: 0 <= k < |all| ==> Collected(all[k])
  {
    var vm, app, infra := VmDeployments(vmEvents), ApplicationDeployments(start), InfrastructureChanges(configEvents);
    VmCollected(vmEvents);
    AppCollected(start);
    ChangesCollected(configEvents);
    AllOfConcat(vm + app, infra, Collected);
    AllOfConcat(vm, app, Collected);
  }

  // =====================================================================
  // Statistics

  datatype DeploymentStatistics = DeploymentStatistics(
    totalDeployments: nat,
    successfulDeployments: nat,
    failedDeployments: nat,
    successRate: real,
    averageDurationMinutes: real)

  predicate Succeeded(d: Deployment) {
    Get(d, "status") == VStr("success")
  }

  /** `len([d for d in deployments if d.get('status') == 'success'])`. */
  function SuccessCount(deployments: seq<Deployment>): (n: nat)
    ensures n <= |deployments|
  {
    if deployments == [] then 0
    else SuccessCount(deployments[..|deployments| - 1]) + (if Succeeded(deployments[|deployments| - 1]) then 1 else 0)
  }

  /** Every record counts as successful exactly when every status is the exact
      string "success"; no record counts when none has it. */
  lemma {:induction false} SuccessCountExtremes(deployments: seq<Deployment>)
    ensures SuccessCount(deployments) == |deployments| <==> forall k :: 0 <= k < |deployments| ==> Succeeded(deployments[k])
    ensures SuccessCount(deployments) == 0 <==> forall k :: 0 <= k < |deployments| ==> !Succeeded(deployments[k])
  {
    if deployments != [] {
      var init := deployments[..|deployments| - 1];
      SuccessCountExtremes(init);
      assert forall k :: 0 <= k < |init| ==> init[k] == deployments[k];
    }
  }

  /** The successes of a concatenation are those of the parts. */
  lemma {:induction false} SuccessCountAppend(a: seq<Deployment>, b: seq<Deployment>)
    ensures SuccessCount(a + b) == SuccessCount(a) + SuccessCount(b)
  {
    if b == [] {
      assert a + b == a;
    } else {
      var init := b[..|b| - 1];
      SuccessCountAppend(a, init);
      assert (a + b)[..|a + b| - 1] == a + init;
    }
  }

  /** Every duration `d.get('duration_minutes', 0)` is a number `sum` accepts. */
  predicate DurationsAreNumbers(deployments: seq<Deployment>) {
    forall k :: 0 <= k < |deployments| ==> IsNumber(GetOr(deployments[k], "duration_minutes", VInt(0)))
  }

  /** `[d.get('duration_minutes', 0) for d in deployments]`: one entry per
      record, a missing duration counted as 0. */
  function Durations(deployments: seq<Deployment>): (r: seq<real>)
    requires DurationsAreNumbers(deployments)
    ensures |r| == |deployments|
    ensures forall k :: 0 <= k < |deployments| && "duration_minutes" !in deployments[k] ==> r[k] == 0.0
    ensures forall k :: 0 <= k < |deployments| && "duration_minutes" in deployments[k] ==>
              r[k] == RealOf(deployments[k]["duration_minutes"])
  {
    seq(|deployments|, k requires 0 <= k < |deployments| =>
      RealOf(GetOr(deployments[k], "duration_minutes", VInt(0))))
  }

  /** `successful / total * 100`. */
  function SuccessRate(successful: nat, total: nat): (rate: real)
    requires 0 < total && successful <= total
    ensures 0.0 <= rate <= 100.0
    ensures rate == 100.0 <==> successful == total
    ensures rate == 0.0 <==> successful == 0
  {
    successful as real / total as real * 100.0
  }

  function GetDeploymentStatistics(deployments: seq<Deployment>): (stats: DeploymentStatistics)
    requires DurationsAreNumbers(deployments)
    ensures deployments == [] ==> stats == DeploymentStatistics(0, 0, 0, 0.0, 0.0)
    ensures stats.totalDeployments == |deployments|
    ensures stats.successfulDeployments == SuccessCount(deployments)
    ensures stats.successfulDeployments + stats.failedDeployments == stats.totalDeployments
    ensures 0.0 <= stats.successRate <= 100.0
    ensures deployments != [] ==>
              stats.successRate == SuccessRate(stats.successfulDeployments, stats.totalDeployments)
    ensures deployments != [] ==> stats.averageDurationMinutes == Mean(Durations(deployments))
  {
    if deployments == [] then DeploymentStatistics(0, 0, 0, 0.0, 0.0)
    else
      var total := |deployments|;
      var successful := SuccessCount(deployments);
      var failed := total - successful;
      var durations := Durations(deployments);
      var avgDuration := if durations != [] then Sum(durations) / |durations| as real else 0.0;
      DeploymentStatistics(total, successful, failed, SuccessRate(successful, total), avgDuration)
  }

  /** The rate is 100 exactly when every record succeeded, and 0 exactly when none did. */
  lemma SuccessRateExtremes(deployments: seq<Deployment>)
    requires DurationsAreNumbers(deployments) && deployments != []
    ensures GetDeploymentStatistics(deployments).successRate == 100.0 <==>
              forall k :: 0 <= k < |deployments| ==> Succeeded(deployments[k])
    ensures GetDeploymentStatistics(deployments).successRate == 0.0 <==>
              forall k :: 0 <= k < |deployments| ==> !Succeeded(deployments[k])
  {
    SuccessCountExtremes(deployments);
  }

  /** When every duration lies in [lo, hi], so does the average. */
  lemma AverageDurationWithin(deployments: seq<Deployment>, lo: real, hi: real)
    requires DurationsAreNumbers(deployments) && deployments != []
    requires forall k :: 0 <= k < |deployments| ==> lo <= Durations(deployments)[k] <= hi
    ensures lo <= GetDeploymentStatistics(deployments).averageDurationMinutes <= hi
  {
    MeanBounds(Durations(deployments), lo, hi);
  }

  /** The durations of collected records are numbers between 5 and 15. */
  lemma CollectedDurations(deployments: seq<Deployment>)
    requires forall k :: 0 <= k < |deployments| ==> Collected(deployments[k])
    ensures DurationsAreNumbers(deployments)
    ensures forall k :: 0 <= k < |deployments| ==> 5.0 <= Durations(deployments)[k] <= 15.0
  {
    assert DurationsAreNumbers(deployments);
  }

  /** Statistics over a collection: all succeed, and the average lies between
      the shortest and the longest estimate. */
  lemma CollectedStatistics(vmEvents: seq<Event>, configEvents: seq<Event>, start: Time)
    requires forall k :: 0 <= k < |vmEvents| ==> VmEventOk(vmEvents[k])
    ensures DurationsAreNumbers(AllDeployments(vmEvents, configEvents, start))
    ensures var stats := GetDeploymentStatistics(AllDeployments(vmEvents, configEvents, start));
      && stats.failedDeployments == 0
      && stats.successRate == 100.0
      && 5.0 <= stats.averageDurationMinutes <= 15.0
  {
    var all := AllDeployments(vmEvents, configEvents, start);
    AllCollectedSucceed(vmEvents, configEvents, start);
    CollectedDurations(all);
    assert forall k :: 0 <= k < |all| ==> Succeeded(all[k]);
    SuccessCountExtremes(all);
    AverageDurationWithin(all, 5.0, 15.0);
  }

  /** Three successful deployments of 10, 20 and 15 minutes. */
  lemma AllSuccessfulExample()
    ensures var ds := [map["status" := VStr("success"), "duration_minutes" := VInt(10)],
                       map["status" := VStr("success"), "duration_minutes" := VInt(20)],
                       map["status" := VStr("success"), "duration_minutes" := VInt(15)]];
      DurationsAreNumbers(ds) && GetDeploymentStatistics(ds) == DeploymentStatistics(3, 3, 0, 100.0, 15.0)
  {
    var ds := [map["status" := VStr("success"), "duration_minutes" := VInt(10)],
               map["status" := VStr("success"), "duration_minutes" := VInt(20)],
               map["status" := VStr("success"), "duration_minutes" := VInt(15)]];
    assert SuccessCount(ds[..2]) == 2;
    assert Durations(ds) == [10.0, 20.0, 15.0];
    assert Sum([10.0, 20.0, 15.0]) == 45.0 by {
      assert [10.0, 20.0, 15.0][..2] == [10.0, 20.0];
      assert [10.0, 20.0][..1] == [10.0];
    }
  }

  /** Two successes and one failure, of 10, 5 and 20 minutes. */
  lemma MixedExample()
    ensures var ds := [map["status" := VStr("success"), "duration_minutes" := VInt(10)],
                       map["status" := VStr("failed"), "duration_minutes" := VInt(5)],
                       map["status" := VStr("success"), "duration_minutes" := VInt(20)]];
      DurationsAreNumbers(ds) && GetDeploymentStatistics(ds) == DeploymentStatistics(3, 2, 1, 200.0 / 3.0, 35.0 / 3.0)
  {
    var ds := [map["status" := VStr("success"), "duration_minutes" := VInt(10)],
               map["status" := VStr("failed"), "duration_minutes" := VInt(5)],
               map["status" := VStr("success"), "duration_minutes" := VInt(20)]];
    assert VStr("failed") != VStr("success") by {
      assert "failed"[0] != "success"[0];
    }
    assert SuccessCount(ds[..2]) == 1;
    assert Durations(ds) == [10.0, 5.0, 20.0];
    assert Sum([10.0, 5.0, 20.0]) == 35.0 by {
      assert [10.0, 5.0, 20.0][..2] == [10.0, 5.0];
      assert [10.0, 5.0][..1] == [10.0];
    }
  }
}
