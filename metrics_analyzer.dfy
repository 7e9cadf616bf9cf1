/** The DORA metrics calculator and performance classifier
    (`MetricsAnalyzer` of src/analyzers/metrics_analyzer.py). */
module MetricsAnalyzer {
  import opened Wrappers
  import opened PyValues
  import opened Stats
  import opened Timestamps

  /** A deployment or incident record: a dictionary of optional fields. */
  type Record = Dict

  const DeploymentFrequencyKey := "deployment_frequency"
  const LeadTimeKey := "lead_time_for_changes"
  const ChangeFailureRateKey := "change_failure_rate"
  const RestoreTimeKey := "time_to_restore_service"

  /** The four keys of a metrics result, in their fixed order. */
  const MetricKeys := [DeploymentFrequencyKey, LeadTimeKey, ChangeFailureRateKey, RestoreTimeKey]

  const SecondsPerDay := 86400

  /** Default lead time, in hours, when no deployment has a usable pair. */
  const DefaultLeadTime := 24.0

  /** Default time to restore, in hours, when no incident has a usable pair. */
  const DefaultRestoreTime := 4.0

  // =====================================================================
  // Deployment frequency

  /** The truthy `timestamp` values of the records, in record order. */
  function TimestampValues(records: seq<Record>): (vs: seq<Value>)
    ensures |vs| <= |records|
    ensures forall k :: 0 <= k < |vs| ==> Truthy(vs[k])
  {
    if records == [] then []
    else
      var v := Get(records[|records| - 1], "timestamp");
      TimestampValues(records[..|records| - 1]) + (if Truthy(v) then [v] else [])
  }

  /** The values of `vs` that normalise to a time, converted, in order. */
  function NormalizeAll(vs: seq<Value>, parse: Parser): (ts: seq<Time>)
    ensures |ts| <= |vs|
  {
    if vs == [] then []
    else
      NormalizeAll(vs[..|vs| - 1], parse)
        + (match Normalize(vs[|vs| - 1], parse) case Some(t) => [t] case None => [])
  }

  /** The time one record contributes: its normalised timestamp, if any. */
  function ParsedOf(r: Record, parse: Parser): seq<Time> {
    match Normalize(Get(r, "timestamp"), parse) case Some(t) => [t] case None => []
  }

  /** The record timestamps that normalise, in record order. */
  function ParsedTimestamps(records: seq<Record>, parse: Parser): seq<Time> {
    if records == [] then []
    else ParsedTimestamps(records[..|records| - 1], parse) + ParsedOf(records[|records| - 1], parse)
  }

  /** Whole days between the earliest and the latest of the times. */
  function SpanDays(ts: seq<Time>): (days: nat)
    requires ts != []
  {
    var lo, hi := Earliest(ts), Latest(ts);
    assert lo.seconds <= ts[0].seconds <= hi.seconds;
    WholeDays(lo, hi)
  }

  /** `count / span`, a span of 0 days counted as one day. */
  function PerDay(count: nat, span: nat): real {
    count as real / (if span == 0 then 1 else span) as real
  }

  /** Deployments per day: 0 without a truthy timestamp, the record count when
      fewer than two timestamps normalise, else the record count over the whole
      days between the earliest and the latest timestamp, at least one. */
  function DeploymentFrequency(deployments: seq<Record>, parse: Parser): (r: real)
    ensures 0.0 <= r <= |deployments| as real
  {
    if deployments == [] || TimestampValues(deployments) == [] then 0.0
    else
      var ts := ParsedTimestamps(deployments, parse);
      if |ts| < 2 then |deployments| as real
      else
        var span := SpanDays(ts);
        DivAtMost(|deployments| as real, (if span == 0 then 1 else span) as real);
        PerDay(|deployments|, span)
  }

  method CalculateDeploymentFrequency(deployments: seq<Record>, parse: Parser) returns (frequency: real)
    requires OneKind(ParsedTimestamps(deployments, parse))
    ensures frequency == DeploymentFrequency(deployments, parse)
  {
    if |deployments| == 0 {
      return 0.0;
    }
    var dates := CollectTimestamps(deployments);
    if |dates| == 0 {
      return 0.0;
    }
    var datetimeObjects := NormalizeEach(dates, parse);
    ParsedTimestampsInTwoPasses(deployments, parse);
    if |datetimeObjects| < 2 {
      return |deployments| as real;
    }
    var minDate := Earliest(datetimeObjects);
    var maxDate := Latest(datetimeObjects);
    var timeSpan := WholeDays(minDate, maxDate);
    assert timeSpan == SpanDays(datetimeObjects);
    if timeSpan == 0 {
      timeSpan := 1;
    }
    frequency := |deployments| as real / timeSpan as real;
  }

  /** The first pass: the truthy `timestamp` of every record, in order. */
  method CollectTimestamps(deployments: seq<Record>) returns (dates: seq<Value>)
    ensures dates == TimestampValues(deployments)
  {
    dates := [];
    var i := 0;
    while i < |deployments|
      invariant 0 <= i <= |deployments|
      invariant dates == TimestampValues(deployments[..i])
    {
      var v := Get(deployments[i], "timestamp");
      if Truthy(v) {
        dates := dates + [v];
      }
      assert deployments[..i + 1][..i] == deployments[..i];
      i := i + 1;
    }
    assert deployments[..i] == deployments;
  }

  /** The second pass: every value that normalises, converted, in order. */
  method NormalizeEach(dates: seq<Value>, parse: Parser) returns (datetimeObjects: seq<Time>)
    ensures datetimeObjects == NormalizeAll(dates, parse)
  {
    datetimeObjects := [];
    var j := 0;
    while j < |dates|
      invariant 0 <= j <= |dates|
      invariant datetimeObjects == NormalizeAll(dates[..j], parse)
    {
      var t := Normalize(dates[j], parse);
      if t.Some? {
        datetimeObjects := datetimeObjects + [t.value];
      }
      assert dates[..j + 1][..j] == dates[..j];
      j := j + 1;
    }
    assert dates[..j] == dates;
  }

  lemma {:induction false} TimestampValuesEmpty(records: seq<Record>)
    ensures TimestampValues(records) == [] <==>
            forall k :: 0 <= k < |records| ==> !Truthy(Get(records[k], "timestamp"))
  {
    if records != [] {
      var init := records[..|records| - 1];
      TimestampValuesEmpty(init);
      assert forall k :: 0 <= k < |init| ==> init[k] == records[k];
    }
  }

  /** A record's contribution holds `t` exactly when its timestamp normalises to `t`. */
  lemma ParsedOfExactly(r: Record, parse: Parser, t: Time)
    ensures t in ParsedOf(r, parse) <==> Normalize(Get(r, "timestamp"), parse) == Some(t)
  {
  }

  /** Normalising the truthy timestamp values, as the method does in two
      passes, gives the parsed timestamps: a falsy value never normalises. */
  lemma {:induction false} ParsedTimestampsInTwoPasses(records: seq<Record>, parse: Parser)
    ensures ParsedTimestamps(records, parse) == NormalizeAll(TimestampValues(records), parse)
  {
    if records != [] {
      var init := records[..|records| - 1];
      ParsedTimestampsInTwoPasses(init, parse);
      var v := Get(records[|records| - 1], "timestamp");
      assert TimestampValues(records) == TimestampValues(init) + (if Truthy(v) then [v] else []);
      if Truthy(v) {
        var vs := TimestampValues(init) + [v];
        assert vs[..|vs| - 1] == TimestampValues(init);
        assert NormalizeAll(vs, parse) == NormalizeAll(TimestampValues(init), parse)
          + (match Normalize(v, parse) case Some(t) => [t] case None => []);
      } else {
        assert TimestampValues(init) + [] == TimestampValues(init);
        assert Normalize(v, parse) == None;
      }
    }
  }

  /** A time is among the parsed timestamps exactly when some record's
      timestamp normalises to it. */
  lemma ParsedTimestampsExactly(records: seq<Record>, parse: Parser, t: Time)
    ensures t in ParsedTimestamps(records, parse) <==>
            exists k :: 0 <= k < |records| && Normalize(Get(records[k], "timestamp"), parse) == Some(t)
  {
    if t in ParsedTimestamps(records, parse) {
      ParsedTimestampSource(records, parse, t);
    }
    if k :| 0 <= k < |records| && Normalize(Get(records[k], "timestamp"), parse) == Some(t) {
      ParsedTimestampIncluded(records, parse, t, k);
    }
  }

  /** Every parsed timestamp comes from some record. */
  lemma {:induction false} ParsedTimestampSource(records: seq<Record>, parse: Parser, t: Time)
    requires t in ParsedTimestamps(records, parse)
    ensures exists k :: 0 <= k < |records| && Normalize(Get(records[k], "timestamp"), parse) == Some(t)
  {
    assert records != [];
    var n := |records| - 1;
    var init := records[..n];
    InConcat(ParsedTimestamps(init, parse), ParsedOf(records[n], parse), t);
    if t in ParsedTimestamps(init, parse) {
      ParsedTimestampSource(init, parse, t);
      var k :| 0 <= k < |init| && Normalize(Get(init[k], "timestamp"), parse) == Some(t);
      assert records[k] == init[k];
    } else {
      ParsedOfExactly(records[n], parse, t);
    }
  }

  /** Every record timestamp that normalises is among the parsed timestamps. */
  lemma {:induction false} ParsedTimestampIncluded(records: seq<Record>, parse: Parser, t: Time, k: nat)
    requires k < |records| && Normalize(Get(records[k], "timestamp"), parse) == Some(t)
    ensures t in ParsedTimestamps(records, parse)
  {
    var n := |records| - 1;
    var init := records[..n];
    InConcat(ParsedTimestamps(init, parse), ParsedOf(records[n], parse), t);
    if k < n {
      assert init[k] == records[k];
      ParsedTimestampIncluded(init, parse, t, k);
    } else {
      ParsedOfExactly(records[k], parse, t);
    }
  }

  /** Frequency is 0 exactly when no record has a truthy timestamp (in
      particular when there are no records). */
  lemma FrequencyZeroIff(deployments: seq<Record>, parse: Parser)
    ensures DeploymentFrequency(deployments, parse) == 0.0 <==>
            forall k :: 0 <= k < |deployments| ==> !Truthy(Get(deployments[k], "timestamp"))
  {
    TimestampValuesEmpty(deployments);
    if TimestampValues(deployments) != [] {
      FrequencyBounds(deployments, parse);
    }
  }

  /** With a truthy timestamp, frequency is positive and at most the record count. */
  lemma FrequencyBounds(deployments: seq<Record>, parse: Parser)
    requires TimestampValues(deployments) != []
    ensures 0.0 < DeploymentFrequency(deployments, parse) <= |deployments| as real
  {
    var ts := ParsedTimestamps(deployments, parse);
    if |ts| >= 2 {
      var span := SpanDays(ts);
      var d := (if span == 0 then 1 else span) as real;
      DivAtMost(|deployments| as real, d);
      DivPositive(|deployments| as real, d);
    }
  }

  /** When fewer than two timestamps normalise the frequency is the count of
      ALL records, those whose timestamp failed to parse included. */
  lemma FrequencyFewTimestamps(deployments: seq<Record>, parse: Parser)
    requires exists k :: 0 <= k < |deployments| && Truthy(Get(deployments[k], "timestamp"))
    requires |ParsedTimestamps(deployments, parse)| < 2
    ensures DeploymentFrequency(deployments, parse) == |deployments| as real
  {
    TimestampValuesEmpty(deployments);
  }

  /** For the same whole-day span, more records never give a lower frequency. */
  lemma FrequencyMonotone(d1: seq<Record>, d2: seq<Record>, parse: Parser)
    requires |ParsedTimestamps(d1, parse)| >= 2 && |ParsedTimestamps(d2, parse)| >= 2
    requires SpanDays(ParsedTimestamps(d1, parse)) == SpanDays(ParsedTimestamps(d2, parse))
    requires |d1| <= |d2|
    ensures DeploymentFrequency(d1, parse) <= DeploymentFrequency(d2, parse)
  {
    ParsedTimestampsInTwoPasses(d1, parse);
    ParsedTimestampsInTwoPasses(d2, parse);
    var span := SpanDays(ParsedTimestamps(d1, parse));
    DivMonotone(|d1| as real, |d2| as real, (if span == 0 then 1 else span) as real);
  }

  // =====================================================================
  // Lead time and time to restore

  /** Picks the start and the end value of a record. */
  type Endpoints = Record -> (Value, Value)

  /** The `start_time` and `end_time` of a deployment. */
  function LeadEndpoints(r: Record): (Value, Value) {
    (Get(r, "start_time"), Get(r, "end_time"))
  }

  /** `start_time or timestamp` and `end_time or resolved_time` of an incident:
      the fallback is taken for any falsy value, not only a missing one. */
  function RestoreEndpoints(r: Record): (p: (Value, Value))
    ensures Truthy(Get(r, "start_time")) ==> p.0 == r["start_time"]
    ensures !Truthy(Get(r, "start_time")) ==> p.0 == Get(r, "timestamp")
    ensures Truthy(Get(r, "end_time")) ==> p.1 == r["end_time"]
    ensures !Truthy(Get(r, "end_time")) ==> p.1 == Get(r, "resolved_time")
  {
    (Or(Get(r, "start_time"), Get(r, "timestamp")), Or(Get(r, "end_time"), Get(r, "resolved_time")))
  }

  /** The hours from start to end when both are truthy and normalise and the
      difference is not negative; none otherwise. */
  function PairHours(p: (Value, Value), parse: Parser): (h: Option<real>)
    ensures h.Some? ==> h.value >= 0.0
    ensures h.Some? <==>
      Truthy(p.0) && Truthy(p.1) && Normalize(p.0, parse).Some? && Normalize(p.1, parse).Some? &&
      Normalize(p.0, parse).value.seconds <= Normalize(p.1, parse).value.seconds
  {
    if Truthy(p.0) && Truthy(p.1) then
      match (Normalize(p.0, parse), Normalize(p.1, parse))
      case (Some(a), Some(b)) => if Hours(a, b) >= 0.0 then Some(Hours(a, b)) else None
      case _ => None
    else None
  }

  /** Python can subtract the two endpoints when both normalise. */
  predicate PairComparable(p: (Value, Value), parse: Parser) {
    Normalize(p.0, parse).Some? && Normalize(p.1, parse).Some? ==>
      Normalize(p.0, parse).value.aware == Normalize(p.1, parse).value.aware
  }

  /** The usable durations of the records, in record order. */
  function Durations(records: seq<Record>, ends: Endpoints, parse: Parser): (ds: seq<real>)
    ensures |ds| <= |records|
  {
    if records == [] then []
    else
      Durations(records[..|records| - 1], ends, parse)
        + (match PairHours(ends(records[|records| - 1]), parse) case Some(h) => [h] case None => [])
  }

  /** Mean lead time for changes, in hours: the default 24 hours when no
      deployment has a usable pair, and never negative. */
  function LeadTime(deployments: seq<Record>, parse: Parser): (hours: real)
    ensures hours >= 0.0
    ensures (forall k :: 0 <= k < |deployments| ==> PairHours(LeadEndpoints(deployments[k]), parse) == None)
            ==> hours == DefaultLeadTime
  {
    var ds := Durations(deployments, LeadEndpoints, parse);
    DurationsEmptyIff(deployments, LeadEndpoints, parse);
    DurationsNonNegative(deployments, LeadEndpoints, parse);
    if ds != [] then MeanNonNegative(ds); Mean(ds) else DefaultLeadTime
  }

  /** Mean time to restore service, in hours: the default 4 hours when no
      incident has a usable pair, and never negative. */
  function RestoreTime(incidents: seq<Record>, parse: Parser): (hours: real)
    ensures hours >= 0.0
    ensures (forall k :: 0 <= k < |incidents| ==> PairHours(RestoreEndpoints(incidents[k]), parse) == None)
            ==> hours == DefaultRestoreTime
  {
    var ds := Durations(incidents, RestoreEndpoints, parse);
    DurationsEmptyIff(incidents, RestoreEndpoints, parse);
    DurationsNonNegative(incidents, RestoreEndpoints, parse);
    if ds != [] then MeanNonNegative(ds); Mean(ds) else DefaultRestoreTime
  }

  method CalculateLeadTime(deployments: seq<Record>, parse: Parser) returns (hours: real)
    requires forall k :: 0 <= k < |deployments| ==> PairComparable(LeadEndpoints(deployments[k]), parse)
    ensures hours == LeadTime(deployments, parse)
  {
    var leadTimes: seq<real> := [];
    var i := 0;
    while i < |deployments|
      invariant 0 <= i <= |deployments|
      invariant leadTimes == Durations(deployments[..i], LeadEndpoints, parse)
    {
      var startTime := Get(deployments[i], "start_time");
      var endTime := Get(deployments[i], "end_time");
      assert deployments[..i + 1][..i] == deployments[..i];
      if Truthy(startTime) && Truthy(endTime) {
        var a := Normalize(startTime, parse);
        var b := Normalize(endTime, parse);
        if a.Some? && b.Some? {
          var leadTimeHours := Hours(a.value, b.value);
          if leadTimeHours >= 0.0 {
            leadTimes := leadTimes + [leadTimeHours];
          }
        }
      }
      i := i + 1;
    }
    assert deployments[..i] == deployments;
    if leadTimes == [] {
      return DefaultLeadTime;
    }
    hours := Mean(leadTimes);
  }

  method CalculateRecoveryTime(incidents: seq<Record>, parse: Parser) returns (hours: real)
    requires forall k :: 0 <= k < |incidents| ==> PairComparable(RestoreEndpoints(incidents[k]), parse)
    ensures hours == RestoreTime(incidents, parse)
  {
    var recoveryTimes: seq<real> := [];
    var i := 0;
    while i < |incidents|
      invariant 0 <= i <= |incidents|
      invariant recoveryTimes == Durations(incidents[..i], RestoreEndpoints, parse)
    {
      var startTime := Or(Get(incidents[i], "start_time"), Get(incidents[i], "timestamp"));
      var endTime := Or(Get(incidents[i], "end_time"), Get(incidents[i], "resolved_time"));
      assert incidents[..i + 1][..i] == incidents[..i];
      if Truthy(startTime) && Truthy(endTime) {
        var a := Normalize(startTime, parse);
        var b := Normalize(endTime, parse);
        if a.Some? && b.Some? {
          var recoveryTimeHours := Hours(a.value, b.value);
          if recoveryTimeHours >= 0.0 {
            recoveryTimes := recoveryTimes + [recoveryTimeHours];
          }
        }
      }
      i := i + 1;
    }
    assert incidents[..i] == incidents;
    if recoveryTimes == [] {
      return DefaultRestoreTime;
    }
    hours := Mean(recoveryTimes);
  }

  /** Every duration that enters a mean is non-negative. */
  lemma {:induction false} DurationsNonNegative(records: seq<Record>, ends: Endpoints, parse: Parser)
    ensures forall k :: 0 <= k < |Durations(records, ends, parse)| ==> Durations(records, ends, parse)[k] >= 0.0
  {
    if records != [] {
      DurationsNonNegative(records[..|records| - 1], ends, parse);
    }
  }

  /** The durations contributed by one record: its usable hours, if any. */
  function DurationOf(r: Record, ends: Endpoints, parse: Parser): seq<real> {
    match PairHours(ends(r), parse) case Some(h) => [h] case None => []
  }

  /** A record's contribution holds `h` exactly when `h` is its usable hours. */
  lemma DurationOfExactly(r: Record, ends: Endpoints, parse: Parser, h: real)
    ensures h in DurationOf(r, ends, parse) <==> PairHours(ends(r), parse) == Some(h)
  {
  }

  /** The durations grow by the last record's contribution. */
  lemma DurationsSnoc(records: seq<Record>, ends: Endpoints, parse: Parser)
    requires records != []
    ensures Durations(records, ends, parse)
            == Durations(records[..|records| - 1], ends, parse) + DurationOf(records[|records| - 1], ends, parse)
  {
  }

  /** A value is a duration exactly when it is the usable hours of some record. */
  lemma DurationsExactly(records: seq<Record>, ends: Endpoints, parse: Parser, h: real)
    ensures h in Durations(records, ends, parse) <==>
            exists k :: 0 <= k < |records| && PairHours(ends(records[k]), parse) == Some(h)
  {
    if h in Durations(records, ends, parse) {
      DurationSource(records, ends, parse, h);
    }
    if k :| 0 <= k < |records| && PairHours(ends(records[k]), parse) == Some(h) {
      DurationIncluded(records, ends, parse, h, k);
    }
  }

  /** Every duration comes from some record. */
  lemma {:induction false} DurationSource(records: seq<Record>, ends: Endpoints, parse: Parser, h: real)
    requires h in Durations(records, ends, parse)
    ensures exists k :: 0 <= k < |records| && PairHours(ends(records[k]), parse) == Some(h)
  {
    assert records != [];
    var n := |records| - 1;
    var init := records[..n];
    DurationsSnoc(records, ends, parse);
    InConcat(Durations(init, ends, parse), DurationOf(records[n], ends, parse), h);
    if h in Durations(init, ends, parse) {
      DurationSource(init, ends, parse, h);
      var k :| 0 <= k < |init| && PairHours(ends(init[k]), parse) == Some(h);
      assert records[k] == init[k];
    } else {
      DurationOfExactly(records[n], ends, parse, h);
    }
  }

  /** Every record's usable hours are among the durations. */
  lemma {:induction false} DurationIncluded(records: seq<Record>, ends: Endpoints, parse: Parser, h: real, k: nat)
    requires k < |records| && PairHours(ends(records[k]), parse) == Some(h)
    ensures h in Durations(records, ends, parse)
  {
    var n := |records| - 1;
    var init := records[..n];
    DurationsSnoc(records, ends, parse);
    InConcat(Durations(init, ends, parse), DurationOf(records[n], ends, parse), h);
    if k < n {
      assert init[k] == records[k];
      DurationIncluded(init, ends, parse, h, k);
    } else {
      DurationOfExactly(records[k], ends, parse, h);
    }
  }

  /** Durations of a concatenation are the concatenated durations. */
  lemma {:induction false} DurationsAppend(a: seq<Record>, b: seq<Record>, ends: Endpoints, parse: Parser)
    ensures Durations(a + b, ends, parse) == Durations(a, ends, parse) + Durations(b, ends, parse)
  {
    if b == [] {
      assert a + b == a;
      assert Durations(a, ends, parse) + [] == Durations(a, ends, parse);
    } else {
      var n := |b| - 1;
      var b', x := b[..n], b[n];
      DurationsAppend(a, b', ends, parse);
      ConcatInit(a, b);
      DurationsSnoc(a + b, ends, parse);
      DurationsSnoc(b, ends, parse);
      ConcatAssoc(Durations(a, ends, parse), Durations(b', ends, parse), DurationOf(x, ends, parse));
    }
  }

  /** A record whose end precedes its start (or that lacks a usable pair) does
      not change the durations: removing it gives the same sequence. */
  lemma UnusablePairIgnored(records: seq<Record>, k: nat, ends: Endpoints, parse: Parser)
    requires k < |records|
    requires PairHours(ends(records[k]), parse) == None
    ensures Durations(records[..k] + records[k + 1..], ends, parse) == Durations(records, ends, parse)
  {
    var a, x, b := records[..k], records[k], records[k + 1..];
    assert records == (a + [x]) + b;
    UnusableSingle(x, ends, parse);
    DurationsAppend(a, [x], ends, parse);
    assert Durations(a, ends, parse) + [] == Durations(a, ends, parse);
    DurationsAppend(a + [x], b, ends, parse);
    DurationsAppend(a, b, ends, parse);
  }

  /** A lone record without a usable pair has no duration. */
  lemma UnusableSingle(x: Record, ends: Endpoints, parse: Parser)
    requires PairHours(ends(x), parse) == None
    ensures Durations([x], ends, parse) == []
  {
    assert [x][..0] == [];
  }

  /** No usable durations exactly when no record has a usable pair. */
  lemma {:induction false} DurationsEmptyIff(records: seq<Record>, ends: Endpoints, parse: Parser)
    ensures Durations(records, ends, parse) == [] <==>
            forall k :: 0 <= k < |records| ==> PairHours(ends(records[k]), parse) == None
  {
    if records != [] {
      var n := |records| - 1;
      var init := records[..n];
      DurationsEmptyIff(init, ends, parse);
      DurationsSnoc(records, ends, parse);
      if forall k :: 0 <= k < |records| ==> PairHours(ends(records[k]), parse) == None {
        forall k | 0 <= k < |init|
          ensures PairHours(ends(init[k]), parse) == None
        {
          assert init[k] == records[k];
        }
      }
      if Durations(records, ends, parse) == [] {
        forall k | 0 <= k < |records|
          ensures PairHours(ends(records[k]), parse) == None
        {
          if k < n {
            assert records[k] == init[k];
          }
        }
      }
    }
  }


  /** With usable pairs, the lead time lies between the smallest and the
      largest of their durations. */
  lemma LeadTimeWithin(deployments: seq<Record>, parse: Parser, lo: real, hi: real)
    requires Durations(deployments, LeadEndpoints, parse) != []
    requires forall k :: 0 <= k < |Durations(deployments, LeadEndpoints, parse)| ==>
               lo <= Durations(deployments, LeadEndpoints, parse)[k] <= hi
    ensures lo <= LeadTime(deployments, parse) <= hi
  {
    MeanBounds(Durations(deployments, LeadEndpoints, parse), lo, hi);
  }


  // =====================================================================
  // Change failure rate

  /** `deployment.get('status', '')` can be lowercased. */
  predicate StatusIsText(r: Record) {
    "status" !in r || r["status"].VStr?
  }

  /** The status lowercased is one of failed, error or failure. */
  predicate FailedStatus(r: Record)
    requires StatusIsText(r)
  {
    var status := if "status" in r then r["status"].s else "";
    Lower(status) in ["failed", "error", "failure"]
  }

  /** The number of deployments with a failed status. */
  function FailedCount(deployments: seq<Record>): (n: nat)
    requires forall k :: 0 <= k < |deployments| ==> StatusIsText(deployments[k])
    ensures n <= |deployments|
  {
    if deployments == [] then 0
    else
      FailedCount(deployments[..|deployments| - 1])
        + (if FailedStatus(deployments[|deployments| - 1]) then 1 else 0)
  }

  /** `0 <= incident - deployment <= 24h`, both ends inclusive, for a deployment
      whose timestamp normalises. */
  predicate WithinDay(incident: Time, deployment: Record, parse: Parser) {
    match Normalize(Get(deployment, "timestamp"), parse)
    case Some(d) => 0 <= incident.seconds - d.seconds <= SecondsPerDay
    case None => false
  }

  /** The incident's timestamp normalises and some deployment lies at most a
      day before it. */
  predicate DeploymentRelated(incident: Record, deployments: seq<Record>, parse: Parser) {
    match Normalize(Get(incident, "timestamp"), parse)
    case Some(t) => exists j | 0 <= j < |deployments| :: WithinDay(t, deployments[j], parse)
    case None => false
  }

  /** The number of deployment-related incidents: one credit per incident at most. */
  function RelatedCount(incidents: seq<Record>, deployments: seq<Record>, parse: Parser): (n: nat)
    ensures n <= |incidents|
  {
    if incidents == [] then 0
    else
      RelatedCount(incidents[..|incidents| - 1], deployments, parse)
        + (if DeploymentRelated(incidents[|incidents| - 1], deployments, parse) then 1 else 0)
  }

  /** Change failure rate in percent: failed-status deployments plus
      deployment-related incidents, over the number of deployments. Not capped
      at 100, and a failed deployment with a related incident counts twice. */
  function ChangeFailureRate(deployments: seq<Record>, incidents: seq<Record>, parse: Parser): (rate: real)
    requires forall k :: 0 <= k < |deployments| ==> StatusIsText(deployments[k])
    ensures deployments == [] ==> rate == 0.0
    ensures rate >= 0.0
    ensures incidents == [] ==> rate <= 100.0
  {
    if deployments == [] then 0.0
    else
      var failures := FailedCount(deployments) + RelatedCount(incidents, deployments, parse);
      PercentageBounds(failures, |deployments|);
      Percentage(failures, |deployments|)
  }

  /** `part / whole * 100` in floating point, here exact. */
  function Percentage(part: nat, whole: nat): real
    requires whole > 0
  {
    part as real / whole as real * 100.0
  }

  /** A percentage is never negative, is 0 exactly for no part and 100 exactly
      for the whole, and stays at most 100 while the part is at most the whole. */
  lemma PercentageBounds(part: nat, whole: nat)
    requires whole > 0
    ensures Percentage(part, whole) >= 0.0
    ensures Percentage(part, whole) == 0.0 <==> part == 0
    ensures Percentage(part, whole) == 100.0 <==> part == whole
    ensures part <= whole ==> Percentage(part, whole) <= 100.0
  {
    var p, w := part as real, whole as real;
    var q := p / w;
    assert q * w == p;
    assert Percentage(part, whole) == q * 100.0;
    DivAtMost(p, w);
    if q == 1.0 {
      assert p == w;
    }
    if p == w {
      assert q == 1.0;
    }
    if q == 0.0 {
      assert p == 0.0;
    }
    if part <= whole {
      DivMonotone(p, w, w);
      assert w / w == 1.0;
    }
  }

  /** Python can subtract the deployment's timestamp from the incident's when
      both normalise. */
  predicate TimestampsComparable(incident: Record, deployment: Record, parse: Parser) {
    var a, b := Normalize(Get(incident, "timestamp"), parse), Normalize(Get(deployment, "timestamp"), parse);
    a.Some? && b.Some? ==> a.value.aware == b.value.aware
  }

  method CalculateChangeFailureRate(deployments: seq<Record>, incidents: seq<Record>, parse: Parser)
    returns (failureRate: real)
    requires forall k :: 0 <= k < |deployments| ==> StatusIsText(deployments[k])
    requires forall m, j :: 0 <= m < |incidents| && 0 <= j < |deployments| ==>
               TimestampsComparable(incidents[m], deployments[j], parse)
    ensures failureRate == ChangeFailureRate(deployments, incidents, parse)
  {
    if |deployments| == 0 {
      return 0.0;
    }
    var failedDeployments := CountFailed(deployments);
    var deploymentRelatedIncidents := 0;
    var m := 0;
    while m < |incidents|
      invariant 0 <= m <= |incidents|
      invariant deploymentRelatedIncidents == RelatedCount(incidents[..m], deployments, parse)
    {
      var incidentTime := Normalize(Get(incidents[m], "timestamp"), parse);
      var related := false;
      if incidentTime.Some? {
        related := AnyWithinDay(incidentTime.value, deployments, parse);
      }
      assert related == DeploymentRelated(incidents[m], deployments, parse);
      RelatedCountStep(incidents, m, deployments, parse);
      if related {
        deploymentRelatedIncidents := deploymentRelatedIncidents + 1;
      }
      m := m + 1;
    }
    assert incidents[..m] == incidents;
    var totalFailures := failedDeployments + deploymentRelatedIncidents;
    failureRate := Percentage(totalFailures, |deployments|);
    RateOfCounts(deployments, incidents, parse, totalFailures, |deployments|);
  }

  /** One more incident adds its own credit to the count. */
  lemma RelatedCountStep(incidents: seq<Record>, m: nat, deployments: seq<Record>, parse: Parser)
    requires m < |incidents|
    ensures RelatedCount(incidents[..m + 1], deployments, parse)
            == RelatedCount(incidents[..m], deployments, parse)
               + (if DeploymentRelated(incidents[m], deployments, parse) then 1 else 0)
  {
    assert incidents[..m + 1][..m] == incidents[..m];
  }

  /** The first loop of `_calculate_change_failure_rate`: failed statuses. */
  method CountFailed(deployments: seq<Record>) returns (failed: nat)
    requires forall k :: 0 <= k < |deployments| ==> StatusIsText(deployments[k])
    ensures failed == FailedCount(deployments)
  {
    failed := 0;
    var i := 0;
    while i < |deployments|
      invariant 0 <= i <= |deployments|
      invariant failed == FailedCount(deployments[..i])
    {
      assert deployments[..i + 1][..i] == deployments[..i];
      if FailedStatus(deployments[i]) {
        failed := failed + 1;
      }
      i := i + 1;
    }
    assert deployments[..i] == deployments;
  }

  /** The inner loop: whether some deployment lies at most a day before the
      incident time; the search stops at the first one. */
  method AnyWithinDay(incidentTime: Time, deployments: seq<Record>, parse: Parser) returns (related: bool)
    ensures related <==> exists j | 0 <= j < |deployments| :: WithinDay(incidentTime, deployments[j], parse)
  {
    var j := 0;
    while j < |deployments|
      invariant 0 <= j <= |deployments|
      invariant forall jj :: 0 <= jj < j ==> !WithinDay(incidentTime, deployments[jj], parse)
    {
      var deployTime := Normalize(Get(deployments[j], "timestamp"), parse);
      if deployTime.Some? {
        var timeDiff := incidentTime.seconds - deployTime.value.seconds;
        if 0 <= timeDiff <= SecondsPerDay {
          assert WithinDay(incidentTime, deployments[j], parse);
          return true;
        }
      }
      j := j + 1;
    }
    return false;
  }

  /** The rate is non-negative and bounded by 100 per deployment-sized share of
      the incidents: at most (n + |incidents|) / n * 100. */
  lemma ChangeFailureRateBounds(deployments: seq<Record>, incidents: seq<Record>, parse: Parser)
    requires forall k :: 0 <= k < |deployments| ==> StatusIsText(deployments[k])
    requires deployments != []
    ensures 0.0 <= ChangeFailureRate(deployments, incidents, parse)
    ensures ChangeFailureRate(deployments, incidents, parse)
            <= (|deployments| + |incidents|) as real / |deployments| as real * 100.0
  {
    var n := |deployments| as real;
    var f := (FailedCount(deployments) + RelatedCount(incidents, deployments, parse)) as real;
    DivMonotone(f, (|deployments| + |incidents|) as real, n);
  }

  /** An incident exactly 24 hours after a deployment is deployment-related. */
  lemma WindowInclusive(incident: Record, deployments: seq<Record>, j: nat, parse: Parser)
    requires j < |deployments|
    requires Normalize(Get(incident, "timestamp"), parse).Some?
    requires Normalize(Get(deployments[j], "timestamp"), parse).Some?
    requires Normalize(Get(incident, "timestamp"), parse).value.seconds
             == Normalize(Get(deployments[j], "timestamp"), parse).value.seconds + SecondsPerDay
    ensures DeploymentRelated(incident, deployments, parse)
  {
    assert WithinDay(Normalize(Get(incident, "timestamp"), parse).value, deployments[j], parse);
  }

  /** An incident more than 24 hours after (or before) every deployment with a
      usable timestamp earns no credit. */
  lemma WindowExclusive(incident: Record, deployments: seq<Record>, parse: Parser)
    requires Normalize(Get(incident, "timestamp"), parse).Some?
    requires forall j :: 0 <= j < |deployments| && Normalize(Get(deployments[j], "timestamp"), parse).Some? ==>
               var d := Normalize(Get(deployments[j], "timestamp"), parse).value.seconds;
               var t := Normalize(Get(incident, "timestamp"), parse).value.seconds;
               t - d > SecondsPerDay || t < d
    ensures !DeploymentRelated(incident, deployments, parse)
  {
  }

  /** Each incident adds at most one credit, whatever the number of matching
      deployments. */
  lemma {:induction false} RelatedCountAppend(incidents: seq<Record>, more: seq<Record>, deployments: seq<Record>,
                                              parse: Parser)
    ensures RelatedCount(incidents + more, deployments, parse)
            == RelatedCount(incidents, deployments, parse) + RelatedCount(more, deployments, parse)
  {
    if more == [] {
      assert incidents + more == incidents;
    } else {
      var init := more[..|more| - 1];
      RelatedCountAppend(incidents, init, deployments, parse);
      assert (incidents + more)[..|incidents + more| - 1] == incidents + init;
      assert (incidents + more)[|incidents + more| - 1] == more[|more| - 1];
    }
  }

  // =====================================================================
  // Classification

  datatype Tier = Elite | High | Medium | Low {
    /** Position in the ranking, best first. */
    function Rank(): nat {
      match this
      case Elite => 0
      case High => 1
      case Medium => 2
      case Low => 3
    }

    /** The label the classification reports. */
    function Name(): string {
      match this
      case Elite => "Elite"
      case High => "High"
      case Medium => "Medium"
      case Low => "Low"
    }
  }

  function ClassifyFrequency(freq: real): (t: Tier)
    ensures t == Elite <==> freq >= 1.0
    ensures t == High <==> 0.14 <= freq < 1.0
    ensures t == Medium <==> 0.033 <= freq < 0.14
    ensures t == Low <==> freq < 0.033
  {
    if freq >= 1.0 then Elite
    else if freq >= 0.14 then High
    else if freq >= 0.033 then Medium
    else Low
  }

  function ClassifyLeadTime(hours: real): (t: Tier)
    ensures t == Elite <==> hours <= 24.0
    ensures t == High <==> 24.0 < hours <= 168.0
    ensures t == Medium <==> 168.0 < hours <= 720.0
    ensures t == Low <==> hours > 720.0
  {
    if hours <= 24.0 then Elite
    else if hours <= 168.0 then High
    else if hours <= 720.0 then Medium
    else Low
  }

  function ClassifyFailureRate(rate: real): (t: Tier)
    ensures t == Elite <==> rate <= 15.0
    ensures t == High <==> 15.0 < rate <= 30.0
    ensures t == Medium <==> 30.0 < rate <= 45.0
    ensures t == Low <==> rate > 45.0
  {
    if rate <= 15.0 then Elite
    else if rate <= 30.0 then High
    else if rate <= 45.0 then Medium
    else Low
  }

  function ClassifyRestoreTime(hours: real): (t: Tier)
    ensures t == Elite <==> hours <= 1.0
    ensures t == High <==> 1.0 < hours <= 24.0
    ensures t == Medium <==> 24.0 < hours <= 168.0
    ensures t == Low <==> hours > 168.0
  {
    if hours <= 1.0 then Elite
    else if hours <= 24.0 then High
    else if hours <= 168.0 then Medium
    else Low
  }

  /** `metrics.get(key, 0)`. */
  function MetricOrZero(metrics: map<string, real>, key: string): real {
    if key in metrics then metrics[key] else 0.0
  }

  /** `get_performance_classification`: a tier for each of the four metrics,
      a missing metric read as 0. */
  function GetPerformanceClassification(metrics: map<string, real>): (c: map<string, Tier>)
    ensures c.Keys == {DeploymentFrequencyKey, LeadTimeKey, ChangeFailureRateKey, RestoreTimeKey}
    ensures c[DeploymentFrequencyKey] == ClassifyFrequency(MetricOrZero(metrics, DeploymentFrequencyKey))
    ensures c[LeadTimeKey] == ClassifyLeadTime(MetricOrZero(metrics, LeadTimeKey))
    ensures c[ChangeFailureRateKey] == ClassifyFailureRate(MetricOrZero(metrics, ChangeFailureRateKey))
    ensures c[RestoreTimeKey] == ClassifyRestoreTime(MetricOrZero(metrics, RestoreTimeKey))
  {
    map[DeploymentFrequencyKey := ClassifyFrequency(MetricOrZero(metrics, DeploymentFrequencyKey)),
        LeadTimeKey := ClassifyLeadTime(MetricOrZero(metrics, LeadTimeKey)),
        ChangeFailureRateKey := ClassifyFailureRate(MetricOrZero(metrics, ChangeFailureRateKey)),
        RestoreTimeKey := ClassifyRestoreTime(MetricOrZero(metrics, RestoreTimeKey))]
  }

  /** A higher frequency never gives a worse tier; a higher lead time, failure
      rate or restore time never gives a better one. */
  lemma ClassificationMonotone(a: real, b: real)
    requires a <= b
    ensures ClassifyFrequency(b).Rank() <= ClassifyFrequency(a).Rank()
    ensures ClassifyLeadTime(a).Rank() <= ClassifyLeadTime(b).Rank()
    ensures ClassifyFailureRate(a).Rank() <= ClassifyFailureRate(b).Rank()
    ensures ClassifyRestoreTime(a).Rank() <= ClassifyRestoreTime(b).Rank()
  {
  }

  /** A missing metric reads as 0: frequency Low, the other three Elite. */
  lemma MissingMetricsClassification()
    ensures var c := GetPerformanceClassification(map[]);
      c[DeploymentFrequencyKey] == Low && c[LeadTimeKey] == Elite &&
      c[ChangeFailureRateKey] == Elite && c[RestoreTimeKey] == Elite
  {
  }

  /** The frequency boundaries: 1.0 is Elite, 0.14 High, 0.033 Medium, 0.032 Low. */
  lemma FrequencyBoundaries()
    ensures ClassifyFrequency(1.0) == Elite && ClassifyFrequency(0.14) == High
    ensures ClassifyFrequency(0.033) == Medium && ClassifyFrequency(0.032) == Low
  {
  }

  /** The failure-rate boundaries are inclusive: 15 is Elite, 30 High, 45
      Medium, and 50 Low. */
  lemma FailureRateBoundaries()
    ensures ClassifyFailureRate(15.0) == Elite && ClassifyFailureRate(30.0) == High
    ensures ClassifyFailureRate(45.0) == Medium && ClassifyFailureRate(50.0) == Low
  {
  }

  // =====================================================================
  // All four metrics

  /** What `calculate_dora_metrics` demands of its inputs so that no
      comparison, subtraction or `.lower()` raises. */
  predicate MetricsInputsOk(deployments: seq<Record>, incidents: seq<Record>, parse: Parser) {
    && OneKind(ParsedTimestamps(deployments, parse))
    && (forall m, j :: 0 <= m < |incidents| && 0 <= j < |deployments| ==>
          TimestampsComparable(incidents[m], deployments[j], parse))
    && (forall k :: 0 <= k < |deployments| ==> StatusIsText(deployments[k]))
    && (forall k :: 0 <= k < |deployments| ==> PairComparable(LeadEndpoints(deployments[k]), parse))
    && (forall k :: 0 <= k < |incidents| ==> PairComparable(RestoreEndpoints(incidents[k]), parse))
  }

  method CalculateDoraMetrics(deployments: seq<Record>, incidents: seq<Record>, parse: Parser)
    returns (metrics: map<string, real>)
    requires MetricsInputsOk(deployments, incidents, parse)
    ensures metrics.Keys == {DeploymentFrequencyKey, LeadTimeKey, ChangeFailureRateKey, RestoreTimeKey}
    ensures metrics[DeploymentFrequencyKey] == DeploymentFrequency(deployments, parse)
    ensures metrics[LeadTimeKey] == LeadTime(deployments, parse)
    ensures metrics[ChangeFailureRateKey] == ChangeFailureRate(deployments, incidents, parse)
    ensures metrics[RestoreTimeKey] == RestoreTime(incidents, parse)
  {
    var frequency := CalculateDeploymentFrequency(deployments, parse);
    var leadTime := CalculateLeadTime(deployments, parse);
    var failureRate := CalculateChangeFailureRate(deployments, incidents, parse);
    var restoreTime := CalculateRecoveryTime(incidents, parse);
    metrics := map[DeploymentFrequencyKey := frequency, LeadTimeKey := leadTime,
                   ChangeFailureRateKey := failureRate, RestoreTimeKey := restoreTime];
  }

  /** With no records at all the metrics are 0, 24, 0 and 4. */
  lemma EmptyInputMetrics(parse: Parser)
    ensures DeploymentFrequency([], parse) == 0.0
    ensures LeadTime([], parse) == DefaultLeadTime
    ensures ChangeFailureRate([], [], parse) == 0.0
    ensures RestoreTime([], parse) == DefaultRestoreTime
  {
  }

  // =====================================================================
  // Worked examples

  function NaiveAt(seconds: int): Value {
    VTime(Time(seconds, false))
  }

  /** The deployment fixture of the repository's tests, reduced to the fields
      the metrics read: at `base` (10:00 on 1 January 2023 in the tests), two
      and four hours later; the last one failed. */
  function FixtureDeployments(base: int): seq<Record> {
    [map["timestamp" := NaiveAt(base), "status" := VStr("success")],
     map["timestamp" := NaiveAt(base + 7200), "status" := VStr("success")],
     map["timestamp" := NaiveAt(base + 14400), "status" := VStr("failed")]]
  }

  /** The incident fixture: two, three and four hours after `base`. */
  function FixtureIncidents(base: int): seq<Record> {
    [map["timestamp" := NaiveAt(base + 7200)],
     map["timestamp" := NaiveAt(base + 10800)],
     map["timestamp" := NaiveAt(base + 14400)]]
  }

  /** Lowercasing leaves a string without capitals unchanged. */
  lemma LowerNoCapitals(s: string)
    requires forall i :: 0 <= i < |s| ==> !('A' <= s[i] <= 'Z')
    ensures Lower(s) == s
  {
  }

  /** A status without capitals fails exactly when it is one of the three words. */
  lemma LowercaseStatus(r: Record, status: string)
    requires "status" in r && r["status"] == VStr(status)
    requires forall i :: 0 <= i < |status| ==> !('A' <= status[i] <= 'Z')
    ensures FailedStatus(r) <==> status in ["failed", "error", "failure"]
  {
    LowerNoCapitals(status);
  }

  /** "success" is not a failure. */
  lemma SuccessStatus(r: Record)
    requires "status" in r && r["status"] == VStr("success")
    ensures StatusIsText(r) && !FailedStatus(r)
  {
    var success := "success";
    assert success !in ["failed", "error", "failure"] by {
      assert success[0] != "failed"[0] && |success| != |"error"| && success[0] != "failure"[0];
    }
    LowercaseStatus(r, success);
  }

  /** "failed" is a failure. */
  lemma FailedStatusWord(r: Record)
    requires "status" in r && r["status"] == VStr("failed")
    ensures StatusIsText(r) && FailedStatus(r)
  {
    LowercaseStatus(r, "failed");
  }

  lemma FixtureStatusText(base: int)
    ensures forall k :: 0 <= k < |FixtureDeployments(base)| ==> StatusIsText(FixtureDeployments(base)[k])
  {
  }

  lemma FixtureFailedCount(base: int)
    ensures FailedCount(FixtureDeployments(base)) == 1
  {
    var ds := FixtureDeployments(base);
    SuccessStatus(ds[0]);
    SuccessStatus(ds[1]);
    FailedStatusWord(ds[2]);
    FailedCountOfThree(ds[0], ds[1], ds[2]);
  }

  /** Three records count one failure for each failed status among them. */
  lemma FailedCountOfThree(a: Record, b: Record, c: Record)
    requires StatusIsText(a) && StatusIsText(b) && StatusIsText(c)
    ensures FailedCount([a, b, c]) ==
              (if FailedStatus(a) then 1 else 0) + (if FailedStatus(b) then 1 else 0)
                + (if FailedStatus(c) then 1 else 0)
  {
    FailedCountOfTwo(a, b);
    assert [a, b, c][..2] == [a, b];
  }

  /** Two records count one failure for each failed status among them. */
  lemma FailedCountOfTwo(a: Record, b: Record)
    requires StatusIsText(a) && StatusIsText(b)
    ensures FailedCount([a, b]) == (if FailedStatus(a) then 1 else 0) + (if FailedStatus(b) then 1 else 0)
  {
    assert [a][..0] == [];
    assert FailedCount([a]) == (if FailedStatus(a) then 1 else 0);
    assert [a, b][..1] == [a];
  }

  lemma FixtureRelatedCount(base: int, parse: Parser)
    ensures RelatedCount(FixtureIncidents(base), FixtureDeployments(base), parse) == 3
  {
    var ds, ins := FixtureDeployments(base), FixtureIncidents(base);
    forall m | 0 <= m < |ins| ensures DeploymentRelated(ins[m], ds, parse) {
      assert WithinDay(Normalize(Get(ins[m], "timestamp"), parse).value, ds[0], parse);
    }
    assert [ins[0]][..0] == [];
    assert RelatedCount([ins[0]], ds, parse) == 1;
    assert [ins[0], ins[1]][..1] == [ins[0]];
    assert RelatedCount([ins[0], ins[1]], ds, parse) == 2;
    assert ins[..2] == [ins[0], ins[1]];
  }

  /** On the fixtures the rate is (1 + 3) / 3 * 100 = 400/3, above 100: every
      incident is within a day of the first deployment, and the failed
      deployment counts a second time. */
  lemma FixtureChangeFailureRate(base: int, parse: Parser)
    ensures ChangeFailureRate(FixtureDeployments(base), FixtureIncidents(base), parse) == 400.0 / 3.0
  {
    FixtureFailedCount(base);
    FixtureRelatedCount(base, parse);
    FixtureStatusText(base);
    RateOfCounts(FixtureDeployments(base), FixtureIncidents(base), parse, 4, 3);
    assert Percentage(4, 3) == 400.0 / 3.0;
  }

  /** The failure rate from a known total of failures and deployments. */
  lemma RateOfCounts(deployments: seq<Record>, incidents: seq<Record>, parse: Parser, total: nat, n: nat)
    requires forall k :: 0 <= k < |deployments| ==> StatusIsText(deployments[k])
    requires |deployments| == n > 0
    requires FailedCount(deployments) + RelatedCount(incidents, deployments, parse) == total
    ensures ChangeFailureRate(deployments, incidents, parse) == Percentage(total, n)
  {
    var failures := FailedCount(deployments) + RelatedCount(incidents, deployments, parse);
    assert failures == total;
    assert ChangeFailureRate(deployments, incidents, parse) == Percentage(failures, n);
  }

  /** Without incidents the rate is the failed share of the deployments. */
  lemma RateWithoutIncidents(deployments: seq<Record>, parse: Parser, failed: nat)
    requires forall k :: 0 <= k < |deployments| ==> StatusIsText(deployments[k])
    requires deployments != [] && FailedCount(deployments) == failed
    ensures ChangeFailureRate(deployments, [], parse) == Percentage(failed, |deployments|)
  {
    assert RelatedCount([], deployments, parse) == 0;
    RateOfCounts(deployments, [], parse, failed, |deployments|);
  }

  function OneDeployment(t: int): seq<Record> {
    [map["timestamp" := NaiveAt(t), "status" := VStr("success")]]
  }

  /** A single record is counted as one deployment per day. */
  lemma OneDeploymentFrequency(t: int, parse: Parser)
    ensures DeploymentFrequency(OneDeployment(t), parse) == 1.0
  {
    var ds := OneDeployment(t);
    assert ds[..0] == [];
    assert TimestampValues(ds) == [NaiveAt(t)];
    assert |ParsedTimestamps(ds, parse)| <= 1;
  }

  /** A deployment without a commit timestamp gives the default lead time. */
  lemma OneDeploymentLeadTime(t: int, parse: Parser)
    ensures LeadTime(OneDeployment(t), parse) == DefaultLeadTime
  {
    var ds := OneDeployment(t);
    assert ds[..0] == [];
    assert PairHours(LeadEndpoints(ds[0]), parse) == None;
    assert Durations(ds, LeadEndpoints, parse) == [];
  }

  lemma OneDeploymentFailedCount(t: int)
    ensures forall k :: 0 <= k < |OneDeployment(t)| ==> StatusIsText(OneDeployment(t)[k])
    ensures FailedCount(OneDeployment(t)) == 0
  {
    var ds := OneDeployment(t);
    assert ds[..0] == [];
    SuccessStatus(ds[0]);
  }

  lemma OneDeploymentFailureRate(t: int, parse: Parser)
    ensures ChangeFailureRate(OneDeployment(t), [], parse) == 0.0
  {
    OneDeploymentFailedCount(t);
    RateWithoutIncidents(OneDeployment(t), parse, 0);
    assert Percentage(0, 1) == 0.0;
  }

  /** One successful deployment and no incidents: frequency 1 (the single
      record), lead time 24 (default), failure rate 0, restore time 4 (default). */
  lemma SingleDeploymentScenario(t: int, parse: Parser)
    ensures DeploymentFrequency(OneDeployment(t), parse) == 1.0
    ensures LeadTime(OneDeployment(t), parse) == DefaultLeadTime
    ensures ChangeFailureRate(OneDeployment(t), [], parse) == 0.0
    ensures RestoreTime([], parse) == DefaultRestoreTime
  {
    OneDeploymentFrequency(t, parse);
    OneDeploymentLeadTime(t, parse);
    OneDeploymentFailureRate(t, parse);
  }

  function TwoDeployments(t: int): seq<Record> {
    [map["timestamp" := NaiveAt(t), "status" := VStr("success")],
     map["timestamp" := NaiveAt(t + 2 * SecondsPerDay), "status" := VStr("failed")]]
  }

  /** Two deployments two days apart: frequency 2 / 2 = 1 (Elite). */
  lemma TwoDeploymentFrequency(t: int, parse: Parser)
    ensures DeploymentFrequency(TwoDeployments(t), parse) == 1.0
  {
    var ds := TwoDeployments(t);
    var a, b := Time(t, false), Time(t + 2 * SecondsPerDay, false);
    TwoTimestamps(ds[0], ds[1], a, b, parse);
    assert ds == [ds[0], ds[1]];
    assert SpanDays([a, b]) == 2 by {
      assert [a, b][1..] == [b];
    }
  }

  /** Two records whose timestamps are datetimes give those two times. */
  lemma TwoTimestamps(r0: Record, r1: Record, a: Time, b: Time, parse: Parser)
    requires Get(r0, "timestamp") == VTime(a) && Get(r1, "timestamp") == VTime(b)
    ensures ParsedTimestamps([r0, r1], parse) == [a, b]
  {
    assert [r0, r1][..1] == [r0] && [r0, r1][..1][..0] == [];
    assert ParsedOf(r0, parse) == [a] && ParsedOf(r1, parse) == [b];
    assert ParsedTimestamps([r0], parse) == [a];
  }

  /** Of the two deployments exactly one failed. */
  lemma TwoDeploymentsFailedCount(t: int)
    ensures forall k :: 0 <= k < |TwoDeployments(t)| ==> StatusIsText(TwoDeployments(t)[k])
    ensures FailedCount(TwoDeployments(t)) == 1
  {
    var ds := TwoDeployments(t);
    SuccessStatus(ds[0]);
    FailedStatusWord(ds[1]);
    FailedCountOfTwo(ds[0], ds[1]);
  }

  /** Two deployments, one failed, no incidents: failure rate 50 (Low). */
  lemma TwoDeploymentFailureRate(t: int, parse: Parser)
    ensures ChangeFailureRate(TwoDeployments(t), [], parse) == 50.0
  {
    var ds := TwoDeployments(t);
    assert |ds| == 2;
    TwoDeploymentsFailedCount(t);
    RateWithoutIncidents(ds, parse, 1);
    assert Percentage(1, 2) == 50.0;
  }
}
