# VMware DORA Evidence — a Dafny model of its core

VMware DORA Evidence collects deployment and incident records from a vCenter
server. From them it computes the four DORA metrics:

- deployment frequency;
- lead time for changes;
- change failure rate;
- time to restore service.

It classifies each metric as Elite, High, Medium or Low, and renders a report
as JSON, HTML or CSV. A YAML file and environment variables configure it, and
a `click` command line drives it.

This project models the decisions that code makes. Each part below is one
Dafny module, in the file named.

- **Records and values** (`py_values.dfy`, module `PyValues`). A record is a
  `map<string, Value>`. `Value` covers the Python values the code handles: None,
  booleans, integers, floats, strings, datetimes, lists, dictionaries and
  tuples. The module also defines Python truthiness, `dict.get`, `or`,
  `str.replace` and (ASCII) `str.lower`.
- **Timestamps** (`timestamps.dfy`). A datetime is a whole number of seconds,
  plus whether it carries a time zone. Four operations are modelled:
  - the conversion of a string with `replace('Z', '+00:00')` and
    `datetime.fromisoformat`;
  - `min` and `max`;
  - hours between two datetimes;
  - `timedelta.days`.
- **Metrics** (`metrics_analyzer.dfy`). The four calculations and the four
  classifications. Each loop of the source is a method, proved equal to a
  recursive specification function. Lemmas prove the bounds, the defaults,
  the 24-hour window, monotonicity and worked examples.
- **Incident collection** (`incident_collector.dfy`). The incident record
  built from each kind of event, one per kind:
  - VM;
  - host;
  - sample application;
  - network.

  Also modelled: severity, root cause and resolution-time tables, the
  network `LinkUp` search, error propagation, and the statistics (resolved
  count, average, tallies by severity and by type).
- **Deployment collection** (`deployment_collector.dfy`). The VM records, the
  five sample application records and the infrastructure changes, with the
  deployment statistics.
- **Configuration** (`config_manager.dfy`):
  - loading: the file, then the environment's sections, then the defaults;
  - the environment table;
  - validation;
  - the recursive deep update, as a method with a loop;
  - sanitising;
  - a `ConfigManager` class holding the configuration, updated in place.
- **Reports** (`report_generator.dfy`). `_make_serializable`, the JSON
  document before encoding, the exact CSV line structure, and the format
  dispatch.
- **Command line** (`cli.dfy`). The log level, `_safe_path` over paths as
  component sequences, and `validate`'s required-field check.

Some inputs are not modelled and are passed in as parameters instead:

- the event lists that the vCenter client returns, and its errors, as a
  `Result`;
- `datetime.fromisoformat` (parameter `parse`);
- `int()` on environment text (`parseInt`);
- `datetime.isoformat`;
- the current time;
- `format(x, '.Nf')` (`fixed`);
- the parsed YAML file;
- the resolved user path and working directory.

Two things behave differently from what the documentation suggests:

- **The change failure rate can exceed 100.** Both failed deployments and
  incidents within 24 hours after a deployment are counted against the number
  of deployments. On the repository's test fixtures the rate is 400/3, about
  133 (`MetricsAnalyzer.FixtureChangeFailureRate`).
- **The deployment collector always adds five sample application
  records.** The sample records are added even when vCenter returns no events
  (`DeploymentCollector.NoEventsStillFive`). So a collection over no events
  has five records, not the zero that
  `tests/unit/test_deployment_collector.py:39-51` expects. The model follows
  the code.

## Model

| member | source | states |
|---|---|---|
| MetricsAnalyzer.CalculateDoraMetrics | src/analyzers/metrics_analyzer.py:20-45 | the result has exactly the four metric keys, each holding its metric's specification value |
| MetricsAnalyzer.EmptyInputMetrics | src/analyzers/metrics_analyzer.py:57-58 | with no records: frequency 0, lead time 24 h, failure rate 0, restore time 4 h |
| MetricsAnalyzer.TimestampValues | src/analyzers/metrics_analyzer.py:61 | the collected timestamps are all truthy and no more numerous than the records |
| MetricsAnalyzer.TimestampValuesEmpty | src/analyzers/metrics_analyzer.py:61-63 | no timestamp is collected exactly when every record's timestamp is missing or falsy |
| MetricsAnalyzer.CollectTimestamps | src/analyzers/metrics_analyzer.py:61 | the comprehension's loop yields exactly the truthy timestamps, in order |
| MetricsAnalyzer.NormalizeAll | src/analyzers/metrics_analyzer.py:66-74 | conversion never yields more datetimes than values |
| MetricsAnalyzer.NormalizeEach | src/analyzers/metrics_analyzer.py:66-74 | the conversion loop keeps exactly the datetimes and the strings that parse, in order |
| MetricsAnalyzer.ParsedTimestampsInTwoPasses | src/analyzers/metrics_analyzer.py:61-74 | filtering and then converting equals the per-record definition of the parsed timestamps |
| MetricsAnalyzer.ParsedOfExactly | src/analyzers/metrics_analyzer.py:66-74 | a record contributes datetime t exactly when its timestamp converts to t |
| MetricsAnalyzer.ParsedTimestampsExactly | src/analyzers/metrics_analyzer.py:61-74 | t is among the parsed timestamps exactly when some record's timestamp converts to t |
| MetricsAnalyzer.ParsedTimestampSource | src/analyzers/metrics_analyzer.py:61-74 | every parsed timestamp comes from some record |
| MetricsAnalyzer.ParsedTimestampIncluded | src/analyzers/metrics_analyzer.py:61-74 | every record whose timestamp converts contributes it |
| MetricsAnalyzer.CalculateDeploymentFrequency | src/analyzers/metrics_analyzer.py:47-89 | the method returns the frequency specification's value |
| MetricsAnalyzer.FrequencyZeroIff | src/analyzers/metrics_analyzer.py:57-63 | the frequency is 0 exactly when no record has a truthy timestamp |
| MetricsAnalyzer.FrequencyBounds | src/analyzers/metrics_analyzer.py:76-87 | with some timestamp, the frequency is positive and at most the number of records |
| MetricsAnalyzer.DeploymentFrequency | src/analyzers/metrics_analyzer.py:47-89 | the frequency lies between 0 and the number of records |
| MetricsAnalyzer.FrequencyFewTimestamps | src/analyzers/metrics_analyzer.py:76-77 | with a timestamp but fewer than two parsed datetimes, the frequency is the record count |
| MetricsAnalyzer.FrequencyMonotone | src/analyzers/metrics_analyzer.py:80-87 | over equal spans, more records never lower the frequency |
| MetricsAnalyzer.RestoreEndpoints | src/analyzers/metrics_analyzer.py:212-213 | start is start_time when truthy, else timestamp; end is end_time when truthy, else resolved_time |
| MetricsAnalyzer.PairHours | src/analyzers/metrics_analyzer.py:107-124 | a pair yields hours exactly when both ends are truthy, convert, and the end is not earlier; the hours are then non-negative |
| MetricsAnalyzer.Durations | src/analyzers/metrics_analyzer.py:103-124 | never more durations than records |
| MetricsAnalyzer.DurationsNonNegative | src/analyzers/metrics_analyzer.py:123 | every collected duration is non-negative |
| MetricsAnalyzer.DurationOfExactly | src/analyzers/metrics_analyzer.py:107-124 | a record contributes h exactly when its pair yields h |
| MetricsAnalyzer.DurationsExactly | src/analyzers/metrics_analyzer.py:103-124 | h is collected exactly when some record's pair yields h |
| MetricsAnalyzer.DurationSource | src/analyzers/metrics_analyzer.py:103-124 | every collected duration comes from some record |
| MetricsAnalyzer.DurationIncluded | src/analyzers/metrics_analyzer.py:103-124 | every record with a usable pair contributes its duration |
| MetricsAnalyzer.DurationsAppend | src/analyzers/metrics_analyzer.py:103-124 | the durations of a concatenation are those of the parts, in order |
| MetricsAnalyzer.UnusablePairIgnored | src/analyzers/metrics_analyzer.py:107-124 | removing a record without a usable pair changes nothing |
| MetricsAnalyzer.UnusableSingle | src/analyzers/metrics_analyzer.py:107-124 | a lone record without a usable pair yields no duration |
| MetricsAnalyzer.DurationsEmptyIff | src/analyzers/metrics_analyzer.py:103-128 | no duration is collected exactly when no record has a usable pair |
| MetricsAnalyzer.CalculateLeadTime | src/analyzers/metrics_analyzer.py:91-132 | the method returns the lead-time specification's value |
| MetricsAnalyzer.LeadTime | src/analyzers/metrics_analyzer.py:91-132 | the lead time is non-negative, and is the 24-hour default when no deployment has a usable pair |
| MetricsAnalyzer.LeadTimeWithin | src/analyzers/metrics_analyzer.py:130 | the mean lies between any bounds of the collected durations |
| MetricsAnalyzer.CalculateRecoveryTime | src/analyzers/metrics_analyzer.py:199-240 | the method returns the restore-time specification's value |
| MetricsAnalyzer.RestoreTime | src/analyzers/metrics_analyzer.py:199-240 | the restore time is non-negative, and is the 4-hour default when no incident has a usable pair |
| MetricsAnalyzer.FailedCount | src/analyzers/metrics_analyzer.py:157-160 | never more failures than deployments |
| MetricsAnalyzer.CountFailed | src/analyzers/metrics_analyzer.py:157-160 | the counting loop returns the number of deployments whose lowercased status is failed, error or failure |
| MetricsAnalyzer.AnyWithinDay | src/analyzers/metrics_analyzer.py:176-191 | the inner loop answers true exactly when some deployment lies 0 to 24 hours before the incident |
| MetricsAnalyzer.RelatedCount | src/analyzers/metrics_analyzer.py:163-191 | never more related incidents than incidents |
| MetricsAnalyzer.RelatedCountAppend | src/analyzers/metrics_analyzer.py:163-191 | the related incidents of a concatenation are those of the parts |
| MetricsAnalyzer.CalculateChangeFailureRate | src/analyzers/metrics_analyzer.py:134-197 | the method returns the failure-rate specification's value |
| MetricsAnalyzer.ChangeFailureRateBounds | src/analyzers/metrics_analyzer.py:193-194 | the rate is non-negative and at most (deployments + incidents) / deployments × 100 |
| MetricsAnalyzer.ChangeFailureRate | src/analyzers/metrics_analyzer.py:134-197 | 0 without deployments, never negative, and at most 100 without incidents |
| MetricsAnalyzer.WindowInclusive | src/analyzers/metrics_analyzer.py:189 | an incident exactly 24 hours after a deployment is related |
| MetricsAnalyzer.WindowExclusive | src/analyzers/metrics_analyzer.py:189 | an incident more than 24 hours after, or before, every deployment is not related |
| MetricsAnalyzer.RateOfCounts | src/analyzers/metrics_analyzer.py:193-194 | the rate is (failed + related) / deployments × 100 |
| MetricsAnalyzer.RateWithoutIncidents | src/analyzers/metrics_analyzer.py:193-194 | without incidents the rate is failed / deployments × 100 |
| MetricsAnalyzer.LowerNoCapitals | src/analyzers/metrics_analyzer.py:158 | lowercasing leaves a string without capitals unchanged |
| MetricsAnalyzer.LowercaseStatus | src/analyzers/metrics_analyzer.py:158-159 | a lowercase status counts as failed exactly when it is failed, error or failure |
| MetricsAnalyzer.SuccessStatus | src/analyzers/metrics_analyzer.py:158-159 | status "success" is not a failure |
| MetricsAnalyzer.FailedStatusWord | src/analyzers/metrics_analyzer.py:158-159 | status "failed" is a failure |
| MetricsAnalyzer.FailedCountOfTwo | src/analyzers/metrics_analyzer.py:157-160 | two deployments' failures add up |
| MetricsAnalyzer.FailedCountOfThree | src/analyzers/metrics_analyzer.py:157-160 | three deployments' failures add up |
| MetricsAnalyzer.FixtureStatusText | tests/conftest.py:49-98 | every fixture deployment has a text status |
| MetricsAnalyzer.FixtureFailedCount | tests/conftest.py:49-98 | one fixture deployment failed |
| MetricsAnalyzer.FixtureRelatedCount | tests/conftest.py:101-153 | all three fixture incidents fall within 24 hours after a deployment |
| MetricsAnalyzer.FixtureChangeFailureRate | tests/conftest.py:49-153 | on the fixtures the failure rate is 400/3, above 100 |
| MetricsAnalyzer.OneDeploymentFrequency | src/analyzers/metrics_analyzer.py:76-77 | a single deployment gives frequency 1 |
| MetricsAnalyzer.OneDeploymentLeadTime | src/analyzers/metrics_analyzer.py:126-128 | a deployment without start and end gives the 24 h default |
| MetricsAnalyzer.OneDeploymentFailedCount | src/analyzers/metrics_analyzer.py:157-160 | a successful deployment is not counted as failed |
| MetricsAnalyzer.OneDeploymentFailureRate | src/analyzers/metrics_analyzer.py:193-194 | one successful deployment without incidents gives rate 0 |
| MetricsAnalyzer.SingleDeploymentScenario | src/analyzers/metrics_analyzer.py:20-45 | one successful deployment and no incidents: 1, 24 h, 0 and 4 h |
| MetricsAnalyzer.TwoTimestamps | src/analyzers/metrics_analyzer.py:61-74 | two datetime timestamps are both kept, in order |
| MetricsAnalyzer.TwoDeploymentFrequency | src/analyzers/metrics_analyzer.py:80-87 | two deployments two days apart give frequency 1 |
| MetricsAnalyzer.TwoDeploymentsFailedCount | src/analyzers/metrics_analyzer.py:157-160 | of a success and a failure, one is counted |
| MetricsAnalyzer.TwoDeploymentFailureRate | src/analyzers/metrics_analyzer.py:193-194 | one failure in two deployments gives rate 50 |
| MetricsAnalyzer.PercentageBounds | src/analyzers/metrics_analyzer.py:193 | a percentage is non-negative, 0 exactly for no part, 100 exactly for the whole, and at most 100 while the part is at most the whole |
| MetricsAnalyzer.ClassifyFrequency | src/analyzers/metrics_analyzer.py:255-263 | Elite iff ≥ 1, High iff in [0.14, 1), Medium iff in [0.033, 0.14), Low iff < 0.033 |
| MetricsAnalyzer.ClassifyLeadTime | src/analyzers/metrics_analyzer.py:266-274 | Elite iff ≤ 24, High iff in (24, 168], Medium iff in (168, 720], Low iff > 720 |
| MetricsAnalyzer.ClassifyFailureRate | src/analyzers/metrics_analyzer.py:277-285 | Elite iff ≤ 15, High iff in (15, 30], Medium iff in (30, 45], Low iff > 45 |
| MetricsAnalyzer.ClassifyRestoreTime | src/analyzers/metrics_analyzer.py:288-296 | Elite iff ≤ 1, High iff in (1, 24], Medium iff in (24, 168], Low iff > 168 |
| MetricsAnalyzer.GetPerformanceClassification | src/analyzers/metrics_analyzer.py:242-298 | exactly the four keys, each classified from its metric or 0 when missing |
| MetricsAnalyzer.ClassificationMonotone | src/analyzers/metrics_analyzer.py:255-296 | a higher frequency never classifies worse; a higher lead time, failure rate or restore time never classifies better |
| MetricsAnalyzer.MissingMetricsClassification | src/analyzers/metrics_analyzer.py:252-296 | with no metrics, frequency is Low and the other three are Elite |
| MetricsAnalyzer.FrequencyBoundaries | src/analyzers/metrics_analyzer.py:255-263 | 1, 0.14 and 0.033 fall in the better tier; 0.032 is Low |
| MetricsAnalyzer.FailureRateBoundaries | src/analyzers/metrics_analyzer.py:277-285 | 15, 30 and 45 fall in the better tier; 50 is Low |
| Timestamps.Zulu | src/analyzers/metrics_analyzer.py:70 | the text has no 'Z' afterwards, and a text without 'Z' is unchanged |
| Timestamps.Normalize | src/analyzers/metrics_analyzer.py:66-74 | falsy and non-string, non-datetime values give nothing; a datetime is kept; a string is parsed after the 'Z' replacement |
| Timestamps.Earliest | src/analyzers/metrics_analyzer.py:80 | the result is one of the datetimes and no later than any of them |
| Timestamps.Latest | src/analyzers/metrics_analyzer.py:81 | the result is one of the datetimes and no earlier than any of them |
| Timestamps.Hours | src/analyzers/metrics_analyzer.py:122 | the hours times 3600 are the difference in seconds; non-negative exactly when the end is not before the start, 0 exactly for equal times |
| Timestamps.WholeDays | src/analyzers/metrics_analyzer.py:82 | the days are the span rounded down to whole days, for negative spans too; non-negative exactly when the end is not before the start |
| IncidentCollector.DetermineSeverity | src/collectors/incident_collector.py:289-312 | critical iff the type is a critical event; high, medium likewise in that order; low otherwise |
| IncidentCollector.SeverityTable | src/collectors/incident_collector.py:289-312 | each table's events get that table's severity; an event without a type is low |
| IncidentCollector.ExtractRootCause | src/collectors/incident_collector.py:314-335 | the first of PowerOn, Migrate, Host, Network contained in the type picks the cause; otherwise unknown |
| IncidentCollector.FindResolutionTime | src/collectors/incident_collector.py:337-364 | one of 30, 60, 120, 240 minutes; 120 when there is no severity |
| IncidentCollector.ResolutionBySeverity | src/collectors/incident_collector.py:337-364 | critical 30, high 60, medium 120, anything else 240 |
| IncidentCollector.VmRecordFields | src/collectors/incident_collector.py:102-117 | the VM record's type, severity, root cause and timestamp come from the event; its resolution time is from the table |
| IncidentCollector.VmIncidentForm | src/collectors/incident_collector.py:102-123 | the VM incident is the record with the resolution time and status "resolved" added |
| IncidentCollector.VmIncidentResolved | src/collectors/incident_collector.py:102-123 | a VM incident is resolved, with the event's severity, cause and time and a table resolution time |
| IncidentCollector.VmIncidents | src/collectors/incident_collector.py:70-127 | one record per event, in order; record k is resolved and carries event k's severity, root cause and time, with a table resolution time |
| IncidentCollector.CollectVmIncidents | src/collectors/incident_collector.py:70-127 | the loop returns one incident per VM event, in order |
| IncidentCollector.HostRecordFields | src/collectors/incident_collector.py:160-174 | a host record is high severity with cause host_failure, timed at the event, resolving in 60 minutes |
| IncidentCollector.HostIncidentForm | src/collectors/incident_collector.py:160-180 | the host incident is the record with the resolution time and status "resolved" added |
| IncidentCollector.HostIncidentResolved | src/collectors/incident_collector.py:160-180 | a host incident is resolved, high, host_failure, 60 minutes, at the event's time |
| IncidentCollector.HostIncidents | src/collectors/incident_collector.py:129-184 | one record per event, in order; record k is a resolved high host_failure of 60 minutes at event k's time |
| IncidentCollector.CollectHostIncidents | src/collectors/incident_collector.py:129-184 | the loop returns one incident per host event, in order |
| IncidentCollector.ApplicationIncidents | src/collectors/incident_collector.py:186-229 | two samples, at the start date and one day later, both resolved in 45 minutes |
| IncidentCollector.ApplicationIncident | src/collectors/incident_collector.py:208-224 | sample i is a resolved, medium application_incident of 45 minutes, i days after the start date, whose id ends in the digit i |
| IncidentCollector.NetworkResolution | src/collectors/incident_collector.py:366-392 | a found resolution time is non-negative |
| IncidentCollector.NetworkResolutionFirst | src/collectors/incident_collector.py:366-392 | nothing is found iff no LinkUp event comes later; otherwise it is the minutes to the first later LinkUp in list order |
| IncidentCollector.FirstLinkUpNotEarliest | src/collectors/incident_collector.py:366-392 | of two later LinkUp events the first listed is used, even when the second is earlier |
| IncidentCollector.FindNetworkResolution | src/collectors/incident_collector.py:366-392 | the search loop returns the specification's first later LinkUp |
| IncidentCollector.NetworkRecordFields | src/collectors/incident_collector.py:263-277 | a network record is medium, detected, with no resolution time |
| IncidentCollector.NetworkIncidentStatus | src/collectors/incident_collector.py:263-283 | resolved iff a positive resolution time is found, and then it holds that time; otherwise detected with none |
| IncidentCollector.NetworkIncidentsAppend | src/collectors/incident_collector.py:231-287 | the incidents of a concatenation of events are those of the parts |
| IncidentCollector.NetworkIncidents | src/collectors/incident_collector.py:231-287 | at most one record per event, each a medium network_incident that is resolved or detected |
| IncidentCollector.NetworkIncidentsSingle | src/collectors/incident_collector.py:262 | one event gives an incident exactly when its type contains LinkDown |
| IncidentCollector.CollectNetworkIncidents | src/collectors/incident_collector.py:231-287 | the loop returns the LinkDown events' incidents, resolved against all events |
| IncidentCollector.CollectIncidents | src/collectors/incident_collector.py:26-68 | the first failing query's error is raised; otherwise VM, host, application and network incidents, in that order |
| IncidentCollector.ResolvedCount | src/collectors/incident_collector.py:417 | never more resolved incidents than incidents |
| IncidentCollector.ResolvedCountExtremes | src/collectors/incident_collector.py:417 | all count iff every status is resolved; none iff no status is |
| IncidentCollector.ResolvedCountAppend | src/collectors/incident_collector.py:417 | the resolved count of a concatenation is the sum of the parts' |
| IncidentCollector.TimesAreNumbersAppend | src/collectors/incident_collector.py:420 | usable resolution times stay usable under concatenation |
| IncidentCollector.ResolutionTimesAppend | src/collectors/incident_collector.py:420 | the non-None times of a concatenation are those of the parts, in order |
| IncidentCollector.UnresolvedIgnored | src/collectors/incident_collector.py:420-425 | incidents whose time is None contribute no time |
| IncidentCollector.AverageWithin | src/collectors/incident_collector.py:420-425 | the average lies within any bounds of the times, and is 0 without times |
| IncidentCollector.AverageResolution | src/collectors/incident_collector.py:420-425 | 0 without resolution times, and non-negative when all the times are |
| IncidentCollector.TallyCounts | src/collectors/incident_collector.py:428-437 | the tally holds exactly the keys that occur, each with its number of occurrences |
| IncidentCollector.Tally | src/collectors/incident_collector.py:428-437 | every key that occurs is counted, and every count is at least 1 |
| IncidentCollector.MapTotalAt | src/collectors/incident_collector.py:428-437 | a tally's total is one entry plus the total of the rest |
| IncidentCollector.MapTotalIncrement | src/collectors/incident_collector.py:430 | `counts.get(k, 0) + 1` raises the total by one |
| IncidentCollector.TallyTotal | src/collectors/incident_collector.py:428-437 | the counts add up to the number of keys |
| IncidentCollector.FieldKeys | src/collectors/incident_collector.py:429 | one key per incident |
| IncidentCollector.CountBy | src/collectors/incident_collector.py:428-437 | for string or `None` keys, the counting loop returns the tally of the field's values, with 'unknown' for missing ones |
| IncidentCollector.GetIncidentStatistics | src/collectors/incident_collector.py:394-445 | zeros and empty maps for no incidents; otherwise total, resolved count, average and the two tallies, for string or `None` severities and types |
| IncidentCollector.CollectedKeysPlain | src/collectors/incident_collector.py:45-56 | every severity and type in the collected incidents is a string, so their statistics can always be computed |
| IncidentCollector.StatisticsTotals | src/collectors/incident_collector.py:428-437 | the severity and type counts each add up to the number of incidents |
| DeploymentCollector.CalculateDeploymentDuration | src/collectors/deployment_collector.py:202-214 | the estimated duration is positive |
| DeploymentCollector.VmDeploymentFields | src/collectors/deployment_collector.py:93-106 | a VM deployment is a success of 10 minutes, with the event's key, time and VM name |
| DeploymentCollector.CollectVmDeployments | src/collectors/deployment_collector.py:66-109 | the loop returns one deployment per event, in order |
| DeploymentCollector.ApplicationDeployments | src/collectors/deployment_collector.py:111-155 | five successful samples app-deploy-0 to 4, at the start date, 15 minutes each |
| DeploymentCollector.ApplicationDeployment | src/collectors/deployment_collector.py:134-150 | sample i is a successful 15-minute application_deployment at the start date whose id ends in the digit i |
| DeploymentCollector.ApplicationIdsDistinct | src/collectors/deployment_collector.py:134-151 | the sample ids are pairwise distinct |
| DeploymentCollector.InfrastructureChangeFields | src/collectors/deployment_collector.py:184-197 | a change is a success of 5 minutes, with the event's key, time, object and type |
| DeploymentCollector.CollectInfrastructureChanges | src/collectors/deployment_collector.py:157-200 | the loop returns one change per event, in order |
| DeploymentCollector.CollectDeployments | src/collectors/deployment_collector.py:26-64 | the first failing query's error is raised; otherwise VM, sample and infrastructure records, as many as events plus five |
| DeploymentCollector.AllDeployments | src/collectors/deployment_collector.py:45-56 | as many records as VM events plus five plus configuration events: the VM deployments, then the five samples, then the infrastructure changes |
| DeploymentCollector.NoEventsStillFive | src/collectors/deployment_collector.py:26-64 | without events the five samples are still returned |
| DeploymentCollector.VmDeployments | src/collectors/deployment_collector.py:66-109 | one record per event, in order; record k is a successful 10-minute vm_deployment with event k's key and time |
| DeploymentCollector.InfrastructureChanges | src/collectors/deployment_collector.py:157-200 | one record per event, in order; record k is a successful 5-minute infrastructure_change with event k's key, time, object and event type |
| DeploymentCollector.AllCollectedSucceed | src/collectors/deployment_collector.py:26-64 | every collected record is a success with a numeric duration |
| DeploymentCollector.SuccessCount | src/collectors/deployment_collector.py:239 | never more successes than deployments |
| DeploymentCollector.SuccessCountExtremes | src/collectors/deployment_collector.py:239 | all count iff every status is success; none iff no status is |
| DeploymentCollector.SuccessCountAppend | src/collectors/deployment_collector.py:239 | the success count of a concatenation is the sum of the parts' |
| DeploymentCollector.Durations | src/collectors/deployment_collector.py:242 | one duration per deployment: its number, or 0 when missing |
| DeploymentCollector.SuccessRate | src/collectors/deployment_collector.py:249 | between 0 and 100; 100 iff all succeeded; 0 iff none did |
| DeploymentCollector.GetDeploymentStatistics | src/collectors/deployment_collector.py:216-251 | zeros for no deployments; otherwise successes and failures make up the total, the rate is `SuccessRate` of the successes and the total (within 0 to 100), the average is the mean duration |
| DeploymentCollector.SuccessRateExtremes | src/collectors/deployment_collector.py:239-249 | the rate is 100 iff every deployment succeeded, and 0 iff none did |
| DeploymentCollector.AverageDurationWithin | src/collectors/deployment_collector.py:242-243 | the average lies within any bounds of the durations |
| DeploymentCollector.CollectedDurations | src/collectors/deployment_collector.py:242 | collected records' durations are numbers between 5 and 15 |
| DeploymentCollector.CollectedStatistics | src/collectors/deployment_collector.py:216-251 | a collection has no failures, a 100 percent rate and an average between 5 and 15 |
| DeploymentCollector.AllSuccessfulExample | src/collectors/deployment_collector.py:216-251 | three successes of 10, 20 and 15 minutes: rate 100, average 15 |
| DeploymentCollector.MixedExample | src/collectors/deployment_collector.py:216-251 | two successes and a failure: rate 200/3, average 35/3 |
| Config.DeepMerge | src/utils/config_manager.py:267-279 | keys of both; untouched keys keep the base's value; an update key replaces unless both sides are dictionaries |
| Config.DeepMergeNested | src/utils/config_manager.py:276-277 | where both sides are dictionaries they are merged recursively |
| Config.DeepUpdate | src/utils/config_manager.py:267-279 | the recursive update loop leaves the deep merge of base and update |
| Config.DeepMergeSelf | src/utils/config_manager.py:267-279 | merging a dictionary into itself changes nothing |
| Config.DeepMergeIdempotent | src/utils/config_manager.py:267-279 | applying the same update twice equals applying it once |
| Config.FlatDeepMerge | src/utils/config_manager.py:267-279 | without dictionaries on both sides of a key, the deep update is `dict.update` |
| Config.SettingValue | src/utils/config_manager.py:98-135 | a set variable fails exactly when it is an integer setting whose text does not parse |
| Config.ReadSectionErrors | src/utils/config_manager.py:98-135 | a section fails iff some integer variable does not parse, reporting the first such |
| Config.ReadSectionKeys | src/utils/config_manager.py:98-135 | a section's keys are exactly those of its set variables |
| Config.ReadSectionValues | src/utils/config_manager.py:98-135 | each set variable's key holds that variable's value |
| Config.ReadSectionSpec | src/utils/config_manager.py:98-135 | the section's error, keys and values together |
| Config.ReadSectionEmpty | src/utils/config_manager.py:98-135 | a section is empty iff none of its variables is set |
| Config.AddSection | src/utils/config_manager.py:98-135 | a section is added only when non-empty; the first error wins; other keys are unchanged |
| Config.LoadFromEnvironment | src/utils/config_manager.py:88-140 | only the four section names appear, each holding a dictionary |
| Config.VmwareSection | src/utils/config_manager.py:98-111 | fails iff VMWARE_PORT does not parse; empty iff none of its five variables is set |
| Config.DatabaseSection | src/utils/config_manager.py:114-121 | never fails; empty iff neither DATABASE_URL nor DATABASE_TYPE is set |
| Config.LoggingSection | src/utils/config_manager.py:124-125 | never fails; empty iff LOG_LEVEL is not set |
| Config.CollectionSection | src/utils/config_manager.py:128-135 | fails iff the interval or the retention does not parse, reporting the interval first |
| Config.EnvironmentSections | src/utils/config_manager.py:88-140 | each section appears iff one of its variables is set |
| Config.VmwareKeysDistinct | src/utils/config_manager.py:98-111 | the VMware variables fill distinct keys |
| Config.IgnoreSslFlag | src/utils/config_manager.py:108-109 | ignore_ssl_errors is true iff the variable lowercased is "true" |
| Config.EnvironmentErrors | src/utils/config_manager.py:88-140 | loading fails iff one of the three integer variables does not parse, reporting the first in source order |
| Config.ValidateConfig | src/utils/config_manager.py:175-209 | passes iff port is an int in 1..65535 and interval and retention are ints ≥ 1 (defaults 443, 60, 90); the first bad one is reported |
| Config.DefaultConfigValid | src/utils/config_manager.py:142-173 | the defaults pass with 443, 60 and 90 |
| Config.DefaultConfig | src/utils/config_manager.py:142-173 | exactly the sections vmware, database, logging, collection and reporting, each a dictionary, and they pass validation |
| Config.EmptyConfigValid | src/utils/config_manager.py:194-207 | an empty configuration passes |
| Config.CredentialsOnlyWarn | src/utils/config_manager.py:186-191 | changing any VMware key but the port never changes the verdict |
| Config.PortTypes | src/utils/config_manager.py:194-196 | True passes as a port; False and a float are rejected |
| Config.LoadedConfig | src/utils/config_manager.py:59-81 | environment sections win over the file's, which win over the defaults; defaults fill only missing top-level keys |
| Config.DefaultsNotNested | src/utils/config_manager.py:78-81 | a file section missing a key is not completed from the defaults |
| Config.EmptyEnvironment | src/utils/config_manager.py:88-140 | with no variable set the environment contributes nothing |
| Config.NothingGivenIsDefault | src/utils/config_manager.py:59-81 | without file and environment the configuration is the default |
| Config.LoadedValidatable | src/utils/config_manager.py:59-84 | a loaded configuration can be validated exactly when its vmware and collection sections each come from the environment, are dictionaries in the file, or are absent from the file |
| Config.NullSectionReplaced | src/utils/config_manager.py:74-75 | a file with a null vmware section still loads when VMWARE_VCENTER_HOST is set: the environment replaces the section |
| Config.FillDefaults | src/utils/config_manager.py:78-81 | the loop adds exactly the default keys that are missing |
| Config.LoadConfig | src/utils/config_manager.py:52-86 | the environment's error, or else the validation error, is raised; otherwise the loaded configuration is returned; validatability is demanded only of the loaded configuration |
| Config.RedactKey | src/utils/config_manager.py:316-331 | same keys; only the given key may become the marker |
| Config.SanitizeConfig | src/utils/config_manager.py:306-333 | same keys; the VMware password is redacted; the database url is redacted iff it mentions "password"; the rest is unchanged |
| Config.SanitizedHidesSecrets | src/utils/config_manager.py:306-333 | no password survives, and a surviving url does not mention "password" |
| Config.RedactedHasNoPassword | src/utils/config_manager.py:322 | the marker does not mention "password" |
| Config.VmwareRedactionStable | src/utils/config_manager.py:319-323 | redacting the VMware password twice equals once |
| Config.DatabaseRedactionStable | src/utils/config_manager.py:326-331 | after redaction the url no longer mentions "password", so redaction is stable |
| Config.SanitizeIdempotent | src/utils/config_manager.py:306-333 | sanitising twice equals sanitising once |
| Config.ConfigManager.constructor | src/utils/config_manager.py:24-26 | the manager holds the configuration it is given |
| Config.ConfigManager.GetConfig | src/utils/config_manager.py:211-218 | the returned configuration equals the held one |
| Config.ConfigManager.UpdateConfig | src/utils/config_manager.py:256-265 | the held configuration becomes the deep merge even when validation then fails; the validation result is returned |
| Config.Open | src/utils/config_manager.py:16-26 | a loading error is returned; otherwise the manager opens exactly when the loaded configuration validates, with the validation error when it does not, and a fresh manager holds the loaded configuration |
| Config.UnrelatedUpdateKeepsValid | src/utils/config_manager.py:256-265 | an update touching neither vmware nor collection keeps a valid configuration valid |
| ReportGenerator.MakeSerializable | src/reporters/report_generator.py:277-294 | datetimes become isoformat text; dictionaries keep their keys and lists their length; other values are unchanged |
| ReportGenerator.MakeSerializableRemovesTimes | src/reporters/report_generator.py:277-294 | the result holds no datetime outside a tuple |
| ReportGenerator.MakeSerializableFixes | src/reporters/report_generator.py:277-294 | a value without datetimes is returned unchanged |
| ReportGenerator.MakeSerializableIdempotent | src/reporters/report_generator.py:277-294 | serialising twice equals serialising once |
| ReportGenerator.JsonDocument | src/reporters/report_generator.py:48-70 | the document given to the encoder holds no datetime |
| ReportGenerator.CsvLines | src/reporters/report_generator.py:263-273 | the header, then one line per metric in the fixed order |
| ReportGenerator.GenerateCsvReport | src/reporters/report_generator.py:253-275 | the appended lines joined by the two characters backslash and n |
| ReportGenerator.CsvStartsWithHeader | src/reporters/report_generator.py:263-275 | the report opens with the header and the separator |
| ReportGenerator.CsvLineAvoids | src/reporters/report_generator.py:270-273 | a metric line has no newline when its number and timestamp have none |
| ReportGenerator.FixedTextHasNoNewline | src/reporters/report_generator.py:263-273 | the fixed texts of the report have no newline |
| ReportGenerator.CsvIsOneLine | src/reporters/report_generator.py:275 | the whole CSV report is a single physical line |
| ReportGenerator.GenerateReport | src/reporters/report_generator.py:20-46 | lowercased json, html and csv select their renderer; any other format raises with the format given; a report returned is the one `Render` selects |
| ReportGenerator.Render | src/reporters/report_generator.py:39-46 | a format selects a report exactly when, lowercased, it is json, html or csv |
| ReportGenerator.FormatCaseInsensitive | src/reporters/report_generator.py:39 | two formats that lowercase alike select the same report, and a format lowercased beforehand selects the same report as the format itself |
| PyValues.LowerIdempotent | src/reporters/report_generator.py:39 | lowercasing twice is lowercasing once |
| Cli.LogLevel | src/cli.py:28-33 | DEBUG iff verbose; ERROR iff quiet without verbose; INFO otherwise |
| Cli.VerboseOverridesQuiet | src/cli.py:28-33 | with verbose, quiet makes no difference |
| Cli.Child | src/cli.py:392 | joining drops an empty or "." name and appends any other |
| Cli.Basename | src/cli.py:389 | the text after the last '/': a suffix without '/' |
| Cli.SafeNameHasNoSeparators | src/cli.py:389-391 | the fallback name contains neither separator |
| Cli.Fallback | src/cli.py:389-392 | the fallback is the working directory followed by at most one component, which is neither empty nor `.` and has no separator (it may be `..`; see Findings) |
| Cli.SafePath | src/cli.py:373-394 | a path inside the working directory is kept; any other takes the fallback |
| Cli.SafePathUnderCwd | src/cli.py:373-394 | the result always starts with the working directory, at most one component deeper when the input escaped |
| Cli.SafePathKeepsInside | src/cli.py:373-394 | applying it to an accepted path changes nothing |
| Cli.Normalize | src/cli.py:379 | lexical resolution leaves a normal path no longer than the input |
| Cli.NormalizeNormal | src/cli.py:379 | a resolved path resolves to itself |
| Cli.DotDotEscapes | src/cli.py:386-392 | as written, the user path ".." gives cwd/.., which resolves to the parent, outside the working directory |
| Cli.FixedSafePath | src/cli.py:373-394 | the corrected function keeps accepted paths and uses the corrected fallback |
| Cli.FixedSafePathStaysInside | src/cli.py:373-394 | with the correction, the result always resolves inside the working directory |
| Cli.FirstMissing | src/cli.py:291-294 | None iff every field is truthy; otherwise the first falsy field |
| Cli.ValidateRequired | src/cli.py:287-294 | passes iff host, username and password are all truthy; otherwise names the first falsy of them, in that order |
| Cli.NoVmwareSection | src/cli.py:288-294 | without a vmware section, vcenter_host is reported |
| Cli.EmptyPasswordReported | src/cli.py:291-294 | an empty password is reported once host and user are present |
| PyValues.Get | src/analyzers/metrics_analyzer.py:104-105 | `d.get(key)` is None for a missing key |
| PyValues.GetOr | src/analyzers/metrics_analyzer.py:158 | `d.get(key, default)` is the default for a missing key |
| PyValues.Or | src/analyzers/metrics_analyzer.py:212-213 | `a or b`: a when truthy, b otherwise |
| PyValues.Lower | src/analyzers/metrics_analyzer.py:158 | same length, each character lowercased |
| PyValues.ReplaceAll | src/cli.py:391 | the replaced character no longer occurs; a text without it is unchanged |

## Left out

- The vCenter connection and event queries (`vmware_client.py`): they become inputs, and the event lists are sequences of dictionaries. An `Err` input stands for an exception that reaches the collectors' own `try` blocks (`incident_collector.py:45-66`, `deployment_collector.py:45-62`), which log it and raise it again. The client itself catches every exception of an event query and returns an empty list (`vmware_client.py:144-146`); such a failure reaches the collectors as `Ok([])`.
- `dora_evidence.py`: it wires the collectors to the analyser and is not part of this model.
- Logging, `click` option parsing, the web server and daemon commands, `config_template` and `save_report`: these are I/O only.
- `save_config` and `_find_config_file`: file-system access. Only the `_sanitize_config` step that `save_config` uses is modelled.
- YAML parsing. The file arrives as an already parsed dictionary, or nothing when it is missing or fails to load. A file whose YAML is not a mapping makes `config.update` raise inside the `try`; the model treats that case as a missing file.
- The configuration getters other than `get_config` (`get_vmware_config` and the rest): each returns one section with a default.
- JSON text encoding (`json.dumps`), the HTML template's text and its classification call: `GenerateReport` returns the document before encoding, and the metrics the template is filled with.
- `format(x, '.2f')` and `'.1f'`: a parameter `fixed`, which is total. Python raises when a metric is `None` or not a number (`report_generator.py:266-273` and the HTML template); that error path is not modelled. The current time: a parameter `now`. `datetime.isoformat`: a parameter `isoformat`.
- The `__dict__` branch of `generate_report`: the metrics arrive as a dictionary.
- `datetime.fromisoformat`: a parameter `parse` that may fail. Datetimes are whole seconds, so sub-second precision is not modelled.
- Timestamps.Normalize: comparing a naive with an aware datetime raises `TypeError` in Python. The callers' preconditions (`OneKind`, `PairComparable`, `TimestampsComparable`, `ComparableWith`) exclude such mixes instead of modelling the exception.
- Event shape: `NestedIsDict` (inside `VmEventOk`, `HostEventOk`, `LinkDownOk` and the deployment collector's `VmEventOk`) excludes a `vm`, `host`, `datacenter` or `dvs` entry that is present but not a dictionary, on which Python's `.get` raises `AttributeError`; `ComparableWith` excludes `createdTime` values of mixed kinds, which raise `TypeError`. `_event_to_dict` meets both for every event it builds (`vmware_client.py:158-186`: the nested entries are dictionaries or absent, and `createdTime` is vCenter's datetime), so these error paths are not modelled.
- MetricsAnalyzer.CalculateChangeFailureRate: statuses that are not strings, for which `.lower()` raises, are excluded by `StatusIsText`.
- IncidentCollector.ExtractRootCause: an event type that is not a string, for which `in` raises, is excluded by `TypeIsText`.
- IncidentCollector.GetIncidentStatistics: a resolution time that `sum` cannot add is excluded by `TimesAreNumbers`.
- IncidentCollector.GetIncidentStatistics: the tallies are maps keyed by the model's values, and `PlainKeys` (on it and on `IncidentCollector.CountBy`) requires every severity and type to be a string or `None`. The model does not capture two Python behaviours of `dict` keys. A list or dict value makes `counts.get(key, 0)` raise `TypeError` (unhashable type). Equal numbers of different types (`True`, `1`, `1.0`) share one key, so `[{'severity': True}, {'severity': 1}]` gives `{True: 2}`. The collected incidents always meet `PlainKeys` (`CollectedKeysPlain`).
- DeploymentCollector.GetDeploymentStatistics: a duration that `sum` cannot add is excluded by `DurationsAreNumbers`.
- Config.LoadConfig: a file whose vmware or collection section is not a dictionary, and which the environment does not replace, makes Python raise `AttributeError` during validation. The precondition excludes exactly these inputs, by asking `Validatable` of the loaded configuration; `LoadedValidatable` says which files that admits. Config.Open has the same precondition.
- Config.ConfigManager.UpdateConfig: requires `Validatable` of the merged result, for the same reason.
- Config.SanitizeConfig: sections that are not dictionaries, and a url that is not a string, would raise in Python. `Sanitizable` excludes them.
- Config.ConfigManager.GetConfig: `dict.copy()` is shallow, so nested sections are shared with the manager. The model returns the value and does not capture that aliasing. Likewise `_deep_update` mutates nested dictionaries in place, and the model builds new ones.
- Dictionary iteration order: dictionaries are maps, so the order of keys in a tally, a configuration or a report document is not modelled. Sequences keep their order.
- PyValues.Lower: lowercases ASCII letters only, not the rest of Unicode.
- Floating point: Python's float divisions and multiplications (the frequency at `metrics_analyzer.py:87`, the failure rate at `metrics_analyzer.py:194`, the success rate and the averages) round to the nearest double. The model computes them as exact reals, so that rounding is not modelled.
- Int and float are not distinguished in averages and rates. The source returns an `int` 0 in some empty cases (for example `avg_duration` when there are no durations); the model states every average as a real.
- Integers are unbounded, as in Python.
- Cli.SafePath: `Path.resolve()` and the working directory come from the file system. The resolved path and working directory are inputs, and symbolic links are not modelled.
- MetricsAnalyzer.Durations, MetricsAnalyzer.FailedCount, MetricsAnalyzer.RelatedCount, IncidentCollector.ResolvedCount and DeploymentCollector.SuccessCount: each function's own ensures gives only a bound. Their exact meaning is stated by the lemmas beside them.

## Findings

| source | as written | input that shows it | evidently intended | confidence | as-written member | corrected member |
|---|---|---|---|---|---|---|
| src/cli.py:386-392 | when the resolved path is outside the working directory, the fallback joins `basename(user_path)` to it; the basename of `..` is `..`, which pathlib keeps | user path `..` with any working directory below the root | the returned path stays inside the working directory, as the docstring says | not executed | Cli.DotDotEscapes | Cli.FixedSafePathStaysInside |
