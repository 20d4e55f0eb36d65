# Scalarm experiment client, modelled in Dafny

This project models the experiment side of the Scalarm C# client. Scalarm runs parameter-sweep
simulation experiments. The client shapes the results the service returns, builds the requests
that schedule simulation managers (workers), and waits for an experiment to finish.

The model covers:

- **Result shaping.** The typed client (`MakeResults`) splits each flat result record into Input
  and Output. Input holds the keys that are input-parameter ids; Output holds every other key.
  The older mono client (`SplitParametersAndResults`) copies each record, moves the parameter ids
  out of the copy into a parameter map, and keys its result dictionary by that parameter map.
- **Scheduling requests.** These are the builders for Zeus (qsub), private machines and PL-Grid
  (QCG). Each gives the infrastructure name, the count and the exact parameter map it hands to
  `ScheduleSimulationManagers`, and fails where the source throws.
- **Result queries.** `GetResultsOptions` turns its option fields into query parameters: the
  four flags as "1"/"0", then the optional `min_index`/`max_index` bounds.
- **Completion.** `IsDone` holds exactly when the `All` and `Done` counters are equal. The
  blocking `WaitForDone` of both clients, the background watcher's completion handler, the
  simulation-manager query and the polling-interval property are modelled too.
- **Supervised experiments.** This covers how a schedule-point response is classified, the loop
  that schedules points one by one, and the request and outcome of `MarkAsComplete`.

Dictionaries (`ValuesMap`, `Dictionary<string, object>`) are the class `ValuesMaps.ValuesMap`.
It holds an insertion-ordered sequence of entries with distinct keys. `Add` is specified by the
entry it appends; `Remove` and the indexer assignment (`Set`) are proved against the pure
functions `Without` and `Put`, whose effect on `Lookup` is proved as lemmas.

The transport is not modelled:

- A scheduling builder returns the `ScheduleCall` it would pass on.
- A supervised operation returns the requests it sends and is given the service's responses, one
  per request, in the order they are sent. Each response says whether `ValidateResponseStatus`
  accepts it.
- A blocking wait reads a finite sequence of poll observations in place of the clock, the
  statistics and the simulation-manager list. Each observation holds the elapsed seconds, the
  statistics and the manager states.

A C# argument or field that the source tests for null, sends or stores is an `Option` value (the
PL-Grid login, password, passphrase, proxy and computing engine, the private-machine credentials
and their id, the caller's parameter maps, the error reason), and a null stored in a map is
`Value.Null`. Other reference arguments are never null in the model; "## Left out" says what the
source does with a null there. C# `int` is
the subset type `Int32`, and unchecked overflow is written out with `Wrap32`. C# integer division
is `TruncatedDiv`. Exceptions are the `Error` constructors, returned in a `Result` or `Outcome`.

## Model

| member | source | states |
|---|---|---|
| ValuesMaps.Lookup | scalarm_client_csharp/Experiment.cs:409-414 | a key has a value exactly when the dictionary holds the key |
| ValuesMaps.LookupPut | scalarm_client_csharp/Experiment.cs:146-152 | after `d[k] = v`, k maps to v and every other key keeps its value; the key set grows by k only |
| ValuesMaps.PutNew | scalarm_client_csharp/Experiment.cs:127-129 | assigning a key the dictionary lacks appends one entry at the end |
| ValuesMaps.PutAt | scalarm_client_csharp/Experiment.cs:187-189 | assigning a key that is present replaces its value in place, keeping its position |
| ValuesMaps.PutKeepsDistinct | scalarm_client_csharp/Experiment.cs:148 | the indexer never creates a second entry for a key |
| ValuesMaps.LookupWithout | scalarm_rest_client_mono/Experiment.cs:109 | after `Remove(k)`, k is absent and every other key keeps its value |
| ValuesMaps.WithoutKeepsDistinct | scalarm_rest_client_mono/Experiment.cs:109 | removing keeps distinct keys |
| ValuesMaps.WithoutAbsent | scalarm_rest_client_mono/Experiment.cs:107-110 | removing a key that is not there changes nothing |
| ValuesMaps.LookupPickDrop | scalarm_client_csharp/Experiment.cs:409-415 | the picked part maps exactly the listed ids to the record's values; the dropped part maps exactly the others |
| ValuesMaps.PickDropPermutation | scalarm_client_csharp/Experiment.cs:409-415 | the two parts together are a permutation of the record: nothing lost, nothing duplicated |
| ValuesMaps.PickDropKeepDistinct | scalarm_client_csharp/Experiment.cs:409-415 | both parts of a dictionary are dictionaries |
| ValuesMaps.PickIdsAppend | scalarm_client_csharp/Experiment.cs:409-415 | the split is made entry by entry: splitting a concatenation splits each part |
| ValuesMaps.ValuesMap.Get | scalarm_client_csharp/Experiment.cs:411 | reading a present key yields the value stored under it |
| ValuesMaps.ValuesMap.Add | scalarm_client_csharp/Experiment.cs:434 | `Add` succeeds iff the key is new, appends exactly that entry, and otherwise leaves the map unchanged |
| ValuesMaps.ValuesMap.Remove | scalarm_rest_client_mono/Experiment.cs:109 | the new entries are the old ones without the key |
| ValuesMaps.ValuesMap.Set | scalarm_client_csharp/Experiment.cs:148 | the new entries are the indexer assignment applied to the old ones, and keys stay distinct |
| ValuesMaps.ValuesMap.ShallowCopy | scalarm_rest_client_mono/Experiment.cs:102 | the copy is a new map holding the same entries |
| ValuesMaps.ValuesMap.constructor | scalarm_client_csharp/Experiment.cs:404-405 | `new ValuesMap()` is a new, empty dictionary |
| ValuesMaps.ValuesMap.FromEntries | scalarm_client_csharp/Experiment.cs:120-122 | a collection initialiser gives a new dictionary holding exactly its listed entries, in order; the keys listed must differ, as `Dictionary.Add` would otherwise throw |
| Scalarm.Wrap32 | scalarm_client_csharp/Experiment.cs:27 | unchecked 32-bit arithmetic: in-range values are unchanged, others are congruent modulo 2^32 |
| Rest.RestRequest.AddParameter | scalarm_client_csharp/SupervisedExperiment.cs:52 | appends one form parameter and keeps the resource and verb |
| Rest.RestRequest.AddQueryParameter | scalarm_client_csharp/GetResultsOptions.cs:38 | appends one query parameter and keeps the resource and verb |
| ResultsQuery.BoolToQueryValue | scalarm_client_csharp/GetResultsOptions.cs:19-22 | true is "1" and false is "0", each in both directions |
| ResultsQuery.DecimalStringRoundTrip | scalarm_client_csharp/GetResultsOptions.cs:44 | `int.ToString()` of a non-negative number is all digits, has no leading zero and reads back as the number |
| ResultsQuery.FlagsComeFirst | scalarm_client_csharp/GetResultsOptions.cs:38-41 | the four flags are the first four query parameters, in fixed order, each "1" iff its option is set |
| ResultsQuery.BoundsEmittedIff | scalarm_client_csharp/GetResultsOptions.cs:43-49 | min_index (max_index) is sent iff its bound is at least 1, after the flags, with a value that denotes the bound |
| ResultsQuery.GetResultsOptions.constructor | scalarm_client_csharp/GetResultsOptions.cs:24-34 | defaults: no index column; params, MoEs and status included; both bounds -1 |
| ResultsQuery.GetResultsOptions.AddUrlSegments | scalarm_client_csharp/GetResultsOptions.cs:36-50 | the request gains exactly the options' query parameters, in order, and its resource and verb stay the same |
| ResultsQuery.AddFlags | scalarm_client_csharp/GetResultsOptions.cs:38-41 | the four flag parameters are appended, in order |
| ResultsQuery.AddBound | scalarm_client_csharp/GetResultsOptions.cs:43-49 | one bound parameter is appended iff the bound is at least 1 |
| ResultsQuery.DefaultQuery | scalarm_client_csharp/GetResultsOptions.cs:24-50 | default options send exactly with_index=0, with_params=1, with_moes=1, with_status=1 |
| Experiments.GetResultsOptionsFor | scalarm_client_csharp/Experiment.cs:338-342 | `GetResults(fetchFailed)` asks for the status column iff failed runs are fetched, and sends no bounds |
| Experiments.SplitRecordIsPartition | scalarm_client_csharp/Experiment.cs:403-418 | Input holds exactly the record's input-id keys and Output the rest, with their values; the two are disjoint, their union is the record, and both are dictionaries |
| Experiments.SplitRecordKeepsOrder | scalarm_client_csharp/Experiment.cs:409-415 | every key of Input and of Output is a key of the record, and each part lists its entries in the record's order |
| Experiments.Experiment.MakeResults | scalarm_client_csharp/Experiment.cs:399-421 | one SimulationParams per record, in order, each the partition of that record |
| Experiments.Experiment.MakeSingleResult | scalarm_client_csharp/Experiment.cs:403-418 | the two new maps are exactly the record's partition |
| Experiments.SplitStep | scalarm_client_csharp/Experiment.cs:409-415 | each key visited is new to both maps, is read with its stored value, and extends exactly the map its id class selects |
| Experiments.WorkerCompleted | scalarm_client_csharp/Experiment.cs:325-336 | cancelled: nothing; no error: ExperimentCompleted; no active managers: NoResources; any other error is rethrown (each case iff) |
| Experiments.Experiment.constructor | scalarm_client_csharp/Experiment.cs:21 | a new experiment polls every 5000 ms |
| Experiments.MillisExact | scalarm_client_csharp/Experiment.cs:26-28 | the setter stores value*1000 exactly while it fits in 32 bits, and wraps negative just past that |
| Experiments.Experiment.SetWatchingIntervalSecs | scalarm_client_csharp/Experiment.cs:26-28 | stores the wrapped product; the corrected getter then reads back the seconds set |
| Experiments.Experiment.WatchingIntervalSecs | scalarm_client_csharp/Experiment.cs:22-25 | the getter as written returns the stored milliseconds |
| Experiments.IntervalGetterReturnsMillis | scalarm_client_csharp/Experiment.cs:21-29 | setting 5 and reading back gives 5000; the property does not round-trip |
| Experiments.Experiment.WatchingIntervalSecsCorrected | scalarm_client_csharp/Experiment.cs:22-25 | the corrected getter gives whole seconds, within the range the setter can store exactly |
| Experiments.IntervalSecsRoundTrip | scalarm_client_csharp/Experiment.cs:21-29 | with the corrected getter, reading back what was set gives the same seconds |
| Experiments.Experiment.ScheduleZeusJobsWithLogin | scalarm_client_csharp/Experiment.cs:118-132 | qsub with exactly time_limit "60", the login, the password (null when missing) and onsite_monitoring true |
| Experiments.Experiment.ScheduleZeusJobsWithLoginChecked | scalarm_client_csharp/Experiment.cs:124-126 | fails with ArgumentNull iff the password is missing; otherwise sends it |
| Experiments.Experiment.ScheduleZeusJobs | scalarm_client_csharp/Experiment.cs:134-155 | fails iff the client has no proxy certificate; otherwise onsite_monitoring is true, caller keys override the default, time_limit defaults to "60", and there are no other keys |
| Experiments.Experiment.SchedulePrivateMachineJobs | scalarm_client_csharp/Experiment.cs:157-165 | null credentials fail with NullReference; otherwise private_machine with exactly time_limit "60" and the credentials' id, sent as null when the id is null |
| Experiments.Experiment.SchedulePrivateMachineJobsById | scalarm_client_csharp/Experiment.cs:167-175 | private_machine with exactly time_limit "60" and credentials_id |
| Experiments.DefaultQcgScheduleParams | scalarm_client_csharp/Experiment.cs:244-251 | exactly three keys: time_limit "60", onsite_monitoring true, plgrid_host Zeus |
| Experiments.NewQcgParams | scalarm_client_csharp/Experiment.cs:211-215 | the QCG defaults with plgrid_host replaced in place by the caller's engine when given |
| Experiments.Experiment.SchedulePlGridJobsWithCredentials | scalarm_client_csharp/Experiment.cs:183-200 | qcg with the defaults and host; the three credentials are added only when all are present, and none of them otherwise |
| Experiments.Experiment.SchedulePlGridJobsWithCredentialsChecked | scalarm_client_csharp/Experiment.cs:191-197 | fails with ArgumentNull iff a credential is missing; otherwise host and all three credentials are sent |
| Experiments.Experiment.SchedulePlGridJobsWithProxy | scalarm_client_csharp/Experiment.cs:209-220 | qcg with the defaults, the host override and the proxy as given |
| Experiments.Experiment.SchedulePlGridJobs | scalarm_client_csharp/Experiment.cs:229-242 | fails iff the client has no proxy certificate; otherwise qcg with the defaults and host override |
| Experiments.IsDone | scalarm_client_csharp/Experiment.cs:258-263 | the experiment is done exactly when the All and Done counters are equal (the mono client's `IsDone`, scalarm_rest_client_mono/Experiment.cs:42-47, is the same) |
| Experiments.AnyActive | scalarm_client_csharp/Experiment.cs:438-443 | some manager is active exactly when one of them is in a state other than "error" and "terminating" |
| Experiments.SleepNeverInfinite | scalarm_client_csharp/Experiment.cs:279 | no interval in seconds, times 1000 with 32-bit wrap-around, is -1, so `Thread.Sleep` never waits forever |
| Experiments.SleepAcceptsIff | scalarm_client_csharp/Experiment.cs:279 | while seconds*1000 fits in 32 bits, `Thread.Sleep` accepts the interval exactly when it is not negative |
| Experiments.Experiment.WaitForDone | scalarm_client_csharp/Experiment.cs:269-282 | returns at the first done poll within the deadline; NoActiveSimulationManagers at the first not-done poll with no active manager; ArgumentOutOfRange at the first poll that keeps waiting when Sleep refuses pollingIntervalSeconds*1000; Timeout at the first poll past the deadline, never when timeoutSecs <= 0; every earlier poll kept waiting with an interval Sleep accepts |
| Experiments.Experiment.GetSimulationManagers | scalarm_client_csharp/Experiment.cs:429-436 | experiment_id is added to the caller's map (a new one when null); a map that already holds it fails with DuplicateKey, unchanged |
| Experiments.Experiment.GetActiveSimulationManagers | scalarm_client_csharp/Experiment.cs:438-443 | the query is exactly states_not [error, terminating] followed by experiment_id |
| MonoExperiments.MonoParamsContents | scalarm_rest_client_mono/Experiment.cs:104-111 | the parameter map holds exactly the listed ids present in the record, with the record's values, each once, in the order of their first listing |
| MonoExperiments.DropIdsSnoc | scalarm_rest_client_mono/Experiment.cs:106-110 | each id visited removes that id from what remains of the copy |
| MonoExperiments.MonoSplitIsPartition | scalarm_rest_client_mono/Experiment.cs:102-111 | every record key ends up in exactly one of the two maps, with its value |
| MonoExperiments.ClientsAgree | scalarm_rest_client_mono/Experiment.cs:101-111 | the mono result map equals the typed client's Output; the mono parameter map holds the same values as its Input |
| MonoExperiments.SplitParametersAndResults | scalarm_rest_client_mono/Experiment.cs:97-116 | succeeds iff no two records give the same parameter map (DuplicateKey otherwise); on success, one split per record, in order; the caller's records are not modified |
| MonoExperiments.SplitOne | scalarm_rest_client_mono/Experiment.cs:102-111 | the parameter map and the rest of the copy are exactly the mono split of the record |
| MonoExperiments.MonoStep | scalarm_rest_client_mono/Experiment.cs:106-110 | the copy still holds an id iff the record does and it was not moved before; moving it appends it to the parameter map with its value and removes it from the copy |
| MonoExperiments.MonoExperiment.constructor | scalarm_rest_client_mono/Experiment.cs:21-24 | the experiment keeps its id |
| MonoExperiments.MonoExperiment.ScheduleZeusJobs | scalarm_rest_client_mono/Experiment.cs:30-35 | qsub with a map of exactly time_limit "60" |
| MonoExperiments.MonoExperiment.WaitForDone | scalarm_rest_client_mono/Experiment.cs:53-64 | returns at the first done poll within the deadline; ArgumentOutOfRange at the first not-done poll within the deadline when Sleep refuses pollingIntervalSeconds*1000; otherwise only Timeout, at the first poll past the deadline, and never when timeoutSecs <= 0 |
| Supervised.HandleSchedulePointResponse | scalarm_client_csharp/SupervisedExperiment.cs:72-86 | a rejected response fails with its validation error; otherwise "ok" yields the index, "error" is SchedulePointFailed, and anything else is InvalidResponse (success iff valid and "ok") |
| Supervised.SchedulePointRequest | scalarm_client_csharp/SupervisedExperiment.cs:51-52 | a POST to experiments/<id>/schedule_point carrying only the point |
| Supervised.SupervisedExperiment.constructor | scalarm_client_csharp/SupervisedExperiment.cs:18-19 | the experiment keeps the id it is given |
| Supervised.SupervisedExperiment.SchedulePoint | scalarm_client_csharp/SupervisedExperiment.cs:49-55 | sends that request with the point's JSON and returns the classification of the service's response |
| Supervised.SupervisedExperiment.SchedulePoints | scalarm_client_csharp/SupervisedExperiment.cs:62-70 | points are sent in order, the i-th answered by the i-th response; success iff every response succeeds, with the i-th index from the i-th response; the first failing response ends the loop with its error and no later point is sent |
| Supervised.MarkAsCompleteRequest | scalarm_client_csharp/SupervisedExperiment.cs:91-96 | status "ok" iff success and "error" otherwise; results always; reason as the third parameter iff one is given |
| Supervised.MarkAsCompleteOutcome | scalarm_client_csharp/SupervisedExperiment.cs:98-106 | returns normally iff the response is valid and its status is "ok"; otherwise the validation error or MarkAsCompleteFailed |
| Supervised.SupervisedExperiment.MarkAsComplete | scalarm_client_csharp/SupervisedExperiment.cs:89-107 | sends exactly that request and ends as the outcome of the service's response |

## Left out

- HTTP transport: `ScheduleSimulationManagers`, `GetExperimentStatistics`, `GetAllSimulationManagers`, `GetExperimentResults`, `Execute` and `ValidateResponseStatus` are client calls outside this model. Builders return the call they would make, and responses are parameters.
- `ConvertTypes` (both clients): its JSON coercion of values needs a JSON parser that is not part of this model. It never changes which keys a record has.
- `GetResults` and the mono `GetSingleResult`: they only chain the transport, `ConvertTypes` and the splitting modelled here. `InputDefinition.ParametersIdsForCategories` is not part of this model, so the parameter ids are an input.
- `GetBinaryResults` and `GetSimulationRunBinaryResult`: file downloads through the transport.
- `StartWatching`, `StopWatching` and `_watchCompletion`: a background worker and cooperative cancellation, that is, concurrency. Only how the worker's completion is handled (`_workerCompleted`) is modelled.
- `OnExperimentCompleted` and `OnNoResources`: they invoke event subscribers. The model names the notification raised but not who receives it. When a subscriber is registered, `OnExperimentCompleted` also calls `GetResults()` to pass the results along (scalarm_client_csharp/Experiment.cs:106); `GetResults` is left out as above.
- `DateTime.UtcNow` and the pause of `Thread.Sleep`: the wait sees the elapsed seconds of each turn as an observation, a `real` in place of the floating-point `TotalSeconds`. Only whether `Thread.Sleep` accepts its argument is modelled.
- The `Console.WriteLine` debug output in both `IsDone` methods (scalarm_client_csharp/Experiment.cs:261, scalarm_rest_client_mono/Experiment.cs:45): console output, with no effect on the result.
- Experiments.Experiment.WaitForDone: does not model an unbounded wait. When the finite observation sequence ends first, the result is `StillPolling`.
- MonoExperiments.MonoExperiment.WaitForDone: does not model an unbounded wait, as for the typed client.
- `ValuesMap.ToJson`: not part of this model. `SchedulePoint` and `SchedulePoints` take it as a function parameter.
- MonoExperiments.SplitParametersAndResults: compares parameter maps by their entries, in order, so its DuplicateKey outcome assumes that `ValuesMap` overrides `Equals` and `GetHashCode` with entry equality. `ValuesMap` is not part of this model; with reference equality each parameter map is a new object, `finalDict.Add` (scalarm_rest_client_mono/Experiment.cs:112) never throws and the call always succeeds.
- `PLGridCE.ZEUS` is not part of this model. Its value "zeus.cyfronet.pl" is taken from the documentation at scalarm_client_csharp/Experiment.cs:181.
- Dictionary enumeration order: the model keeps entries in insertion order, which .NET does not promise for `Dictionary`. The ordered statements (`PutNew`, the exact entry sequences of the builders and of both splits) hold at run time because no modelled path adds to a map after removing from it, the case in which .NET reuses a freed slot.
- `GetActiveSimulationManagers` filtering: the source asks the service for the managers whose state is not in `states_not` [error, terminating] and tests `.Any()` on the reply (scalarm_client_csharp/Experiment.cs:276, 438-443). The model observes the states of all the experiment's managers and applies that filter itself (`AnyActive`), so it assumes the service applies `states_not` exactly.
- Null arguments the source does not check:
  - `SchedulePoint`'s `point` and an element of `SchedulePoints`' `points` are dereferenced by `point.ToJson()` (scalarm_client_csharp/SupervisedExperiment.cs:52), and a null `points` fails in the `foreach` (:66). Each is a NullReferenceException.
  - `MakeResults`' `results`, one of its records or `parametersIds`, and the same arguments of the mono `SplitParametersAndResults`, fail in the `foreach` loops, in `parametersIds.Contains` or in `ShallowCopy` (scalarm_client_csharp/Experiment.cs:403-410, scalarm_rest_client_mono/Experiment.cs:101-106). Each is a NullReferenceException.
  - A null `results` string of `MarkAsComplete` is passed on to `AddParameter` and sent (scalarm_client_csharp/SupervisedExperiment.cs:93).
  - A response whose `Data` is null after `ValidateResponseStatus` accepts it makes `HandleSchedulePointResponse` and `MarkAsComplete` throw NullReferenceException on `.status` (scalarm_client_csharp/SupervisedExperiment.cs:76-78, 101). The model's responses always carry a status.
- Exception messages are not modelled. Each exception class is one `Error` constructor.
- The deserialized experiment fields (name, description, replication level, ...) have no behaviour and are omitted.

## Findings

| source | as written | input that shows it | evidently intended | confidence | as-written member | corrected member |
|---|---|---|---|---|---|---|
| scalarm_client_csharp/Experiment.cs:22-28 | the `WatchingIntervalSecs` getter returns the stored milliseconds | set the property to 5, then read it: 5000 | the getter returns seconds (milliseconds / 1000), so set and get round-trip | high (not executed) | Experiments.IntervalGetterReturnsMillis | Experiments.IntervalSecsRoundTrip |
| scalarm_client_csharp/Experiment.cs:124-126 | `new ArgumentNullException(...)` is built but not thrown, so a null password is sent | `ScheduleZeusJobs(1, "login", null)` schedules with plgrid_password null | throw ArgumentNullException when the password is null | high (not executed) | Experiments.Experiment.ScheduleZeusJobsWithLogin | Experiments.Experiment.ScheduleZeusJobsWithLoginChecked |
| scalarm_client_csharp/Experiment.cs:191-192 | `new ArgumentNullException(...)` is built but not thrown, so the request goes out without credentials | `SchedulePlGridJobs(null, 1, null, "p", "k")` schedules a qcg job with no login, password or passphrase | throw ArgumentNullException when any credential is null | high (not executed) | Experiments.Experiment.SchedulePlGridJobsWithCredentials | Experiments.Experiment.SchedulePlGridJobsWithCredentialsChecked |
