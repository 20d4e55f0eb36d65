/**
  The experiment of the typed client: result shaping, the scheduling-request builders, the
  completion check, the blocking wait and the background watcher's completion handler.
  The transport calls it makes (statistics, simulation-manager lists, scheduling) are not part of
  this model: a builder returns the call it would hand to the transport, and the wait reads a
  sequence of poll observations in place of the clock and the service.
*/
module Experiments {
  import opened Wrappers
  import opened Scalarm
  import opened ValuesMaps
  import opened Rest
  import opened ResultsQuery

  /** The kind of client the experiment talks through. */
  datatype ClientKind = BasicAuthClient | ProxyCertClient

  /** One simulation run's record split into input parameters and outputs. */
  datatype SimulationParams = SimulationParams(input: seq<Entry>, output: seq<Entry>)

  /** The arguments of one `ScheduleSimulationManagers(infrastructure, count, parameters)` call. */
  datatype ScheduleCall = ScheduleCall(infrastructure: string, count: Int32, parameters: seq<Entry>)

  datatype PrivateMachineCredentials = PrivateMachineCredentials(id: Option<string>)

  /** The default PL-Grid computing engine, `PLGridCE.ZEUS`. */
  const Zeus: string := "zeus.cyfronet.pl"

  /** The simulation-manager states that do not count as active (`states_not`). */
  const InactiveStates: seq<string> := ["error", "terminating"]

  // ----- result shaping -----

  /** How one record is split: ids in `parametersIds` go to Input, every other key to Output. */
  function SplitRecord(record: seq<Entry>, parametersIds: seq<string>): SimulationParams
  {
    SimulationParams(PickIds(record, parametersIds), DropIds(record, parametersIds))
  }

  /**
    The split is a partition of the record: Input holds exactly the record's keys that are input
    ids, Output every other key, with the same values; the two are disjoint, their union is the
    record, nothing is duplicated, and both are still dictionaries.
  */
  lemma SplitRecordIsPartition(record: seq<Entry>, parametersIds: seq<string>)
    requires DistinctKeys(record)
    ensures var sp := SplitRecord(record, parametersIds);
      && (forall k :: Lookup(sp.input, k) == if k in parametersIds then Lookup(record, k) else None)
      && (forall k :: Lookup(sp.output, k) == if k in parametersIds then None else Lookup(record, k))
      && (forall k :: HasKey(record, k) <==> HasKey(sp.input, k) || HasKey(sp.output, k))
      && (forall k :: !(HasKey(sp.input, k) && HasKey(sp.output, k)))
      && multiset(sp.input) + multiset(sp.output) == multiset(record)
      && DistinctKeys(sp.input) && DistinctKeys(sp.output)
  {
    forall k ensures Lookup(PickIds(record, parametersIds), k) == (if k in parametersIds then Lookup(record, k) else None)
      && Lookup(DropIds(record, parametersIds), k) == (if k in parametersIds then None else Lookup(record, k))
    {
      LookupPickDrop(record, parametersIds, k);
    }
    forall k ensures (HasKey(record, k) <==> HasKey(PickIds(record, parametersIds), k) || HasKey(DropIds(record, parametersIds), k))
      && !(HasKey(PickIds(record, parametersIds), k) && HasKey(DropIds(record, parametersIds), k))
    {
      LookupPickDrop(record, parametersIds, k);
    }
    PickDropPermutation(record, parametersIds);
    PickDropKeepDistinct(record, parametersIds);
  }

  /** The split keeps the record's order: Input and Output each list their entries as the record does. */
  lemma {:induction false} SplitRecordKeepsOrder(record: seq<Entry>, parametersIds: seq<string>)
    requires DistinctKeys(record)
    ensures InOrderOf(SplitRecord(record, parametersIds).input, record)
    ensures InOrderOf(SplitRecord(record, parametersIds).output, record)
  {
    if record != [] {
      var e, rest := record[0], record[1..];
      assert record == [e] + rest;
      DistinctTail(record);
      SplitRecordKeepsOrder(rest, parametersIds);
      ConsInOrder(e, rest, PickIds(rest, parametersIds));
      ConsInOrder(e, rest, DropIds(rest, parametersIds));
      if e.key in parametersIds {
        assert PickIds(record, parametersIds) == [e] + PickIds(rest, parametersIds);
        assert DropIds(record, parametersIds) == DropIds(rest, parametersIds);
      } else {
        assert PickIds(record, parametersIds) == PickIds(rest, parametersIds);
        assert DropIds(record, parametersIds) == [e] + DropIds(rest, parametersIds);
      }
    }
  }

  /** In a dictionary, the key at position j is not among the keys before it. */
  lemma AbsentFromPrefix(keys: seq<Entry>, j: nat)
    requires DistinctKeys(keys) && j < |keys|
    ensures !HasKey(keys[..j], keys[j].key)
  {
    forall i | 0 <= i < j ensures keys[..j][i].key != keys[j].key { }
  }

  /**
    One step of the split: the next key is new to both parts, the stored value is the one read,
    and it extends exactly one part.
  */
  lemma SplitStep(keys: seq<Entry>, j: nat, parametersIds: seq<string>)
    requires DistinctKeys(keys) && j < |keys|
    ensures Lookup(keys, keys[j].key) == Some(keys[j].value)
    ensures !HasKey(PickIds(keys[..j], parametersIds), keys[j].key)
    ensures !HasKey(DropIds(keys[..j], parametersIds), keys[j].key)
    ensures PickIds(keys[..j + 1], parametersIds) ==
      PickIds(keys[..j], parametersIds) + (if keys[j].key in parametersIds then [keys[j]] else [])
    ensures DropIds(keys[..j + 1], parametersIds) ==
      DropIds(keys[..j], parametersIds) + (if keys[j].key in parametersIds then [] else [keys[j]])
  {
    var id := keys[j].key;
    LookupAt(keys, j);
    AbsentFromPrefix(keys, j);
    LookupPickDrop(keys[..j], parametersIds, id);
    assert keys[..j + 1] == keys[..j] + [keys[j]];
    PickIdsAppend(keys[..j], [keys[j]], parametersIds);
    assert [keys[j]][1..] == [];
    assert PickIds([keys[j]], parametersIds) == if id in parametersIds then [keys[j]] else [];
    assert DropIds([keys[j]], parametersIds) == if id in parametersIds then [] else [keys[j]];
  }

  /**
    The options `GetResults(fetchFailed)` queries with: the defaults, except that the status
    column is asked for only when failed runs are to be fetched.
  */
  function GetResultsOptionsFor(fetchFailed: bool): (o: Options)
    ensures o.withStatus == fetchFailed
    ensures UrlSegments(o) == [
      Parameter(QueryString, "with_index", "0"), Parameter(QueryString, "with_params", "1"),
      Parameter(QueryString, "with_moes", "1"),
      Parameter(QueryString, "with_status", if fetchFailed then "1" else "0")]
  {
    Options(false, true, true, fetchFailed, -1, -1)
  }

  // ----- statistics, polls and outcomes -----

  /** The two counters of `ExperimentStatistics` the client reads. */
  datatype ExperimentStatistics = ExperimentStatistics(all: int, done: int)

  /** `IsDone`: every simulation run of the experiment is done. */
  function IsDone(stats: ExperimentStatistics): (done: bool)
    ensures done <==> stats.done == stats.all
  {
    stats.all == stats.done
  }

  /**
    What one turn of the wait loop observes: the seconds elapsed since the wait began (when the loop
    condition is evaluated), the statistics, and the states of the experiment's simulation managers.
  */
  datatype Poll = Poll(elapsedSecs: real, stats: ExperimentStatistics, managerStates: seq<string>)

  /**
    `GetActiveSimulationManagers().Any()`: some manager is in a state outside `states_not`. The
    observed states are those of all the experiment's managers; the service is taken to answer the
    `states_not` query with exactly the ones in other states.
  */
  function AnyActive(managerStates: seq<string>): (any: bool)
    ensures any <==> exists i :: 0 <= i < |managerStates| && managerStates[i] != "error" && managerStates[i] != "terminating"
  {
    exists i :: 0 <= i < |managerStates| && managerStates[i] !in InactiveStates
  }

  /** The loop condition: a timeout of zero or less means no deadline. */
  predicate WithinDeadline(timeoutSecs: Int32, elapsedSecs: real)
  {
    timeoutSecs <= 0 || elapsedSecs < timeoutSecs as real
  }

  /**
    `Thread.Sleep(pollingIntervalSeconds * 1000)` returns rather than throwing
    ArgumentOutOfRangeException: the millisecond count is not negative. Sleep also accepts -1
    (wait forever), but no product with 1000 wraps onto -1 (see `SleepNeverInfinite`).
  */
  predicate SleepAccepts(pollingIntervalSecs: Int32)
  {
    Millis(pollingIntervalSecs) >= 0
  }

  /** The millisecond count handed to Sleep is even, so it is never the -1 that means "forever". */
  lemma SleepNeverInfinite(pollingIntervalSecs: Int32)
    ensures Millis(pollingIntervalSecs) != -1
  {
  }

  /** A negative interval makes the first sleep throw; an interval from 0 to 2147483 seconds never does. */
  lemma SleepAcceptsIff(pollingIntervalSecs: Int32)
    requires -2147483 <= pollingIntervalSecs <= 2147483
    ensures SleepAccepts(pollingIntervalSecs) <==> pollingIntervalSecs >= 0
  {
    MillisExact(pollingIntervalSecs);
  }

  /** A turn after which the wait goes on polling. */
  predicate KeepsWaiting(timeoutSecs: Int32, p: Poll)
  {
    WithinDeadline(timeoutSecs, p.elapsedSecs) && !IsDone(p.stats) && AnyActive(p.managerStates)
  }

  /** The first `n` turns all went on polling, each sleeping for an interval Sleep accepts. */
  predicate KeptWaiting(timeoutSecs: Int32, pollingIntervalSecs: Int32, polls: seq<Poll>, n: nat)
  {
    && n <= |polls|
    && (n > 0 ==> SleepAccepts(pollingIntervalSecs))
    && forall j :: 0 <= j < n ==> KeepsWaiting(timeoutSecs, polls[j])
  }

  /** How a wait ends, at which turn; `StillPolling` when the observations run out first. */
  datatype WaitOutcome = Returned(at: nat) | Threw(at: nat, error: Error) | StillPolling

  /** The number of turns that ran to the end. */
  function TurnsCompleted(outcome: WaitOutcome, available: nat): nat
  {
    if outcome.StillPolling? then available else outcome.at
  }

  /** How the worker thread of the watcher finished. */
  datatype WorkerCompletion = WorkerCompletion(cancelled: bool, error: Option<Error>)

  /** What the completion handler does. */
  datatype Notification = Silent | ExperimentCompleted | NoResources | Rethrown(error: Error)

  /**
    `_workerCompleted`: a cancelled run raises nothing; a run without error raises
    ExperimentCompleted; one that ended in NoActiveSimulationManagersException raises NoResources;
    any other error is thrown again.
  */
  function WorkerCompleted(e: WorkerCompletion): (n: Notification)
    ensures n == Silent <==> e.cancelled
    ensures n == ExperimentCompleted <==> !e.cancelled && e.error.None?
    ensures n == NoResources <==> !e.cancelled && e.error == Some(NoActiveSimulationManagers)
    ensures n.Rethrown? <==> !e.cancelled && e.error.Some? && e.error.value != NoActiveSimulationManagers
    ensures n.Rethrown? ==> e.error == Some(n.error)
  {
    if e.cancelled then Silent
    else match e.error
      case None => ExperimentCompleted
      case Some(NoActiveSimulationManagers) => NoResources
      case Some(err) => Rethrown(err)
  }

  // ----- the polling interval -----

  /**
    Seconds times 1000 in unchecked 32-bit arithmetic: what the `WatchingIntervalSecs` setter
    stores, and what `WaitForDone` hands to `Thread.Sleep`.
  */
  function Millis(value: Int32): Int32
  {
    Wrap32(value * 1000)
  }

  /** The product is exact unless it leaves the 32-bit range, and just past that it wraps negative. */
  lemma MillisExact(value: Int32)
    ensures -2147483 <= value <= 2147483 ==> Millis(value) == value * 1000
    ensures value == 2147484 ==> Millis(value) < 0
  {
  }

  /** The getter as written: it returns the stored milliseconds. */
  function IntervalSecsAsWritten(millis: Int32): Int32
  {
    millis
  }

  /** Setting 5 seconds and reading the property back gives 5000, not 5. */
  lemma IntervalGetterReturnsMillis()
    ensures IntervalSecsAsWritten(Millis(5)) == 5000
    ensures exists v: Int32 :: IntervalSecsAsWritten(Millis(v)) != v
  {
    assert IntervalSecsAsWritten(Millis(5)) != 5;
  }

  /** The getter as evidently intended: milliseconds back to seconds, with C# division. */
  function IntervalSecsCorrected(millis: Int32): Int32
  {
    TruncatedDiv(millis, 1000)
  }

  /** With the corrected getter, reading back what was set gives the same number of seconds. */
  lemma IntervalSecsRoundTrip(value: Int32)
    requires -2147483 <= value <= 2147483
    ensures IntervalSecsCorrected(Millis(value)) == value
  {
    MillisExact(value);
  }

  /** An experiment of the typed client. */
  class Experiment {
    const id: string
    const client: ClientKind
    var watchingIntervalMillis: Int32

    constructor (experimentId: string, client: ClientKind)
      ensures id == experimentId && this.client == client
      ensures watchingIntervalMillis == 5000
    {
      id := experimentId;
      this.client := client;
      watchingIntervalMillis := 5000;
    }

    /** The `WatchingIntervalSecs` getter as written. */
    function WatchingIntervalSecs(): (secs: Int32)
      reads this
      ensures secs == IntervalSecsAsWritten(watchingIntervalMillis)
    {
      watchingIntervalMillis
    }

    /** The `WatchingIntervalSecs` getter as evidently intended. */
    function WatchingIntervalSecsCorrected(): (secs: Int32)
      reads this
      ensures -2147483 <= secs <= 2147483
    {
      IntervalSecsCorrected(watchingIntervalMillis)
    }

    /** The `WatchingIntervalSecs` setter. */
    method SetWatchingIntervalSecs(value: Int32)
      modifies this
      ensures watchingIntervalMillis == Millis(value)
      ensures -2147483 <= value <= 2147483 ==> WatchingIntervalSecsCorrected() == value
    {
      watchingIntervalMillis := Millis(value);
      if -2147483 <= value <= 2147483 {
        IntervalSecsRoundTrip(value);
      }
    }

    /** `MakeResults`: one SimulationParams per record, in record order. */
    method MakeResults(results: seq<ValuesMap>, parametersIds: seq<string>) returns (converted: seq<SimulationParams>)
      requires forall i :: 0 <= i < |results| ==> results[i].Valid()
      ensures |converted| == |results|
      ensures forall i :: 0 <= i < |results| ==> converted[i] == SplitRecord(results[i].entries, parametersIds)
    {
      converted := [];
      for n := 0 to |results|
        invariant |converted| == n
        invariant forall i :: 0 <= i < n ==> converted[i] == SplitRecord(results[i].entries, parametersIds)
      {
        var singleResult := MakeSingleResult(results[n], parametersIds);
        converted := converted + [singleResult];
      }
    }

    /** The body of the `MakeResults` loop: each key of the record goes to Input or to Output. */
    method MakeSingleResult(result: ValuesMap, parametersIds: seq<string>) returns (singleResult: SimulationParams)
      requires result.Valid()
      ensures singleResult == SplitRecord(result.entries, parametersIds)
    {
      var input := new ValuesMap();
      var output := new ValuesMap();
      var keys := result.entries;
      for j := 0 to |keys|
        invariant input.Valid() && output.Valid()
        invariant input.entries == PickIds(keys[..j], parametersIds)
        invariant output.entries == DropIds(keys[..j], parametersIds)
      {
        var id := keys[j].key;
        SplitStep(keys, j, parametersIds);
        var value := result.Get(id);
        assert value == keys[j].value;
        if id in parametersIds {
          var added := input.Add(id, value);
          assert added && input.entries == PickIds(keys[..j + 1], parametersIds);
        } else {
          var added := output.Add(id, value);
          assert added && output.entries == DropIds(keys[..j + 1], parametersIds);
        }
      }
      assert keys[..|keys|] == keys;
      singleResult := SimulationParams(input.entries, output.entries);
    }

    /** `ScheduleZeusJobs(count, plgridLogin, plgridPassword)` as written: a missing password is sent as null. */
    method ScheduleZeusJobsWithLogin(count: Int32, plgridLogin: Option<string>, plgridPassword: Option<string>)
      returns (call: ScheduleCall)
      ensures call.infrastructure == "qsub" && call.count == count
      ensures call.parameters == [
        Entry("time_limit", Str("60")),
        Entry("plgrid_login", FromNullable(plgridLogin)),
        Entry("plgrid_password", FromNullable(plgridPassword)),
        Entry("onsite_monitoring", Bool(true))]
      ensures DistinctKeys(call.parameters)
      ensures plgridPassword.None? ==> Lookup(call.parameters, "plgrid_password") == Some(Null)
    {
      var reqParams := new ValuesMap.FromEntries([Entry("time_limit", Str("60"))]);
      SetNew(reqParams, "plgrid_login", FromNullable(plgridLogin));
      SetNew(reqParams, "plgrid_password", FromNullable(plgridPassword));
      SetNew(reqParams, "onsite_monitoring", Bool(true));
      LookupAt(reqParams.entries, 2);
      call := ScheduleCall("qsub", count, reqParams.entries);
    }

    /** The same overload as evidently intended: a missing password raises ArgumentNullException. */
    method ScheduleZeusJobsWithLoginChecked(count: Int32, plgridLogin: Option<string>, plgridPassword: Option<string>)
      returns (r: Result<ScheduleCall, Error>)
      ensures r.Failure? <==> plgridPassword.None?
      ensures r.Failure? ==> r.error == ArgumentNull
      ensures r.Success? ==> (r.value.infrastructure == "qsub" && r.value.count == count
        && Lookup(r.value.parameters, "plgrid_password") == Some(Str(plgridPassword.value)))
    {
      if plgridPassword.None? {
        return Failure(ArgumentNull);
      }
      var call := ScheduleZeusJobsWithLogin(count, plgridLogin, plgridPassword);
      LookupAt(call.parameters, 2);
      return Success(call);
    }

    /**
      `ScheduleZeusJobs(count, parameters)`: only for a proxy-certificate client; the caller's
      parameters override the default time limit, and onsite_monitoring is forced to true.
    */
    method ScheduleZeusJobs(count: Int32, parameters: Option<seq<Entry>>) returns (r: Result<ScheduleCall, Error>)
      requires parameters.Some? ==> DistinctKeys(parameters.value)
      ensures r.Failure? <==> client != ProxyCertClient
      ensures r.Failure? ==> r.error == NotProxyCertClient
      ensures r.Success? ==> r.value.infrastructure == "qsub" && r.value.count == count
      ensures r.Success? ==> DistinctKeys(r.value.parameters)
      ensures r.Success? ==> (forall k :: Lookup(r.value.parameters, k) == (
                                if k == "onsite_monitoring" then Some(Bool(true))
                                else if parameters.Some? && HasKey(parameters.value, k) then Lookup(parameters.value, k)
                                else if k == "time_limit" then Some(Str("60"))
                                else None))
    {
      var reqParams := new ValuesMap.FromEntries([Entry("time_limit", Str("60"))]);
      if client != ProxyCertClient {
        return Failure(NotProxyCertClient);
      }
      if parameters.Some? {
        var ps := parameters.value;
        for i := 0 to |ps|
          invariant reqParams.Valid()
          invariant forall k :: Lookup(reqParams.entries, k) == (
                      if HasKey(ps[..i], k) then Lookup(ps[..i], k)
                      else if k == "time_limit" then Some(Str("60"))
                      else None)
        {
          ghost var before := reqParams.entries;
          reqParams.Set(ps[i].key, ps[i].value);
          forall k ensures Lookup(reqParams.entries, k) ==
            if HasKey(ps[..i + 1], k) then Lookup(ps[..i + 1], k)
            else if k == "time_limit" then Some(Str("60"))
            else None
          {
            LookupPut(before, ps[i].key, ps[i].value, k);
            LookupSnoc(ps, i, k);
          }
        }
        assert ps[..|ps|] == ps;
      }
      ghost var merged := reqParams.entries;
      reqParams.Set("onsite_monitoring", Bool(true));
      forall k ensures Lookup(reqParams.entries, k) ==
        if k == "onsite_monitoring" then Some(Bool(true))
        else if parameters.Some? && HasKey(parameters.value, k) then Lookup(parameters.value, k)
        else if k == "time_limit" then Some(Str("60"))
        else None
      {
        LookupPut(merged, "onsite_monitoring", Bool(true), k);
      }
      return Success(ScheduleCall("qsub", count, reqParams.entries));
    }

    /**
      `SchedulePrivateMachineJobs(count, credentials)`: a null credentials object fails on
      `credentials.Id`; a null `Id` is sent as null.
    */
    method SchedulePrivateMachineJobs(count: Int32, credentials: Option<PrivateMachineCredentials>)
      returns (r: Result<ScheduleCall, Error>)
      ensures r.Failure? <==> credentials.None?
      ensures r.Failure? ==> r.error == NullReference
      ensures r.Success? ==> r.value == ScheduleCall("private_machine", count,
        [Entry("time_limit", Str("60")), Entry("credentials_id", FromNullable(credentials.value.id))])
      ensures r.Success? && credentials.value.id.None? ==> Lookup(r.value.parameters, "credentials_id") == Some(Null)
    {
      if credentials.None? {
        return Failure(NullReference);
      }
      var call := SchedulePrivateMachineJobsById(count, credentials.value.id);
      return Success(call);
    }

    /** `SchedulePrivateMachineJobs(count, credentialsId)`. */
    method SchedulePrivateMachineJobsById(count: Int32, credentialsId: Option<string>) returns (call: ScheduleCall)
      ensures call == ScheduleCall("private_machine", count,
        [Entry("time_limit", Str("60")), Entry("credentials_id", FromNullable(credentialsId))])
    {
      var reqParams := new ValuesMap.FromEntries(
        [Entry("time_limit", Str("60")), Entry("credentials_id", FromNullable(credentialsId))]);
      call := ScheduleCall("private_machine", count, reqParams.entries);
    }

    /** `SchedulePlGridJobs(plgridCe, count, login, password, keyPassphrase)` as written. */
    method SchedulePlGridJobsWithCredentials(plgridCe: Option<string>, count: Int32,
      plgridLogin: Option<string>, plgridPassword: Option<string>, keyPassphrase: Option<string>)
      returns (call: ScheduleCall)
      ensures call.infrastructure == "qcg" && call.count == count
      ensures call.parameters == QcgParameters(plgridCe) + (
        if plgridLogin.Some? && plgridPassword.Some? && keyPassphrase.Some? then
          [Entry("plgrid_login", Str(plgridLogin.value)),
           Entry("plgrid_password", Str(plgridPassword.value)),
           Entry("key_passphrase", Str(keyPassphrase.value))]
        else [])
      ensures (plgridLogin.None? || plgridPassword.None? || keyPassphrase.None?) ==>
        !HasKey(call.parameters, "plgrid_login") && !HasKey(call.parameters, "plgrid_password")
        && !HasKey(call.parameters, "key_passphrase")
      ensures DistinctKeys(call.parameters)
    {
      var reqParams := NewQcgParams(plgridCe);
      if plgridLogin.None? || plgridPassword.None? || keyPassphrase.None? {
        // the ArgumentNullException is constructed here but never thrown
      } else {
        SetNew(reqParams, "plgrid_login", Str(plgridLogin.value));
        SetNew(reqParams, "plgrid_password", Str(plgridPassword.value));
        SetNew(reqParams, "key_passphrase", Str(keyPassphrase.value));
      }
      call := ScheduleCall("qcg", count, reqParams.entries);
    }

    /** The same overload as evidently intended: missing credentials raise ArgumentNullException. */
    method SchedulePlGridJobsWithCredentialsChecked(plgridCe: Option<string>, count: Int32,
      plgridLogin: Option<string>, plgridPassword: Option<string>, keyPassphrase: Option<string>)
      returns (r: Result<ScheduleCall, Error>)
      ensures r.Failure? <==> plgridLogin.None? || plgridPassword.None? || keyPassphrase.None?
      ensures r.Failure? ==> r.error == ArgumentNull
      ensures r.Success? ==> (r.value.infrastructure == "qcg" && r.value.count == count
        && Lookup(r.value.parameters, "plgrid_host") == Some(Str(HostFor(plgridCe)))
        && Lookup(r.value.parameters, "plgrid_login") == Some(Str(plgridLogin.value))
        && Lookup(r.value.parameters, "plgrid_password") == Some(Str(plgridPassword.value))
        && Lookup(r.value.parameters, "key_passphrase") == Some(Str(keyPassphrase.value)))
    {
      if plgridLogin.None? || plgridPassword.None? || keyPassphrase.None? {
        return Failure(ArgumentNull);
      }
      var call := SchedulePlGridJobsWithCredentials(plgridCe, count, plgridLogin, plgridPassword, keyPassphrase);
      LookupAt(call.parameters, 2);
      LookupAt(call.parameters, 3);
      LookupAt(call.parameters, 4);
      LookupAt(call.parameters, 5);
      return Success(call);
    }

    /** `SchedulePlGridJobs(plgridCe, count, plgridProxy)`: the proxy is sent as given, even null. */
    method SchedulePlGridJobsWithProxy(plgridCe: Option<string>, count: Int32, plgridProxy: Option<string>)
      returns (call: ScheduleCall)
      ensures call == ScheduleCall("qcg", count, QcgParameters(plgridCe) + [Entry("proxy", FromNullable(plgridProxy))])
    {
      var reqParams := NewQcgParams(plgridCe);
      SetNew(reqParams, "proxy", FromNullable(plgridProxy));
      call := ScheduleCall("qcg", count, reqParams.entries);
    }

    /** `SchedulePlGridJobs(plgridCe, count)`: only for a proxy-certificate client, checked first. */
    method SchedulePlGridJobs(plgridCe: Option<string>, count: Int32) returns (r: Result<ScheduleCall, Error>)
      ensures r.Failure? <==> client != ProxyCertClient
      ensures r.Failure? ==> r.error == NotProxyCertClient
      ensures r.Success? ==> r.value == ScheduleCall("qcg", count, QcgParameters(plgridCe))
    {
      if client != ProxyCertClient {
        return Failure(NotProxyCertClient);
      }
      var reqParams := NewQcgParams(plgridCe);
      return Success(ScheduleCall("qcg", count, reqParams.entries));
    }

    /**
      `WaitForDone(timeoutSecs, pollingIntervalSeconds)` over the observations of successive turns
      of its loop: it returns at the first turn whose statistics are done, throws
      NoActiveSimulationManagers at the first turn that is not done and sees no active manager,
      throws Timeout at the first turn whose loop condition finds the deadline passed (never when
      the timeout is zero or less), and throws ArgumentOutOfRange at the end of the first turn
      when the sleep it then starts is given a negative time.
    */
    method WaitForDone(timeoutSecs: Int32, pollingIntervalSecs: Int32, polls: seq<Poll>) returns (outcome: WaitOutcome)
      ensures !outcome.StillPolling? ==> outcome.at < |polls|
      ensures KeptWaiting(timeoutSecs, pollingIntervalSecs, polls, TurnsCompleted(outcome, |polls|))
      ensures outcome.Returned? ==> (outcome.at < |polls|
        && WithinDeadline(timeoutSecs, polls[outcome.at].elapsedSecs) && IsDone(polls[outcome.at].stats))
      ensures outcome.Threw? ==> (outcome.at < |polls| && (
        || (outcome.error == Timeout && !WithinDeadline(timeoutSecs, polls[outcome.at].elapsedSecs))
        || (outcome.error == NoActiveSimulationManagers && WithinDeadline(timeoutSecs, polls[outcome.at].elapsedSecs)
            && !IsDone(polls[outcome.at].stats) && !AnyActive(polls[outcome.at].managerStates))
        || (outcome.error == ArgumentOutOfRange && KeepsWaiting(timeoutSecs, polls[outcome.at])
            && !SleepAccepts(pollingIntervalSecs))))
      ensures timeoutSecs <= 0 ==> !(outcome.Threw? && outcome.error == Timeout)
    {
      var i := 0;
      while i < |polls|
        invariant KeptWaiting(timeoutSecs, pollingIntervalSecs, polls, i)
      {
        var p := polls[i];
        if !WithinDeadline(timeoutSecs, p.elapsedSecs) {
          return Threw(i, Timeout);
        }
        if IsDone(p.stats) {
          return Returned(i);
        } else if !AnyActive(p.managerStates) {
          return Threw(i, NoActiveSimulationManagers);
        }
        if !SleepAccepts(pollingIntervalSecs) {
          return Threw(i, ArgumentOutOfRange);
        }
        i := i + 1;
      }
      return StillPolling;
    }

    /**
      `GetSimulationManagers(additionalParams)`: adds experiment_id to the caller's map (a fresh one
      when null) and fails, as `Dictionary.Add` does, when that key is already there.
    */
    method GetSimulationManagers(additionalParams: ValuesMap?) returns (query: Result<seq<Entry>, Error>)
      requires additionalParams != null ==> additionalParams.Valid()
      modifies additionalParams
      ensures additionalParams == null ==> query == Success([Entry("experiment_id", Str(id))])
      ensures additionalParams != null ==> (additionalParams.Valid() && (
        if HasKey(old(additionalParams.entries), "experiment_id") then
          query == Failure(DuplicateKey) && additionalParams.entries == old(additionalParams.entries)
        else
          additionalParams.entries == old(additionalParams.entries) + [Entry("experiment_id", Str(id))]
          && query == Success(additionalParams.entries)))
    {
      var ps := additionalParams;
      if ps == null {
        ps := new ValuesMap();
      }
      var added := ps.Add("experiment_id", Str(id));
      assert additionalParams == null ==> ps.entries == [Entry("experiment_id", Str(id))];
      if !added {
        return Failure(DuplicateKey);
      }
      return Success(ps.entries);
    }

    /** `GetActiveSimulationManagers`: the query excludes the states error and terminating. */
    method GetActiveSimulationManagers() returns (query: seq<Entry>)
      ensures query == [Entry("states_not", Strings(InactiveStates)), Entry("experiment_id", Str(id))]
      ensures Lookup(query, "states_not") == Some(Strings(["error", "terminating"]))
    {
      var ps := new ValuesMap.FromEntries([Entry("states_not", Strings(InactiveStates))]);
      var r := GetSimulationManagers(ps);
      query := r.value;
    }
  }

  /** The host a QCG request targets: the caller's engine, or Zeus when none is given. */
  function HostFor(plgridCe: Option<string>): string
  {
    if plgridCe.Some? then plgridCe.value else Zeus
  }

  /** The QCG defaults with the host override applied, in dictionary order. */
  function QcgParameters(plgridCe: Option<string>): seq<Entry>
  {
    [Entry("time_limit", Str("60")), Entry("onsite_monitoring", Bool(true)), Entry("plgrid_host", Str(HostFor(plgridCe)))]
  }

  /** `DefaultQcgScheduleParams`: exactly time_limit "60", onsite_monitoring true and plgrid_host Zeus. */
  function DefaultQcgScheduleParams(): (ps: seq<Entry>)
    ensures |ps| == 3 && DistinctKeys(ps)
    ensures Lookup(ps, "time_limit") == Some(Str("60"))
    ensures Lookup(ps, "onsite_monitoring") == Some(Bool(true))
    ensures Lookup(ps, "plgrid_host") == Some(Str(Zeus))
  {
    var ps := [Entry("time_limit", Str("60")), Entry("onsite_monitoring", Bool(true)), Entry("plgrid_host", Str(Zeus))];
    LookupAt(ps, 2);
    ps
  }

  /** The first steps every QCG builder shares: the defaults, then the host when one is given. */
  method NewQcgParams(plgridCe: Option<string>) returns (reqParams: ValuesMap)
    ensures fresh(reqParams) && reqParams.Valid()
    ensures reqParams.entries == QcgParameters(plgridCe)
  {
    reqParams := new ValuesMap.FromEntries(DefaultQcgScheduleParams());
    if plgridCe.Some? {
      PutAt(reqParams.entries, 2, Str(plgridCe.value));
      reqParams.Set("plgrid_host", Str(plgridCe.value));
    }
  }

  /** The indexer assignment on a key the map does not hold yet: the entry goes at the end. */
  method SetNew(m: ValuesMap, k: string, v: Value)
    requires m.Valid() && !HasKey(m.entries, k)
    modifies m
    ensures m.Valid() && m.entries == old(m.entries) + [Entry(k, v)]
  {
    PutNew(m.entries, k, v);
    m.Set(k, v);
  }

}
