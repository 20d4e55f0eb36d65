/**
  The experiment of the older "mono" client: its own split of result records into a parameter
  map and a result map, its Zeus scheduling request and its blocking wait without an
  active-manager check.
*/
module MonoExperiments {
  import opened Wrappers
  import opened Scalarm
  import opened ValuesMaps
  import opened Experiments

  /**
    The parameter map of one record: for each id, in the order of `parametersIds`, the record's
    entry for it, taken once at the id's first occurrence and skipped when the record lacks it.
  */
  function MonoParams(record: seq<Entry>, parametersIds: seq<string>): seq<Entry>
  {
    if parametersIds == [] then []
    else
      var init, id := parametersIds[..|parametersIds| - 1], parametersIds[|parametersIds| - 1];
      var prefix := MonoParams(record, init);
      if id in init || !HasKey(record, id) then prefix
      else prefix + [Entry(id, Lookup(record, id).value)]
  }

  /** Position of the first occurrence of `k`. */
  function FirstIndex(s: seq<string>, k: string): (i: nat)
    requires k in s
    ensures i < |s| && s[i] == k && k !in s[..i]
  {
    if s[0] == k then 0 else 1 + FirstIndex(s[1..], k)
  }

  /**
    The parameter map holds exactly the ids that occur in the record, with their values, and
    no other key, each once, ordered by their first position in `parametersIds`.
  */
  lemma {:induction false} MonoParamsContents(record: seq<Entry>, parametersIds: seq<string>)
    ensures var ps := MonoParams(record, parametersIds);
      && DistinctKeys(ps)
      && (forall k :: Lookup(ps, k) == if k in parametersIds then Lookup(record, k) else None)
      && (forall a, b :: 0 <= a < b < |ps| ==>
            ps[a].key in parametersIds && ps[b].key in parametersIds
            && FirstIndex(parametersIds, ps[a].key) < FirstIndex(parametersIds, ps[b].key))
  {
    MonoParamsLookup(record, parametersIds);
    MonoParamsDistinct(record, parametersIds);
    MonoParamsOrdered(record, parametersIds);
  }

  /** One step of `MonoParams`: the last id is appended with its value, unless it repeats or the record lacks it. */
  lemma MonoParamsStep(record: seq<Entry>, init: seq<string>, id: string)
    ensures MonoParams(record, init + [id]) ==
      if id in init || !HasKey(record, id) then MonoParams(record, init)
      else MonoParams(record, init) + [Entry(id, Lookup(record, id).value)]
  {
    assert (init + [id])[..|init|] == init;
  }

  /** The parameter map stores exactly the listed ids the record holds, with the record's values. */
  lemma {:induction false} MonoParamsLookup(record: seq<Entry>, parametersIds: seq<string>)
    ensures forall k :: Lookup(MonoParams(record, parametersIds), k) == if k in parametersIds then Lookup(record, k) else None
  {
    if parametersIds != [] {
      var n := |parametersIds|;
      var init, id := parametersIds[..n - 1], parametersIds[n - 1];
      assert parametersIds == init + [id];
      MonoParamsLookup(record, init);
      MonoParamsStep(record, init, id);
      var prefix := MonoParams(record, init);
      if !(id in init || !HasKey(record, id)) {
        var e := Entry(id, Lookup(record, id).value);
        forall k ensures Lookup(prefix + [e], k) == if k in parametersIds then Lookup(record, k) else None {
          LookupAppend(prefix, [e], k);
        }
      } else {
        forall k ensures Lookup(prefix, k) == if k in parametersIds then Lookup(record, k) else None {
          if k == id && id !in init { assert Lookup(record, k) == None; }
        }
      }
    }
  }

  /** The parameter map holds each id once. */
  lemma {:induction false} MonoParamsDistinct(record: seq<Entry>, parametersIds: seq<string>)
    ensures DistinctKeys(MonoParams(record, parametersIds))
  {
    if parametersIds != [] {
      var n := |parametersIds|;
      var init, id := parametersIds[..n - 1], parametersIds[n - 1];
      assert parametersIds == init + [id];
      MonoParamsDistinct(record, init);
      MonoParamsStep(record, init, id);
      if !(id in init || !HasKey(record, id)) {
        MonoParamsLookup(record, init);
        assert Lookup(MonoParams(record, init), id) == None;
        DistinctSnoc(MonoParams(record, init), Entry(id, Lookup(record, id).value));
      }
    }
  }

  /** Every key of the parameter map is listed, and the keys follow the order of their first listing. */
  lemma {:induction false} MonoParamsOrdered(record: seq<Entry>, parametersIds: seq<string>)
    ensures var ps := MonoParams(record, parametersIds);
      && (forall a :: 0 <= a < |ps| ==> ps[a].key in parametersIds)
      && (forall a, b :: 0 <= a < b < |ps| ==>
            FirstIndex(parametersIds, ps[a].key) < FirstIndex(parametersIds, ps[b].key))
  {
    if parametersIds != [] {
      var n := |parametersIds|;
      var init, id := parametersIds[..n - 1], parametersIds[n - 1];
      assert parametersIds == init + [id];
      MonoParamsOrdered(record, init);
      MonoParamsStep(record, init, id);
      var prefix := MonoParams(record, init);
      var ps := MonoParams(record, parametersIds);
      forall k | k in init ensures FirstIndex(parametersIds, k) == FirstIndex(init, k) {
        FirstIndexPrefix(init, id, k);
      }
      if !(id in init || !HasKey(record, id)) {
        assert ps == prefix + [Entry(id, Lookup(record, id).value)];
        FirstIndexLast(init, id);
        forall a | 0 <= a < |ps| ensures ps[a].key in parametersIds {
          if a < |prefix| { assert ps[a] == prefix[a]; }
        }
        forall a, b | 0 <= a < b < |ps|
          ensures FirstIndex(parametersIds, ps[a].key) < FirstIndex(parametersIds, ps[b].key)
        {
          assert ps[a] == prefix[a];
          if b == |ps| - 1 {
            assert FirstIndex(init, ps[a].key) < |init|;
          } else {
            assert ps[b] == prefix[b];
          }
        }
      } else {
        assert ps == prefix;
      }
    }
  }

  lemma FirstIndexPrefix(init: seq<string>, id: string, k: string)
    requires k in init
    ensures FirstIndex(init + [id], k) == FirstIndex(init, k)
  {
    if init[0] != k {
      assert (init + [id])[1..] == init[1..] + [id];
      FirstIndexPrefix(init[1..], id, k);
    }
  }

  lemma FirstIndexLast(init: seq<string>, id: string)
    requires id !in init
    ensures FirstIndex(init + [id], id) == |init|
  {
  }

  lemma DistinctSnoc(es: seq<Entry>, e: Entry)
    requires DistinctKeys(es) && !HasKey(es, e.key)
    ensures DistinctKeys(es + [e])
  {
    var s := es + [e];
    forall i, j | 0 <= i < j < |s| ensures s[i].key != s[j].key {
      if j == |es| { assert s[i] == es[i]; } else { assert s[i] == es[i] && s[j] == es[j]; }
    }
  }

  /** Dropping one more id is removing it from what was left. */
  lemma {:induction false} DropIdsSnoc(es: seq<Entry>, ids: seq<string>, id: string)
    ensures DropIds(es, ids + [id]) == Without(DropIds(es, ids), id)
  {
    if es != [] {
      DropIdsSnoc(es[1..], ids, id);
    }
  }

  /**
    The two clients partition a record the same way: the mono result map is the typed client's
    Output, and the mono parameter map stores the same values as its Input (only the order of the
    entries may differ, record order versus id order).
  */
  lemma ClientsAgree(record: seq<Entry>, parametersIds: seq<string>)
    ensures DropIds(record, parametersIds) == SplitRecord(record, parametersIds).output
    ensures forall k :: Lookup(MonoParams(record, parametersIds), k) == Lookup(SplitRecord(record, parametersIds).input, k)
  {
    MonoParamsContents(record, parametersIds);
    forall k ensures Lookup(MonoParams(record, parametersIds), k) == Lookup(SplitRecord(record, parametersIds).input, k) {
      LookupPickDrop(record, parametersIds, k);
    }
  }

  /**
    Every key of a record ends up in exactly one of the two mono maps, with its value, and both
    maps are dictionaries.
  */
  lemma MonoSplitIsPartition(record: seq<Entry>, parametersIds: seq<string>)
    requires DistinctKeys(record)
    ensures forall k :: HasKey(record, k) <==>
      HasKey(MonoParams(record, parametersIds), k) || HasKey(DropIds(record, parametersIds), k)
    ensures forall k :: !(HasKey(MonoParams(record, parametersIds), k) && HasKey(DropIds(record, parametersIds), k))
    ensures forall k :: HasKey(MonoParams(record, parametersIds), k) ==>
      Lookup(MonoParams(record, parametersIds), k) == Lookup(record, k)
    ensures forall k :: HasKey(DropIds(record, parametersIds), k) ==>
      Lookup(DropIds(record, parametersIds), k) == Lookup(record, k)
    ensures DistinctKeys(MonoParams(record, parametersIds)) && DistinctKeys(DropIds(record, parametersIds))
  {
    var ps, rs := MonoParams(record, parametersIds), DropIds(record, parametersIds);
    MonoParamsContents(record, parametersIds);
    PickDropKeepDistinct(record, parametersIds);
    forall k
      ensures (HasKey(record, k) <==> HasKey(ps, k) || HasKey(rs, k)) && !(HasKey(ps, k) && HasKey(rs, k))
      ensures HasKey(ps, k) ==> Lookup(ps, k) == Lookup(record, k)
      ensures HasKey(rs, k) ==> Lookup(rs, k) == Lookup(record, k)
    {
      LookupPickDrop(record, parametersIds, k);
      assert Lookup(ps, k) == if k in parametersIds then Lookup(record, k) else None;
    }
  }

  /** The (parameters, result) pair the mono client makes of one record. */
  function MonoSplit(record: seq<Entry>, parametersIds: seq<string>): (seq<Entry>, seq<Entry>)
  {
    (MonoParams(record, parametersIds), DropIds(record, parametersIds))
  }

  /** Whether two records give the same parameter map, which `finalDict.Add` rejects. */
  predicate SameParams(results: seq<ValuesMap>, parametersIds: seq<string>, i: nat, j: nat)
    reads set n | 0 <= n < |results| :: results[n]
    requires i < |results| && j < |results|
  {
    MonoParams(results[i].entries, parametersIds) == MonoParams(results[j].entries, parametersIds)
  }

  /**
    `SplitParametersAndResults`: one (parameters, result) pair per record, in record order. Each
    record is copied first, so the caller's records are not changed (the method may modify no
    existing object). The result dictionary is keyed by parameter map; a second record with the
    same parameter map makes `Dictionary.Add` throw.
  */
  method SplitParametersAndResults(results: seq<ValuesMap>, parametersIds: seq<string>)
    returns (r: Result<seq<(seq<Entry>, seq<Entry>)>, Error>)
    requires forall i :: 0 <= i < |results| ==> results[i].Valid()
    ensures r.Success? <==> forall i, j :: 0 <= i < j < |results| ==> !SameParams(results, parametersIds, i, j)
    ensures r.Failure? ==> r.error == DuplicateKey
    ensures r.Success? ==> (|r.value| == |results|
      && forall i :: 0 <= i < |results| ==> r.value[i] == MonoSplit(results[i].entries, parametersIds))
  {
    var finalDict: seq<(seq<Entry>, seq<Entry>)> := [];
    for n := 0 to |results|
      invariant |finalDict| == n
      invariant forall i :: 0 <= i < n ==> finalDict[i] == MonoSplit(results[i].entries, parametersIds)
      invariant forall i, j :: 0 <= i < j < n ==> !SameParams(results, parametersIds, i, j)
    {
      var paramsDict, resultDict := SplitOne(results[n], parametersIds);
      if exists j :: 0 <= j < |finalDict| && finalDict[j].0 == paramsDict {
        ghost var j :| 0 <= j < |finalDict| && finalDict[j].0 == paramsDict;
        assert SameParams(results, parametersIds, j, n);
        return Failure(DuplicateKey);
      }
      finalDict := finalDict + [(paramsDict, resultDict)];
    }
    return Success(finalDict);
  }

  /**
    The body of the `SplitParametersAndResults` loop: a copy of the record, from which each listed
    id it holds is moved into a new parameter map. The caller's record is left as it was.
  */
  method SplitOne(result: ValuesMap, parametersIds: seq<string>) returns (paramsDict: seq<Entry>, resultDict: seq<Entry>)
    requires result.Valid()
    ensures (paramsDict, resultDict) == MonoSplit(result.entries, parametersIds)
  {
    var record := result.entries;
    var rest := new ValuesMap.ShallowCopy(result);
    var ps := new ValuesMap();
    DropIdsEmpty(record);
    for t := 0 to |parametersIds|
      invariant rest.Valid() && ps.Valid()
      invariant ps.entries == MonoParams(record, parametersIds[..t])
      invariant rest.entries == DropIds(record, parametersIds[..t])
    {
      var id := parametersIds[t];
      MonoStep(record, parametersIds, t);
      if HasKey(rest.entries, id) {
        var added := ps.Add(id, rest.Get(id));
        assert added;
        var removed := rest.Remove(id);
      } else {
        WithoutAbsent(rest.entries, id);
      }
    }
    assert parametersIds[..|parametersIds|] == parametersIds;
    paramsDict, resultDict := ps.entries, rest.entries;
  }

  /**
    One step of the mono split: the copy holds the next id iff the record does and it was not
    moved before; moving it appends it to the parameter map and removes it from the copy.
  */
  lemma MonoStep(record: seq<Entry>, parametersIds: seq<string>, t: nat)
    requires t < |parametersIds|
    ensures var id, seen := parametersIds[t], parametersIds[..t];
      && (HasKey(DropIds(record, seen), id) <==> HasKey(record, id) && id !in seen)
      && (HasKey(DropIds(record, seen), id) ==> (
            && Lookup(DropIds(record, seen), id) == Lookup(record, id)
            && !HasKey(MonoParams(record, seen), id)
            && MonoParams(record, parametersIds[..t + 1]) == MonoParams(record, seen) + [Entry(id, Lookup(record, id).value)]))
      && (!HasKey(DropIds(record, seen), id) ==> MonoParams(record, parametersIds[..t + 1]) == MonoParams(record, seen))
      && DropIds(record, parametersIds[..t + 1]) == Without(DropIds(record, seen), id)
  {
    var id, seen := parametersIds[t], parametersIds[..t];
    assert parametersIds[..t + 1] == seen + [id];
    assert parametersIds[..t + 1][..t] == seen;
    LookupPickDrop(record, seen, id);
    MonoParamsContents(record, seen);
    DropIdsSnoc(record, seen, id);
  }

  /** What one turn of the mono wait loop observes: elapsed seconds and statistics. */
  datatype MonoPoll = MonoPoll(elapsedSecs: real, stats: ExperimentStatistics)

  /** A turn of the mono wait after which it goes on polling: within the deadline and not done. */
  predicate MonoKeepsWaiting(timeoutSecs: Int32, p: MonoPoll)
  {
    WithinDeadline(timeoutSecs, p.elapsedSecs) && !IsDone(p.stats)
  }

  /** The first `n` turns all went on polling, each sleeping for an interval Sleep accepts. */
  predicate MonoKeptWaiting(timeoutSecs: Int32, pollingIntervalSecs: Int32, polls: seq<MonoPoll>, n: nat)
  {
    && n <= |polls|
    && (n > 0 ==> SleepAccepts(pollingIntervalSecs))
    && forall j :: 0 <= j < n ==> MonoKeepsWaiting(timeoutSecs, polls[j])
  }

  /** An experiment of the mono client. */
  class MonoExperiment {
    const experimentId: string

    constructor (experimentId: string)
      ensures this.experimentId == experimentId
    {
      this.experimentId := experimentId;
    }

    /** `ScheduleZeusJobs(count)`: qsub with the single parameter time_limit "60". */
    function ScheduleZeusJobs(count: Int32): (call: ScheduleCall)
      ensures call.infrastructure == "qsub" && call.count == count
      ensures |call.parameters| == 1 && Lookup(call.parameters, "time_limit") == Some(Str("60"))
    {
      ScheduleCall("qsub", count, [Entry("time_limit", Str("60"))])
    }

    /**
      `WaitForDone(timeoutSecs, pollingIntervalSeconds)` of the mono client: it returns at the
      first turn whose statistics are done and never checks for active managers; a timeout of zero
      or less polls forever, otherwise the wait ends with Timeout at the first turn past the
      deadline; a negative sleep time throws ArgumentOutOfRange at the end of the first turn.
    */
    method WaitForDone(timeoutSecs: Int32, pollingIntervalSecs: Int32, polls: seq<MonoPoll>) returns (outcome: WaitOutcome)
      ensures !outcome.StillPolling? ==> outcome.at < |polls|
      ensures MonoKeptWaiting(timeoutSecs, pollingIntervalSecs, polls, TurnsCompleted(outcome, |polls|))
      ensures outcome.Returned? ==> (outcome.at < |polls|
        && WithinDeadline(timeoutSecs, polls[outcome.at].elapsedSecs) && IsDone(polls[outcome.at].stats))
      ensures outcome.Threw? ==> (outcome.at < |polls| && (
        || (outcome.error == Timeout && !WithinDeadline(timeoutSecs, polls[outcome.at].elapsedSecs))
        || (outcome.error == ArgumentOutOfRange && WithinDeadline(timeoutSecs, polls[outcome.at].elapsedSecs)
            && !IsDone(polls[outcome.at].stats) && !SleepAccepts(pollingIntervalSecs))))
      ensures timeoutSecs <= 0 ==> !(outcome.Threw? && outcome.error == Timeout)
    {
      var i := 0;
      while i < |polls|
        invariant MonoKeptWaiting(timeoutSecs, pollingIntervalSecs, polls, i)
      {
        if !WithinDeadline(timeoutSecs, polls[i].elapsedSecs) {
          return Threw(i, Timeout);
        }
        if IsDone(polls[i].stats) {
          return Returned(i);
        }
        if !SleepAccepts(pollingIntervalSecs) {
          return Threw(i, ArgumentOutOfRange);
        }
        i := i + 1;
      }
      return StillPolling;
    }
  }
}
