/**
 * The health state machine: one record per target URL, updated after every probe.
 * A success resets the record; a failure bumps its failure count and decides whether it
 * marks the target down at once (`ERROR:` reasons and 404s) or only after the failure
 * threshold is reached.
 */
module Health {
  import opened Wrappers
  import opened Probe

  /** The per-URL entry of the state file. */
  datatype HealthRecord = HealthRecord(
    failCount: nat,
    lastStatus: Option<int>,
    lastReason: Option<string>,
    instantDown: bool,
    lastOk: Option<string>,
    lastChecked: string)

  /** The state file: URL to its record. */
  type State = map<string, HealthRecord>

  datatype HealthClass = Up | FailTmp | Down

  /** `is_instant_down`: an `ERROR:` reason or a 404 status takes the target down without waiting. */
  predicate IsInstantDown(reason: Option<string>, status: Option<int>)
  {
    (reason.Some? && ErrorTag <= reason.value) || status == Some(404)
  }

  /**
   * `classify`: instant-down wins; otherwise no failures is UP, at least `threshold`
   * failures is DOWN, and anything in between is FAIL_TMP.
   */
  function Classify(threshold: int, st: HealthRecord): (c: HealthClass)
    ensures c == Up <==> !st.instantDown && st.failCount == 0
    ensures c == Down <==> st.instantDown || (st.failCount > 0 && st.failCount >= threshold)
    ensures c == FailTmp <==> !st.instantDown && 0 < st.failCount < threshold
  {
    if st.instantDown then Down
    else if st.failCount == 0 then Up
    else if st.failCount >= threshold then Down
    else FailTmp
  }

  /** `int(prev.get("fail_count", 0))`. */
  function PrevCount(prev: Option<HealthRecord>): nat
  {
    if prev.Some? then prev.value.failCount else 0
  }

  /** `prev.get("last_ok")`. */
  function PrevLastOk(prev: Option<HealthRecord>): Option<string>
  {
    if prev.Some? then prev.value.lastOk else None
  }

  /** The record the state holds for `url`, if any (`state.get(url)`). */
  function Lookup(state: State, url: string): Option<HealthRecord>
  {
    if url in state then Some(state[url]) else None
  }

  /**
   * The records the update loop writes: a failure count that is zero exactly when the last
   * probe gave no reason, and an instant-down flag only on a failed probe.
   */
  predicate Consistent(r: HealthRecord)
  {
    && (r.failCount == 0 <==> r.lastReason.None?)
    && (r.instantDown ==> r.failCount > 0)
  }

  /** The record that replaces `prev` after the probe result `res`, taken at time `now`. */
  function NextRecord(prev: Option<HealthRecord>, res: ProbeResult, now: string): (r: HealthRecord)
    ensures Consistent(r)
    ensures r.lastStatus == res.status && r.lastReason == res.reason && r.lastChecked == now
    ensures r.lastOk == (if res.reason.None? then Some(now) else PrevLastOk(prev))
    ensures res.reason.None? ==> r.failCount == 0 && !r.instantDown
    ensures res.reason.Some? ==> r.failCount == PrevCount(prev) + 1 && r.instantDown == IsInstantDown(res.reason, res.status)
  {
    if res.reason.None? then
      HealthRecord(0, res.status, None, false, Some(now), now)
    else
      HealthRecord(PrevCount(prev) + 1, res.status, res.reason,
                   IsInstantDown(res.reason, res.status), PrevLastOk(prev), now)
  }

  /** One iteration of the update loop: overwrite the entry of `res.url`. */
  function Merge(state: State, res: ProbeResult, now: string): State
  {
    state[res.url := NextRecord(Lookup(state, res.url), res, now)]
  }

  /** The whole update loop: the results merged in list order. */
  function MergeAll(state: State, results: seq<ProbeResult>, now: string): State
  {
    if |results| == 0 then state
    else Merge(MergeAll(state, results[..|results| - 1], now), results[|results| - 1], now)
  }

  /** The update loop of `run_checks`, overwriting the state entry of each result in turn. */
  method UpdateState(state: State, results: seq<ProbeResult>, now: string) returns (next: State)
    ensures next == MergeAll(state, results, now)
  {
    next := state;
    for i := 0 to |results|
      invariant next == MergeAll(state, results[..i], now)
    {
      assert results[..i + 1][..i] == results[..i];
      var res := results[i];
      next := next[res.url := NextRecord(Lookup(next, res.url), res, now)];
    }
    assert results[..|results|] == results;
  }

  /**
   * `run_checks` once the browser work is done: `attempts[i]` is what probing `domains[i]`
   * produced. The results come back in domain order and are then merged into the state.
   */
  method RunChecks(keywords: seq<string>, domains: seq<string>, attempts: seq<Attempt>,
                   state: State, now: string)
    returns (results: seq<ProbeResult>, next: State)
    requires |attempts| == |domains|
    ensures |results| == |domains|
    ensures forall i :: 0 <= i < |domains| ==> results[i] == Outcome(keywords, domains[i], attempts[i])
    ensures (forall i, j :: 0 <= i < j < |domains| ==> domains[i] != domains[j]) ==> DistinctUrls(results)
    ensures next == MergeAll(state, results, now)
  {
    results := [];
    for i := 0 to |domains|
      invariant |results| == i
      invariant forall j :: 0 <= j < i ==> results[j] == Outcome(keywords, domains[j], attempts[j])
    {
      var res := CheckOne(keywords, domains[i], attempts[i]);
      results := results + [res];
    }
    next := UpdateState(state, results, now);
  }

  // ---------------- properties of one update ----------------

  /** The reasons and statuses that take a target down at once are exactly the raised errors and 404s. */
  lemma InstantDownOfOutcome(keywords: seq<string>, url: string, attempt: Attempt)
    ensures var o := Outcome(keywords, url, attempt);
      IsInstantDown(o.reason, o.status) <==> attempt.Raised? || o.status == Some(404)
  {
    ErrorReasonIff(keywords, url, attempt);
  }

  /**
   * The class of the record right after an update: UP exactly when the probe succeeded,
   * whatever the previous count; after a failure, DOWN exactly when the failure is instant
   * or the bumped count reaches the threshold.
   */
  lemma ClassAfterUpdate(threshold: int, prev: Option<HealthRecord>, res: ProbeResult, now: string)
    ensures var c := Classify(threshold, NextRecord(prev, res, now));
      && (c == Up <==> res.reason.None?)
      && (res.reason.Some? ==>
            (c == Down <==> IsInstantDown(res.reason, res.status) || PrevCount(prev) + 1 >= threshold))
      && (res.reason.Some? ==> NextRecord(prev, res, now).failCount == PrevCount(prev) + 1)
  {
  }

  // ---------------- properties of the update loop ----------------

  predicate DistinctUrls(results: seq<ProbeResult>)
  {
    forall i, j :: 0 <= i < j < |results| ==> results[i].url != results[j].url
  }

  /** Entries of URLs that no result mentions are left as they were, and every result's URL gets an entry. */
  lemma {:induction false} MergeAllFrame(state: State, results: seq<ProbeResult>, now: string)
    ensures var next := MergeAll(state, results, now);
      && (forall u :: u in next <==> u in state || exists i :: 0 <= i < |results| && results[i].url == u)
      && (forall u :: u in state && (forall i :: 0 <= i < |results| ==> results[i].url != u) ==>
            next[u] == state[u])
    decreases |results|
  {
    if |results| > 0 {
      var front := results[..|results| - 1];
      MergeAllFrame(state, front, now);
      assert forall i :: 0 <= i < |front| ==> front[i] == results[i];
    }
  }

  /**
   * With one result per URL, as `run_checks` produces for a de-duplicated list, each
   * result's entry is the single update of that URL's previous entry.
   */
  lemma {:induction false} MergeAllDistinct(state: State, results: seq<ProbeResult>, now: string, i: int)
    requires DistinctUrls(results)
    requires 0 <= i < |results|
    ensures var u := results[i].url;
      && u in MergeAll(state, results, now)
      && MergeAll(state, results, now)[u] == NextRecord(Lookup(state, u), results[i], now)
    decreases |results|
  {
    var n := |results| - 1;
    var front := results[..n];
    assert forall j :: 0 <= j < n ==> front[j] == results[j];
    if i < n {
      MergeAllDistinct(state, front, now, i);
      assert results[n].url != results[i].url;
    } else {
      MergeAllFrame(state, front, now);
      assert forall j :: 0 <= j < n ==> front[j].url != results[n].url;
      if results[n].url in state {
        assert MergeAll(state, front, now)[results[n].url] == state[results[n].url];
      } else {
        assert results[n].url !in MergeAll(state, front, now);
      }
    }
  }

  /** The update loop turns a state of consistent records into one. */
  lemma {:induction false} MergeAllConsistent(state: State, results: seq<ProbeResult>, now: string)
    requires forall u :: u in state ==> Consistent(state[u])
    ensures forall u :: u in MergeAll(state, results, now) ==> Consistent(MergeAll(state, results, now)[u])
    decreases |results|
  {
    if |results| > 0 {
      var front := results[..|results| - 1];
      var res := results[|results| - 1];
      MergeAllConsistent(state, front, now);
      var prior := MergeAll(state, front, now);
      var next := MergeAll(state, results, now);
      assert next == prior[res.url := NextRecord(Lookup(prior, res.url), res, now)];
      forall u | u in next
        ensures Consistent(next[u])
      {
        if u == res.url {
          assert next[u] == NextRecord(Lookup(prior, res.url), res, now);
        } else {
          assert u in prior && next[u] == prior[u];
        }
      }
    }
  }

  /** Two update loops in a row give the state one loop over both result lists gives. */
  lemma {:induction false} MergeAllAppend(state: State, a: seq<ProbeResult>, b: seq<ProbeResult>, now: string)
    ensures MergeAll(MergeAll(state, a, now), b, now) == MergeAll(state, a + b, now)
    decreases |b|
  {
    if |b| == 0 {
      assert a + b == a;
    } else {
      var n := |b| - 1;
      MergeAllAppend(state, a, b[..n], now);
      assert (a + b)[..|a + b| - 1] == a + b[..n];
      assert (a + b)[|a + b| - 1] == b[n];
    }
  }

  // ---------------- hysteresis over successive runs ----------------

  /**
   * The record of one URL after successive runs, the `k`-th producing `results[k]` for it
   * at time `times[k]`.
   */
  function Replay(prev: Option<HealthRecord>, results: seq<ProbeResult>, times: seq<string>): Option<HealthRecord>
    requires |times| == |results|
  {
    if |results| == 0 then prev
    else
      var n := |results| - 1;
      Some(NextRecord(Replay(prev, results[..n], times[..n]), results[n], times[n]))
  }

  /** A failure that does not take the target down at once. */
  predicate SoftFailure(res: ProbeResult)
  {
    res.reason.Some? && !IsInstantDown(res.reason, res.status)
  }

  /**
   * A streak of soft failures adds one to the count per run, never sets instant-down,
   * and keeps the last success time of the record it started from.
   */
  lemma {:induction false} SoftStreak(prev: Option<HealthRecord>, results: seq<ProbeResult>, times: seq<string>)
    requires |times| == |results| > 0
    requires forall k :: 0 <= k < |results| ==> SoftFailure(results[k])
    ensures var r := Replay(prev, results, times);
      && r.Some?
      && r.value.failCount == PrevCount(prev) + |results|
      && !r.value.instantDown
      && r.value.lastOk == PrevLastOk(prev)
    decreases |results|
  {
    var n := |results| - 1;
    if n > 0 {
      SoftStreak(prev, results[..n], times[..n]);
    }
  }

  /**
   * From no record at all, `k` soft failures in a row leave the target FAIL_TMP while
   * `k` is below the threshold and DOWN once it reaches it: the first DOWN comes at exactly
   * `k == threshold`.
   */
  lemma ThresholdProgression(threshold: int, results: seq<ProbeResult>, times: seq<string>)
    requires |times| == |results| > 0
    requires forall k :: 0 <= k < |results| ==> SoftFailure(results[k])
    ensures Classify(threshold, Replay(None, results, times).value) ==
      if |results| < threshold then FailTmp else Down
  {
    SoftStreak(None, results, times);
  }

  /** One success ends any streak: the record is UP again, with no reason and a fresh success time. */
  lemma SuccessEndsStreak(threshold: int, prev: Option<HealthRecord>, results: seq<ProbeResult>,
                          times: seq<string>)
    requires |times| == |results| > 0
    requires results[|results| - 1].reason.None?
    ensures var r := Replay(prev, results, times).value;
      && Classify(threshold, r) == Up
      && r.lastReason.None?
      && r.lastOk == Some(times[|times| - 1])
  {
  }
}
