/**
 * Pass detection and assembly of the flat EpisodeSession record
 * (`convert_episode_session_to_telemetry_event`). The external lookups
 * (report time, user id, question id, public IP, version) are inputs.
 */
module Session {
  import opened Wrappers
  import opened Episodes
  import opened Sorting
  import opened ActionStatistics
  import opened Regression
  import opened Latency

  // ---------------------------------------------------------------------
  // Final state and first pass

  /** `max(states, key=timestep)`: the index of the first state with the largest timestep. */
  function FinalIndex(states: seq<State>): (r: nat)
    requires |states| > 0
    ensures r < |states|
    ensures forall j :: 0 <= j < |states| ==> states[j].timestep <= states[r].timestep
    ensures forall j :: 0 <= j < r ==> states[j].timestep < states[r].timestep
  {
    if |states| == 1 then 0
    else
      var k := FinalIndex(states[..|states| - 1]);
      if states[|states| - 1].timestep > states[k].timestep then |states| - 1 else k
  }

  /** The pass condition of success and first-pass detection: the state
      compiles and at least one test passed. */
  predicate StatePasses(s: State)
  {
    s.env.compiled && s.env.passed > 0
  }

  /** The index of the first passing state of `s`, or None when none passes. */
  function FirstPassIndex(s: seq<State>): (r: Option<nat>)
    ensures r.None? <==> forall j :: 0 <= j < |s| ==> !StatePasses(s[j])
    ensures r.Some? ==> r.value < |s| && StatePasses(s[r.value])
                        && forall j :: 0 <= j < r.value ==> !StatePasses(s[j])
  {
    if |s| == 0 then None
    else if StatePasses(s[0]) then Some(0)
    else
      var rest := FirstPassIndex(s[1..]);
      assert forall j :: 1 <= j < |s| ==> s[j] == s[1..][j - 1];
      if rest.Some? then Some(rest.value + 1) else None
  }

  /** The least passing index is the first pass. */
  lemma FirstPassIndexIs(s: seq<State>, i: nat)
    requires i < |s| && StatePasses(s[i])
    requires forall j :: 0 <= j < i ==> !StatePasses(s[j])
    ensures FirstPassIndex(s) == Some(i)
  {
  }

  /** `max(0, int(timestamp) - int(start_time))`. */
  function Elapsed(ts: int, startTime: int): int
  {
    Max(0, ts - startTime)
  }

  /** The exception that aborts the conversion. */
  datatype ConversionError =
    | NullPassTimestamp   // `int(None)` on the first passing state's timestamp
    | MalformedAction     // `.get("type")` on an absent or non-dictionary payload

  datatype PassInfo = PassInfo(success: bool, timeToPass: Option<int>, turnsToPass: Option<int>)

  /** Success, time to pass and turns to pass as the conversion computes them. */
  function PassInfoOf(states: seq<State>, startTime: int): (r: Result<PassInfo, ConversionError>)
    ensures r.Success? ==> (r.value.success <==> |states| > 0 && StatePasses(states[FinalIndex(states)]))
    ensures r.Success? ==> (r.value.timeToPass.None? <==> r.value.turnsToPass.None?)
    ensures r.Success? && r.value.timeToPass.Some? ==> r.value.timeToPass.value >= 0
    ensures r.Failure? ==> exists j :: 0 <= j < |states| && StatePasses(states[j]) && states[j].timestampMs.None?
  {
    if |states| == 0 then Success(PassInfo(false, None, None))
    else
      var success := StatePasses(states[FinalIndex(states)]);
      var sorted := SortBy(states, Timestep);
      match FirstPassIndex(sorted)
      case None => Success(PassInfo(success, None, None))
      case Some(i) =>
        SortByMembers(states, Timestep, sorted[i]);
        match sorted[i].timestampMs
        case None => Failure(NullPassTimestamp)
        case Some(ts) => Success(PassInfo(success, Some(Elapsed(ts, startTime)), Some(sorted[i].timestep)))
  }

  /** The success test and the first-pass loop with its `break`. */
  method DetectPass(states: seq<State>, startTime: int) returns (r: Result<PassInfo, ConversionError>)
    ensures r == PassInfoOf(states, startTime)
  {
    if |states| == 0 {
      return Success(PassInfo(false, None, None));
    }
    var finalState := states[FinalIndex(states)];
    var success := finalState.env.compiled && finalState.env.passed > 0;
    var timeToPass: Option<int> := None;
    var turnsToPass: Option<int> := None;
    var sorted := SortBy(states, Timestep);
    var i := 0;
    while i < |sorted|
      invariant 0 <= i <= |sorted|
      invariant forall j :: 0 <= j < i ==> !StatePasses(sorted[j])
      invariant timeToPass.None? && turnsToPass.None?
    {
      var state := sorted[i];
      if state.env.compiled && state.env.passed > 0 {
        FirstPassIndexIs(sorted, i);
        if state.timestampMs.None? {
          return Failure(NullPassTimestamp);
        }
        timeToPass := Some(Elapsed(state.timestampMs.value, startTime));
        turnsToPass := Some(state.timestep);
        break;
      }
      i := i + 1;
    }
    assert turnsToPass.None? ==> FirstPassIndex(sorted).None?;
    r := Success(PassInfo(success, timeToPass, turnsToPass));
  }

  /** If the final state passes, some state passes, and the first one in
      timestep order is no later than the final one. */
  lemma SuccessHasFirstPass(states: seq<State>, startTime: int)
    requires |states| > 0 && StatePasses(states[FinalIndex(states)])
    requires PassInfoOf(states, startTime).Success?
    ensures var p := PassInfoOf(states, startTime).value;
            && p.success && p.turnsToPass.Some? && p.timeToPass.Some?
            && p.turnsToPass.value <= states[FinalIndex(states)].timestep
            && p.timeToPass.value >= 0
  {
    var sorted := SortBy(states, Timestep);
    var f := states[FinalIndex(states)];
    SortByMembers(states, Timestep, f);
    var k :| 0 <= k < |sorted| && sorted[k] == f;
    var i := FirstPassIndex(sorted).value;
    SortByMembers(states, Timestep, sorted[i]);
  }

  /** Time and turns to pass are absent exactly when no state passes. */
  lemma PassFieldsIffSomePass(states: seq<State>, startTime: int)
    requires PassInfoOf(states, startTime).Success?
    ensures var p := PassInfoOf(states, startTime).value;
            && (p.turnsToPass.None? <==> forall j :: 0 <= j < |states| ==> !StatePasses(states[j]))
            && (p.timeToPass.None? <==> p.turnsToPass.None?)
  {
    if |states| > 0 {
      var sorted := SortBy(states, Timestep);
      if exists j :: 0 <= j < |states| && StatePasses(states[j]) {
        var j :| 0 <= j < |states| && StatePasses(states[j]);
        SortByMembers(states, Timestep, states[j]);
        var k :| 0 <= k < |sorted| && sorted[k] == states[j];
      }
      if FirstPassIndex(sorted).Some? {
        var i := FirstPassIndex(sorted).value;
        SortByMembers(states, Timestep, sorted[i]);
      }
    }
  }

  /** `states[j]` is the state the first-pass loop stops at: it passes, no
      passing state has a smaller timestep, and every earlier passing state
      has a larger one (so a stable sort puts `states[j]` first among the
      passing states). */
  ghost predicate FirstPasser(states: seq<State>, j: int)
  {
    && 0 <= j < |states| && StatePasses(states[j])
    && (forall k :: 0 <= k < |states| && StatePasses(states[k]) ==> states[j].timestep <= states[k].timestep)
    && (forall k :: 0 <= k < j && StatePasses(states[k]) ==> states[j].timestep < states[k].timestep)
  }

  /** Among the elements of timestep `t`, the first passing one is `u[i]`
      when no passing element before `u[i]` has timestep `t`. */
  lemma {:induction false} FirstPassInFilter(u: seq<State>, i: int, t: int)
    requires 0 <= i < |u| && StatePasses(u[i]) && u[i].timestep == t
    requires forall k :: 0 <= k < i && StatePasses(u[k]) ==> u[k].timestep != t
    ensures exists p :: 0 <= p < |Filter(u, Timestep, t)| && Filter(u, Timestep, t)[p] == u[i]
                        && forall q :: 0 <= q < p ==> !StatePasses(Filter(u, Timestep, t)[q])
  {
    var f := Filter(u, Timestep, t);
    var head: seq<State> := if Timestep(u[0]) == t then [u[0]] else [];
    var g := Filter(u[1..], Timestep, t);
    assert f == head + g;
    if i == 0 {
      assert head == [u[0]];
      assert 0 < |f| && f[0] == u[i];
    } else {
      assert u[1..][i - 1] == u[i];
      FirstPassInFilter(u[1..], i - 1, t);
      var p :| 0 <= p < |g| && g[p] == u[i] && forall q :: 0 <= q < p ==> !StatePasses(g[q]);
      var p' := |head| + p;
      assert p' < |f| && f[p'] == u[i];
      forall q | 0 <= q < p' ensures !StatePasses(f[q]) {
        if q < |head| {
          assert f[q] == u[0];
        } else {
          assert f[q] == g[q - |head|];
        }
      }
    }
  }

  /** In a timestep-sorted sequence the first passing element has the
      smallest timestep of all passing elements. */
  lemma FirstPassIsEarliestInSorted(u: seq<State>, i: nat, n: int)
    requires SortedBy(u, Timestep) && FirstPassIndex(u) == Some(i)
    requires 0 <= n < |u| && StatePasses(u[n])
    ensures u[i].timestep <= u[n].timestep
  {
    if i < n {
      assert Timestep(u[i]) <= Timestep(u[n]);
    }
  }

  /** The first passing state of the timestep-sorted episode has the
      smallest timestep of all passing states. */
  lemma SortedFirstPass(states: seq<State>, k0: int)
    requires 0 <= k0 < |states| && StatePasses(states[k0])
    ensures var sorted := SortBy(states, Timestep);
            && FirstPassIndex(sorted).Some?
            && sorted[FirstPassIndex(sorted).value] in states
            && forall k :: 0 <= k < |states| && StatePasses(states[k]) ==>
                 sorted[FirstPassIndex(sorted).value].timestep <= states[k].timestep
  {
    var sorted := SortBy(states, Timestep);
    SortByCorrect(states, Timestep);
    SortByMembers(states, Timestep, states[k0]);
    var i := FirstPassIndex(sorted).value;
    SortByMembers(states, Timestep, sorted[i]);
    forall k | 0 <= k < |states| && StatePasses(states[k]) ensures sorted[i].timestep <= states[k].timestep {
      SortByMembers(states, Timestep, states[k]);
      var n :| 0 <= n < |sorted| && sorted[n] == states[k];
      FirstPassIsEarliestInSorted(sorted, i, n);
    }
  }

  /** The first passing state of the timestep-sorted episode is the first passer. */
  lemma FirstPasserIsFirstInSorted(states: seq<State>, j: int)
    requires FirstPasser(states, j)
    ensures var sorted := SortBy(states, Timestep);
            FirstPassIndex(sorted).Some? && sorted[FirstPassIndex(sorted).value] == states[j]
  {
    var t := states[j].timestep;
    var sorted := SortBy(states, Timestep);
    SortedFirstPass(states, j);
    var i := FirstPassIndex(sorted).value;
    SortByCorrect(states, Timestep);
    SortByMembers(states, Timestep, states[j]);
    var k :| 0 <= k < |sorted| && sorted[k] == states[j];
    FirstPassIsEarliestInSorted(sorted, i, k);
    assert sorted[i].timestep == t;
    SortByStable(states, Timestep, t);
    var f := Filter(states, Timestep, t);
    FirstPassInFilter(states, j, t);
    var p1 :| 0 <= p1 < |f| && f[p1] == states[j] && forall q :: 0 <= q < p1 ==> !StatePasses(f[q]);
    FirstPassInFilter(sorted, i, t);
    var p2 :| 0 <= p2 < |f| && f[p2] == sorted[i] && forall q :: 0 <= q < p2 ==> !StatePasses(f[q]);
    FirstPassIndexIs(f, p1);
    FirstPassIndexIs(f, p2);
  }

  /** The pass fields are read from the first passing state of the
      timestep-sorted episode. */
  lemma PassInfoAtFirstPass(states: seq<State>, startTime: int, first: State)
    requires var sorted := SortBy(states, Timestep);
             FirstPassIndex(sorted).Some? && sorted[FirstPassIndex(sorted).value] == first
    ensures first.timestampMs.None? ==> PassInfoOf(states, startTime) == Failure(NullPassTimestamp)
    ensures first.timestampMs.Some? ==>
              PassInfoOf(states, startTime)
              == Success(PassInfo(StatePasses(states[FinalIndex(states)]),
                                  Some(Elapsed(first.timestampMs.value, startTime)), Some(first.timestep)))
  {
  }

  /** The first-pass loop stops at the first passer: the conversion raises
      exactly when its timestamp is None, and otherwise turns to pass is its
      timestep and time to pass is `max(0, timestamp - start_time)`. */
  lemma FirstPasserDecides(states: seq<State>, startTime: int, j: int)
    requires FirstPasser(states, j)
    ensures states[j].timestampMs.None? ==> PassInfoOf(states, startTime) == Failure(NullPassTimestamp)
    ensures states[j].timestampMs.Some? ==>
              && PassInfoOf(states, startTime).Success?
              && PassInfoOf(states, startTime).value.turnsToPass == Some(states[j].timestep)
              && PassInfoOf(states, startTime).value.timeToPass == Some(Elapsed(states[j].timestampMs.value, startTime))
  {
    FirstPasserIsFirstInSorted(states, j);
    PassInfoAtFirstPass(states, startTime, states[j]);
  }

  /** Whenever some state passes, there is a first passer. */
  lemma FirstPasserExists(states: seq<State>, k0: int)
    requires 0 <= k0 < |states| && StatePasses(states[k0])
    ensures exists j :: FirstPasser(states, j)
  {
    SortedFirstPass(states, k0);
    var sorted := SortBy(states, Timestep);
    var first := sorted[FirstPassIndex(sorted).value];
    var t := first.timestep;
    var j :| 0 <= j < |states| && states[j] == first;
    while exists q :: 0 <= q < j && StatePasses(states[q]) && states[q].timestep == t
      invariant 0 <= j < |states| && StatePasses(states[j]) && states[j].timestep == t
      decreases j
    {
      var q :| 0 <= q < j && StatePasses(states[q]) && states[q].timestep == t;
      j := q;
    }
    assert FirstPasser(states, j);
  }

  // ---------------------------------------------------------------------
  // The record

  /** What the conversion receives from outside: the report time, the
      user id from the key map, the dataset's question id, the public IP
      (None when the lookup raised) and the version string. */
  datatype Lookups = Lookups(
    reportTimestamp: string,
    userId: string,
    questionId: Option<int>,
    ipAddr: Option<string>,
    version: string)

  datatype EpisodeSession = EpisodeSession(
    timestamp: string,
    durationMs: int,
    totalTurns: nat,
    userId: string,
    questionId: Option<int>,
    ipAddr: Option<string>,
    codeassistVersion: string,
    success: bool,
    timeToPass: Option<int>,
    turnsToPass: Option<int>,
    rates: RegressionRates,
    latency: LatencyStats,
    assistant: ActorCounts,
    human: ActorCounts,
    episodeId: string)

  /** The `EpisodeSession(...)` call: a field-to-field merge of the computed
      statistics and the lookups. */
  function Assemble(episode: Episode, lookups: Lookups, pass: PassInfo, stats: ActionStats,
                    rates: RegressionRates, latency: LatencyStats): (r: EpisodeSession)
    requires stats.Valid()
    ensures r.totalTurns == |episode.states| && r.durationMs == episode.endTime - episode.startTime
    ensures forall k :: KindField(r.assistant, k) == stats.assistant[k] && KindField(r.human, k) == stats.human[k]
    ensures r.userId == lookups.userId && r.questionId == lookups.questionId && r.ipAddr == lookups.ipAddr
  {
    EpisodeSession(
      lookups.reportTimestamp,
      episode.endTime - episode.startTime,
      |episode.states|,
      lookups.userId,
      lookups.questionId,
      lookups.ipAddr,
      lookups.version,
      pass.success,
      pass.timeToPass,
      pass.turnsToPass,
      rates,
      latency,
      ToActorCounts(stats.assistant),
      ToActorCounts(stats.human),
      episode.episodeId)
  }

  /** The record the conversion builds, or the exception it raises: the
      first-pass timestamp is read before the action statistics. */
  function SessionOf(episode: Episode, lookups: Lookups): Result<EpisodeSession, ConversionError>
  {
    var states := episode.states;
    match PassInfoOf(states, episode.startTime)
    case Failure(e) => Failure(e)
    case Success(pass) =>
      if !WellFormedActions(states) then Failure(MalformedAction)
      else
        Success(Assemble(episode, lookups, pass, ActionStatsOf(states),
                         RegressionRatesOf(states), LatencyStatsOf(states)))
  }

  /** `convert_episode_session_to_telemetry_event`. */
  method ConvertEpisode(episode: Episode, lookups: Lookups) returns (r: Result<EpisodeSession, ConversionError>)
    ensures r == SessionOf(episode, lookups)
  {
    var pass := DetectPass(episode.states, episode.startTime);
    if pass.Failure? {
      return Failure(pass.error);
    }
    if !WellFormedActions(episode.states) {
      return Failure(MalformedAction);
    }
    var actionStats := ComputeActionStatistics(episode.states);
    var regressionRates := ComputeRegressionRates(episode.states);
    var latencyStats := ComputeLatencyStats(episode.states);
    r := Success(Assemble(episode, lookups, pass.value, actionStats, regressionRates, latencyStats));
  }
}

module SessionProperties {
  import opened Wrappers
  import opened Episodes
  import opened Sorting
  import opened ActionStatistics
  import opened Regression
  import opened Latency
  import opened Session

  /** The seven per-kind state counts of one actor. */
  function KindCounts(states: seq<State>, byAssistant: bool): ActorCounts
    requires WellFormedActions(states)
  {
    ActorCounts(
      KindCount(states, byAssistant, NoOp),
      KindCount(states, byAssistant, FillPartialLine),
      KindCount(states, byAssistant, ReplaceAndAppendSingleLine),
      KindCount(states, byAssistant, ReplaceAndAppendMultiLine),
      KindCount(states, byAssistant, EditExistingLines),
      KindCount(states, byAssistant, ExplainSingleLines),
      KindCount(states, byAssistant, ExplainMultiLine))
  }

  /** Each count field of the record holds the number of states attributed
      to its actor and kind, and all fourteen add up to the number of
      states whose action was classified. */
  lemma SessionCounts(episode: Episode, lookups: Lookups)
    requires SessionOf(episode, lookups).Success?
    ensures WellFormedActions(episode.states)
    ensures var s := SessionOf(episode, lookups).value;
            && s.assistant == KindCounts(episode.states, true)
            && s.human == KindCounts(episode.states, false)
            && Sum(s.assistant) + Sum(s.human) == ClassifiedCount(episode.states)
  {
    var states := episode.states;
    forall k ensures ActionStatsOf(states).assistant[k] == KindCount(states, true, k)
                  && ActionStatsOf(states).human[k] == KindCount(states, false, k)
    {
      CountsAreKindCounts(states, k);
    }
    TotalIsClassifiedCount(states);
  }

  /** `turns_to_pass` is the smallest timestep of a passing state. */
  lemma TurnsToPassIsEarliest(states: seq<State>, startTime: int)
    requires PassInfoOf(states, startTime).Success?
    requires PassInfoOf(states, startTime).value.turnsToPass.Some?
    ensures var t := PassInfoOf(states, startTime).value.turnsToPass.value;
            && (exists j :: 0 <= j < |states| && StatePasses(states[j]) && states[j].timestep == t)
            && forall j :: 0 <= j < |states| && StatePasses(states[j]) ==> t <= states[j].timestep
  {
    var sorted := SortBy(states, Timestep);
    var first := sorted[FirstPassIndex(sorted).value];
    SortByMembers(states, Timestep, first);
    var k0 :| 0 <= k0 < |states| && states[k0] == first;
    SortedFirstPass(states, k0);
    PassInfoAtFirstPass(states, startTime, first);
  }

  /** Success, time to pass and turns to pass agree with each other: a
      successful episode has a first pass no later than its final timestep;
      both pass fields are absent exactly when no state passes; an empty
      episode is not a success. */
  lemma SessionPassFields(episode: Episode, lookups: Lookups)
    requires SessionOf(episode, lookups).Success?
    ensures var s := SessionOf(episode, lookups).value;
            var states := episode.states;
            && (|states| == 0 ==> !s.success && s.timeToPass.None? && s.turnsToPass.None?)
            && (s.success <==> |states| > 0 && StatePasses(states[FinalIndex(states)]))
            && (s.success ==> s.turnsToPass.Some? && s.timeToPass.Some? && s.timeToPass.value >= 0
                              && s.turnsToPass.value <= states[FinalIndex(states)].timestep)
            && (s.turnsToPass.None? <==> forall j :: 0 <= j < |states| ==> !StatePasses(states[j]))
            && (s.timeToPass.None? <==> s.turnsToPass.None?)
  {
    var states := episode.states;
    PassFieldsIffSomePass(states, episode.startTime);
    if |states| > 0 && StatePasses(states[FinalIndex(states)]) {
      SuccessHasFirstPass(states, episode.startTime);
    }
  }

  /** The scalar fields: the number of states, the duration and the rate
      and latency bounds. */
  lemma SessionScalars(episode: Episode, lookups: Lookups)
    requires SessionOf(episode, lookups).Success?
    ensures var s := SessionOf(episode, lookups).value;
            && s.totalTurns == |episode.states|
            && s.durationMs == episode.endTime - episode.startTime
            && 0.0 <= s.rates.compileRegressionRate && 0.0 <= s.rates.compileProgressionRate
            && s.rates.compileRegressionRate + s.rates.compileProgressionRate <= 1.0
            && 0.0 <= s.rates.testRegressionRate && 0.0 <= s.rates.testProgressionRate
            && s.rates.testRegressionRate + s.rates.testProgressionRate <= 1.0
            && 0 <= s.latency.p50 <= s.latency.p90 <= s.latency.p99
  {
    RatesInUnitInterval(episode.states);
    LatencyStatsProperties(episode.states);
  }

  /** An episode without states: zero turns, zero rates and percentiles,
      all counts zero, no success and no pass fields. */
  lemma EmptyEpisode(id: string, problemId: string, startTime: int, endTime: int, lookups: Lookups)
    ensures var r := SessionOf(Episode(id, problemId, startTime, endTime, []), lookups);
            && r.Success?
            && r.value.totalTurns == 0
            && r.value.rates == RegressionRates(0.0, 0.0, 0.0, 0.0)
            && r.value.latency == LatencyStats(0, 0, 0)
            && !r.value.success && r.value.timeToPass.None? && r.value.turnsToPass.None?
            && r.value.assistant == ActorCounts(0, 0, 0, 0, 0, 0, 0)
            && r.value.human == ActorCounts(0, 0, 0, 0, 0, 0, 0)
  {
  }

  /** Timesteps 0, 1, 2 at 0, 100 and 250 ms, compiling from the second
      state on and passing one test in the third. */
  function ExampleStates(): seq<State>
  {
    [State(0, Some(0), None, [], Env(false, 0)),
     State(1, Some(100), None, [], Env(true, 0)),
     State(2, Some(250), None, [], Env(true, 1))]
  }

  lemma ExampleSorted()
    ensures SortBy(ExampleStates(), Timestep) == ExampleStates()
  {
    var states := ExampleStates();
    var s0, s1, s2 := states[0], states[1], states[2];
    assert states[..2] == [s0, s1];
    assert [s0, s1][..1] == [s0];
    assert SortBy([s0], Timestep) == [s0];
    assert InsertBy(s1, [s0], Timestep) == [s0] + InsertBy(s1, [], Timestep) == [s0, s1];
    assert SortBy([s0, s1], Timestep) == [s0, s1];
    assert [s0, s1][1..] == [s1];
    assert InsertBy(s2, [s1], Timestep) == [s1] + InsertBy(s2, [], Timestep) == [s1, s2];
    assert InsertBy(s2, [s0, s1], Timestep) == [s0] + InsertBy(s2, [s1], Timestep) == states;
  }

  /** One compile progression and one test progression in two transitions. */
  lemma ExampleRates()
    ensures RegressionRatesOf(ExampleStates()) == RegressionRates(0.0, 0.0, 0.5, 0.5)
  {
    var states := ExampleStates();
    assert TransitionsOf(states[..2]) == Transitions(0, 1, 0, 0, 1);
    assert TransitionsOf(states) == Transitions(0, 1, 0, 1, 2);
  }

  /** The timestep-sorted example has the deltas 100 and 150. */
  lemma ExampleDeltas()
    ensures PositiveDeltas(SortBy(ExampleStates(), Timestep)) == [100, 150]
  {
    var states := ExampleStates();
    ExampleSorted();
    assert states[..2][..1] == states[..1];
    assert PositiveDeltas(states[..2]) == [100];
  }

  /** The deltas 100 and 150 give 150 for all three percentiles. */
  lemma ExampleLatency()
    ensures LatencyStatsOf(ExampleStates()) == LatencyStats(150, 150, 150)
  {
    ExampleDeltas();
    assert [100, 150][..1] == [100];
    assert SortBy([100], Identity) == [100];
    assert InsertBy(150, [100], Identity) == [100] + InsertBy(150, [], Identity) == [100, 150];
    assert SortBy([100, 150], Identity) == [100, 150];
    assert Rank(2, 50) == 1 && Rank(2, 90) == 1 && Rank(2, 99) == 1;
  }

  /** Success, first pass at timestep 2 after 250 ms. */
  lemma ExamplePass()
    ensures PassInfoOf(ExampleStates(), 0) == Success(PassInfo(true, Some(250), Some(2)))
  {
    var states := ExampleStates();
    ExampleSorted();
    assert FinalIndex(states) == 2;
    assert FirstPassIndex(states) == Some(2);
  }

  /** The record of the example episode: every computed field, and the
      lookups and identifier carried over. */
  lemma WorkedExample(lookups: Lookups)
    ensures var r := SessionOf(Episode("e", "p", 0, 300, ExampleStates()), lookups);
            && r.Success?
            && r.value.totalTurns == 3 && r.value.durationMs == 300
            && r.value.rates == RegressionRates(0.0, 0.0, 0.5, 0.5)
            && r.value.success && r.value.turnsToPass == Some(2) && r.value.timeToPass == Some(250)
            && r.value.latency == LatencyStats(150, 150, 150)
            && r.value.assistant == ActorCounts(0, 0, 0, 0, 0, 0, 0)
            && r.value.human == ActorCounts(0, 0, 0, 0, 0, 0, 0)
            && r.value.userId == lookups.userId && r.value.episodeId == "e"
  {
    ExampleRates();
    ExampleLatency();
    ExamplePass();
    NoActionsNoStatistics(ExampleStates());
  }
}
