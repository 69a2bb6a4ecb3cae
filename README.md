# Episode telemetry aggregation

This project models how the state service of codeassist turns one recorded
coding episode into a flat `EpisodeSession` telemetry record
(`state-service/src/telemetry.py`). An episode is an ordered list of states.
Each state has a timestep, an optional millisecond timestamp, an optional
action dictionary (`{"A": {...}}` for the assistant, `{"H": {...}}` for the
human), an attribution list that may carry cursor positions, and an
environment snapshot (`compiled`, `tests.passed`). The conversion computes:

- per-actor, per-kind action counts over the seven `ActionIndex` kinds, and
  cursor distances for the edit-existing and explain kinds;
- compile and test regression/progression rates over consecutive states in
  stored order;
- p50/p90/p99 of the positive timestamp deltas between timestep-sorted
  neighbours;
- success (the first state with the largest timestep compiles and passes a
  test), and time and turns to the first passing state in timestep order;
- the scalar fields: duration, number of turns, and the 14 count fields.

Modules:

- `Wrappers` (`wrappers.dfy`): `Option` and `Result`.
- `Sorting` (`sorting.dfy`): Python's stable `sorted`/`list.sort` on an
  integer key, as a stable insertion sort. It is proved sorted, a
  permutation, and stable: the elements that share a key keep their input
  order (`SortByStable`). Ties matter here, because the first passing state
  and the neighbours that give latency deltas depend on the order of states
  with equal timesteps. `Session.FirstPasserIsFirstInSorted` uses stability
  to identify the state the first-pass loop stops at.
- `Episodes` (`episodes.dfy`): the episode data model. JSON field values are
  `Value = Int | Str | Null | Other`. `ActionKind` and `ParseKind` model
  `ActionIndex(value)`.
- `ActionStatistics` (`actions.dfy`): `_is_assistant_action`,
  `_get_cursor_line_from_attribution`, `_calculate_cursor_distance` and
  `_compute_action_statistics`. The method with the loop is proved equal to
  the left fold `ActionStatsOf`, and the lemmas are stated about that fold.
- `Regression` (`regression.dfy`): `_compute_regression_rates`. The counter
  loop is proved equal to `TransitionsOf`. Rates are `real`.
- `Latency` (`latency.dfy`): `_compute_latency_stats`.
- `Session` (`session.dfy`): the final-state and first-pass logic of
  `convert_episode_session_to_telemetry_event`, the record, and the method
  that assembles it. `SessionProperties` (same file) holds the
  episode-level lemmas and the worked example.

The outside lookups are parameters (`Session.Lookups`): report timestamp,
user id, question id (`Option<int>`), public IP (`Option<string>`, None
when the lookup raised) and version string.

Exceptions that abort the Python conversion are modelled as
`Failure(ConversionError)`:

- `NullPassTimestamp`: the first passing state has a `None` timestamp, so
  `int(None)` raises at telemetry.py:343.
- `MalformedAction`: an action that has no non-None `"A"` and whose `"H"`
  is not a dictionary, or whose `"A"` is not a dictionary, raises
  AttributeError at telemetry.py:145-147, outside the `try`.

The first-pass loop runs before the action statistics, so a
`NullPassTimestamp` is reported first.

Points of the code that decide edge cases:

- `target_line` is read from the outer action dictionary
  (telemetry.py:189), not from the `"A"` payload. So a payload
  `{"A": {"type": "edit_existing_lines", "target_line": 10}}` with cursor
  line 7 gives distance 6, from the default line 1. See
  `ActionStatistics.NestedTargetLineIgnored`.
- The final state is the first maximal one, because `max` at
  telemetry.py:323 returns the first of several maximal elements.
- A `None` timestamp on the first passing state raises at
  telemetry.py:343, because `int(None)` raises TypeError.
- The percentile index at telemetry.py:303-305 is not clamped.
  `Latency.PercentileIndices` shows that the exact nearest-rank indices are
  always below `n`.

## Model

| member | source | states |
|---|---|---|
| `Episodes.ParseKind` | state-service/src/telemetry.py:151 | `ActionIndex(value)` finds a kind only for that kind's own string value |
| `Episodes.ParseKindValue` | state-service/src/telemetry.py:151 | every kind is found by its own value, so parsing inverts `KindValue` |
| `ActionStatistics.IsAssistantAction` | state-service/src/telemetry.py:98-105 | a None action is never the assistant's; an action whose `"A"` entry is not None is the assistant's whatever `"H"` holds; one whose `"A"` is absent or None is not |
| `ActionStatistics.Classify` | state-service/src/telemetry.py:136-155 | a state bumps no counter iff its action is None or its type does not parse; otherwise the counter is the assistant's iff `"A"` is non-None (`_is_assistant_action`), under the parsed kind |
| `ActionStatistics.EntryLine` | state-service/src/telemetry.py:203-211 | an attribution record yields a line iff it is a dict whose cursor is a dict with `line` or `char`; `line` is returned as is and wins over `char`; an integer `char` gives a line of at least 1 |
| `ActionStatistics.CursorLineOf` | state-service/src/telemetry.py:198-212 | None iff no record yields a line; otherwise the line of the first record that yields one, all earlier records being skipped |
| `ActionStatistics.CursorDistance` | state-service/src/telemetry.py:184-211 | the computation raises exactly when the first line found comes from a non-integer `char`, or is neither None nor an integer, or is an integer while `target_line` is not; a line value of None gives 0 |
| `ActionStatistics.NoCursorDistanceZero` | state-service/src/telemetry.py:190-193 | with no cursor line in the attribution the distance is 0 |
| `ActionStatistics.DistanceToFirstCursor` | state-service/src/telemetry.py:184-195 | the distance is `abs(target_line - line)` to the first record's line, with the outer `target_line` or 1 when absent |
| `ActionStatistics.DistanceDefined` | state-service/src/telemetry.py:184-211 | when every line field is an integer the distance computation does not raise |
| `ActionStatistics.NestedTargetLineIgnored` | state-service/src/telemetry.py:189 | a `target_line` inside the `"A"` payload is not read: cursor line 7 gives distance 6, recorded under assistant EDIT_EXISTING_LINES |
| `ActionStatistics.InitialCounts` | state-service/src/telemetry.py:128-129 | each count map starts with an entry for every kind, all zero |
| `ActionStatistics.Bump` | state-service/src/telemetry.py:152-155 | incrementing one counter keeps the map complete |
| `ActionStatistics.StepStats` | state-service/src/telemetry.py:136-173 | one loop iteration keeps both maps complete, and a state with a None action or an unparsable type changes no counter and no list |
| `ActionStatistics.StepCounters` | state-service/src/telemetry.py:150-155 | one iteration adds 1 exactly to the counter of the state's actor and kind; every other counter is unchanged |
| `ActionStatistics.StepDistances` | state-service/src/telemetry.py:157-173 | only a state of a distance-tracked kind appends, only to its kind's list, and only when the distance computation did not raise |
| `ActionStatistics.StepTotal` | state-service/src/telemetry.py:150-155 | one iteration adds 1 to the sum of all counters if the state is classified, 0 otherwise |
| `ActionStatistics.ActionStatsOf` | state-service/src/telemetry.py:126-181 | after any number of states both count maps are complete |
| `ActionStatistics.CountsAreKindCounts` | state-service/src/telemetry.py:136-155 | each counter equals the number of states attributed to its actor and parsed to its kind |
| `ActionStatistics.TotalIsClassifiedCount` | state-service/src/telemetry.py:128-155 | the sum over both maps of all counters equals the number of states whose action is non-None and whose type parses |
| `ActionStatistics.DistancesBounded` | state-service/src/telemetry.py:152-169 | each distance list has at most as many entries as there are states of its kind (both actors) |
| `ActionStatistics.DistancesComplete` | state-service/src/telemetry.py:152-169 | with integer line fields each distance list has exactly one entry per state of its kind |
| `ActionStatistics.OnlyTrackedKindsAppend` | state-service/src/telemetry.py:157-169 | states of the other four kinds never add a distance |
| `ActionStatistics.NoActionsNoStatistics` | state-service/src/telemetry.py:128-138 | states that all have a None action leave every counter at 0 and every distance list empty |
| `ActionStatistics.ToActorCounts` | state-service/src/telemetry.py:375-400 | for every kind, the record field of that kind holds the count map's entry `actions[ActionIndex.X]` |
| `ActionStatistics.ComputeActionStatistics` | state-service/src/telemetry.py:126-181 | the loop that bumps the maps and appends distances returns exactly `ActionStatsOf(states)` |
| `Regression.CountTransition` | state-service/src/telemetry.py:251-263 | one pair adds 1 to the total; a compile regression is counted iff the previous state compiled and the current does not, a progression iff the reverse; a test regression iff fewer tests pass now, a progression iff more do |
| `Regression.TransitionsOf` | state-service/src/telemetry.py:235-263 | `total` is `len(states) - 1` (0 below 2 states); compile regressions + progressions <= total and test regressions + progressions <= total, since each group is an if/elif |
| `Regression.RateAtMostOne` | state-service/src/telemetry.py:265-270 | `count / max(transitions, 1)` lies in [0, 1] when count <= transitions |
| `Regression.RatesBounded` | state-service/src/telemetry.py:265-270 | the regression and progression rates of one group each lie in [0, 1] and their sum is at most 1 |
| `Regression.RatesInUnitInterval` | state-service/src/telemetry.py:225-270 | for every episode all four rates are in [0, 1], and compile (test) regression rate + progression rate <= 1 |
| `Regression.ComputeRegressionRates` | state-service/src/telemetry.py:225-270 | the loop with five counters returns exactly `RegressionRatesOf(states)`: all 0.0 below two states, else each count over `max(transitions, 1)` |
| `Sorting.InsertBy` | state-service/src/telemetry.py:283 | inserting yields one more element, and the inserted element is in the result |
| `Sorting.SortBy` | state-service/src/telemetry.py:283 | `sorted(...)`, the sort at :337 and `latencies.sort()` at :299 keep the length |
| `Sorting.InsertByPermutes` | state-service/src/telemetry.py:283 | inserting one element adds exactly that element |
| `Sorting.InsertBySorted` | state-service/src/telemetry.py:283 | inserting into a key-sorted sequence keeps it sorted |
| `Sorting.SortByCorrect` | state-service/src/telemetry.py:283 | `sorted(states, key=timestep)` and `latencies.sort()` give a key-ascending permutation of the input |
| `Sorting.FilterInsert` | state-service/src/telemetry.py:283 | inserting into a key-sorted sequence places the element after every element with the same key |
| `Sorting.SortByStable` | state-service/src/telemetry.py:283 | the sort is stable: for every key value, the elements with that key appear in the same order as in the input |
| `Sorting.SortByMembers` | state-service/src/telemetry.py:337 | an element is in the sorted list iff it is in the input |
| `Latency.PositiveDeltas` | state-service/src/telemetry.py:282-290 | the delta list has at most `len(states) - 1` entries, all strictly positive |
| `Latency.PercentileIndices` | state-service/src/telemetry.py:300-305 | for n > 0 the indices `n/2 <= n*9/10 <= n*99/100 < n`, so no read is out of range |
| `Latency.Percentiles` | state-service/src/telemetry.py:299-305 | the three reads are elements of the list, and on an ascending list p50 <= p90 <= p99 |
| `Latency.LatencyStatsProperties` | state-service/src/telemetry.py:273-306 | all three are 0 iff there are fewer than 2 states or no positive delta; otherwise each is one of the positive deltas, and 0 < p50 <= p90 <= p99 |
| `Latency.CollectLatencies` | state-service/src/telemetry.py:284-290 | the append loop over timestep-sorted neighbours builds exactly `PositiveDeltas(sorted)` |
| `Latency.ComputeLatencyStats` | state-service/src/telemetry.py:273-306 | the method returns exactly `LatencyStatsOf(states)` |
| `Session.FinalIndex` | state-service/src/telemetry.py:322-324 | `max(states, key=timestep)` picks a state with the largest timestep, and no earlier state has that timestep |
| `Session.FirstPassIndex` | state-service/src/telemetry.py:337-346 | None iff no state compiles with passed > 0; otherwise the least index of such a state |
| `Session.FirstPassIndexIs` | state-service/src/telemetry.py:337-346 | a passing index with no passing state before it is the first pass |
| `Session.PassInfoOf` | state-service/src/telemetry.py:321-346 | success iff the first maximal state passes; time and turns to pass are both set or both None; time to pass is at least 0; a failure means some passing state has a None timestamp |
| `Session.FirstPassInFilter` | state-service/src/telemetry.py:337-341 | among the states of timestep `t`, in their order, the first passing one is a passing state of timestep `t` that no earlier passing state of timestep `t` precedes |
| `Session.FirstPassIsEarliestInSorted` | state-service/src/telemetry.py:337-341 | in a timestep-sorted list the first passing state has the smallest timestep of all passing states |
| `Session.SortedFirstPass` | state-service/src/telemetry.py:337-341 | when some state passes, the loop over the sorted states finds a passing state, which comes from the episode and has the smallest timestep of all passing states |
| `Session.FirstPasserIsFirstInSorted` | state-service/src/telemetry.py:337-341 | the stable sort puts the first passer (a passing state of least timestep with no earlier passing state of that timestep) first among the passing states |
| `Session.PassInfoAtFirstPass` | state-service/src/telemetry.py:321-346 | the result is read from the first passing state of the sorted list: `NullPassTimestamp` if its timestamp is None, otherwise success from the final state, time to pass `max(0, ts - start_time)` and turns to pass its timestep |
| `Session.FirstPasserDecides` | state-service/src/telemetry.py:337-346 | for the first passer: the conversion raises iff its timestamp is None, and otherwise turns to pass is its timestep and time to pass is `max(0, timestamp - start_time)` |
| `Session.FirstPasserExists` | state-service/src/telemetry.py:337-346 | whenever some state passes, a first passer exists |
| `Session.DetectPass` | state-service/src/telemetry.py:321-346 | the success test and the first-pass loop with `break` return exactly `PassInfoOf`, including the `int(None)` failure |
| `Session.SuccessHasFirstPass` | state-service/src/telemetry.py:329-346 | if the final state passes, time and turns to pass are defined, turns to pass <= the final timestep and time to pass >= 0 |
| `Session.PassFieldsIffSomePass` | state-service/src/telemetry.py:325-346 | turns to pass is None iff no state passes, and time to pass is None iff turns to pass is |
| `Session.Assemble` | state-service/src/telemetry.py:357-402 | the record has `total_turns = len(states)`, `duration_ms = end_time - start_time`, each count field equal to its kind's entry in the count maps, and the user id, question id and IP of the lookups unchanged |
| `Session.ConvertEpisode` | state-service/src/telemetry.py:309-402 | the conversion returns exactly `SessionOf(episode, lookups)`: the record, or the exception the Python raises |
| `SessionProperties.SessionCounts` | state-service/src/telemetry.py:353-400 | each of the 14 count fields is the number of states of its actor and kind, and together they sum to the number of classified states |
| `SessionProperties.TurnsToPassIsEarliest` | state-service/src/telemetry.py:335-346 | turns to pass is the timestep of a passing state and no passing state has a smaller timestep |
| `SessionProperties.SessionPassFields` | state-service/src/telemetry.py:321-346 | success iff the final state passes; an empty episode has success false and no pass fields; success implies a first pass no later than the final timestep; the pass fields are None iff no state passes |
| `SessionProperties.SessionScalars` | state-service/src/telemetry.py:311-312 | `total_turns = len(states)` and `duration_ms = end_time - start_time`; the recorded rates are in [0, 1] with paired sums <= 1, and 0 <= p50 <= p90 <= p99 |
| `SessionProperties.EmptyEpisode` | state-service/src/telemetry.py:309-402 | a stateless episode gives 0 turns, 0.0 rates, 0 percentiles, zero counts, no success and no pass fields |
| `SessionProperties.ExampleSorted` | state-service/src/telemetry.py:337 | the example's states are already in timestep order |
| `SessionProperties.ExampleRates` | state-service/src/telemetry.py:225-270 | the example has compile and test progression rates 0.5 and zero regression rates |
| `SessionProperties.ExampleLatency` | state-service/src/telemetry.py:273-306 | the example's deltas 100 and 150 give 150 for all three percentiles |
| `SessionProperties.ExamplePass` | state-service/src/telemetry.py:321-346 | the example succeeds, with turns to pass 2 and time to pass 250 |
| `SessionProperties.WorkedExample` | state-service/src/telemetry.py:309-402 | the example's record (timesteps [0,1,2], timestamps [0,100,250], compiled [F,T,T], passed [0,0,1], start 0, end 300): 3 turns, duration 300, the four rates, success, both pass fields, the percentiles, all 14 counts 0, and the user id and episode id carried over |

## Left out

- `push_telemetry_event_session` (HTTP POST, logging and swallowing the exception) and `is_telemetry_disabled`: transport and process environment, not aggregation logic.
- `get_ip`, `get_user_id`, `_load_problem_question_id` (over `_load_problem` in `src/utils`, which is not part of this model), `get_system_info`, `get_accelerator_info`, `CODEASSIST_VERSION` and `datetime.now`: network, files, platform and clock; their results are the fields of `Session.Lookups`.
- `_compute_percentile`: never called, and it relies on the interpolation of `statistics.quantiles` in floating point.
- The pydantic construction and serialisation of `EpisodeSession`: only the field-to-field mapping is modelled. The distance lists are computed but, as in the source, are not put into the record.
- `ActionIndex` is defined in `src/api/datatypes.py`, which is not part of this model. Its value table is taken to be each kind's lower-case name (`"edit_existing_lines"`, ...).
- The `0` default of `getattr(state, "timestamp_ms", 0)` at telemetry.py:343 is not modelled. Every state carries a `timestamp_ms` attribute (`State.timestampMs`, possibly None), so the default is unreachable. Likewise the `None` default at :285-286 is never used.
- Floating point: a float timestamp, line, `char` or `passed` is not modelled (`Value` has no floats). Rates are exact `real` quotients, not IEEE doubles.
- Latency.PercentileIndices: `int(n * 0.99)` and `int(n * 0.9)` are computed exactly as `n*99/100` and `n*9/10`. This idealises the float product, which can round differently for some `n`.
- Python's truthiness of `compiled` and a `bool` standing for an integer are not modelled: `compiled` is a `bool` and `passed` an `int`. A missing `compiled` or `passed` reads as False or 0, as `get` does.
- An attribution of `None` is modelled as the empty list; both yield no cursor line.
- The `if not state.action: return 0.0` guard of `_calculate_cursor_distance` is not modelled. It is unreachable from the statistics loop, which only calls it for an action that has a dictionary payload.
- Non-dictionary payloads are represented (`Tag.NonDict`) only to make `MalformedAction` reachable. A payload that is a dictionary carries only its `"type"`, because no other payload field is read.
- Idempotence of the conversion holds because `SessionOf` is a function. No separate lemma states it.
