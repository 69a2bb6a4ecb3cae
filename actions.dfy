/**
 * Action classification: per-actor, per-kind counters and the cursor
 * distances of edit/explain actions, accumulated over an episode's states.
 */
module ActionStatistics {
  import opened Wrappers
  import opened Episodes

  /** `_is_assistant_action`: the action is present and its `"A"` entry is
      not None, whatever its `"H"` entry holds. */
  predicate IsAssistantAction(action: Option<ActionDict>)
    ensures action.None? ==> !IsAssistantAction(action)
    ensures action.Some? && !action.value.a.NoTag? ==> IsAssistantAction(action)
    ensures action.Some? && action.value.a.NoTag? ==> !IsAssistantAction(action)
  {
    action.Some? && !action.value.a.NoTag?
  }

  /** The action dictionaries on which reading the `"type"` field does not
      raise AttributeError: the selected `"A"` or `"H"` entry is a dictionary. */
  predicate WellFormedAction(action: Option<ActionDict>)
  {
    action.None? || action.value.a.Payload? || (action.value.a.NoTag? && action.value.h.Payload?)
  }

  predicate WellFormedActions(states: seq<State>)
  {
    forall i | 0 <= i < |states| :: WellFormedAction(states[i].action)
  }

  /** The raw `"type"` value read from the attributed payload. */
  function ActionType(d: ActionDict): Value
    requires WellFormedAction(Some(d))
  {
    if IsAssistantAction(Some(d)) then d.a.kindValue else d.h.kindValue
  }

  /** Who a classified action is counted for, and under which kind. */
  datatype Attributed = Attributed(byAssistant: bool, kind: ActionKind)

  /** The counter a state bumps, or None when it bumps none. */
  function Classify(s: State): (r: Option<Attributed>)
    requires WellFormedAction(s.action)
    ensures r.None? <==> s.action.None? || ParseKind(ActionType(s.action.value)).None?
    ensures r.Some? ==> r.value.byAssistant == IsAssistantAction(s.action)
    ensures r.Some? ==> ParseKind(ActionType(s.action.value)) == Some(r.value.kind)
  {
    match s.action
    case None => None
    case Some(d) =>
      match ParseKind(ActionType(d))
      case None => None
      case Some(k) => Some(Attributed(IsAssistantAction(s.action), k))
  }

  // ---------------------------------------------------------------------
  // Cursor line and distance

  /** What looking up a line in one cursor record produced: a value
      returned as is, or a TypeError raised by `char // 80`. */
  datatype LineLookup = LineValue(v: Value) | LineRaises

  function Abs(x: int): nat
  {
    if x < 0 then -x else x
  }

  /** The line one attribution record yields, or None when it is skipped.
      A record yields a line exactly when it is a dictionary whose cursor is a
      dictionary with `"line"` or `"char"`; `"line"` is returned as is and
      takes precedence; an integer `"char"` gives a line of at least 1. */
  function EntryLine(e: AttrEntry): (r: Option<LineLookup>)
    ensures r.None? <==> !(e.AttrDict? && e.cursor.Some? && e.cursor.value.CursorDict?
                           && (e.cursor.value.line.Some? || e.cursor.value.charPos.Some?))
    ensures r.Some? && e.cursor.value.line.Some? ==> r == Some(LineValue(e.cursor.value.line.value))
    ensures r.Some? && e.cursor.value.line.None? && e.cursor.value.charPos.value.Int? ==>
              r.value.LineValue? && r.value.v.Int? && r.value.v.n >= 1
  {
    match e
    case AttrNonDict => None
    case AttrDict(None) => None
    case AttrDict(Some(CursorNonDict)) => None
    case AttrDict(Some(CursorDict(line, charPos))) =>
      if line.Some? then Some(LineValue(line.value))
      else if charPos.Some? then
        match charPos.value
        case Int(c) => Some(LineValue(Int(Max(1, c / 80))))  // floor division: 80 > 0
        case _ => Some(LineRaises)
      else None
  }

  /** `_get_cursor_line_from_attribution`: the first record that yields a line. */
  function CursorLineOf(attrs: seq<AttrEntry>): (r: Option<LineLookup>)
    ensures r.None? <==> forall i :: 0 <= i < |attrs| ==> EntryLine(attrs[i]).None?
    ensures r.Some? ==> exists i :: 0 <= i < |attrs| && EntryLine(attrs[i]) == r
                                    && forall j :: 0 <= j < i ==> EntryLine(attrs[j]).None?
  {
    if |attrs| == 0 then None
    else if EntryLine(attrs[0]).Some? then EntryLine(attrs[0])
    else
      var r := CursorLineOf(attrs[1..]);
      assert forall i :: 1 <= i < |attrs| ==> attrs[i] == attrs[1..][i - 1];
      r
  }

  /** The target line: the outer dictionary's `"target_line"`, default 1. */
  function TargetLine(d: ActionDict): Value
  {
    if d.targetLine.Some? then d.targetLine.value else Int(1)
  }

  /** `_calculate_cursor_distance`, or None where the subtraction or the
      floor division raises TypeError: a non-integer `"char"` in the first
      record that yields a line, a line value that is neither None nor an
      integer, or an integer line with a non-integer target. */
  function CursorDistance(d: ActionDict, attrs: seq<AttrEntry>): (r: Option<nat>)
    ensures var line := CursorLineOf(attrs);
            r.None? <==> line == Some(LineRaises)
                         || (line.Some? && line.value.LineValue? && !line.value.v.Null?
                             && !(line.value.v.Int? && TargetLine(d).Int?))
    ensures CursorLineOf(attrs) == Some(LineValue(Null)) ==> r == Some(0)
  {
    match CursorLineOf(attrs)
    case None => Some(0)
    case Some(LineRaises) => None
    case Some(LineValue(Null)) => Some(0)
    case Some(LineValue(Int(c))) =>
      (match TargetLine(d)
       case Int(t) => Some(Abs(t - c))
       case _ => None)
    case Some(LineValue(_)) => None
  }

  /** When no record carries a cursor line the distance is 0. */
  lemma NoCursorDistanceZero(d: ActionDict, attrs: seq<AttrEntry>)
    requires forall i :: 0 <= i < |attrs| ==> EntryLine(attrs[i]).None?
    ensures CursorDistance(d, attrs) == Some(0)
  {
  }

  /** The distance is measured to the line of the first record that yields
      one: `|target_line - line|`, with the outer `"target_line"` or 1. */
  lemma DistanceToFirstCursor(d: ActionDict, attrs: seq<AttrEntry>, i: nat, line: int)
    requires i < |attrs| && EntryLine(attrs[i]) == Some(LineValue(Int(line)))
    requires forall j :: 0 <= j < i ==> EntryLine(attrs[j]).None?
    ensures d.targetLine.None? ==> CursorDistance(d, attrs) == Some(Abs(1 - line))
    ensures forall t :: d.targetLine == Some(Int(t)) ==> CursorDistance(d, attrs) == Some(Abs(t - line))
  {
    assert !EntryLine(attrs[i]).None?;
    assert CursorLineOf(attrs).Some?;
    var k :| 0 <= k < |attrs| && EntryLine(attrs[k]) == CursorLineOf(attrs)
             && forall j :: 0 <= j < k ==> EntryLine(attrs[j]).None?;
    assert !(k < i);
    assert !(i < k);
  }

  /** Every line field that the distance computation may read is an integer. */
  predicate IntegerLines(s: State)
  {
    && (s.action.Some? && s.action.value.targetLine.Some? ==> s.action.value.targetLine.value.Int?)
    && forall i | 0 <= i < |s.attribution| ::
         s.attribution[i].AttrDict? && s.attribution[i].cursor.Some? && s.attribution[i].cursor.value.CursorDict? ==>
           && (s.attribution[i].cursor.value.line.Some? ==> s.attribution[i].cursor.value.line.value.Int?)
           && (s.attribution[i].cursor.value.charPos.Some? ==> s.attribution[i].cursor.value.charPos.value.Int?)
  }

  /** With integer line fields the distance never raises. */
  lemma DistanceDefined(s: State)
    requires s.action.Some? && IntegerLines(s)
    ensures CursorDistance(s.action.value, s.attribution).Some?
  {
    var r := CursorLineOf(s.attribution);
    if r.Some? {
      var i :| 0 <= i < |s.attribution| && EntryLine(s.attribution[i]) == r;
      assert r.value.LineValue? && r.value.v.Int?;
    }
  }

  // ---------------------------------------------------------------------
  // The statistics record

  type Counts = map<ActionKind, nat>

  /** The count map has an entry for every kind. */
  predicate Complete(m: Counts)
  {
    forall k: ActionKind :: k in m
  }

  /** `{action: 0 for action in ActionIndex}`. */
  function InitialCounts(): (m: Counts)
    ensures Complete(m)
    ensures forall k :: m[k] == 0
  {
    var m := map k | k in AllKinds :: 0;
    assert forall k: ActionKind :: k in m by {
      forall k: ActionKind ensures k in m { ParseKindValue(k); }
    }
    m
  }

  /** The seven per-kind counts of one actor, as the record's fields hold them. */
  datatype ActorCounts = ActorCounts(
    noop: nat,
    fillPartial: nat,
    writeSingle: nat,
    writeMulti: nat,
    editExisting: nat,
    explainSingle: nat,
    explainMulti: nat)

  /** The field of the record that holds kind `k`. */
  function KindField(c: ActorCounts, k: ActionKind): nat
  {
    match k
    case NoOp => c.noop
    case FillPartialLine => c.fillPartial
    case ReplaceAndAppendSingleLine => c.writeSingle
    case ReplaceAndAppendMultiLine => c.writeMulti
    case EditExistingLines => c.editExisting
    case ExplainSingleLines => c.explainSingle
    case ExplainMultiLine => c.explainMulti
  }

  /** Reads `actions[ActionIndex.X]` into the field for X, for all seven kinds. */
  function ToActorCounts(m: Counts): (c: ActorCounts)
    requires Complete(m)
    ensures forall k :: KindField(c, k) == m[k]
  {
    ActorCounts(m[NoOp], m[FillPartialLine], m[ReplaceAndAppendSingleLine], m[ReplaceAndAppendMultiLine],
                m[EditExistingLines], m[ExplainSingleLines], m[ExplainMultiLine])
  }

  /** The sum of the seven counts. */
  function Sum(c: ActorCounts): nat
  {
    c.noop + c.fillPartial + c.writeSingle + c.writeMulti + c.editExisting + c.explainSingle + c.explainMulti
  }

  datatype ActionStats = ActionStats(
    assistant: Counts,
    human: Counts,
    editExisting: seq<nat>,
    explainSingle: seq<nat>,
    explainMulti: seq<nat>)
  {
    predicate Valid()
    {
      Complete(assistant) && Complete(human)
    }
  }

  /** The three kinds whose cursor distance is recorded. */
  predicate TracksDistance(k: ActionKind)
  {
    k == EditExistingLines || k == ExplainSingleLines || k == ExplainMultiLine
  }

  function Distances(st: ActionStats, k: ActionKind): seq<nat>
  {
    match k
    case EditExistingLines => st.editExisting
    case ExplainSingleLines => st.explainSingle
    case ExplainMultiLine => st.explainMulti
    case _ => []
  }

  function AppendDistance(st: ActionStats, k: ActionKind, distance: nat): ActionStats
  {
    match k
    case EditExistingLines => st.(editExisting := st.editExisting + [distance])
    case ExplainSingleLines => st.(explainSingle := st.explainSingle + [distance])
    case ExplainMultiLine => st.(explainMulti := st.explainMulti + [distance])
    case _ => st
  }

  /** One iteration of the loop of `_compute_action_statistics`: bump the
      attributed counter, then append the distance of a distance-tracked
      kind unless computing it raised. */
  function StepStats(st: ActionStats, s: State): (r: ActionStats)
    requires st.Valid() && WellFormedAction(s.action)
    ensures r.Valid()
    ensures Classify(s).None? ==> r == st
  {
    match Classify(s)
    case None => st
    case Some(Attributed(byAssistant, k)) =>
      var counted := Bump(st, byAssistant, k);
      if TracksDistance(k) then StepDistance(counted, k, s) else counted
  }

  /** `assistant_actions[action_enum] += 1` or `human_actions[action_enum] += 1`. */
  function Bump(st: ActionStats, byAssistant: bool, k: ActionKind): (r: ActionStats)
    requires st.Valid()
    ensures r.Valid()
  {
    if byAssistant then st.(assistant := st.assistant[k := st.assistant[k] + 1])
    else st.(human := st.human[k := st.human[k] + 1])
  }

  /** A classified state bumps exactly the counter of its actor and kind;
      every other counter keeps its value. */
  lemma StepCounters(st: ActionStats, s: State, j: ActionKind)
    requires st.Valid() && WellFormedAction(s.action)
    ensures StepStats(st, s).assistant[j] == st.assistant[j] + (if Classify(s) == Some(Attributed(true, j)) then 1 else 0)
    ensures StepStats(st, s).human[j] == st.human[j] + (if Classify(s) == Some(Attributed(false, j)) then 1 else 0)
  {
  }

  /** Only a state classified under a distance-tracked kind appends, and only
      to that kind's list, and it appends exactly when its distance is defined. */
  lemma StepDistances(st: ActionStats, s: State, j: ActionKind)
    requires st.Valid() && WellFormedAction(s.action) && TracksDistance(j)
    ensures Classify(s).None? || Classify(s).value.kind != j ==> Distances(StepStats(st, s), j) == Distances(st, j)
    ensures Classify(s).Some? && Classify(s).value.kind == j ==>
              Distances(StepStats(st, s), j) ==
                Distances(st, j) + (match CursorDistance(s.action.value, s.attribution)
                                    case Some(dist) => [dist]
                                    case None => [])
  {
  }

  function StepDistance(st: ActionStats, k: ActionKind, s: State): (r: ActionStats)
    requires s.action.Some?
    ensures r.assistant == st.assistant && r.human == st.human
  {
    match CursorDistance(s.action.value, s.attribution)
    case None => st
    case Some(distance) => AppendDistance(st, k, distance)
  }

  /** The statistics after the loop has visited every state of `states`. */
  function ActionStatsOf(states: seq<State>): (r: ActionStats)
    requires WellFormedActions(states)
    ensures r.Valid()
  {
    if |states| == 0 then ActionStats(InitialCounts(), InitialCounts(), [], [], [])
    else StepStats(ActionStatsOf(states[..|states| - 1]), states[|states| - 1])
  }

  // ---------------------------------------------------------------------
  // Properties of the whole loop

  /** The number of states whose action is attributed to `byAssistant` and parses to `k`. */
  function KindCount(states: seq<State>, byAssistant: bool, k: ActionKind): nat
    requires WellFormedActions(states)
  {
    if |states| == 0 then 0
    else KindCount(states[..|states| - 1], byAssistant, k)
         + (if Classify(states[|states| - 1]) == Some(Attributed(byAssistant, k)) then 1 else 0)
  }

  /** The number of states with an action whose type parses to a kind. */
  function ClassifiedCount(states: seq<State>): nat
    requires WellFormedActions(states)
  {
    if |states| == 0 then 0
    else ClassifiedCount(states[..|states| - 1]) + (if Classify(states[|states| - 1]).Some? then 1 else 0)
  }

  /** Each counter holds the number of states attributed to its actor and kind. */
  lemma {:induction false} CountsAreKindCounts(states: seq<State>, k: ActionKind)
    requires WellFormedActions(states)
    ensures ActionStatsOf(states).assistant[k] == KindCount(states, true, k)
    ensures ActionStatsOf(states).human[k] == KindCount(states, false, k)
  {
    if |states| > 0 {
      var prefix := states[..|states| - 1];
      CountsAreKindCounts(prefix, k);
      StepCounters(ActionStatsOf(prefix), states[|states| - 1], k);
    }
  }

  /** One state adds one to the sum of all counters if it is classified, and nothing otherwise. */
  lemma StepTotal(st: ActionStats, s: State)
    requires st.Valid() && WellFormedAction(s.action)
    ensures Sum(ToActorCounts(StepStats(st, s).assistant)) + Sum(ToActorCounts(StepStats(st, s).human))
            == Sum(ToActorCounts(st.assistant)) + Sum(ToActorCounts(st.human)) + (if Classify(s).Some? then 1 else 0)
  {
    StepCounters(st, s, NoOp);
    StepCounters(st, s, FillPartialLine);
    StepCounters(st, s, ReplaceAndAppendSingleLine);
    StepCounters(st, s, ReplaceAndAppendMultiLine);
    StepCounters(st, s, EditExistingLines);
    StepCounters(st, s, ExplainSingleLines);
    StepCounters(st, s, ExplainMultiLine);
  }

  /** Summed over both maps and every kind, the counters hold the number of
      classified states: each such state bumps exactly one counter. */
  lemma {:induction false} TotalIsClassifiedCount(states: seq<State>)
    requires WellFormedActions(states)
    ensures Sum(ToActorCounts(ActionStatsOf(states).assistant)) + Sum(ToActorCounts(ActionStatsOf(states).human))
            == ClassifiedCount(states)
  {
    if |states| > 0 {
      var prefix := states[..|states| - 1];
      TotalIsClassifiedCount(prefix);
      StepTotal(ActionStatsOf(prefix), states[|states| - 1]);
    }
  }

  /** A distance list never holds more entries than there are states of its kind. */
  lemma {:induction false} DistancesBounded(states: seq<State>, k: ActionKind)
    requires WellFormedActions(states) && TracksDistance(k)
    ensures |Distances(ActionStatsOf(states), k)| <= KindCount(states, true, k) + KindCount(states, false, k)
  {
    if |states| > 0 {
      var prefix := states[..|states| - 1];
      DistancesBounded(prefix, k);
      StepDistances(ActionStatsOf(prefix), states[|states| - 1], k);
    }
  }

  /** With integer line fields, each distance list holds one entry per state
      of its kind, whichever actor it is attributed to. */
  lemma {:induction false} DistancesComplete(states: seq<State>, k: ActionKind)
    requires WellFormedActions(states) && TracksDistance(k)
    requires forall i | 0 <= i < |states| :: IntegerLines(states[i])
    ensures |Distances(ActionStatsOf(states), k)| == KindCount(states, true, k) + KindCount(states, false, k)
  {
    if |states| > 0 {
      var prefix := states[..|states| - 1];
      var s := states[|states| - 1];
      DistancesComplete(prefix, k);
      StepDistances(ActionStatsOf(prefix), s, k);
      if Classify(s).Some? && Classify(s).value.kind == k {
        DistanceDefined(s);
      }
    }
  }

  /** Kinds other than the three distance-tracked ones never produce a distance. */
  lemma {:induction false} OnlyTrackedKindsAppend(states: seq<State>)
    requires WellFormedActions(states)
    requires forall i | 0 <= i < |states| :: Classify(states[i]).None? || !TracksDistance(Classify(states[i]).value.kind)
    ensures ActionStatsOf(states).editExisting == []
    ensures ActionStatsOf(states).explainSingle == []
    ensures ActionStatsOf(states).explainMulti == []
  {
    if |states| > 0 {
      var prefix := states[..|states| - 1];
      var s := states[|states| - 1];
      OnlyTrackedKindsAppend(prefix);
      StepDistances(ActionStatsOf(prefix), s, EditExistingLines);
      StepDistances(ActionStatsOf(prefix), s, ExplainSingleLines);
      StepDistances(ActionStatsOf(prefix), s, ExplainMultiLine);
    }
  }

  /** States without an action leave the statistics as they were initialised. */
  lemma {:induction false} NoActionsNoStatistics(states: seq<State>)
    requires forall i | 0 <= i < |states| :: states[i].action.None?
    ensures WellFormedActions(states)
    ensures ActionStatsOf(states) == ActionStats(InitialCounts(), InitialCounts(), [], [], [])
  {
    if |states| > 0 {
      NoActionsNoStatistics(states[..|states| - 1]);
    }
  }

  /** A `"target_line"` nested in the `"A"` payload is not read: the outer
      dictionary has none, so the default 1 is used and the distance to
      cursor line 7 is 6. */
  lemma NestedTargetLineIgnored()
    ensures var d := ActionDict(Payload(Str(KindValue(EditExistingLines))), NoTag, None);
            var s := State(0, Some(0), Some(d), [AttrDict(Some(CursorDict(Some(Int(7)), None)))], Env(false, 0));
            && Classify(s) == Some(Attributed(true, EditExistingLines))
            && CursorDistance(d, s.attribution) == Some(6)
            && ActionStatsOf([s]).editExisting == [6]
            && ActionStatsOf([s]).assistant[EditExistingLines] == 1
  {
    var d := ActionDict(Payload(Str(KindValue(EditExistingLines))), NoTag, None);
    var s := State(0, Some(0), Some(d), [AttrDict(Some(CursorDict(Some(Int(7)), None)))], Env(false, 0));
    ParseKindValue(EditExistingLines);
    assert [s][..0] == [];
  }

  /** `_compute_action_statistics`. */
  method ComputeActionStatistics(states: seq<State>) returns (stats: ActionStats)
    requires WellFormedActions(states)
    ensures stats == ActionStatsOf(states)
  {
    var assistantActions := InitialCounts();
    var humanActions := InitialCounts();
    var editExisting: seq<nat> := [];
    var explainSingle: seq<nat> := [];
    var explainMulti: seq<nat> := [];
    var i := 0;
    while i < |states|
      invariant 0 <= i <= |states|
      invariant ActionStats(assistantActions, humanActions, editExisting, explainSingle, explainMulti)
                == ActionStatsOf(states[..i])
    {
      assert states[..i + 1][..i] == states[..i];
      ghost var before := ActionStats(assistantActions, humanActions, editExisting, explainSingle, explainMulti);
      var state := states[i];
      assert ActionStatsOf(states[..i + 1]) == StepStats(before, state);
      if state.action.Some? {
        var isAssistant := IsAssistantAction(state.action);
        var actionType := if isAssistant then state.action.value.a.kindValue else state.action.value.h.kindValue;
        var parsed := ParseKind(actionType);
        if parsed.Some? {
          var actionKind := parsed.value;
          assert Classify(state) == Some(Attributed(isAssistant, actionKind));
          if isAssistant {
            assistantActions := assistantActions[actionKind := assistantActions[actionKind] + 1];
          } else {
            humanActions := humanActions[actionKind := humanActions[actionKind] + 1];
          }
          ghost var counted := ActionStats(assistantActions, humanActions, editExisting, explainSingle, explainMulti);
          assert counted == Bump(before, isAssistant, actionKind);
          if TracksDistance(actionKind) {
            assert StepStats(before, state) == StepDistance(counted, actionKind, state);
            var distance := CursorDistance(state.action.value, state.attribution);
            if distance.Some? {
              if actionKind == EditExistingLines {
                editExisting := editExisting + [distance.value];
              } else if actionKind == ExplainSingleLines {
                explainSingle := explainSingle + [distance.value];
              } else if actionKind == ExplainMultiLine {
                explainMulti := explainMulti + [distance.value];
              }
            }
          } else {
            assert StepStats(before, state) == counted;
          }
        }
      }
      assert ActionStats(assistantActions, humanActions, editExisting, explainSingle, explainMulti)
             == StepStats(before, state);
      i := i + 1;
    }
    assert states[..i] == states;
    stats := ActionStats(assistantActions, humanActions, editExisting, explainSingle, explainMulti);
  }
}
