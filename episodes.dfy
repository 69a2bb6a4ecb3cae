/**
 * The recorded episode that the telemetry aggregation reads: states with
 * their action dictionaries, attribution lists and environment snapshots.
 * Dictionary fields read through `get` are modelled by the JSON values
 * that can appear there; an absent key is `None`.
 */
module Episodes {
  import opened Wrappers

  /** A JSON value as far as the aggregation distinguishes them.
      `Other` stands for a list or a dictionary. */
  datatype Value = Int(n: int) | Str(s: string) | Null | Other

  /** The `"A"` or `"H"` entry of an action dictionary: absent or None,
      a dictionary carrying a `"type"` field, or some other value. */
  datatype Tag = NoTag | Payload(kindValue: Value) | NonDict

  /** A state's action dictionary: `{"A": ..., "H": ..., "target_line": ...}`.
      A missing `"type"` inside a payload reads as `Null`. */
  datatype ActionDict = ActionDict(a: Tag, h: Tag, targetLine: Option<Value>)

  /** The `"cursor"` entry of an attribution record. */
  datatype Cursor = CursorDict(line: Option<Value>, charPos: Option<Value>) | CursorNonDict

  /** One attribution record: a dictionary that may carry `"cursor"`, or not a dictionary. */
  datatype AttrEntry = AttrDict(cursor: Option<Cursor>) | AttrNonDict

  /** `env["compiled"]` (default False) and `env["tests"]["passed"]` (default 0). */
  datatype Env = Env(compiled: bool, passed: int)

  datatype State = State(
    timestep: int,
    timestampMs: Option<int>,
    action: Option<ActionDict>,
    attribution: seq<AttrEntry>,
    env: Env)

  datatype Episode = Episode(
    episodeId: string,
    problemId: string,
    startTime: int,
    endTime: int,
    states: seq<State>)

  /** The seven members of `ActionIndex`. */
  datatype ActionKind =
    | NoOp
    | FillPartialLine
    | ReplaceAndAppendSingleLine
    | ReplaceAndAppendMultiLine
    | EditExistingLines
    | ExplainSingleLines
    | ExplainMultiLine

  const AllKinds: set<ActionKind> :=
    {NoOp, FillPartialLine, ReplaceAndAppendSingleLine, ReplaceAndAppendMultiLine,
     EditExistingLines, ExplainSingleLines, ExplainMultiLine}

  /** The value by which `ActionIndex(value)` finds a member. */
  function KindValue(k: ActionKind): string
  {
    match k
    case NoOp => "no_op"
    case FillPartialLine => "fill_partial_line"
    case ReplaceAndAppendSingleLine => "replace_and_append_single_line"
    case ReplaceAndAppendMultiLine => "replace_and_append_multi_line"
    case EditExistingLines => "edit_existing_lines"
    case ExplainSingleLines => "explain_single_lines"
    case ExplainMultiLine => "explain_multi_line"
  }

  /** The members of `ActionIndex` by value. */
  const KindByValue: map<string, ActionKind> :=
    map[KindValue(NoOp) := NoOp,
        KindValue(FillPartialLine) := FillPartialLine,
        KindValue(ReplaceAndAppendSingleLine) := ReplaceAndAppendSingleLine,
        KindValue(ReplaceAndAppendMultiLine) := ReplaceAndAppendMultiLine,
        KindValue(EditExistingLines) := EditExistingLines,
        KindValue(ExplainSingleLines) := ExplainSingleLines,
        KindValue(ExplainMultiLine) := ExplainMultiLine]

  /** `ActionIndex(value)`: the member with that value, or None where the
      enum lookup raises ValueError or TypeError. */
  function ParseKind(v: Value): (r: Option<ActionKind>)
    ensures r.Some? ==> v == Str(KindValue(r.value))
  {
    if v.Str? && v.s in KindByValue then Some(KindByValue[v.s]) else None
  }

  /** Every member is found by its own value: parsing and `KindValue` are inverse. */
  lemma ParseKindValue(k: ActionKind)
    ensures ParseKind(Str(KindValue(k))) == Some(k)
    ensures k in AllKinds
  {
    match k
    case NoOp =>
    case FillPartialLine =>
    case ReplaceAndAppendSingleLine =>
    case ReplaceAndAppendMultiLine =>
    case EditExistingLines =>
    case ExplainSingleLines =>
    case ExplainMultiLine =>
  }

  /** Python's `max` on two integers. */
  function Max(a: int, b: int): int
  {
    if a < b then b else a
  }

  function Timestep(s: State): int
  {
    s.timestep
  }
}
