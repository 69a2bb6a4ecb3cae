/**
 * Compile and test regression/progression rates over consecutive states in
 * stored order (not re-sorted by timestep).
 */
module Regression {
  import opened Episodes

  /** The five counters of the loop. */
  datatype Transitions = Transitions(
    compileRegressions: nat,
    compileProgressions: nat,
    testRegressions: nat,
    testProgressions: nat,
    total: nat)

  /** One pair (previous, current): the compile cases and the test cases
      are each an if/elif, so a pair adds at most one to each group. */
  function CountTransition(t: Transitions, prev: Env, curr: Env): (r: Transitions)
    ensures r.total == t.total + 1
    ensures r.compileRegressions == t.compileRegressions + (if prev.compiled && !curr.compiled then 1 else 0)
    ensures r.compileProgressions == t.compileProgressions + (if !prev.compiled && curr.compiled then 1 else 0)
    ensures r.testRegressions == t.testRegressions + (if curr.passed < prev.passed then 1 else 0)
    ensures r.testProgressions == t.testProgressions + (if curr.passed > prev.passed then 1 else 0)
  {
    var t1 :=
      if prev.compiled && !curr.compiled then t.(compileRegressions := t.compileRegressions + 1)
      else if !prev.compiled && curr.compiled then t.(compileProgressions := t.compileProgressions + 1)
      else t;
    var t2 :=
      if curr.passed < prev.passed then t1.(testRegressions := t1.testRegressions + 1)
      else if curr.passed > prev.passed then t1.(testProgressions := t1.testProgressions + 1)
      else t1;
    t2.(total := t2.total + 1)
  }

  /** The counters after visiting every consecutive pair of `states`. */
  function TransitionsOf(states: seq<State>): (t: Transitions)
    ensures t.total == if |states| < 2 then 0 else |states| - 1
    ensures t.compileRegressions + t.compileProgressions <= t.total
    ensures t.testRegressions + t.testProgressions <= t.total
  {
    if |states| < 2 then Transitions(0, 0, 0, 0, 0)
    else CountTransition(TransitionsOf(states[..|states| - 1]), states[|states| - 2].env, states[|states| - 1].env)
  }

  datatype RegressionRates = RegressionRates(
    testRegressionRate: real,
    compileRegressionRate: real,
    testProgressionRate: real,
    compileProgressionRate: real)

  /** `count / max(transitions, 1)`. */
  function Rate(count: nat, transitions: nat): real
  {
    count as real / Max(transitions, 1) as real
  }

  /** A count no larger than the transitions gives a rate in [0, 1]. */
  lemma RateAtMostOne(count: nat, transitions: nat)
    requires count <= transitions
    ensures 0.0 <= Rate(count, transitions) <= 1.0
  {
    var d := Max(transitions, 1) as real;
    assert count as real <= d;
    assert Rate(count, transitions) * d == count as real;
  }

  /** Two counts of exclusive cases give rates whose sum lies in [0, 1]. */
  lemma RatesBounded(a: nat, b: nat, transitions: nat)
    requires a + b <= transitions
    ensures 0.0 <= Rate(a, transitions) <= 1.0
    ensures 0.0 <= Rate(b, transitions) <= 1.0
    ensures Rate(a, transitions) + Rate(b, transitions) <= 1.0
  {
    var d := Max(transitions, 1) as real;
    RateAtMostOne(a, transitions);
    RateAtMostOne(b, transitions);
    RateAtMostOne(a + b, transitions);
    assert d >= 1.0;
    assert (a + b) as real / d == a as real / d + b as real / d;
    assert Rate(a, transitions) + Rate(b, transitions) == Rate(a + b, transitions);
  }

  function RegressionRatesOf(states: seq<State>): RegressionRates
  {
    if |states| < 2 then RegressionRates(0.0, 0.0, 0.0, 0.0)
    else
      var t := TransitionsOf(states);
      RegressionRates(
        Rate(t.testRegressions, t.total),
        Rate(t.compileRegressions, t.total),
        Rate(t.testProgressions, t.total),
        Rate(t.compileProgressions, t.total))
  }

  /** Every rate lies in [0, 1], and so does each group's regression plus progression rate. */
  lemma RatesInUnitInterval(states: seq<State>)
    ensures var r := RegressionRatesOf(states);
            && 0.0 <= r.compileRegressionRate && 0.0 <= r.compileProgressionRate
            && r.compileRegressionRate + r.compileProgressionRate <= 1.0
            && 0.0 <= r.testRegressionRate && 0.0 <= r.testProgressionRate
            && r.testRegressionRate + r.testProgressionRate <= 1.0
  {
    if |states| >= 2 {
      var t := TransitionsOf(states);
      RatesBounded(t.compileRegressions, t.compileProgressions, t.total);
      RatesBounded(t.testRegressions, t.testProgressions, t.total);
    }
  }

  /** `_compute_regression_rates`. */
  method ComputeRegressionRates(states: seq<State>) returns (rates: RegressionRates)
    ensures rates == RegressionRatesOf(states)
  {
    if |states| < 2 {
      return RegressionRates(0.0, 0.0, 0.0, 0.0);
    }
    var testRegressions, compileRegressions, testProgressions, compileProgressions, totalTransitions := 0, 0, 0, 0, 0;
    for i := 1 to |states|
      invariant Transitions(compileRegressions, compileProgressions, testRegressions, testProgressions, totalTransitions)
                == TransitionsOf(states[..i])
    {
      assert states[..i + 1][..i] == states[..i];
      var prevState := states[i - 1];
      var currState := states[i];
      if prevState.env.compiled && !currState.env.compiled {
        compileRegressions := compileRegressions + 1;
      } else if !prevState.env.compiled && currState.env.compiled {
        compileProgressions := compileProgressions + 1;
      }
      if currState.env.passed < prevState.env.passed {
        testRegressions := testRegressions + 1;
      } else if currState.env.passed > prevState.env.passed {
        testProgressions := testProgressions + 1;
      }
      totalTransitions := totalTransitions + 1;
    }
    assert states[..|states|] == states;
    rates := RegressionRates(
      Rate(testRegressions, totalTransitions),
      Rate(compileRegressions, totalTransitions),
      Rate(testProgressions, totalTransitions),
      Rate(compileProgressions, totalTransitions));
  }
}
