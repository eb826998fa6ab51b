/**
 * The action-selection rules of the engines (engines.py): each rule maps the
 * current estimates `q` (bandits x arms), the visit counts `n` and the step
 * index `t` to one arm index per bandit.  The random draws the program takes
 * from numpy's global generator are explicit inputs (`Draws`), and the UCB
 * term sqrt(ln(t + 1) / n) is an explicit input (`Confidence`).
 */
module Policies {
  import opened Errors

  /**
   * The selection rule an engine uses; the parameters are fixed when the
   * engine is built.  `Base` is the engine without a rule; the keyword
   * defaults of `EngineEpsilonGreedy` and `EngineUCB` are the defaults here.
   */
  datatype Policy =
    | Base
    | Simple
    | Argmax
    | EpsilonGreedy(epsilon: real := 0.1)
    | UCB(c: real := 2.0)

  /**
   * One step's random draws, one per bandit: `uniform` from
   * `np.random.uniform` and `randint` from `np.random.randint(0, nActions - 1)`.
   */
  datatype Draws = Draws(uniform: seq<real>, randint: seq<int>)

  /** The UCB confidence term: `conf(t, n)` stands for sqrt(ln(t + 1) / n). */
  type Confidence = (nat, int) --> real

  /** What the engines rely on about the confidence term: it is defined for
      every visit count of at least one, and it is zero at step 0 (ln 1 = 0). */
  ghost predicate ConfidenceLaw(conf: Confidence) {
    && (forall t: nat, n: int :: n >= 1 ==> conf.requires(t, n))
    && (forall n: int :: n >= 1 ==> conf.requires(0, n) && conf(0, n) == 0.0)
  }

  ghost predicate Rectangular<T>(g: seq<seq<T>>, rows: nat, cols: nat) {
    |g| == rows && forall i :: 0 <= i < rows ==> |g[i]| == cols
  }

  ghost predicate AllPositive(g: seq<seq<int>>) {
    forall i, a :: 0 <= i < |g| && 0 <= a < |g[i]| ==> g[i][a] >= 1
  }

  /** The draws numpy can produce for `nBandits` bandits: uniform draws in
      [0, 1) and, when the integer range is not empty, integer draws in
      [0, nActions - 1). */
  ghost predicate DrawsFit(d: Draws, nBandits: nat, nActions: nat) {
    && |d.uniform| == nBandits
    && |d.randint| == nBandits
    && (forall i :: 0 <= i < nBandits ==> 0.0 <= d.uniform[i] < 1.0)
    && (nActions >= 2 ==> forall i :: 0 <= i < nBandits ==> 0 <= d.randint[i] < nActions - 1)
  }

  /** `k` is the first index at which `row` takes its largest value. */
  predicate IsFirstMax(row: seq<real>, k: int) {
    && 0 <= k < |row|
    && (forall b :: 0 <= b < |row| ==> row[b] <= row[k])
    && (forall b :: 0 <= b < k ==> row[b] < row[k])
  }

  /** numpy's `argmax` of one row: ties go to the lowest index. */
  function ArgmaxRow(row: seq<real>): (k: nat)
    requires |row| > 0
    ensures IsFirstMax(row, k)
  {
    if |row| == 1 then 0
    else
      var k := ArgmaxRow(row[..|row| - 1]);
      if row[|row| - 1] > row[k] then |row| - 1 else k
  }

  /** The first maximiser is unique, so `IsFirstMax` characterises `ArgmaxRow`. */
  lemma FirstMaxUnique(row: seq<real>, k: int)
    requires |row| > 0
    ensures IsFirstMax(row, k) <==> k == ArgmaxRow(row)
  {
  }

  /** `np.argmax(q, axis=1)`. */
  function Greedy(q: seq<seq<real>>): (r: seq<int>)
    requires forall i :: 0 <= i < |q| ==> |q[i]| > 0
    ensures |r| == |q|
    ensures forall i :: 0 <= i < |q| ==> IsFirstMax(q[i], r[i])
  {
    seq(|q|, i requires 0 <= i < |q| => ArgmaxRow(q[i]))
  }

  /** The UCB score matrix `q + c * sqrt(ln(t + 1) / n)`. */
  function Scores(q: seq<seq<real>>, n: seq<seq<int>>, t: nat, c: real, conf: Confidence): (s: seq<seq<real>>)
    requires |n| == |q| && forall i :: 0 <= i < |q| ==> |n[i]| == |q[i]|
    requires AllPositive(n) && ConfidenceLaw(conf)
    ensures |s| == |q| && forall i :: 0 <= i < |q| ==> |s[i]| == |q[i]|
    ensures forall i, a :: 0 <= i < |q| && 0 <= a < |q[i]| ==> s[i][a] == q[i][a] + c * conf(t, n[i][a])
  {
    seq(|q|, i requires 0 <= i < |q| =>
      seq(|q[i]|, a requires 0 <= a < |q[i]| => q[i][a] + c * conf(t, n[i][a])))
  }

  /** The epsilon-greedy merge: a bandit whose uniform draw exceeds epsilon
      exploits (greedy arm), every other bandit keeps its random arm. */
  function EpsilonGreedyChoice(epsilon: real, q: seq<seq<real>>, d: Draws): (r: seq<int>)
    requires |d.uniform| == |q| && |d.randint| == |q|
    requires forall i :: 0 <= i < |q| ==> |q[i]| > 0
    ensures |r| == |q|
    ensures forall i :: 0 <= i < |q| && d.uniform[i] > epsilon ==> IsFirstMax(q[i], r[i])
    ensures forall i :: 0 <= i < |q| && d.uniform[i] <= epsilon ==> r[i] == d.randint[i]
  {
    seq(|q|, i requires 0 <= i < |q| =>
      if d.uniform[i] > epsilon then ArgmaxRow(q[i]) else d.randint[i])
  }

  /**
   * The failure a selection rule raises for `nBandits` bandits with
   * `nActions` arms, whatever the state.  The base engine has no rule.
   * `randint(0, nActions - 1, size=nBandits)` returns an empty array when
   * `nBandits` is 0, and otherwise fails on an empty range.  `argmax` along
   * the rows fails whenever the rows have no arm, however many rows there are.
   * Epsilon-greedy draws before it takes the argmax.
   */
  function Refusal(policy: Policy, nActions: nat, nBandits: nat): (r: Option<EngineError>)
    ensures policy.Base? ==> r == Some(NotImplemented)
    ensures !policy.Base? && nActions >= 2 ==> r.None?
    ensures !policy.Base? && nActions == 0 && nBandits > 0 ==> r.Some?
    ensures nBandits == 0 && (policy.Simple? || (policy.EpsilonGreedy? && nActions >= 1)) ==> r.None?
    ensures r.Some? ==> policy.Base? || nActions <= 1
  {
    match policy
    case Base => Some(NotImplemented)
    case Simple => if nActions <= 1 && nBandits > 0 then Some(EmptyRange) else None
    case Argmax => if nActions == 0 then Some(EmptyArgmax) else None
    case EpsilonGreedy(_) =>
      if nActions <= 1 && nBandits > 0 then Some(EmptyRange)
      else if nActions == 0 then Some(EmptyArgmax)
      else None
    case UCB(_) => if nActions == 0 then Some(EmptyArgmax) else None
  }

  /** `choose(t)` of each engine, as a function of the state it reads. */
  function Choose(policy: Policy, nActions: nat, q: seq<seq<real>>, n: seq<seq<int>>, t: nat,
                  d: Draws, conf: Confidence): (r: Result<seq<int>>)
    requires Rectangular(q, |q|, nActions) && Rectangular(n, |q|, nActions) && AllPositive(n)
    requires DrawsFit(d, |q|, nActions) && ConfidenceLaw(conf)
    ensures r.Err? <==> Refusal(policy, nActions, |q|).Some?
    ensures r.Err? ==> r.error == Refusal(policy, nActions, |q|).value
    ensures r.Ok? ==> |r.value| == |q| && forall i :: 0 <= i < |q| ==> 0 <= r.value[i] < nActions
    ensures r.Ok? && policy.Simple? ==> r.value == d.randint
    ensures r.Ok? && policy.Simple? ==> forall i :: 0 <= i < |q| ==> r.value[i] < nActions - 1
    ensures r.Ok? && policy.Argmax? ==> forall i :: 0 <= i < |q| ==> IsFirstMax(q[i], r.value[i])
    ensures r.Ok? && policy.EpsilonGreedy? ==> forall i :: 0 <= i < |q| ==>
      (d.uniform[i] > policy.epsilon ==> IsFirstMax(q[i], r.value[i])) &&
      (d.uniform[i] <= policy.epsilon ==> r.value[i] == d.randint[i])
    ensures r.Ok? && policy.UCB? ==> forall i :: 0 <= i < |q| ==>
      IsFirstMax(Scores(q, n, t, policy.c, conf)[i], r.value[i])
  {
    match policy
    case Base => Err(NotImplemented)
    case Simple => if nActions <= 1 && |q| > 0 then Err(EmptyRange) else Ok(d.randint)
    case Argmax => if nActions == 0 then Err(EmptyArgmax) else Ok(Greedy(q))
    case EpsilonGreedy(epsilon) =>
      if nActions <= 1 && |q| > 0 then Err(EmptyRange)
      else if nActions == 0 then Err(EmptyArgmax)
      else Ok(EpsilonGreedyChoice(epsilon, q, d))
    case UCB(c) =>
      if nActions == 0 then Err(EmptyArgmax) else Ok(Greedy(Scores(q, n, t, c, conf)))
  }

  /**
   * `EngineEpsilonGreedy.choose` as the program runs it: start from the random
   * choices and overwrite, in place, the entries of the bandits that exploit.
   * The integer draw fails first, on an empty range; then `argmax` fails on
   * rows without arms.
   */
  method EpsilonGreedyActions(epsilon: real, nActions: nat, q: seq<seq<real>>, d: Draws)
    returns (r: Result<seq<int>>)
    requires Rectangular(q, |q|, nActions) && DrawsFit(d, |q|, nActions)
    ensures nActions <= 1 && |q| > 0 ==> r == Err(EmptyRange)
    ensures nActions == 0 && |q| == 0 ==> r == Err(EmptyArgmax)
    ensures nActions >= 1 && (nActions >= 2 || |q| == 0) ==> r == Ok(EpsilonGreedyChoice(epsilon, q, d))
  {
    if nActions <= 1 && |q| > 0 {
      return Err(EmptyRange);
    }
    if nActions == 0 {
      return Err(EmptyArgmax);
    }
    var choices := new int[|q|](i requires 0 <= i < |q| => d.randint[i]);
    var greedy := Greedy(q);
    for i := 0 to |q|
      invariant forall k :: 0 <= k < |q| ==>
        choices[k] == if k < i && d.uniform[k] > epsilon then greedy[k] else d.randint[k]
    {
      if d.uniform[i] > epsilon {
        choices[i] := greedy[i];
      }
    }
    ghost var spec := EpsilonGreedyChoice(epsilon, q, d);
    assert |spec| == |q|;
    assert forall k :: 0 <= k < |q| ==> greedy[k] == ArgmaxRow(q[k]);
    assert forall k :: 0 <= k < |q| ==> choices[..][k] == spec[k];
    assert choices[..] == spec;
    r := Ok(choices[..]);
  }

  /** At step 0 the confidence term vanishes, so UCB picks exactly the greedy arms. */
  lemma UCBAtStartIsGreedy(c: real, nActions: nat, q: seq<seq<real>>, n: seq<seq<int>>, d: Draws, conf: Confidence)
    requires Rectangular(q, |q|, nActions) && Rectangular(n, |q|, nActions) && AllPositive(n)
    requires DrawsFit(d, |q|, nActions) && ConfidenceLaw(conf)
    ensures Choose(UCB(c), nActions, q, n, 0, d, conf) == Choose(Argmax, nActions, q, n, 0, d, conf)
  {
    if nActions > 0 {
      var s := Scores(q, n, 0, c, conf);
      forall i | 0 <= i < |q| ensures s[i] == q[i] {
        forall a | 0 <= a < |q[i]| ensures s[i][a] == q[i][a] {
          assert conf(0, n[i][a]) == 0.0;
        }
      }
      assert s == q;
    }
  }

  /** With epsilon at least 1 every uniform draw in [0, 1) explores, so
      epsilon-greedy picks exactly what the random engine picks; only with
      no bandit and no arm does its `argmax` fail where the random engine
      returns nothing. */
  lemma EpsilonOneIsRandom(epsilon: real, nActions: nat, q: seq<seq<real>>, n: seq<seq<int>>, t: nat,
                           d: Draws, conf: Confidence)
    requires Rectangular(q, |q|, nActions) && Rectangular(n, |q|, nActions) && AllPositive(n)
    requires DrawsFit(d, |q|, nActions) && ConfidenceLaw(conf)
    requires epsilon >= 1.0
    ensures nActions >= 1 || |q| > 0 ==>
      Choose(EpsilonGreedy(epsilon), nActions, q, n, t, d, conf) == Choose(Simple, nActions, q, n, t, d, conf)
    ensures nActions == 0 && |q| == 0 ==>
      Choose(EpsilonGreedy(epsilon), nActions, q, n, t, d, conf) == Err(EmptyArgmax) &&
      Choose(Simple, nActions, q, n, t, d, conf) == Ok([])
  {
    if nActions >= 2 || (nActions == 1 && |q| == 0) {
      assert EpsilonGreedyChoice(epsilon, q, d) == d.randint;
    }
  }

  /** When every uniform draw exceeds epsilon (epsilon = 0 and no draw is
      exactly 0, say) epsilon-greedy picks exactly the greedy arms; with a
      single arm and at least one bandit it still fails, because the random
      draw is taken first. */
  lemma EpsilonBelowDrawsIsGreedy(epsilon: real, nActions: nat, q: seq<seq<real>>, n: seq<seq<int>>, t: nat,
                                  d: Draws, conf: Confidence)
    requires Rectangular(q, |q|, nActions) && Rectangular(n, |q|, nActions) && AllPositive(n)
    requires DrawsFit(d, |q|, nActions) && ConfidenceLaw(conf)
    requires forall i :: 0 <= i < |q| ==> d.uniform[i] > epsilon
    ensures nActions >= 2 || |q| == 0 ==>
      Choose(EpsilonGreedy(epsilon), nActions, q, n, t, d, conf) == Choose(Argmax, nActions, q, n, t, d, conf)
    ensures nActions == 1 && |q| > 0 ==>
      Choose(EpsilonGreedy(epsilon), nActions, q, n, t, d, conf).Err? && Choose(Argmax, nActions, q, n, t, d, conf).Ok?
  {
    if nActions >= 1 {
      assert EpsilonGreedyChoice(epsilon, q, d) == Greedy(q);
    }
  }

  /** As written, the random engine never returns the last arm, and
      epsilon-greedy reaches it only by exploiting. */
  lemma LastArmOnlyByExploiting(policy: Policy, nActions: nat, q: seq<seq<real>>, n: seq<seq<int>>, t: nat,
                                d: Draws, conf: Confidence, i: nat)
    requires Rectangular(q, |q|, nActions) && Rectangular(n, |q|, nActions) && AllPositive(n)
    requires DrawsFit(d, |q|, nActions) && ConfidenceLaw(conf)
    requires policy.Simple? || policy.EpsilonGreedy?
    requires i < |q|
    ensures var r := Choose(policy, nActions, q, n, t, d, conf);
            r.Ok? && r.value[i] == nActions - 1 ==>
              policy.EpsilonGreedy? && d.uniform[i] > policy.epsilon && IsFirstMax(q[i], nActions - 1)
  {
  }

  /** The greedy and UCB engines draw nothing: their choice is a function of
      the estimates, the counts and the step alone. */
  lemma DeterministicRules(policy: Policy, nActions: nat, q: seq<seq<real>>, n: seq<seq<int>>, t: nat,
                           d1: Draws, d2: Draws, conf: Confidence)
    requires Rectangular(q, |q|, nActions) && Rectangular(n, |q|, nActions) && AllPositive(n)
    requires DrawsFit(d1, |q|, nActions) && DrawsFit(d2, |q|, nActions) && ConfidenceLaw(conf)
    requires policy.Argmax? || policy.UCB?
    ensures Choose(policy, nActions, q, n, t, d1, conf) == Choose(policy, nActions, q, n, t, d2, conf)
  {
  }

  /** The integer draws of `np.random.randint(0, nActions)`, the range the
      random engine evidently means. */
  ghost predicate DrawsFitInclusive(d: Draws, nBandits: nat, nActions: nat) {
    && |d.uniform| == nBandits
    && |d.randint| == nBandits
    && (forall i :: 0 <= i < nBandits ==> 0.0 <= d.uniform[i] < 1.0)
    && (nActions >= 1 ==> forall i :: 0 <= i < nBandits ==> 0 <= d.randint[i] < nActions)
  }

  /** The random rule over the full arm range [0, nActions): it fails only
      when there is no arm at all. */
  function RandomActionsInclusive(nActions: nat, nBandits: nat, d: Draws): (r: Result<seq<int>>)
    requires DrawsFitInclusive(d, nBandits, nActions)
    ensures r.Err? <==> nActions == 0
    ensures r.Ok? ==> |r.value| == nBandits && forall i :: 0 <= i < nBandits ==> 0 <= r.value[i] < nActions
  {
    if nActions == 0 then Err(EmptyRange) else Ok(d.randint)
  }

  /** Over the full range every arm, the last one included, can be explored. */
  lemma EveryArmExplorable(nActions: nat, nBandits: nat, i: nat, a: nat)
    requires i < nBandits && a < nActions
    ensures exists d: Draws :: DrawsFitInclusive(d, nBandits, nActions)
                            && RandomActionsInclusive(nActions, nBandits, d) == Ok(d.randint)
                            && d.randint[i] == a
  {
    var d := Draws(seq(nBandits, _ => 0.0), seq(nBandits, _ => a));
    assert DrawsFitInclusive(d, nBandits, nActions);
  }

  /** Epsilon-greedy over the full range: a bandit that explores can reach
      every arm, the last one included. */
  lemma EpsilonGreedyExploresEveryArm(epsilon: real, nActions: nat, q: seq<seq<real>>, i: nat, a: nat)
    requires 0.0 <= epsilon
    requires Rectangular(q, |q|, nActions) && i < |q| && a < nActions
    ensures exists d: Draws :: DrawsFitInclusive(d, |q|, nActions)
                            && d.uniform[i] <= epsilon
                            && EpsilonGreedyChoice(epsilon, q, d)[i] == a
  {
    var d := Draws(seq(|q|, _ => 0.0), seq(|q|, _ => a));
    assert DrawsFitInclusive(d, |q|, nActions);
    assert EpsilonGreedyChoice(epsilon, q, d)[i] == d.randint[i];
  }
}
