/**
 * The simulation engine (engine_base.py): the estimate matrix `Q`, the visit
 * counts `N`, the reward history and the `has_run` flag, with `update`,
 * `choose`, `run` and the guard of `plot`.
 *
 * The bandits' reward source is an input: `samples[t][i][a]` is the reward
 * bandit `i` pays at step `t` if arm `a` is pulled, and `initial[i][a]` is the
 * free pull of every arm taken when the engine is built.
 */
module EngineBase {
  import opened Errors
  import opened Policies
  import opened Estimates

  /** `bandits(actions)`: the reward each bandit pays for the arm chosen for it. */
  function RewardsFor(table: seq<seq<real>>, actions: seq<int>): (r: seq<real>)
    requires |table| == |actions|
    requires forall i :: 0 <= i < |actions| ==> 0 <= actions[i] < |table[i]|
    ensures |r| == |actions|
    ensures forall i :: 0 <= i < |actions| ==> r[i] == table[i][actions[i]]
  {
    seq(|actions|, i requires 0 <= i < |actions| => table[i][actions[i]])
  }

  /** The reward vectors of a sequence of steps, in order. */
  function RewardsOf(steps: seq<Step>): (r: seq<seq<real>>)
    ensures |r| == |steps|
    ensures forall k :: 0 <= k < |steps| ==> r[k] == steps[k].rewards
  {
    if |steps| == 0 then [] else RewardsOf(steps[..|steps| - 1]) + [steps[|steps| - 1].rewards]
  }

  ghost predicate SamplesFit(samples: seq<seq<seq<real>>>, nBandits: nat, nActions: nat) {
    forall k :: 0 <= k < |samples| ==> Rectangular(samples[k], nBandits, nActions)
  }

  ghost predicate AllDrawsFit(draws: seq<Draws>, nBandits: nat, nActions: nat) {
    forall k :: 0 <= k < |draws| ==> DrawsFit(draws[k], nBandits, nActions)
  }

  /** What a run consumes fits the engine's shape: the free pull, a reward
      table and draws for every step, and a lawful confidence term. */
  ghost predicate RunInputs(nActions: nat, initial: seq<seq<real>>,
                            samples: seq<seq<seq<real>>>, draws: seq<Draws>, conf: Confidence) {
    && Rectangular(initial, |initial|, nActions)
    && SamplesFit(samples, |initial|, nActions) && AllDrawsFit(draws, |initial|, nActions)
    && ConfidenceLaw(conf)
  }

  /** The number of iterations of `while t < T`. */
  function StepCount(T: int): nat {
    if T <= 0 then 0 else T
  }

  /**
   * The steps a run appends after the steps `base`: step `t` chooses with
   * index `t` from the estimates and counts left by every step before it,
   * then pulls the chosen arms.
   */
  function Trajectory(policy: Policy, conf: Confidence, nActions: nat, initial: seq<seq<real>>,
                      base: seq<Step>, samples: seq<seq<seq<real>>>, draws: seq<Draws>, k: nat): (steps: seq<Step>)
    requires RunInputs(nActions, initial, samples, draws, conf)
    requires k <= |samples| && k <= |draws|
    requires k == 0 || Refusal(policy, nActions, |initial|).None?
    ensures |steps| == k
    decreases k, 0
  {
    if k == 0 then []
    else
      Trajectory(policy, conf, nActions, initial, base, samples, draws, k - 1) +
      [NextStep(policy, conf, nActions, initial, base, samples, draws, k - 1)]
  }

  /** Step `t` of a run: the arms chosen at step `t`, and the reward every
      bandit pays for the arm chosen for it. */
  function NextStep(policy: Policy, conf: Confidence, nActions: nat, initial: seq<seq<real>>,
                    base: seq<Step>, samples: seq<seq<seq<real>>>, draws: seq<Draws>, t: nat): (step: Step)
    requires RunInputs(nActions, initial, samples, draws, conf)
    requires t < |samples| && t < |draws|
    requires Refusal(policy, nActions, |initial|).None?
    ensures |step.actions| == |initial| && |step.rewards| == |initial|
    ensures forall i :: 0 <= i < |initial| ==>
      0 <= step.actions[i] < nActions && step.rewards[i] == samples[t][i][step.actions[i]]
    decreases t, 2
  {
    var actions := StepActions(policy, conf, nActions, initial, base, samples, draws, t);
    Step(actions, RewardsFor(samples[t], actions))
  }

  /** The arms chosen at step `t` of a run: the rule chooses, with index `t`,
      from the estimates and counts the first `t` steps left. */
  function StepActions(policy: Policy, conf: Confidence, nActions: nat, initial: seq<seq<real>>,
                       base: seq<Step>, samples: seq<seq<seq<real>>>, draws: seq<Draws>, t: nat): (actions: seq<int>)
    requires RunInputs(nActions, initial, samples, draws, conf)
    requires t < |samples| && t < |draws|
    requires Refusal(policy, nActions, |initial|).None?
    ensures |actions| == |initial| && forall i :: 0 <= i < |initial| ==> 0 <= actions[i] < nActions
    decreases t, 1
  {
    var state := base + Trajectory(policy, conf, nActions, initial, base, samples, draws, t);
    Choose(policy, nActions, MeanGrid(initial, state), CountGrid(initial, state), t, draws[t], conf).value
  }

  /** One more step of a trajectory chooses from the state the earlier steps left. */
  lemma TrajectoryNext(policy: Policy, conf: Confidence, nActions: nat, initial: seq<seq<real>>,
                       base: seq<Step>, samples: seq<seq<seq<real>>>, draws: seq<Draws>, k: nat)
    requires RunInputs(nActions, initial, samples, draws, conf)
    requires k < |samples| && k < |draws|
    requires Refusal(policy, nActions, |initial|).None?
    ensures var prev := Trajectory(policy, conf, nActions, initial, base, samples, draws, k);
            var actions := Choose(policy, nActions, MeanGrid(initial, base + prev), CountGrid(initial, base + prev),
                                  k, draws[k], conf).value;
            Trajectory(policy, conf, nActions, initial, base, samples, draws, k + 1) ==
            prev + [Step(actions, RewardsFor(samples[k], actions))]
  {
    var prev := Trajectory(policy, conf, nActions, initial, base, samples, draws, k);
    assert StepActions(policy, conf, nActions, initial, base, samples, draws, k) ==
      Choose(policy, nActions, MeanGrid(initial, base + prev), CountGrid(initial, base + prev), k, draws[k], conf).value;
  }

  /** A longer run begins with a shorter one: runs are built step by step. */
  lemma {:induction false} TrajectoryPrefix(policy: Policy, conf: Confidence, nActions: nat, initial: seq<seq<real>>,
                                            base: seq<Step>, samples: seq<seq<seq<real>>>, draws: seq<Draws>,
                                            j: nat, k: nat)
    requires RunInputs(nActions, initial, samples, draws, conf)
    requires j <= k <= |samples| && k <= |draws|
    requires k == 0 || Refusal(policy, nActions, |initial|).None?
    ensures Trajectory(policy, conf, nActions, initial, base, samples, draws, k)[..j] ==
            Trajectory(policy, conf, nActions, initial, base, samples, draws, j)
    decreases k
  {
    if j < k {
      var shorter := Trajectory(policy, conf, nActions, initial, base, samples, draws, k - 1);
      TrajectoryPrefix(policy, conf, nActions, initial, base, samples, draws, j, k - 1);
      assert Trajectory(policy, conf, nActions, initial, base, samples, draws, k)[..j] == shorter[..j];
    }
  }

  /**
   * Steps are strictly ordered: step `t` of any run is chosen with index `t`
   * from the estimates and counts left by exactly the `t` steps before it.
   */
  lemma StepChosenFromEarlierSteps(policy: Policy, conf: Confidence, nActions: nat, initial: seq<seq<real>>,
                                   base: seq<Step>, samples: seq<seq<seq<real>>>, draws: seq<Draws>,
                                   t: nat, k: nat)
    requires RunInputs(nActions, initial, samples, draws, conf)
    requires t < k <= |samples| && k <= |draws|
    requires Refusal(policy, nActions, |initial|).None?
    ensures var run := Trajectory(policy, conf, nActions, initial, base, samples, draws, k);
            var state := base + run[..t];
            && run[t].actions == Choose(policy, nActions, MeanGrid(initial, state), CountGrid(initial, state),
                                        t, draws[t], conf).value
            && run[t].rewards == RewardsFor(samples[t], run[t].actions)
  {
    TrajectoryPrefix(policy, conf, nActions, initial, base, samples, draws, t + 1, k);
    TrajectoryPrefix(policy, conf, nActions, initial, base, samples, draws, t, k);
    TrajectoryNext(policy, conf, nActions, initial, base, samples, draws, t);
    var run := Trajectory(policy, conf, nActions, initial, base, samples, draws, k);
    assert run[t] == run[..t + 1][t];
  }

  /** The first greedy step of the scenario below pulls arm 0 and earns 1.0. */
  lemma GreedyScenarioStep(conf: Confidence)
    requires ConfidenceLaw(conf)
    ensures var initial := [[1.0, -1.0]];
            Trajectory(Argmax, conf, 2, initial, [], [initial], [Draws([0.5], [0])], 1) == [Step([0], [1.0])]
  {
    var initial := [[1.0, -1.0]];
    var draws := [Draws([0.5], [0])];
    assert RunInputs(2, initial, [initial], draws, conf);
    MeanSingle(1.0);
    MeanSingle(-1.0);
    assert Observed(initial, [], 0, 0) == [1.0];
    assert Observed(initial, [], 0, 1) == [-1.0];
    var q0 := MeanGrid(initial, []);
    assert q0[0] == [1.0, -1.0];
    assert q0 == initial;
    assert ArgmaxRow(initial[0]) == 0;
    assert Trajectory(Argmax, conf, 2, initial, [], [initial], draws, 0) == [];
    assert [] + Trajectory(Argmax, conf, 2, initial, [], [initial], draws, 0) == [];
    assert StepActions(Argmax, conf, 2, initial, [], [initial], draws, 0) == [0];
    assert RewardsFor(initial, [0]) == [1.0];
  }

  /** The estimates and counts of the scenario below after its one step. */
  lemma GreedyScenarioGrids()
    ensures var initial := [[1.0, -1.0]];
            var run := [Step([0], [1.0])];
            && CountGrid(initial, run) == [[2, 1]]
            && MeanGrid(initial, run) == [[1.0, -1.0]]
  {
    var initial := [[1.0, -1.0]];
    var run := [Step([0], [1.0])];
    assert run[..0] == [];
    assert Observed(initial, run, 0, 0) == [1.0, 1.0];
    assert Observed(initial, run, 0, 1) == [-1.0];
    MeanSingle(-1.0);
    assert Sum([1.0, 1.0]) == 2.0 by {
      assert [1.0, 1.0][..1] == [1.0];
    }
    assert CountGrid(initial, run)[0] == [2, 1];
    assert MeanGrid(initial, run)[0] == [1.0, -1.0];
  }

  /**
   * One greedy bandit with two arms whose samples are always 1.0 and -1.0:
   * after one step arm 0 has been pulled twice, its estimate is still 1.0,
   * arm 1 is untouched and the reward history holds the one reward 1.0.
   */
  lemma GreedyScenario(conf: Confidence)
    requires ConfidenceLaw(conf)
    ensures var initial := [[1.0, -1.0]];
            var run := Trajectory(Argmax, conf, 2, initial, [], [initial], [Draws([0.5], [0])], 1);
            && run == [Step([0], [1.0])]
            && CountGrid(initial, run) == [[2, 1]]
            && MeanGrid(initial, run) == [[1.0, -1.0]]
            && RewardsOf(run) == [[1.0]]
  {
    GreedyScenarioStep(conf);
    GreedyScenarioGrids();
    assert RewardsOf([Step([0], [1.0])]) == [[1.0]] by {
      assert [Step([0], [1.0])][..0] == [];
    }
  }

  /** The reward vectors of one more step. */
  lemma RewardsOfAppend(steps: seq<Step>, s: Step)
    ensures RewardsOf(steps + [s]) == RewardsOf(steps) + [s.rewards]
  {
    assert (steps + [s])[..|steps|] == steps;
  }

  /** The per-step average reward over all bandits that `plot` draws: spread
      over every bandit, it gives back the step's total reward. */
  function StepAverage(rewards: seq<real>): (r: real)
    ensures |rewards| > 0 ==> r * (|rewards| as real) == Sum(rewards)
  {
    if |rewards| == 0 then 0.0 else Mean(rewards)
  }

  /** A total of rewards lies between the count times any lower and upper bound. */
  lemma {:induction false} SumBounds(s: seq<real>, lo: real, hi: real)
    requires forall k :: 0 <= k < |s| ==> lo <= s[k] <= hi
    ensures (|s| as real) * lo <= Sum(s) <= (|s| as real) * hi
  {
    if |s| > 0 {
      SumBounds(s[..|s| - 1], lo, hi);
    }
  }

  /** The average of a step lies between the smallest and the largest reward of that step. */
  lemma StepAverageBounds(rewards: seq<real>, lo: real, hi: real)
    requires |rewards| > 0
    requires forall k :: 0 <= k < |rewards| ==> lo <= rewards[k] <= hi
    ensures lo <= StepAverage(rewards) <= hi
  {
    SumBounds(rewards, lo, hi);
    var n := |rewards| as real;
    assert StepAverage(rewards) == Sum(rewards) / n;
  }

  /**
   * As written, the random engine never pulls the last arm in a run: no step
   * routes a reward to it.
   */
  lemma {:induction false} LastArmNeverExplored(conf: Confidence, nActions: nat, initial: seq<seq<real>>,
                                                base: seq<Step>, samples: seq<seq<seq<real>>>, draws: seq<Draws>,
                                                k: nat, i: nat)
    requires RunInputs(nActions, initial, samples, draws, conf)
    requires k <= |samples| && k <= |draws|
    requires nActions >= 2 && i < |initial|
    ensures var run := Trajectory(Simple, conf, nActions, initial, base, samples, draws, k);
            ChosenCount(run, i, nActions - 1) == 0 && Routed(run, i, nActions - 1) == []
    decreases k
  {
    if k > 0 {
      LastArmNeverExplored(conf, nActions, initial, base, samples, draws, k - 1, i);
      var run := Trajectory(Simple, conf, nActions, initial, base, samples, draws, k);
      assert run[..k - 1] == Trajectory(Simple, conf, nActions, initial, base, samples, draws, k - 1);
      var actions := StepActions(Simple, conf, nActions, initial, base, samples, draws, k - 1);
      assert actions == draws[k - 1].randint;
      assert run[k - 1] == NextStep(Simple, conf, nActions, initial, base, samples, draws, k - 1);
      assert run[k - 1].actions == actions;
    }
  }

  /** Hence, after any run of the random engine, the last arm of every bandit
      keeps the count and the estimate of its free pull. */
  lemma LastArmKeepsFreePull(conf: Confidence, nActions: nat, initial: seq<seq<real>>,
                             samples: seq<seq<seq<real>>>, draws: seq<Draws>, k: nat, i: nat)
    requires RunInputs(nActions, initial, samples, draws, conf)
    requires k <= |samples| && k <= |draws|
    requires nActions >= 2 && i < |initial|
    ensures var run := Trajectory(Simple, conf, nActions, initial, [], samples, draws, k);
            CountGrid(initial, run)[i][nActions - 1] == 1 &&
            MeanGrid(initial, run)[i][nActions - 1] == initial[i][nActions - 1]
  {
    LastArmNeverExplored(conf, nActions, initial, [], samples, draws, k, i);
    var run := Trajectory(Simple, conf, nActions, initial, [], samples, draws, k);
    assert Observed(initial, run, i, nActions - 1) == [initial[i][nActions - 1]];
    MeanSingle(initial[i][nActions - 1]);
  }

  class Engine {
    const nBandits: nat
    const nActions: nat
    const T: int
    const policy: Policy
    /** Reward estimates, one row per bandit. */
    const Q: array2<real>
    /** Visit counts, one row per bandit. */
    const N: array2<int>
    var rewardHistory: seq<seq<real>>
    var hasRun: bool

    /** The free pull of every arm taken at construction. */
    ghost const initial: seq<seq<real>>
    /** Every step `update` has applied, oldest first. */
    ghost var log: seq<Step>

    /** `Q` holds the mean of every cell's observations and `N` their number,
        and the reward history has one entry per step. */
    ghost predicate Valid()
      reads this, Q, N
    {
      Consistent() && |rewardHistory| == |log|
    }

    /** `Q` holds the mean of every cell's observations and `N` their number. */
    ghost predicate Consistent()
      reads this`log, Q, N
    {
      && Q.Length0 == nBandits && Q.Length1 == nActions
      && N.Length0 == nBandits && N.Length1 == nActions
      && Rectangular(initial, nBandits, nActions)
      && WellShaped(log, nBandits, nActions)
      && (forall i, a :: 0 <= i < nBandits && 0 <= a < nActions ==>
            N[i, a] == |Observed(initial, log, i, a)| && Q[i, a] == Mean(Observed(initial, log, i, a)))
    }

    /** `Engine.__init__`: `Q` is the initial pull, `N` all ones, no history, not run. */
    constructor (policy: Policy, initial: seq<seq<real>>, nBandits: nat := 2000, nActions: nat := 10, T: int := 1000)
      requires Rectangular(initial, nBandits, nActions)
      ensures Valid() && fresh(Q) && fresh(N)
      ensures this.policy == policy && this.initial == initial && this.T == T
      ensures this.nBandits == nBandits && this.nActions == nActions
      ensures forall i, a :: 0 <= i < nBandits && 0 <= a < nActions ==> Q[i, a] == initial[i][a] && N[i, a] == 1
      ensures rewardHistory == [] && !hasRun && log == []
    {
      this.policy := policy;
      this.nBandits := nBandits;
      this.nActions := nActions;
      this.T := T;
      this.initial := initial;
      Q := new real[nBandits, nActions]((i, a) requires 0 <= i < nBandits && 0 <= a < nActions => initial[i][a]);
      N := new int[nBandits, nActions]((i, a) => 1);
      rewardHistory := [];
      hasRun := false;
      log := [];
      new;
      forall i, a | 0 <= i < nBandits && 0 <= a < nActions
        ensures Q[i, a] == Mean(Observed(initial, log, i, a))
      {
        assert Observed(initial, log, i, a) == [initial[i][a]];
        MeanSingle(initial[i][a]);
      }
    }

    /** `Q` as a matrix value. */
    function QRows(): (q: seq<seq<real>>)
      reads Q
    {
      seq(Q.Length0, i requires 0 <= i < Q.Length0 reads Q =>
        seq(Q.Length1, a requires 0 <= a < Q.Length1 reads Q => Q[i, a]))
    }

    /** `N` as a matrix value. */
    function NRows(): (n: seq<seq<int>>)
      reads N
    {
      seq(N.Length0, i requires 0 <= i < N.Length0 reads N =>
        seq(N.Length1, a requires 0 <= a < N.Length1 reads N => N[i, a]))
    }

    /** In a valid engine the matrices are the means and counts of the observations. */
    lemma SnapshotsMatch()
      requires Valid()
      ensures QRows() == MeanGrid(initial, log) && NRows() == CountGrid(initial, log)
    {
      var q, n := QRows(), NRows();
      var mq, mn := MeanGrid(initial, log), CountGrid(initial, log);
      forall i | 0 <= i < nBandits ensures q[i] == mq[i] && n[i] == mn[i] {
        assert |q[i]| == |mq[i]| && forall a :: 0 <= a < nActions ==> q[i][a] == mq[i][a];
        assert |n[i]| == |mn[i]| && forall a :: 0 <= a < nActions ==> n[i][a] == mn[i][a];
      }
    }

    /**
     * `N[i][a]` is one plus the number of steps that chose arm `a` for bandit
     * `i`, hence never zero, and `Q[i][a]` is the mean of the free pull and of
     * every reward routed to that cell.
     */
    lemma CellInvariant(i: nat, a: nat)
      requires Valid() && i < nBandits && a < nActions
      ensures N[i, a] == 1 + ChosenCount(log, i, a) >= 1
      ensures Q[i, a] == Mean([initial[i][a]] + Routed(log, i, a))
    {
      VisitCount(initial, log, nActions, i, a);
    }

    /**
     * `update`: for every bandit the chosen arm's count grows by one and its
     * estimate moves by the sample-average rule; every other cell is kept.
     */
    method Update(actions: seq<int>, rewards: seq<real>)
      requires Consistent()
      requires |actions| == nBandits && |rewards| == nBandits
      requires forall i :: 0 <= i < nBandits ==> 0 <= actions[i] < nActions
      modifies Q, N, this`log
      ensures Consistent()
      ensures log == old(log) + [Step(actions, rewards)]
      ensures forall i, a :: 0 <= i < nBandits && 0 <= a < nActions ==>
        N[i, a] == old(N[i, a]) + (if a == actions[i] then 1 else 0)
      ensures forall i, a :: 0 <= i < nBandits && 0 <= a < nActions ==>
        Q[i, a] == if a == actions[i] then Revised(old(Q[i, a]), N[i, a], rewards[i]) else old(Q[i, a])
    {
      ghost var before := log;
      forall r, a | 0 <= r < nBandits && 0 <= a < nActions ensures N[r, a] >= 1 {
        assert N[r, a] == |Observed(initial, before, r, a)|;
      }
      for i := 0 to nBandits
        invariant log == before
        invariant forall r, a :: 0 <= r < nBandits && 0 <= a < nActions ==> old(N[r, a]) >= 1
        invariant forall r, a :: 0 <= r < nBandits && 0 <= a < nActions ==>
          N[r, a] == old(N[r, a]) + (if r < i && a == actions[r] then 1 else 0)
        invariant forall r, a :: 0 <= r < nBandits && 0 <= a < nActions ==>
          Q[r, a] == if r < i && a == actions[r] then Revised(old(Q[r, a]), N[r, a], rewards[r]) else old(Q[r, a])
      {
        var a := actions[i];
        N[i, a] := N[i, a] + 1;
        Q[i, a] := Revised(Q[i, a], N[i, a], rewards[i]);
      }
      log := log + [Step(actions, rewards)];
      forall i, a | 0 <= i < nBandits && 0 <= a < nActions
        ensures N[i, a] == |Observed(initial, log, i, a)| && Q[i, a] == Mean(Observed(initial, log, i, a))
      {
        assert old(N[i, a]) == |Observed(initial, before, i, a)| && old(Q[i, a]) == Mean(Observed(initial, before, i, a));
        ObservedStep(initial, before, Step(actions, rewards), i, a);
      }
    }

    /** `choose(t)`: reads `Q` and `N`, changes nothing, and returns what the
        engine's rule gives for the current estimates and counts. */
    method SelectActions(t: nat, d: Draws, conf: Confidence) returns (r: Result<seq<int>>)
      requires Valid() && DrawsFit(d, nBandits, nActions) && ConfidenceLaw(conf)
      ensures r == Choose(policy, nActions, MeanGrid(initial, log), CountGrid(initial, log), t, d, conf)
    {
      var q, n := QRows(), NRows();
      SnapshotsMatch();
      if policy.EpsilonGreedy? {
        r := EpsilonGreedyActions(policy.epsilon, nActions, q, d);
      } else {
        r := Choose(policy, nActions, q, n, t, d, conf);
      }
    }

    /**
     * One round of the loop of `run`: choose with step index `t`, pull the
     * chosen arms, record the rewards, update.  When the rule cannot choose,
     * nothing changes.
     */
    method Round(t: nat, ghost base: seq<Step>, ghost history: seq<seq<real>>,
                 samples: seq<seq<seq<real>>>, draws: seq<Draws>, conf: Confidence)
      returns (failure: Option<EngineError>)
      requires Valid() && RunInputs(nActions, initial, samples, draws, conf)
      requires t < |samples| && t < |draws|
      requires t > 0 ==> Refusal(policy, nActions, nBandits).None?
      requires log == base + Trajectory(policy, conf, nActions, initial, base, samples, draws, t)
      requires rewardHistory == history + RewardsOf(Trajectory(policy, conf, nActions, initial, base, samples, draws, t))
      modifies Q, N, this`log, this`rewardHistory
      ensures Valid()
      ensures failure == Refusal(policy, nActions, nBandits)
      ensures failure.Some? ==> log == old(log) && rewardHistory == old(rewardHistory)
      ensures failure.None? ==> log == base + Trajectory(policy, conf, nActions, initial, base, samples, draws, t + 1)
      ensures failure.None? ==>
        rewardHistory == history + RewardsOf(Trajectory(policy, conf, nActions, initial, base, samples, draws, t + 1))
    {
      var choice := SelectActions(t, draws[t], conf);
      if choice.Err? {
        return Some(choice.error);
      }
      assert choice.value == StepActions(policy, conf, nActions, initial, base, samples, draws, t);
      Advance(t, base, history, samples, draws, conf, choice.value);
      failure := None;
    }

    /** The rest of a round once the arms are chosen: pull, record, update. */
    method Advance(t: nat, ghost base: seq<Step>, ghost history: seq<seq<real>>,
                   samples: seq<seq<seq<real>>>, draws: seq<Draws>, conf: Confidence, actions: seq<int>)
      requires Valid() && RunInputs(nActions, initial, samples, draws, conf)
      requires t < |samples| && t < |draws| && Refusal(policy, nActions, nBandits).None?
      requires log == base + Trajectory(policy, conf, nActions, initial, base, samples, draws, t)
      requires rewardHistory == history + RewardsOf(Trajectory(policy, conf, nActions, initial, base, samples, draws, t))
      requires actions == StepActions(policy, conf, nActions, initial, base, samples, draws, t)
      modifies Q, N, this`log, this`rewardHistory
      ensures Valid()
      ensures log == base + Trajectory(policy, conf, nActions, initial, base, samples, draws, t + 1)
      ensures rewardHistory == history + RewardsOf(Trajectory(policy, conf, nActions, initial, base, samples, draws, t + 1))
    {
      ghost var prev := Trajectory(policy, conf, nActions, initial, base, samples, draws, t);
      var rewards := RewardsFor(samples[t], actions);
      assert NextStep(policy, conf, nActions, initial, base, samples, draws, t) == Step(actions, rewards);
      assert Trajectory(policy, conf, nActions, initial, base, samples, draws, t + 1) == prev + [Step(actions, rewards)];
      rewardHistory := rewardHistory + [rewards];
      Update(actions, rewards);
      RewardsOfAppend(prev, Step(actions, rewards));
    }

    /**
     * The loop of `run`: `max(T, 0)` rounds of choose, pull, record, update.
     * A rule that cannot choose fails on the first round, before anything
     * has changed.
     */
    method Rounds(samples: seq<seq<seq<real>>>, draws: seq<Draws>, conf: Confidence)
      returns (failure: Option<EngineError>)
      requires Valid()
      requires T <= |samples| && T <= |draws|
      requires SamplesFit(samples, nBandits, nActions) && AllDrawsFit(draws, nBandits, nActions)
      requires ConfidenceLaw(conf)
      modifies Q, N, this`log, this`rewardHistory
      ensures Valid()
      ensures failure.Some? ==> T > 0 && failure == Refusal(policy, nActions, nBandits)
      ensures failure.Some? ==> log == old(log) && rewardHistory == old(rewardHistory)
      ensures failure.None? ==> T <= 0 || Refusal(policy, nActions, nBandits).None?
      ensures failure.None? ==>
        log == old(log) + Trajectory(policy, conf, nActions, initial, old(log), samples, draws, StepCount(T))
      ensures failure.None? ==>
        rewardHistory == old(rewardHistory) +
        RewardsOf(Trajectory(policy, conf, nActions, initial, old(log), samples, draws, StepCount(T)))
      ensures failure.None? ==> |rewardHistory| == |old(rewardHistory)| + StepCount(T)
      ensures failure.Some? || T <= 0 ==> forall i, a :: 0 <= i < nBandits && 0 <= a < nActions ==>
        Q[i, a] == old(Q[i, a]) && N[i, a] == old(N[i, a])
    {
      ghost var log0 := log;
      assert RunInputs(nActions, initial, samples, draws, conf);
      var t := 0;
      while t < T
        invariant 0 <= t <= StepCount(T)
        invariant Valid()
        invariant t > 0 ==> Refusal(policy, nActions, nBandits).None?
        invariant log == log0 + Trajectory(policy, conf, nActions, initial, log0, samples, draws, t)
        invariant rewardHistory == old(rewardHistory) +
          RewardsOf(Trajectory(policy, conf, nActions, initial, log0, samples, draws, t))
      {
        failure := Round(t, log0, old(rewardHistory), samples, draws, conf);
        if failure.Some? {
          assert log == log0;
          return;
        }
        t := t + 1;
      }
      failure := None;
    }

    /** `run`: the rounds, then the flag `plot` checks. */
    method Run(samples: seq<seq<seq<real>>>, draws: seq<Draws>, conf: Confidence) returns (outcome: Outcome)
      requires Valid()
      requires T <= |samples| && T <= |draws|
      requires SamplesFit(samples, nBandits, nActions) && AllDrawsFit(draws, nBandits, nActions)
      requires ConfidenceLaw(conf)
      modifies Q, N, this`log, this`rewardHistory, this`hasRun
      ensures Valid()
      ensures outcome.Fail? ==> T > 0 && Refusal(policy, nActions, nBandits) == Some(outcome.error)
      ensures outcome.Fail? ==> log == old(log) && rewardHistory == old(rewardHistory) && hasRun == old(hasRun)
      ensures outcome.Pass? ==> hasRun && (T <= 0 || Refusal(policy, nActions, nBandits).None?)
      ensures outcome.Pass? ==>
        log == old(log) + Trajectory(policy, conf, nActions, initial, old(log), samples, draws, StepCount(T))
      ensures outcome.Pass? ==>
        rewardHistory == old(rewardHistory) +
        RewardsOf(Trajectory(policy, conf, nActions, initial, old(log), samples, draws, StepCount(T)))
      ensures outcome.Pass? ==> |rewardHistory| == |old(rewardHistory)| + StepCount(T)
      ensures outcome.Fail? || T <= 0 ==> forall i, a :: 0 <= i < nBandits && 0 <= a < nActions ==>
        Q[i, a] == old(Q[i, a]) && N[i, a] == old(N[i, a])
    {
      var failure := Rounds(samples, draws, conf);
      if failure.Some? {
        return Fail(failure.value);
      }
      hasRun := true;
      outcome := Pass;
    }

    /** The guard of `plot`: results exist only once `run` has completed; they
        are then the per-step average reward over all bandits. */
    method Plot() returns (r: Result<seq<real>>)
      ensures r.Err? <==> !hasRun
      ensures r.Err? ==> r.error == NotRun
      ensures r.Ok? ==> |r.value| == |rewardHistory|
      ensures r.Ok? ==> forall k :: 0 <= k < |rewardHistory| ==> r.value[k] == StepAverage(rewardHistory[k])
    {
      if !hasRun {
        return Err(NotRun);
      }
      var history := rewardHistory;
      r := Ok(seq(|history|, k requires 0 <= k < |history| => StepAverage(history[k])));
    }
  }
}
