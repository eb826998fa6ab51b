/**
 * The sample-average estimate behind `Engine.update` (engine_base.py): the
 * rewards routed to each (bandit, arm) cell, their mean, and the incremental
 * rule that keeps the mean up to date.
 */
module Estimates {
  import opened Policies

  /** One application of `update`: an arm and the reward it paid, per bandit. */
  datatype Step = Step(actions: seq<int>, rewards: seq<real>)

  function Sum(s: seq<real>): real {
    if |s| == 0 then 0.0 else Sum(s[..|s| - 1]) + s[|s| - 1]
  }

  /** The arithmetic mean of a non-empty sequence of rewards. */
  function Mean(s: seq<real>): real
    requires |s| > 0
  {
    Sum(s) / (|s| as real)
  }

  /** The sample-average rule of `update` for one cell: the estimate moves
      towards the new reward by 1 / (visit count including this reward). */
  function Revised(estimate: real, count: int, reward: real): (r: real)
    requires count >= 1
    ensures count == 1 ==> r == reward
    ensures estimate <= reward ==> estimate <= r <= reward
    ensures reward <= estimate ==> reward <= r <= estimate
  {
    var w := 1.0 / (count as real);
    assert 0.0 < w <= 1.0;
    estimate + w * (reward - estimate)
  }

  /** The mean of a single reward is that reward. */
  lemma MeanSingle(x: real)
    ensures Mean([x]) == x
  {
    assert [x][..0] == [];
    assert Sum([x]) == x;
    assert |[x]| as real == 1.0;
  }

  /**
   * The incremental rule of `update`: appending a reward `r` to `s` moves the
   * mean by (r - mean) / (new count), so the rule keeps the exact mean.
   */
  lemma IncrementalMean(s: seq<real>, r: real)
    requires |s| > 0
    ensures Mean(s + [r]) == Revised(Mean(s), |s| + 1, r)
  {
    var n := |s| as real;
    var m := Mean(s);
    assert (s + [r])[..|s|] == s;
    assert Sum(s) == m * n;
    calc {
      Mean(s + [r]);
      (Sum(s) + r) / (n + 1.0);
      (m * (n + 1.0) + (r - m)) / (n + 1.0);
      m + (r - m) / (n + 1.0);
    }
  }

  /** The steps a run produces: every step has one action and one reward per
      bandit, and every action is an arm. */
  ghost predicate WellShaped(log: seq<Step>, nBandits: nat, nActions: nat) {
    forall k :: 0 <= k < |log| ==>
      && |log[k].actions| == nBandits
      && |log[k].rewards| == nBandits
      && (forall i :: 0 <= i < nBandits ==> 0 <= log[k].actions[i] < nActions)
  }

  /** Whether step `s` pulled arm `a` of bandit `i` (and recorded its reward). */
  predicate Pulls(s: Step, i: nat, a: int) {
    i < |s.actions| && i < |s.rewards| && s.actions[i] == a
  }

  /** The rewards of `log` routed to arm `a` of bandit `i`, oldest first. */
  function Routed(log: seq<Step>, i: nat, a: int): seq<real> {
    if |log| == 0 then []
    else
      var s := log[|log| - 1];
      Routed(log[..|log| - 1], i, a) + (if Pulls(s, i, a) then [s.rewards[i]] else [])
  }

  /** The number of steps of `log` that chose arm `a` for bandit `i`. */
  function ChosenCount(log: seq<Step>, i: nat, a: int): nat {
    if |log| == 0 then 0
    else
      var s := log[|log| - 1];
      ChosenCount(log[..|log| - 1], i, a) + (if i < |s.actions| && s.actions[i] == a then 1 else 0)
  }

  /** In a well-shaped log every choice of an arm routes exactly one reward to it. */
  lemma {:induction false} RoutedCount(log: seq<Step>, nBandits: nat, nActions: nat, i: nat, a: int)
    requires WellShaped(log, nBandits, nActions) && i < nBandits
    ensures |Routed(log, i, a)| == ChosenCount(log, i, a)
  {
    if |log| > 0 {
      RoutedCount(log[..|log| - 1], nBandits, nActions, i, a);
    }
  }

  /** Every observation of cell (i, a): the initial free pull, then the routed rewards. */
  function Observed(initial: seq<seq<real>>, log: seq<Step>, i: nat, a: nat): (obs: seq<real>)
    requires i < |initial| && a < |initial[i]|
    ensures |obs| >= 1 && obs[0] == initial[i][a]
  {
    [initial[i][a]] + Routed(log, i, a)
  }

  /** One more step adds its reward to the observations of the cell it pulls, and to no other. */
  lemma ObservedAppend(initial: seq<seq<real>>, log: seq<Step>, s: Step, i: nat, a: nat)
    requires i < |initial| && a < |initial[i]|
    ensures Observed(initial, log + [s], i, a) ==
      Observed(initial, log, i, a) + (if Pulls(s, i, a) then [s.rewards[i]] else [])
  {
    assert (log + [s])[..|log|] == log;
  }

  /** The cell-level form of `update`: the observations of the cell a step
      pulls grow by that step's reward and their mean follows the incremental
      rule; any other cell keeps its observations. */
  lemma ObservedStep(initial: seq<seq<real>>, log: seq<Step>, s: Step, i: nat, a: nat)
    requires i < |initial| && a < |initial[i]| && i < |s.actions| && i < |s.rewards|
    ensures |Observed(initial, log + [s], i, a)| ==
      |Observed(initial, log, i, a)| + (if s.actions[i] == a then 1 else 0)
    ensures s.actions[i] == a ==>
      Mean(Observed(initial, log + [s], i, a)) ==
      Revised(Mean(Observed(initial, log, i, a)), |Observed(initial, log + [s], i, a)|, s.rewards[i])
    ensures s.actions[i] != a ==> Observed(initial, log + [s], i, a) == Observed(initial, log, i, a)
  {
    var obs := Observed(initial, log, i, a);
    ObservedAppend(initial, log, s, i, a);
    if s.actions[i] == a {
      assert Observed(initial, log + [s], i, a) == obs + [s.rewards[i]];
      IncrementalMean(obs, s.rewards[i]);
    }
  }

  /** The estimates the engine should hold after `log`: the mean of every cell's observations. */
  function MeanGrid(initial: seq<seq<real>>, log: seq<Step>): (g: seq<seq<real>>)
    ensures |g| == |initial| && forall i :: 0 <= i < |initial| ==> |g[i]| == |initial[i]|
    ensures forall i, a :: 0 <= i < |initial| && 0 <= a < |initial[i]| ==> g[i][a] == Mean(Observed(initial, log, i, a))
  {
    seq(|initial|, i requires 0 <= i < |initial| =>
      seq(|initial[i]|, a requires 0 <= a < |initial[i]| => Mean(Observed(initial, log, i, a))))
  }

  /** The visit counts the engine should hold after `log`: every cell's number of observations. */
  function CountGrid(initial: seq<seq<real>>, log: seq<Step>): (g: seq<seq<int>>)
    ensures |g| == |initial| && forall i :: 0 <= i < |initial| ==> |g[i]| == |initial[i]|
    ensures forall i, a :: 0 <= i < |initial| && 0 <= a < |initial[i]| ==> g[i][a] == |Observed(initial, log, i, a)|
    ensures AllPositive(g)
  {
    seq(|initial|, i requires 0 <= i < |initial| =>
      seq(|initial[i]|, a requires 0 <= a < |initial[i]| => |Observed(initial, log, i, a)|))
  }

  /** Before any step, the estimates are the free pull and every count is 1. */
  lemma StartingGrids(initial: seq<seq<real>>)
    ensures MeanGrid(initial, []) == initial
    ensures forall i, a :: 0 <= i < |initial| && 0 <= a < |initial[i]| ==> CountGrid(initial, [])[i][a] == 1
  {
    var g := MeanGrid(initial, []);
    forall i | 0 <= i < |initial|
      ensures g[i] == initial[i]
    {
      forall a | 0 <= a < |initial[i]|
        ensures g[i][a] == initial[i][a]
      {
        assert Observed(initial, [], i, a) == [initial[i][a]];
        MeanSingle(initial[i][a]);
      }
    }
  }

  /** A visit count is one (the free pull) plus the number of steps that chose the arm. */
  lemma VisitCount(initial: seq<seq<real>>, log: seq<Step>, nActions: nat, i: nat, a: nat)
    requires Rectangular(initial, |initial|, nActions) && WellShaped(log, |initial|, nActions)
    requires i < |initial| && a < nActions
    ensures CountGrid(initial, log)[i][a] == 1 + ChosenCount(log, i, a) >= 1
  {
    RoutedCount(log, |initial|, nActions, i, a);
  }

  /**
   * The spec-level form of `update`: after one more step, the chosen cell of
   * each bandit counts one more visit and moves its mean by the incremental
   * rule; every other cell keeps its count and its mean.
   */
  lemma UpdateRule(initial: seq<seq<real>>, log: seq<Step>, s: Step, nActions: nat, i: nat, a: nat)
    requires Rectangular(initial, |initial|, nActions)
    requires i < |initial| && a < nActions && i < |s.actions| && i < |s.rewards|
    ensures CountGrid(initial, log + [s])[i][a] ==
      CountGrid(initial, log)[i][a] + (if s.actions[i] == a then 1 else 0)
    ensures s.actions[i] == a ==>
      MeanGrid(initial, log + [s])[i][a] ==
      Revised(MeanGrid(initial, log)[i][a], CountGrid(initial, log + [s])[i][a], s.rewards[i])
    ensures s.actions[i] != a ==> MeanGrid(initial, log + [s])[i][a] == MeanGrid(initial, log)[i][a]
  {
    ObservedStep(initial, log, s, i, a);
  }
}
