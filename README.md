# n-arm bandit engines in Dafny

This project models the estimation engine of the n-arm bandit testbed, and
proves properties of that model. The testbed runs many independent bandit
problems side by side. Each step, a selection rule picks one arm per bandit,
the bandits pay a reward for each picked arm, and the engine updates its
estimate of every picked arm.

- `errors.dfy` (module `Errors`): the failures the engine can raise, plus
  `Option`, `Result` and the outcome of `run`.
- `policies.dfy` (module `Policies`): the `choose` rule of each engine:
  - the base engine, which has no rule;
  - `EngineSimple` (random);
  - `EngineArgmax` (greedy);
  - `EngineEpsilonGreedy`;
  - `EngineUCB`.
- `estimates.dfy` (module `Estimates`): the reference meaning of `Q` and `N`.
  Each cell's observations are the one free pull taken at construction, then
  every reward routed to that cell. `N` is the number of observations and
  `Q` is their mean. The incremental sample-average rule of `update` is
  proved to keep `Q` equal to that mean.
- `engine.dfy` (module `EngineBase`): the `Engine` class. `Q` and `N` are
  two-dimensional arrays that `update` changes in place. The class also
  holds the reward history and the `has_run` flag, and has `run` and the
  guard of `plot`. The pure function `Trajectory` says which steps a run
  performs. `Run` is proved to append exactly those steps.

Each engine is a value of the `Policy` datatype. The keyword defaults of the
subclass constructors are the constructor defaults of that datatype:
`EpsilonGreedy(epsilon := 0.1)` and `UCB(c := 2.0)`. The engine constructor
keeps the defaults of `Engine.__init__`: 2000 bandits, 10 arms, 1000 steps.

Randomness and the reward source are explicit inputs:
- `Draws` holds the draws of one `choose` call: the `uniform` values in
  [0, 1) and the `randint` values in [0, nActions - 1).
- `samples[t][i][a]` is the reward that bandit `i` pays at step `t` when arm
  `a` is pulled.
- `initial[i][a]` is the free pull of each arm at construction.
- The UCB term `sqrt(log(t + 1) / N)` is an input function `conf`. It only
  has to be defined for counts of at least 1, and equal to 0 at `t = 0`,
  because `log(1) = 0`.

## Model

| member | source | states |
|---|---|---|
| Policies.ArgmaxRow | engines.py:12-15 | the index `np.argmax` returns for one row: it holds a maximal value, and no earlier index holds a value that large |
| Policies.FirstMaxUnique | engines.py:12-15 | an index is a first maximum of a row exactly when it is the one the argmax rule returns |
| Policies.Greedy | engines.py:15 | `argmax(Q, axis=1)`: one first-maximum arm per bandit |
| Policies.Scores | engines.py:50 | the UCB score of every cell is its estimate plus `c` times the confidence term of the step and the cell's count |
| Policies.Refusal | engines.py:5-50 | which rules fail, and with which error, for a given number of arms and bandits. The base engine always fails. With at least two arms every other rule chooses. With no arm and at least one bandit every rule fails. With no bandit, the random rule never fails, and neither does epsilon-greedy with at least one arm. Any failure of a non-base rule needs at most one arm |
| Policies.EpsilonGreedyChoice | engines.py:31-37 | the merge of epsilon-greedy: a bandit whose uniform draw exceeds epsilon gets a first-maximum arm of its row, and every other bandit keeps its random draw |
| Policies.Choose | engines.py:5-50 | `choose(t)` of every engine (the base engine's `choose` in engine_base.py always fails): fails exactly when the rule cannot choose for `nActions` arms and the given number of bandits, with that error; otherwise one arm in range per bandit. The random rule returns the integer draws, so it never picks the last arm. The greedy rule picks a first maximum of each row of `Q`. Epsilon-greedy exploits exactly when the uniform draw exceeds epsilon and otherwise keeps the random draw. UCB picks a first maximum of each score row |
| Policies.EpsilonGreedyActions | engines.py:27-38 | the in-place loop that overwrites the random choices of exploiting bandits with their greedy arms gives the epsilon-greedy choice. With fewer than two arms and at least one bandit, the random draw fails first. With no arm and no bandit, `argmax` fails |
| Policies.UCBAtStartIsGreedy | engines.py:47-50 | at step 0 the confidence term is zero, so UCB chooses exactly what the greedy engine chooses |
| Policies.EpsilonOneIsRandom | engines.py:27-38 | with epsilon of at least 1, epsilon-greedy chooses exactly what the random engine chooses. The one exception is no bandit and no arm: epsilon-greedy's `argmax` fails there, while the random engine returns an empty choice |
| Policies.EpsilonBelowDrawsIsGreedy | engines.py:27-38 | when every uniform draw exceeds epsilon, epsilon-greedy chooses exactly the greedy arms; with one arm and at least one bandit it still fails, unlike the greedy engine |
| Policies.DeterministicRules | engines.py:11-50 | the greedy and UCB rules ignore the draws: equal `Q`, `N` and step give equal choices |
| Policies.LastArmOnlyByExploiting | engines.py:31-37 | the random engine never returns the last arm; epsilon-greedy returns it only for a bandit that exploits and whose greedy arm it is |
| Policies.RandomActionsInclusive | engines.py:8 | the random rule over the intended range [0, nActions): it fails only with no arm at all, and otherwise every choice is an arm |
| Policies.EveryArmExplorable | engines.py:8 | over the intended range, every arm of every bandit, the last one included, can be drawn |
| Policies.EpsilonGreedyExploresEveryArm | engines.py:34 | with integer draws over the intended range, an exploring bandit of epsilon-greedy can reach every arm, the last one included |
| Estimates.Revised | engine_base.py:62 | one step of the sample-average rule: at the first count the estimate becomes the reward, and otherwise it moves towards the reward without passing it |
| Estimates.Observed | engine_base.py:30-31 | the observations of a cell: at least one, starting with the free pull |
| Estimates.MeanGrid | engine_base.py:30 | the estimate of every cell is the mean of its observations |
| Estimates.StartingGrids | engine_base.py:30-31 | before any step, the estimates are the free pull and every count is 1 |
| Estimates.MeanSingle | engine_base.py:30-31 | a cell with one observation has that observation as its mean |
| Estimates.IncrementalMean | engine_base.py:60-64 | `old + 1/N * (reward - old)`, with the already-incremented count, is exactly the mean of the observations extended by the reward |
| Estimates.RoutedCount | engine_base.py:57-58 | in well-shaped steps, each choice of an arm routes exactly one reward to it |
| Estimates.ObservedStep | engine_base.py:58-64 | one step adds its reward to the observations of the cell it pulls, and their mean follows the incremental rule; every other cell keeps its observations |
| Estimates.CountGrid | engine_base.py:31 | every visit count is the number of observations of its cell, and so at least 1 |
| Estimates.VisitCount | engine_base.py:31 | a visit count is one, for the free pull, plus the number of steps that chose the arm |
| Estimates.UpdateRule | engine_base.py:48-64 | after one more step, the chosen arm of each bandit counts one more visit and moves its mean by the incremental rule; every other cell keeps its count and mean |
| EngineBase.RewardsFor | bandit.py:27-29 | `bandits(actions)`: one reward per bandit, the one its reward source pays for the arm chosen for it |
| EngineBase.RewardsOf | engine_base.py:73 | the reward history of a sequence of steps: one entry per step, in order, each holding that step's rewards |
| EngineBase.Trajectory | engine_base.py:66-77 | a run of `k` rounds produces `k` steps |
| EngineBase.NextStep | engine_base.py:70-73 | step `t` of a run picks one arm in range per bandit and records, for each bandit, the reward its source pays at step `t` for that arm |
| EngineBase.StepActions | engine_base.py:70 | the arms chosen at step `t` of a run: one arm in range per bandit, chosen from the state the earlier steps left |
| EngineBase.TrajectoryNext | engine_base.py:68-76 | one more round appends exactly one step: the arms chosen with index `k` from the state left by the first `k` steps, and the rewards for those arms |
| EngineBase.TrajectoryPrefix | engine_base.py:68-76 | a longer run starts with every shorter run: rounds are never revised |
| EngineBase.StepChosenFromEarlierSteps | engine_base.py:68-76 | step `t` of any run is chosen with index `t` from the estimates and counts left by exactly the `t` steps before it |
| EngineBase.RewardsOfAppend | engine_base.py:73 | the reward history of one more step is the old history plus that step's rewards |
| EngineBase.StepAverage | engine_base.py:83 | the average reward of a step over all bandits: times the number of bandits it gives the step's total |
| EngineBase.StepAverageBounds | engine_base.py:83 | the average of a step lies between any lower and upper bound of its rewards |
| EngineBase.LastArmNeverExplored | engines.py:8 | as written, no step of any run of the random engine pulls the last arm of a bandit or routes a reward to it |
| EngineBase.LastArmKeepsFreePull | engines.py:8 | hence, after any run of the random engine, the last arm of every bandit keeps count 1 and its free-pull estimate |
| EngineBase.GreedyScenarioStep | engine_base.py:66-76 | one greedy bandit, two arms paying 1.0 and -1.0: its first round pulls arm 0 and earns 1.0 |
| EngineBase.GreedyScenarioGrids | engine_base.py:58-64 | after that round, arm 0 has count 2 and estimate 1.0, and arm 1 keeps count 1 and estimate -1.0 |
| EngineBase.GreedyScenario | engine_base.py:66-77 | the whole scenario: one step, counts `[[2, 1]]`, estimates `[[1.0, -1.0]]`, reward history `[[1.0]]` |
| EngineBase.Engine.constructor | engine_base.py:18-34 | `Q` is the free pull, `N` is all ones, the history is empty, `has_run` is false, and the engine invariant holds: estimates are means, counts are observation numbers, one history entry per step |
| EngineBase.Engine.SnapshotsMatch | engine_base.py:30-31 | the arrays `Q` and `N` are, as values, the mean and count grids of the observations so far |
| EngineBase.Engine.CellInvariant | engine_base.py:58-64 | at any time every count is 1 plus the number of times the arm was chosen, so at least 1, and every estimate is the mean of the cell's observations |
| EngineBase.Engine.Update | engine_base.py:48-64 | for each bandit, the chosen cell's count goes up by one and its estimate moves by the incremental rule; every other cell is unchanged; estimates stay the means of the observations and counts their numbers |
| EngineBase.Engine.SelectActions | engine_base.py:70 | the engine's `choose(t)` on its current arrays is the rule applied to the mean and count grids of its observations |
| EngineBase.Engine.Round | engine_base.py:68-76 | one round either fails with the rule's error and changes nothing, or appends the next step of the run and its rewards |
| EngineBase.Engine.Advance | engine_base.py:72-75 | pull, record and update for the chosen arms append the next step of the run and its rewards to the engine |
| EngineBase.Engine.Rounds | engine_base.py:67-76 | the loop of `run` either fails on its first round, with the rule's error and nothing changed, or appends exactly the `max(T, 0)` steps of the run and their rewards |
| EngineBase.Engine.Run | engine_base.py:66-77 | `run` fails only when `T > 0` and the rule cannot choose, and then changes nothing. Otherwise it sets `has_run` and appends the run's steps and rewards, `max(T, 0)` entries in all. For `T <= 0`, `Q` and `N` keep their values |
| EngineBase.Engine.Plot | engine_base.py:79-83 | `plot` fails exactly when `run` has not completed; otherwise it reports, per step, the average reward over all bandits |

## Left out

- The bandits' normal sampling (bandit.py): the reward source is an input table of samples plus the initial free pull; the distributions, their means and the global random stream are not modelled.
- The draws of `np.random.uniform` and `np.random.randint` are inputs. Their ranges are preconditions: uniform in [0, 1), integer in [0, nActions - 1).
- Floating point: estimates and rewards are exact reals, so rounding, NaN and infinities are not modelled.
- `sqrt` and `log` in the UCB score are the input function `conf`. The model assumes only that it is defined for counts of at least 1 and is zero at step 0. The monotonicity of the bonus in the count and in the step is not modelled.
- `plot` draws nothing: matplotlib and `plt.show` are not modelled, only the `has_run` guard and the per-step averages.
- EngineBase.Engine.Plot: returns an empty report after a run of no steps. numpy would fail to average the empty history along axis 1.
- EngineBase.Engine.Plot: does not check that the history length matches `range(T)`. A second `run` doubles the history, and drawing would then fail.
- EngineBase.StepAverage: gives 0.0 for zero bandits, where numpy gives NaN.
- Policies.Choose: for the base engine, `run` calls `choose(t)` but the base `choose` takes no step argument. Python therefore raises a `TypeError` before `NotImplementedError`. The model reports `NotImplemented` for both.
- Zero bandits: numpy's `randint` with `size=0` returns an empty array without checking its range, and the model follows that. numpy itself is not part of this model; the empty result follows its bounded-integer sampler, which returns early for an empty size.
- Negative bandit or arm counts and out-of-range action indices are excluded by the types and preconditions. numpy's negative-index wrap-around and shape errors are not modelled.
- Epsilon and `c` are not validated, as the code does not validate them. A description of the system calls for a configuration error, but the model follows the code.
- Logging, `__str__` and the driver script main.py are not part of this model.
- `N` is a float array in the source and an integer array here. The counts are whole numbers either way.

## Findings

| source | as written | input that shows it | evidently intended | confidence | as-written member | corrected member |
|---|---|---|---|---|---|---|
| engines.py:8 | `randint(0, n_actions - 1)` draws from [0, n_actions - 1), so the random engine never picks the last arm; with one arm and at least one bandit the range is empty and it fails | `n_actions = 2`: every random choice is arm 0, and arm 1 is never explored | draw from [0, n_actions), i.e. `randint(0, n_actions)` | not executed | EngineBase.LastArmNeverExplored | Policies.RandomActionsInclusive |
| engines.py:34 | the exploration draw of epsilon-greedy uses the same half-open range, so the last arm is reached only by exploiting | `n_actions = 2`, `Q[i] = [1.0, 0.0]`, uniform draw 0.05 with epsilon 0.1: the bandit explores, but can only get arm 0 | explore over all arms | not executed | Policies.LastArmOnlyByExploiting | Policies.EpsilonGreedyExploresEveryArm |

The engine itself keeps the range as written, so that its runs match the
source. The corrected range is modelled and proved beside it.
