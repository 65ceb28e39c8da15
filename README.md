# Tabular control for Blackjack: epsilon-greedy Monte Carlo and Q-learning

This project models the deterministic core of two tabular reinforcement-learning
scripts that learn to play Blackjack:

- `mc_epsilon_greedy.py`: first-visit Monte Carlo control.
- `q_learning_epsilon_greedy_GLIE.py`: Q-learning with a step size `1/(1 + n)` that
  shrinks with the visit count `n` of each (state, action) pair.

Both scripts share one epsilon-greedy policy over the action-value table Q. Each has
a `train` loop and a `test` loop.

Modules:

- `EpsilonGreedy` (`epsilon_greedy.dfy`) covers the Q table and the policy.
  - Q is a `map<S, seq<real>>`.
  - The lazy default of the source's `defaultdict` is made explicit: `Row` reads with a
    zero default and `Touch` inserts the zero row.
  - `Policy` is `policy_fn`. `PolicyFn` is the call, including its side effect of
    creating the row.
- `Episodes` (`episodes.dfy`) covers the environment as the loops see it.
  - An episode is a `Script`: the state `env.reset()` returned, then, step by step,
    the action that was drawn and what `env.step` answered.
  - It holds the capped 100-step loop that both `test` functions run (`Play`) and what
    such an episode adds to the totals.
- `MonteCarlo` (`monte_carlo.dfy`) covers `train` and `test` of the Monte Carlo script.
  - Rollout into an episode trace.
  - The set of visited pairs, the first occurrence and the discounted return `G`.
  - The update of `returns_sum`, `returns_count` and Q.
  - The whole training run, proved against a specification: every Q cell is the average
    of the first-visit returns of its pair over the episodes that visited it, and 0 for
    a pair never visited.
- `QLearning` (`q_learning.dfy`) covers `train` and `test` of the Q-learning script.
  - One TD transition, both as a function (`Transition`) and as the method `train`
    executes (`Transit`).
  - The per-episode loop with the statistics arrays.
  - The training run, proved equal to a fold of `Transition` over all the steps.
  - Counter and step-size facts, the win count and the winning ratio.

Values are exact reals, so there is no floating-point rounding.

## Model

| member | source | states |
|---|---|---|
| EpsilonGreedy.Row | mc_epsilon_greedy.py:37 | A state missing from Q reads as a row of `nA` zeros; every row read has `nA` entries. |
| EpsilonGreedy.Touch | mc_epsilon_greedy.py:21 | Evaluating `Q[s]` on the defaultdict: the result has a row for `s` and every row still has `nA` entries. What it adds and keeps is given by `TouchKeepsValues`. |
| EpsilonGreedy.TouchKeepsValues | mc_epsilon_greedy.py:21 | Evaluating `Q[s]` adds `s` to the keys if it was missing and changes no existing row. Reading `s` afterwards gives what the default read gave before. |
| EpsilonGreedy.SetCell | mc_epsilon_greedy.py:83 | The assignment `Q[state][action] = v`: every row keeps `nA` entries. Its effect on each cell is given by `SetCellEffect`. |
| EpsilonGreedy.SetCellEffect | mc_epsilon_greedy.py:83 | Writing `Q[state][action]` adds the row of `state` if missing and sets that cell. Every other cell keeps its value, and the other cells of a new row read 0. |
| EpsilonGreedy.ArgMax | mc_epsilon_greedy.py:21 | `np.argmax`, returning an index of the row. That it is the first index of the largest value is given by `ArgMaxIsFirstMax` and `ArgMaxCharacterised`. |
| EpsilonGreedy.ArgMaxIsFirstMax | mc_epsilon_greedy.py:21 | `np.argmax` returns an index holding the largest value, and no earlier index holds it. |
| EpsilonGreedy.ArgMaxCharacterised | mc_epsilon_greedy.py:21 | An index is the first maximum if and only if it is the one `ArgMax` returns. |
| EpsilonGreedy.Policy | mc_epsilon_greedy.py:20-22 | The vector `A` of `policy_fn`, one entry per action. Its entries are given by `PolicyEntry`, and it is a distribution by `PolicyIsDistribution`. |
| EpsilonGreedy.PolicyFn | mc_epsilon_greedy.py:19-23 | `policy_fn(observation)` creates the zero row of an unseen observation. It returns the distribution computed from the row as the default read gives it. |
| EpsilonGreedy.PolicyEntry | mc_epsilon_greedy.py:20-22 | Action `i` gets `epsilon/nA`. It gets an extra `1 - epsilon` exactly when `i` is the first index of the largest value. |
| EpsilonGreedy.PolicyIsDistribution | mc_epsilon_greedy.py:20-22 | For `0 <= epsilon <= 1` no probability is negative and the probabilities sum to exactly 1. |
| EpsilonGreedy.PolicyNegativeEntry | mc_epsilon_greedy.py:20-22 | With at least two actions, a negative `epsilon`, or `epsilon * (nA - 1) > nA`, gives the vector a negative entry. |
| EpsilonGreedy.BestActionMostLikely | mc_epsilon_greedy.py:22 | For `epsilon <= 1` no action is more likely than the greedy one. |
| EpsilonGreedy.GreedyWhenEpsilonZero | mc_epsilon_greedy.py:20-22 | With `epsilon = 0` the greedy action gets probability 1 and every other action gets 0. |
| EpsilonGreedy.UniformWhenEpsilonOne | mc_epsilon_greedy.py:20-22 | With `epsilon = 1` every action gets `1/nA`. |
| Episodes.StepsTaken | mc_epsilon_greedy.py:60-67 | A loop of at most `cap` steps that breaks on `done` takes at most `cap` steps, and at least one when `cap > 0`. |
| Episodes.StepsTakenStops | mc_epsilon_greedy.py:60-67 | No step before the last one taken is `done`. If the loop stopped before the cap, the last step taken is `done`. |
| Episodes.StepsTakenStopsAt | mc_epsilon_greedy.py:60-67 | A loop that stops at step `t` takes `t + 1` steps when no earlier step is `done` and step `t` is `done` or the last one under the cap. |
| Episodes.EndingOf | mc_epsilon_greedy.py:99-106 | How a capped episode ends: `Done` with a reward or cut off. Its two cases are given by `EndingOfCases`. |
| Episodes.EndingOfCases | mc_epsilon_greedy.py:99-106 | A capped episode is cut off exactly when none of its first 100 steps is `done`. Otherwise it ends with the reward of the first `done` step. |
| Episodes.FirstDone | q_learning_epsilon_greedy_GLIE.py:55-77 | An uncapped episode stops at a `done` step, and no earlier step is `done`. |
| Episodes.TotalRewardStep | mc_epsilon_greedy.py:103-104 | One more episode adds the reward of its `done` step to `reward_total`, or nothing when it is cut off. |
| Episodes.TouchedBeforeOnlyAdds | mc_epsilon_greedy.py:99-100 | Playing `t` steps adds exactly the observed states to Q, each new one with a zero row, and changes no existing row. |
| Episodes.TouchedAllOnlyAdds | mc_epsilon_greedy.py:96-106 | Playing the episodes with Q read only adds zero rows for exactly the observed states that had none, and changes no existing row. |
| Episodes.Play | mc_epsilon_greedy.py:99-106 | The capped inner loop of `test` touches Q for the states it observes and ends as `EndingOf` says. |
| MonteCarlo.TraceBeforeElements | mc_epsilon_greedy.py:64 | After `t` appends the trace has `t` elements, element `i` recording step `i`. |
| MonteCarlo.TraceShape | mc_epsilon_greedy.py:58-68 | The trace has 1 to 100 elements. Element `t` is the state observed before step `t` with that step's action and reward. The trace stops at the first `done` step or at the cap, and its last element carries the `done` reward. |
| MonteCarlo.Rollout | mc_epsilon_greedy.py:58-68 | The rollout builds exactly the trace, the touched Q and the ending that its specification functions define. |
| MonteCarlo.TakeStep | mc_epsilon_greedy.py:61-64 | One rollout step touches `Q[state]` and appends `(state, action, reward)`. |
| MonteCarlo.Pairs | mc_epsilon_greedy.py:72 | `sa_in_episode`, the set of (state, action) pairs of the trace. Its members are given by `PairsMembers`. |
| MonteCarlo.PairsMembers | mc_epsilon_greedy.py:72 | A pair is in `sa_in_episode` if and only if some element of the trace has that state and action. |
| MonteCarlo.FirstVisit | mc_epsilon_greedy.py:76-77 | The index found holds the pair, and no earlier index does. |
| MonteCarlo.DiscountedSum | mc_epsilon_greedy.py:79 | `sum(x[2] * discount_factor ** i ...)` over a trace. Its recursion and the undiscounted case are given by `DiscountedSumRecursion` and `UndiscountedSum`. |
| MonteCarlo.Return | mc_epsilon_greedy.py:76-79 | `G` for a pair: the discounted sum from the pair's first occurrence, located by `FirstVisit`. `FirstVisitExample` works an instance. |
| MonteCarlo.DiscountedSumRecursion | mc_epsilon_greedy.py:79 | The return obeys `G_t = r_t + gamma * G_(t+1)`. |
| MonteCarlo.UndiscountedSum | mc_epsilon_greedy.py:79 | With `discount_factor = 1` the return is the plain sum of the rewards. |
| MonteCarlo.FirstVisitExample | mc_epsilon_greedy.py:76-79 | A pair at steps 0 and 2 with rewards 1, 0, 2 has first visit 0 and return 3, not 2. |
| MonteCarlo.CreditPair | mc_epsilon_greedy.py:74-83 | One pass of the update loop equals `Credit` on the three tables. |
| MonteCarlo.Credit | mc_epsilon_greedy.py:81-83 | The three statements of one update, on the tables as values. Every row keeps `nA` entries, and the full effect is given by `CreditEffect`. |
| MonteCarlo.CreditEffect | mc_epsilon_greedy.py:81-83 | Crediting `p` adds its first-visit return to its sum and 1 to its count. Its Q cell becomes their quotient, and no other accumulator entry or cell changes. |
| MonteCarlo.CreditAllCredits | mc_epsilon_greedy.py:73-83 | After a pass over distinct pairs, each of them has gained its return and one count, and its cell holds the quotient. |
| MonteCarlo.CreditAllKeepsPair | mc_epsilon_greedy.py:73-83 | A pair outside the pass keeps its sum and count. |
| MonteCarlo.CreditAllKeepsCell | mc_epsilon_greedy.py:73-83 | A cell outside the pass keeps its value, and reads 0 in a row the pass created. |
| MonteCarlo.CreditAllKeys | mc_epsilon_greedy.py:73-83 | The accumulators gain exactly the pairs of the pass. |
| MonteCarlo.CreditAllRows | mc_epsilon_greedy.py:73-83 | Q loses no row in the pass, and gains none when every credited pair's state already has a row. |
| MonteCarlo.Update | mc_epsilon_greedy.py:72-83 | The loop over `sa_in_episode` credits each visited pair exactly once, in some order of the set. |
| MonteCarlo.VisitsSeen | mc_epsilon_greedy.py:81-82 | A pair has a nonzero count if and only if some episode visited it. A pair never visited has no return total. |
| MonteCarlo.SingleEpisodeEstimate | mc_epsilon_greedy.py:83 | After one episode the estimate of a visited pair is that episode's first-visit return. |
| MonteCarlo.LearnedStep | mc_epsilon_greedy.py:56-83 | One more episode keeps the tables equal to the averages over the longer history. |
| MonteCarlo.Episode | mc_epsilon_greedy.py:56-83 | One iteration of the episode loop keeps that invariant and adds the episode's `done` reward to `reward_total`. |
| MonteCarlo.Train | mc_epsilon_greedy.py:27-85 | Q has rows for exactly the observed states. Each cell is the average first-visit return of its pair over the episodes that visited it, or 0 if none did. `reward_total` is the sum of the `done` rewards. |
| MonteCarlo.TestEpisode | mc_epsilon_greedy.py:97-106 | One evaluation episode touches Q and adds its `done` reward. |
| MonteCarlo.Test | mc_epsilon_greedy.py:89-108 | `test` returns the sum of the `done` rewards of the capped episodes, and Q only gains zero rows. |
| QLearning.Alpha | q_learning_epsilon_greedy_GLIE.py:71 | The step size lies in `(0, 1]`, and is at most 1/2 once the counter is at least 1. |
| QLearning.AlphaDecreasing | q_learning_epsilon_greedy_GLIE.py:70-71 | The step size strictly decreases as the visit count grows. |
| QLearning.MaxOfIsMax | q_learning_epsilon_greedy_GLIE.py:66-67 | `Q[next_state][best_next_action]` is the largest value of the row and occurs in it. |
| QLearning.UpdateIsConvex | q_learning_epsilon_greedy_GLIE.py:72 | The update gives `(1 - alpha) * Q + alpha * target`. For `0 <= alpha <= 1` the new value lies between the old value and the target, and `alpha = 1/2` lands half-way. |
| QLearning.StepByDelta | q_learning_epsilon_greedy_GLIE.py:68-72 | Adding `alpha * td_delta` is the same as moving a fraction `alpha` toward `td_target`. |
| QLearning.TdTarget | q_learning_epsilon_greedy_GLIE.py:66-67 | `td_target`: the reward plus `gamma` times `Q[next_state][best_next_action]`, the row maximum by `MaxOfIsMax`. |
| QLearning.UpdatedValue | q_learning_epsilon_greedy_GLIE.py:68-72 | `Q[s][a] + alpha * (td_target - Q[s][a])`. It is a convex combination by `UpdateIsConvex`, and equals the `+=` with `td_delta` by `StepByDelta`. |
| QLearning.Transition | q_learning_epsilon_greedy_GLIE.py:57-72 | One transition on Q and the counters: every row keeps `nA` entries. Its effect on cells and counters is given by `TransitionCells` and `TransitionCounts`. |
| QLearning.TouchBoth | q_learning_epsilon_greedy_GLIE.py:57-66 | Evaluating `Q[state]` then `Q[next_state]` adds both rows, and every row reads as before. |
| QLearning.TransitionCells | q_learning_epsilon_greedy_GLIE.py:66-72 | After one transition Q has the keys of both states added. The updated cell moves from its old value toward `reward + gamma * max Q[next_state]` with `alpha = 1/(1 + n)`, where `n` is the new counter value. Every other cell is unchanged. |
| QLearning.TransitionCounts | q_learning_epsilon_greedy_GLIE.py:70 | One transition raises the counter of its pair by exactly one and changes no other counter. |
| QLearning.FirstVisitHalfway | q_learning_epsilon_greedy_GLIE.py:70-72 | On a pair's first visit the cell lands half-way between its old value and the TD target. |
| QLearning.FirstVisitFromZeros | q_learning_epsilon_greedy_GLIE.py:66-72 | On an all-zero table a first visit sets the cell to half the reward, whatever the discount. |
| QLearning.Transit | q_learning_epsilon_greedy_GLIE.py:57-72 | The transition as `train` executes it (argmax, `td_target`, `td_delta`, counter, `alpha`, `+=`) equals `Transition`. |
| QLearning.LearnAlongCounts | q_learning_epsilon_greedy_GLIE.py:70 | After `k` transitions each counter has grown by the number of those transitions made from its pair. |
| QLearning.CountersNeverDecrease | q_learning_epsilon_greedy_GLIE.py:70 | A counter never decreases along an episode. |
| QLearning.RewardsBeforeFinal | q_learning_epsilon_greedy_GLIE.py:62 | When only the last of `k` steps is rewarded, the rewards of the `k` steps add up to that reward. |
| QLearning.EpisodeRewardIsFinal | q_learning_epsilon_greedy_GLIE.py:62-76 | When no step before the `done` step is rewarded, `episode_rewards[i]` equals what the episode adds to `reward_total`. |
| QLearning.Advance | q_learning_epsilon_greedy_GLIE.py:56-79 | Step `t` performs the transition and adds the reward to `episode_rewards[i]`. It writes `t` to `episode_lengths[i]` and leaves other entries alone. It reports `done` exactly at the first `done` step, when it adds the reward to `reward_total`. |
| QLearning.RunEpisode | q_learning_epsilon_greedy_GLIE.py:51-79 | One episode makes the transitions up to and including the first `done` step. `episode_rewards[i]` gains the sum of the episode's rewards and `episode_lengths[i]` is the index of the last step. `reward_total` gains the `done` reward. |
| QLearning.TrainCounts | q_learning_epsilon_greedy_GLIE.py:70 | After training, each pair's counter is the number of transitions made from it over all episodes. |
| QLearning.TrainEpisode | q_learning_epsilon_greedy_GLIE.py:44-79 | One iteration of the episode loop extends the fold by one episode and fills that episode's statistics. |
| QLearning.Train | q_learning_epsilon_greedy_GLIE.py:24-81 | Q and the counters are the fold of the transitions over all the steps of all the episodes. `reward_total` is the sum of the `done` rewards. Each episode's statistics hold its reward sum and the index of its last step. |
| QLearning.WinsStep | q_learning_epsilon_greedy_GLIE.py:107-111 | One more episode adds 1 to `wins` exactly when it ends `done` within 100 steps with a positive reward. |
| QLearning.WinsAtMostEpisodes | q_learning_epsilon_greedy_GLIE.py:99-111 | `wins` never exceeds the number of episodes. |
| QLearning.EveryWonMeans | q_learning_epsilon_greedy_GLIE.py:107-110 | `EveryWon` holds exactly when each episode ended `done` within the cap with a positive reward. |
| QLearning.AllWon | q_learning_epsilon_greedy_GLIE.py:99-111 | `wins` equals the number of episodes exactly when every episode was won. |
| QLearning.WinningRatio | q_learning_epsilon_greedy_GLIE.py:114 | The ratio is a division by zero exactly when there are no episodes. Otherwise it lies in `[0, 100]` when `wins <= episodes`, and is 100 exactly when every episode was won. |
| QLearning.TestEpisode | q_learning_epsilon_greedy_GLIE.py:101-112 | One evaluation episode touches Q and adds 1 to `wins` exactly on a win. |
| QLearning.Test | q_learning_epsilon_greedy_GLIE.py:93-114 | `wins` is the number of won episodes and at most their number. The ratio is `wins / test_episodes * 100`, and Q only gains zero rows. |

## Left out

- Randomness. `np.random.choice` draws the action from the policy's probabilities. Here each step's action is part of the `Script`, so the properties hold for every sequence of draws. The policy's probabilities are proved separately (`PolicyIsDistribution`, `PolicyEntry`).
- Invalid probabilities. `np.random.choice(..., p=probs)` raises `ValueError` when some probability is negative. For `nA >= 2` that happens when `epsilon < 0`, or when `epsilon * (nA - 1) > nA` (`PolicyNegativeEntry`). The model takes the action from the script and raises nothing, so `Train` and `Test` of both scripts return normally for such an `epsilon`, where the source fails at the first draw.
- The environment. Blackjack, `env.reset()` and `env.step()` are replaced by the scripted outcomes. The `blackjack` module is not part of this model.
- Floating point. Values are exact reals, and `returns_count` and `episode_lengths`, floats in the source, are natural numbers.
- Printing and plotting: progress output, the printed format of the winning ratio, `plot.EpisodeStats` as a type, matplotlib and the commented-out value-function plot.
- The conversion `tuple(x[0])`: states are compared by value, which is what the conversion achieves for Blackjack's tuple observations.
- The order in which Python iterates the set `sa_in_episode`. `MonteCarlo.Update` proves its result for the order it chose and returns that order as a ghost value. `MonteCarlo.Train` is independent of it.
- `nA > 0` is required: `np.argmax` raises on an empty row.
- Episodes must supply enough steps.
  - The Monte Carlo rollout and both `test` loops need at least 100 outcomes per script (`Supplied`), of which only those up to the first `done` are used.
  - The uncapped loop `for t in itertools.count()` of Q-learning `train` needs a script that contains a `done` step (`Terminates`). An episode that never ends is not modelled.
- QLearning.Train: the source's `train` returns only `reward_total`; Q, the counters and the statistics are locals that are lost. The model also returns them, so its contract can say what they hold. This is what the commented-out call at q_learning_epsilon_greedy_GLIE.py:83 expects.
- MonteCarlo.Train: the source returns only Q. The model also returns `reward_total`, which the source accumulates but discards.
- QLearning.Test: `test(0, Q)` raises `ZeroDivisionError` when the ratio is computed. The model returns the `ZeroDivision` value of `Ratio` instead of raising.
- Convergence of either method (GLIE, Robbins–Monro) is not stated. The model proves only the per-step and per-run facts listed above.
- Aliasing: Q is a value (`map`) passed in and returned, not a shared object. The Python `policy` closure reads the same dictionary that `train` updates, and the model reproduces this by passing the current table to every policy call.
