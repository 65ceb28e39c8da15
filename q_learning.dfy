/** Q-learning with a step size that shrinks with the visit count of each pair
    (q_learning_epsilon_greedy_GLIE.py `train` and `test`). */
module QLearning {
  import opened EpsilonGreedy
  import opened Episodes

  /** `alpha = 1 / (1 + n)` for a pair just visited for the `n`-th time. */
  function Alpha(n: nat): (alpha: real)
    ensures 0.0 < alpha <= 1.0
    ensures n >= 1 ==> alpha <= 0.5
  {
    1.0 / (1 + n) as real
  }

  /** The step size strictly shrinks as the visit count grows. */
  lemma AlphaDecreasing(m: nat, n: nat)
    requires m < n
    ensures Alpha(n) < Alpha(m)
  {
    var a, b := (1 + m) as real, (1 + n) as real;
    var x, y := Alpha(m), Alpha(n);
    assert x * a == 1.0 && y * b == 1.0;
    ProductPositive(y, b - a);
    assert (x - y) * a == 1.0 - y * a;
    PositiveFactor(x - y, a);
  }

  /** The product of two positive reals is positive. */
  lemma ProductPositive(x: real, y: real)
    requires 0.0 < x && 0.0 < y
    ensures 0.0 < x * y
  {
  }

  /** A positive product with a positive factor has a positive other factor. */
  lemma PositiveFactor(x: real, y: real)
    requires 0.0 < y && 0.0 < x * y
    ensures 0.0 < x
  {
    if x <= 0.0 {
      ProductNonNegative(-x, y);
    }
  }

  /** The largest value of a row, `Q[s][np.argmax(Q[s])]`. */
  function MaxOf(row: seq<real>): real
    requires |row| > 0
  {
    row[ArgMax(row)]
  }

  /** The value at the arg-max is the largest value of the row. */
  lemma MaxOfIsMax(row: seq<real>)
    requires |row| > 0
    ensures forall i :: 0 <= i < |row| ==> row[i] <= MaxOf(row)
    ensures exists i :: 0 <= i < |row| && row[i] == MaxOf(row)
  {
    ArgMaxIsFirstMax(row);
  }

  /** `td_target`: the reward plus the discounted best value of the next state. */
  function TdTarget(reward: real, gamma: real, nextRow: seq<real>): real
    requires |nextRow| > 0
  {
    reward + gamma * MaxOf(nextRow)
  }

  /** `Q[s][a] += alpha * (td_target - Q[s][a])`. */
  function UpdatedValue(current: real, alpha: real, target: real): real
  {
    current + alpha * (target - current)
  }

  /** The update moves the value a fraction `alpha` of the way to the target: it is the
      weighted average of the old value and the target, so for `0 <= alpha <= 1` it lies
      between them, and `alpha = 1/2` lands half-way. */
  lemma UpdateIsConvex(current: real, alpha: real, target: real)
    ensures UpdatedValue(current, alpha, target) == (1.0 - alpha) * current + alpha * target
    ensures 0.0 <= alpha <= 1.0 && current <= target ==> current <= UpdatedValue(current, alpha, target) <= target
    ensures 0.0 <= alpha <= 1.0 && target <= current ==> target <= UpdatedValue(current, alpha, target) <= current
    ensures UpdatedValue(current, 0.5, target) == (current + target) / 2.0
  {
    if 0.0 <= alpha <= 1.0 && current <= target {
      ProductNonNegative(alpha, target - current);
      ProductNonNegative(1.0 - alpha, target - current);
    }
    if 0.0 <= alpha <= 1.0 && target <= current {
      ProductNonNegative(alpha, current - target);
      ProductNonNegative(1.0 - alpha, current - target);
    }
  }

  /** The product of two non-negative reals is non-negative. */
  lemma ProductNonNegative(x: real, y: real)
    requires 0.0 <= x && 0.0 <= y
    ensures 0.0 <= x * y
  {
  }

  /** Adding `alpha * td_delta` is the update towards the target. */
  lemma StepByDelta(current: real, alpha: real, target: real, delta: real)
    requires delta == target - current
    ensures current + alpha * delta == UpdatedValue(current, alpha, target)
  {
  }

  /** What `train` keeps between transitions: Q and `counter_state_action`. */
  datatype Learner<S> = Learner(q: Table<S>, counts: map<Pair<S>, nat>)

  /** One transition from `state` with the script's step `o`: `policy(state)` evaluates
      `Q[state]`, `np.argmax(Q[next_state])` evaluates `Q[next_state]`, the counter of the
      pair goes up by one and the cell moves towards the TD target with `alpha = 1/(1+n)`. */
  function Transition<S(==)>(l: Learner<S>, state: S, o: Outcome<S>, gamma: real, nA: nat): (l': Learner<S>)
    requires nA > 0 && WellShaped(l.q, nA) && o.action < nA
    ensures WellShaped(l'.q, nA)
  {
    var q1 := Touch(Touch(l.q, state, nA), o.next, nA);
    var p := (state, o.action);
    var n := CountOf(l.counts, p) + 1;
    var target := TdTarget(o.reward, gamma, q1[o.next]);
    Learner(SetCell(q1, state, o.action, UpdatedValue(q1[state][o.action], Alpha(n), target), nA),
            l.counts[p := n])
  }

  /** Evaluating `Q[state]` and then `Q[next_state]` adds the rows of both states, and
      every row then reads as it did before (zeros for a row just created). */
  lemma TouchBoth<S>(q: Table<S>, state: S, next: S, nA: nat)
    requires WellShaped(q, nA)
    ensures var q1 := Touch(Touch(q, state, nA), next, nA);
            && q1.Keys == q.Keys + {state, next}
            && forall s :: s in q1 ==> q1[s] == Row(q, s, nA)
  {
    TouchKeepsValues(q, state, nA);
    TouchKeepsValues(Touch(q, state, nA), next, nA);
  }

  /** A transition reads every value before writing any: the cell of the pair becomes the
      update of its old value towards the reward plus the discounted best OLD value of the
      next state (the same row when `next_state == state`), with the step size of its new
      count; every other cell keeps the value it read (zero for a row created now); and the
      only rows added are those of `state` and `next_state`. */
  lemma TransitionCells<S>(l: Learner<S>, state: S, o: Outcome<S>, gamma: real, nA: nat)
    requires nA > 0 && WellShaped(l.q, nA) && o.action < nA
    ensures var l' := Transition(l, state, o, gamma, nA);
            && l'.q.Keys == l.q.Keys + {state, o.next}
            && l'.q[state][o.action]
               == UpdatedValue(Row(l.q, state, nA)[o.action], Alpha(CountOf(l.counts, (state, o.action)) + 1),
                               o.reward + gamma * MaxOf(Row(l.q, o.next, nA)))
            && (forall s, a :: s in l'.q && 0 <= a < nA && (s, a) != (state, o.action) ==>
                  l'.q[s][a] == Row(l.q, s, nA)[a])
  {
    var q1 := Touch(Touch(l.q, state, nA), o.next, nA);
    TouchBoth(l.q, state, o.next, nA);
    var v := UpdatedValue(q1[state][o.action], Alpha(CountOf(l.counts, (state, o.action)) + 1),
                          TdTarget(o.reward, gamma, q1[o.next]));
    assert Transition(l, state, o, gamma, nA).q == SetCell(q1, state, o.action, v, nA);
    SetCellEffect(q1, state, o.action, v, nA);
  }

  /** A transition raises the counter of its pair by exactly one and changes no other counter. */
  lemma TransitionCounts<S>(l: Learner<S>, state: S, o: Outcome<S>, gamma: real, nA: nat, p: Pair<S>)
    requires nA > 0 && WellShaped(l.q, nA) && o.action < nA
    ensures var l' := Transition(l, state, o, gamma, nA);
            && l'.counts.Keys == l.counts.Keys + {(state, o.action)}
            && CountOf(l'.counts, p) == CountOf(l.counts, p) + (if p == (state, o.action) then 1 else 0)
  {
  }

  /** On the first visit of a pair the step size is 1/2, so the cell lands half-way between
      its old value and the TD target. */
  lemma FirstVisitHalfway<S>(l: Learner<S>, state: S, o: Outcome<S>, gamma: real, nA: nat)
    requires nA > 0 && WellShaped(l.q, nA) && o.action < nA
    requires (state, o.action) !in l.counts
    ensures Transition(l, state, o, gamma, nA).q[state][o.action]
            == (Row(l.q, state, nA)[o.action] + o.reward + gamma * MaxOf(Row(l.q, o.next, nA))) / 2.0
  {
    TransitionCells(l, state, o, gamma, nA);
    UpdateIsConvex(Row(l.q, state, nA)[o.action], 0.5, o.reward + gamma * MaxOf(Row(l.q, o.next, nA)));
  }

  /** On a table still all zeros, the first visit of a pair sets its cell to half the
      reward, whatever the discount. */
  lemma FirstVisitFromZeros<S>(l: Learner<S>, state: S, o: Outcome<S>, gamma: real, nA: nat)
    requires nA > 0 && WellShaped(l.q, nA) && o.action < nA
    requires (state, o.action) !in l.counts
    requires forall s, a :: s in l.q && 0 <= a < nA ==> l.q[s][a] == 0.0
    ensures Transition(l, state, o, gamma, nA).q[state][o.action] == o.reward / 2.0
  {
    var next := Row(l.q, o.next, nA);
    MaxOfIsMax(next);
    assert MaxOf(next) == 0.0;
    FirstVisitHalfway(l, state, o, gamma, nA);
  }

  /** One transition as `train` performs it, on its local Q and counters. */
  method Transit<S(==)>(q: Table<S>, counts: map<Pair<S>, nat>, state: S, o: Outcome<S>,
                        gamma: real, epsilon: real, nA: nat)
    returns (q': Table<S>, counts': map<Pair<S>, nat>)
    requires nA > 0 && WellShaped(q, nA) && o.action < nA
    ensures Learner(q', counts') == Transition(Learner(q, counts), state, o, gamma, nA)
  {
    var probs;
    q', probs := PolicyFn(q, state, epsilon, nA);
    // The action drawn from `probs` is the script's: o.action.
    q' := Touch(q', o.next, nA);
    var best := ArgMax(q'[o.next]);
    var target := o.reward + gamma * q'[o.next][best];
    assert target == TdTarget(o.reward, gamma, q'[o.next]);
    var delta := target - q'[state][o.action];
    var p := (state, o.action);
    counts' := counts[p := CountOf(counts, p) + 1];
    var alpha := Alpha(counts'[p]);
    StepByDelta(q'[state][o.action], alpha, target, delta);
    q' := SetCell(q', state, o.action, q'[state][o.action] + alpha * delta, nA);
  }

  /** The script runs to a `done` step (so `itertools.count()` stops) and draws only
      actions of the environment. */
  predicate Playable<S>(e: Script<S>, nA: nat)
  {
    Terminates(e.outcomes) && ActionsInRange(e, nA)
  }

  /** The learner after the first `k` transitions of the episode. */
  ghost function LearnAlong<S>(l: Learner<S>, e: Script<S>, k: nat, gamma: real, nA: nat): (l': Learner<S>)
    requires nA > 0 && WellShaped(l.q, nA) && ActionsInRange(e, nA) && k <= |e.outcomes|
    ensures WellShaped(l'.q, nA)
  {
    if k == 0 then l
    else Transition(LearnAlong(l, e, k - 1, gamma, nA), StateBefore(e, k - 1), e.outcomes[k - 1], gamma, nA)
  }

  /** How many of the first `k` transitions of the episode are from pair `p`. */
  ghost function Occurrences<S>(e: Script<S>, p: Pair<S>, k: nat): nat
    requires k <= |e.outcomes|
  {
    if k == 0 then 0
    else Occurrences(e, p, k - 1) + (if (StateBefore(e, k - 1), e.outcomes[k - 1].action) == p then 1 else 0)
  }

  /** After `k` transitions each counter has gone up by the number of them made from its pair. */
  lemma {:induction false} LearnAlongCounts<S>(l: Learner<S>, e: Script<S>, k: nat, gamma: real, nA: nat, p: Pair<S>)
    requires nA > 0 && WellShaped(l.q, nA) && ActionsInRange(e, nA) && k <= |e.outcomes|
    ensures CountOf(LearnAlong(l, e, k, gamma, nA).counts, p) == CountOf(l.counts, p) + Occurrences(e, p, k)
  {
    if k > 0 {
      LearnAlongCounts(l, e, k - 1, gamma, nA, p);
      TransitionCounts(LearnAlong(l, e, k - 1, gamma, nA), StateBefore(e, k - 1), e.outcomes[k - 1], gamma, nA, p);
    }
  }

  /** A longer prefix of the episode has at least as many transitions from `p`. */
  lemma {:induction false} OccurrencesGrow<S>(e: Script<S>, p: Pair<S>, j: nat, k: nat)
    requires j <= k <= |e.outcomes|
    ensures Occurrences(e, p, j) <= Occurrences(e, p, k)
  {
    if j < k {
      OccurrencesGrow(e, p, j, k - 1);
    }
  }

  /** Counters never decrease: a later point of the episode has every counter at least as high. */
  lemma {:induction false} CountersNeverDecrease<S>(l: Learner<S>, e: Script<S>, j: nat, k: nat,
                                                      gamma: real, nA: nat, p: Pair<S>)
    requires nA > 0 && WellShaped(l.q, nA) && ActionsInRange(e, nA) && j <= k <= |e.outcomes|
    ensures CountOf(LearnAlong(l, e, j, gamma, nA).counts, p) <= CountOf(LearnAlong(l, e, k, gamma, nA).counts, p)
  {
    LearnAlongCounts(l, e, j, gamma, nA, p);
    LearnAlongCounts(l, e, k, gamma, nA, p);
    OccurrencesGrow(e, p, j, k);
  }

  /** The rewards of the first `k` steps, added up. */
  function RewardsBefore<S>(outs: seq<Outcome<S>>, k: nat): real
    requires k <= |outs|
  {
    if k == 0 then 0.0 else RewardsBefore(outs, k - 1) + outs[k - 1].reward
  }

  /** When only the last of `k` steps carries a reward, the rewards add up to that one reward. */
  lemma {:induction false} RewardsBeforeFinal<S>(outs: seq<Outcome<S>>, k: nat)
    requires 0 < k <= |outs|
    requires forall t :: 0 <= t < k - 1 ==> outs[t].reward == 0.0
    ensures RewardsBefore(outs, k) == outs[k - 1].reward
  {
    if k > 1 {
      RewardsBeforeFinal(outs, k - 1);
    }
  }

  /** `stats.episode_rewards[i]`: the rewards of every step of the episode, added up. */
  ghost function EpisodeReward<S>(e: Script<S>): real
    requires Terminates(e.outcomes)
  {
    RewardsBefore(e.outcomes, FirstDone(e.outcomes) + 1)
  }

  /** When no step before the `done` step is rewarded, `stats.episode_rewards[i]` equals
      what the episode adds to `reward_total`, the reward of its `done` step. */
  lemma EpisodeRewardIsFinal<S>(e: Script<S>)
    requires Terminates(e.outcomes)
    requires forall t :: 0 <= t < FirstDone(e.outcomes) ==> e.outcomes[t].reward == 0.0
    ensures EpisodeReward(e) == e.outcomes[FirstDone(e.outcomes)].reward
  {
    RewardsBeforeFinal(e.outcomes, FirstDone(e.outcomes) + 1);
  }

  /** Step `t` of an episode of `train`: the transition from the current state, its reward
      added to `stats.episode_rewards[i]`, `t` written to `stats.episode_lengths[i]`, and on
      `done` the reward added to `reward_total`; otherwise the next state becomes current. */
  method Advance<S(==)>(q0: Table<S>, counts0: map<Pair<S>, nat>, e: Script<S>, t: nat, state: S,
                        q: Table<S>, counts: map<Pair<S>, nat>, rewardTotal: real,
                        i: nat, rewards: array<real>, lengths: array<nat>, gamma: real, epsilon: real, nA: nat)
    returns (q': Table<S>, counts': map<Pair<S>, nat>, rewardTotal': real, state': S, done: bool)
    requires nA > 0 && WellShaped(q0, nA) && Playable(e, nA)
    requires i < rewards.Length && i < lengths.Length
    requires t <= FirstDone(e.outcomes) && state == StateBefore(e, t)
    requires Learner(q, counts) == LearnAlong(Learner(q0, counts0), e, t, gamma, nA)
    modifies rewards, lengths
    ensures done <==> t == FirstDone(e.outcomes)
    ensures !done ==> state' == StateBefore(e, t + 1)
    ensures Learner(q', counts') == LearnAlong(Learner(q0, counts0), e, t + 1, gamma, nA)
    ensures rewardTotal' == rewardTotal + (if done then e.outcomes[t].reward else 0.0)
    ensures rewards[i] == old(rewards[i]) + e.outcomes[t].reward && lengths[i] == t
    ensures forall j :: 0 <= j < rewards.Length && j != i ==> rewards[j] == old(rewards[j])
    ensures forall j :: 0 <= j < lengths.Length && j != i ==> lengths[j] == old(lengths[j])
  {
    var o := e.outcomes[t];
    rewards[i] := rewards[i] + o.reward;
    lengths[i] := t;
    q', counts' := Transit(q, counts, state, o, gamma, epsilon, nA);
    rewardTotal', state', done := rewardTotal, state, o.done;
    if o.done {
      rewardTotal' := rewardTotal' + o.reward;
    } else {
      state' := o.next;
    }
  }

  /** One episode of `train`: transitions until the first `done` step, each adding its
      reward to `stats.episode_rewards[i]` and writing its index to `stats.episode_lengths[i]`;
      the `done` step's reward goes to `reward_total`. */
  method RunEpisode<S(==)>(q: Table<S>, counts: map<Pair<S>, nat>, rewardTotal: real, e: Script<S>, i: nat,
                           rewards: array<real>, lengths: array<nat>, gamma: real, epsilon: real, nA: nat)
    returns (q': Table<S>, counts': map<Pair<S>, nat>, rewardTotal': real)
    requires nA > 0 && WellShaped(q, nA) && Playable(e, nA)
    requires i < rewards.Length && i < lengths.Length
    modifies rewards, lengths
    ensures Learner(q', counts') == LearnAlong(Learner(q, counts), e, FirstDone(e.outcomes) + 1, gamma, nA)
    ensures rewardTotal' == rewardTotal + e.outcomes[FirstDone(e.outcomes)].reward
    ensures rewards[i] == old(rewards[i]) + EpisodeReward(e)
    ensures lengths[i] == FirstDone(e.outcomes)
    ensures forall j :: 0 <= j < rewards.Length && j != i ==> rewards[j] == old(rewards[j])
    ensures forall j :: 0 <= j < lengths.Length && j != i ==> lengths[j] == old(lengths[j])
  {
    ghost var last := FirstDone(e.outcomes);
    var state := e.start;
    q', counts', rewardTotal' := q, counts, rewardTotal;
    var t := 0;
    var done := false;
    while !done
      invariant t <= last + 1 && (done <==> t == last + 1)
      invariant !done ==> state == StateBefore(e, t)
      invariant Learner(q', counts') == LearnAlong(Learner(q, counts), e, t, gamma, nA)
      invariant rewardTotal' == rewardTotal + (if done then e.outcomes[last].reward else 0.0)
      invariant rewards[i] == old(rewards[i]) + RewardsBefore(e.outcomes, t)
      invariant lengths[i] == if t == 0 then old(lengths[i]) else t - 1
      invariant forall j :: 0 <= j < rewards.Length && j != i ==> rewards[j] == old(rewards[j])
      invariant forall j :: 0 <= j < lengths.Length && j != i ==> lengths[j] == old(lengths[j])
      decreases last + 1 - t
    {
      q', counts', rewardTotal', state, done :=
        Advance(q, counts, e, t, state, q', counts', rewardTotal', i, rewards, lengths, gamma, epsilon, nA);
      t := t + 1;
    }
  }

  /** Every script of `es` runs to a `done` step. */
  ghost predicate AllTerminate<S>(es: seq<Script<S>>)
  {
    forall i :: 0 <= i < |es| ==> Terminates(es[i].outcomes)
  }

  /** Every script of `es` is playable. */
  ghost predicate AllPlayable<S>(es: seq<Script<S>>, nA: nat)
  {
    && AllTerminate(es)
    && forall i :: 0 <= i < |es| ==> ActionsInRange(es[i], nA)
  }

  /** The learner after training on the episodes `es`, starting from empty tables. */
  ghost function TrainAll<S>(es: seq<Script<S>>, gamma: real, nA: nat): (l: Learner<S>)
    requires nA > 0 && AllPlayable(es, nA)
    ensures WellShaped(l.q, nA)
  {
    if es == [] then Learner(map[], map[])
    else
      var e := es[|es| - 1];
      LearnAlong(TrainAll(es[..|es| - 1], gamma, nA), e, FirstDone(e.outcomes) + 1, gamma, nA)
  }

  /** How often pair `p` is visited over all the episodes of `es`. */
  ghost function TotalVisits<S>(es: seq<Script<S>>, p: Pair<S>): nat
    requires AllTerminate(es)
  {
    if es == [] then 0
    else
      var e := es[|es| - 1];
      TotalVisits(es[..|es| - 1], p) + Occurrences(e, p, FirstDone(e.outcomes) + 1)
  }

  /** After training, `counter_state_action[p]` is the number of transitions made from `p`. */
  lemma {:induction false} TrainCounts<S>(es: seq<Script<S>>, gamma: real, nA: nat, p: Pair<S>)
    requires nA > 0 && AllPlayable(es, nA)
    ensures CountOf(TrainAll(es, gamma, nA).counts, p) == TotalVisits(es, p)
  {
    if es != [] {
      var e := es[|es| - 1];
      TrainCounts(es[..|es| - 1], gamma, nA, p);
      LearnAlongCounts(TrainAll(es[..|es| - 1], gamma, nA), e, FirstDone(e.outcomes) + 1, gamma, nA, p);
    }
  }

  /** `reward_total` after the episodes `es`: the rewards of their `done` steps added up. */
  ghost function FinalRewards<S>(es: seq<Script<S>>): real
    requires AllTerminate(es)
  {
    if es == [] then 0.0
    else
      var e := es[|es| - 1];
      FinalRewards(es[..|es| - 1]) + e.outcomes[FirstDone(e.outcomes)].reward
  }

  /** Training on one more episode continues from where the earlier ones left off. */
  lemma TrainStep<S>(es: seq<Script<S>>, i: nat, gamma: real, nA: nat)
    requires nA > 0 && i < |es| && AllPlayable(es, nA)
    ensures AllPlayable(es[..i], nA) && AllPlayable(es[..i + 1], nA)
    ensures TrainAll(es[..i + 1], gamma, nA)
            == LearnAlong(TrainAll(es[..i], gamma, nA), es[i], FirstDone(es[i].outcomes) + 1, gamma, nA)
  {
    assert es[..i + 1][..i] == es[..i];
  }

  /** One more episode adds the reward of its `done` step to `reward_total`. */
  lemma FinalRewardsStep<S>(es: seq<Script<S>>, i: nat)
    requires i < |es| && AllTerminate(es)
    ensures AllTerminate(es[..i]) && AllTerminate(es[..i + 1])
    ensures FinalRewards(es[..i + 1]) == FinalRewards(es[..i]) + es[i].outcomes[FirstDone(es[i].outcomes)].reward
  {
    assert es[..i + 1][..i] == es[..i];
  }

  /** One iteration of the `i_episode` loop of `train`. */
  method TrainEpisode<S(==)>(scripts: seq<Script<S>>, i: nat, q: Table<S>, counts: map<Pair<S>, nat>,
                             rewardTotal: real, rewards: array<real>, lengths: array<nat>,
                             gamma: real, epsilon: real, nA: nat)
    returns (q': Table<S>, counts': map<Pair<S>, nat>, rewardTotal': real)
    requires nA > 0 && i < |scripts| && AllPlayable(scripts, nA)
    requires rewards.Length == |scripts| && lengths.Length == |scripts|
    requires AllPlayable(scripts[..i], nA) && Learner(q, counts) == TrainAll(scripts[..i], gamma, nA)
    requires rewardTotal == FinalRewards(scripts[..i])
    modifies rewards, lengths
    ensures AllPlayable(scripts[..i + 1], nA) && Learner(q', counts') == TrainAll(scripts[..i + 1], gamma, nA)
    ensures rewardTotal' == FinalRewards(scripts[..i + 1])
    ensures rewards[i] == old(rewards[i]) + EpisodeReward(scripts[i])
    ensures lengths[i] == FirstDone(scripts[i].outcomes)
    ensures forall j :: 0 <= j < rewards.Length && j != i ==> rewards[j] == old(rewards[j])
    ensures forall j :: 0 <= j < lengths.Length && j != i ==> lengths[j] == old(lengths[j])
  {
    TrainStep(scripts, i, gamma, nA);
    FinalRewardsStep(scripts, i);
    q', counts', rewardTotal' := RunEpisode(q, counts, rewardTotal, scripts[i], i, rewards, lengths, gamma, epsilon, nA);
  }

  /** The statistics of the first `i` episodes are filled in, and the rest still read 0. */
  ghost predicate StatsUpTo<S>(scripts: seq<Script<S>>, rewards: array<real>, lengths: array<nat>, i: nat)
    requires AllTerminate(scripts) && i <= |scripts| == rewards.Length == lengths.Length
    reads rewards, lengths
  {
    && (forall j :: 0 <= j < i ==> rewards[j] == EpisodeReward(scripts[j]))
    && (forall j :: 0 <= j < i ==> lengths[j] == FirstDone(scripts[j].outcomes))
    && (forall j :: i <= j < |scripts| ==> rewards[j] == 0.0)
  }

  /** Q-learning (`train`) over the episodes `scripts`, one per `i_episode`. Besides
      `reward_total`, the model returns Q, the counters and the two statistics arrays. */
  method Train<S(==)>(scripts: seq<Script<S>>, gamma: real, epsilon: real, nA: nat)
    returns (q: Table<S>, counts: map<Pair<S>, nat>, rewards: array<real>, lengths: array<nat>, rewardTotal: real)
    requires nA > 0 && AllPlayable(scripts, nA)
    ensures Learner(q, counts) == TrainAll(scripts, gamma, nA)
    ensures rewardTotal == FinalRewards(scripts)
    ensures fresh(rewards) && fresh(lengths)
    ensures rewards.Length == |scripts| && lengths.Length == |scripts|
    ensures forall i :: 0 <= i < |scripts| ==> rewards[i] == EpisodeReward(scripts[i])
    ensures forall i :: 0 <= i < |scripts| ==> lengths[i] == FirstDone(scripts[i].outcomes)
  {
    q, counts := map[], map[];
    rewards := new real[|scripts|](_ => 0.0);
    lengths := new nat[|scripts|](_ => 0);
    rewardTotal := 0.0;
    var i := 0;
    while i < |scripts|
      invariant i <= |scripts| && AllPlayable(scripts[..i], nA)
      invariant Learner(q, counts) == TrainAll(scripts[..i], gamma, nA)
      invariant rewardTotal == FinalRewards(scripts[..i])
      invariant StatsUpTo(scripts, rewards, lengths, i)
    {
      q, counts, rewardTotal := TrainEpisode(scripts, i, q, counts, rewardTotal, rewards, lengths, gamma, epsilon, nA);
      i := i + 1;
    }
    assert scripts[..i] == scripts;
  }

  /** The episode was won: it reached `done` within the cap with a positive reward. */
  predicate Won(ending: Ending)
  {
    ending.Done? && ending.reward > 0.0
  }

  /** `wins` after the episodes `es`. */
  ghost function Wins<S>(es: seq<Script<S>>): nat
    requires AllSupplied(es)
  {
    if es == [] then 0
    else Wins(es[..|es| - 1]) + (if Won(EndingOf(es[|es| - 1])) then 1 else 0)
  }

  /** One more episode adds one exactly when it is won. */
  lemma WinsStep<S>(es: seq<Script<S>>, i: nat)
    requires i < |es| && AllSupplied(es)
    ensures AllSupplied(es[..i]) && AllSupplied(es[..i + 1])
    ensures Wins(es[..i + 1]) == Wins(es[..i]) + (if Won(EndingOf(es[i])) then 1 else 0)
  {
    assert es[..i + 1][..i] == es[..i];
  }

  /** There are never more wins than episodes. */
  lemma {:induction false} WinsAtMostEpisodes<S>(es: seq<Script<S>>)
    requires AllSupplied(es)
    ensures Wins(es) <= |es|
  {
    if es != [] {
      WinsAtMostEpisodes(es[..|es| - 1]);
    }
  }

  /** Every episode of `es` was won. */
  ghost predicate EveryWon<S>(es: seq<Script<S>>)
    requires AllSupplied(es)
  {
    es == [] || (EveryWon(es[..|es| - 1]) && Won(EndingOf(es[|es| - 1])))
  }

  /** `EveryWon` says of each episode that it was won. */
  lemma {:induction false} EveryWonMeans<S>(es: seq<Script<S>>)
    requires AllSupplied(es)
    ensures EveryWon(es) <==> forall i :: 0 <= i < |es| ==> Won(EndingOf(es[i]))
  {
    if es != [] {
      var init := es[..|es| - 1];
      EveryWonMeans(init);
      assert forall i :: 0 <= i < |init| ==> init[i] == es[i];
    }
  }

  /** `wins` reaches the number of episodes exactly when every episode is won. */
  lemma {:induction false} AllWon<S>(es: seq<Script<S>>)
    requires AllSupplied(es)
    ensures Wins(es) == |es| <==> EveryWon(es)
  {
    if es != [] {
      var init := es[..|es| - 1];
      AllWon(init);
      WinsAtMostEpisodes(init);
    }
  }

  /** The printed winning ratio, or the division by zero that `test(0, Q)` raises. */
  datatype Ratio = Percent(value: real) | ZeroDivision

  /** `float(wins) / test_episodes * 100`. */
  function WinningRatio(wins: nat, episodes: nat): (r: Ratio)
    ensures r.ZeroDivision? <==> episodes == 0
    ensures r.Percent? && wins <= episodes ==> 0.0 <= r.value <= 100.0
    ensures r.Percent? ==> (r.value == 100.0 <==> wins == episodes)
  {
    if episodes == 0 then ZeroDivision
    else
      var f := wins as real / episodes as real;
      assert f * episodes as real == wins as real;
      Percent(f * 100.0)
  }

  /** One evaluation episode: play it capped with Q read only and count a win. */
  method TestEpisode<S(==)>(q0: Table<S>, scripts: seq<Script<S>>, i: nat, q: Table<S>, wins: nat,
                            epsilon: real, nA: nat)
    returns (q': Table<S>, wins': nat)
    requires nA > 0 && WellShaped(q0, nA) && i < |scripts| && AllSupplied(scripts)
    requires AllSupplied(scripts[..i]) && q == TouchedAll(q0, scripts[..i], nA) && wins == Wins(scripts[..i])
    ensures AllSupplied(scripts[..i + 1])
    ensures q' == TouchedAll(q0, scripts[..i + 1], nA) && wins' == Wins(scripts[..i + 1])
  {
    var ending;
    q', ending := Play(q, nA, epsilon, scripts[i]);
    wins' := wins;
    if ending.Done? {
      if ending.reward > 0.0 {
        wins' := wins' + 1;
      }
    }
    WinsStep(scripts, i);
    TouchedAllStep(q0, scripts, i, nA);
  }

  /** `test`: play each episode of `scripts` under the epsilon-greedy policy of Q, count
      the wins and compute the winning ratio. Q itself only gains zero rows. */
  method Test<S(==)>(scripts: seq<Script<S>>, q: Table<S>, epsilon: real, nA: nat)
    returns (q': Table<S>, wins: nat, ratio: Ratio)
    requires nA > 0 && WellShaped(q, nA) && AllSupplied(scripts)
    ensures q' == TouchedAll(q, scripts, nA)
    ensures wins == Wins(scripts) && wins <= |scripts|
    ensures ratio == WinningRatio(wins, |scripts|)
  {
    q', wins := q, 0;
    var i := 0;
    while i < |scripts|
      invariant i <= |scripts| && AllSupplied(scripts[..i])
      invariant q' == TouchedAll(q, scripts[..i], nA) && wins == Wins(scripts[..i])
    {
      q', wins := TestEpisode(q, scripts, i, q', wins, epsilon, nA);
      i := i + 1;
    }
    assert scripts[..i] == scripts;
    WinsAtMostEpisodes(scripts);
    ratio := WinningRatio(wins, |scripts|);
  }
}
