/** The environment as the learning loops see it. Blackjack itself, `env.reset()`
    and the random draw of an action are outside the model: one episode is a
    script giving the state `reset` returned and, step by step, the action that
    was drawn from the policy and what `env.step` answered. */
module Episodes {
  import opened EpsilonGreedy

  /** Cap on the steps of one episode in the Monte Carlo rollout and in both evaluations. */
  const MaxSteps: nat := 100

  /** One step: the action drawn, then `next_state, reward, done` from `env.step`. */
  datatype Outcome<S> = Outcome(action: nat, next: S, reward: real, done: bool)

  /** One episode: the state from `env.reset()` and the outcomes of its steps. */
  datatype Script<S> = Script(start: S, outcomes: seq<Outcome<S>>)

  /** How a capped episode ended: on a `done` step with its reward, or cut off at the cap. */
  datatype Ending = Done(reward: real) | CutOff

  /** The script can answer every step a capped loop may ask for. */
  predicate Supplied<S>(e: Script<S>)
  {
    MaxSteps <= |e.outcomes|
  }

  /** Every action in the script is an action of the environment. */
  predicate ActionsInRange<S>(e: Script<S>, nA: nat)
  {
    forall t :: 0 <= t < |e.outcomes| ==> e.outcomes[t].action < nA
  }

  /** The state observed before step `t`: the reset state, then each step's successor. */
  function StateBefore<S>(e: Script<S>, t: nat): S
    requires t <= |e.outcomes|
  {
    if t == 0 then e.start else e.outcomes[t - 1].next
  }

  /** How many times `env.step` runs in `for t in range(cap)` that breaks on `done`:
      it stops right after the first `done`, or after `cap` steps. */
  function StepsTaken<S>(outs: seq<Outcome<S>>, cap: nat): (n: nat)
    requires cap <= |outs|
    ensures n <= cap
    ensures cap > 0 ==> n > 0
    decreases cap
  {
    if cap == 0 then 0
    else if outs[0].done then 1
    else 1 + StepsTaken(outs[1..], cap - 1)
  }

  /** The loop stops at the first `done` step: no step before the last one taken is
      `done`, and if it stopped before the cap, the last step taken is. */
  lemma {:induction false} StepsTakenStops<S>(outs: seq<Outcome<S>>, cap: nat)
    requires cap <= |outs|
    ensures forall i :: 0 <= i < StepsTaken(outs, cap) - 1 ==> !outs[i].done
    ensures 0 < StepsTaken(outs, cap) < cap ==> outs[StepsTaken(outs, cap) - 1].done
    decreases cap
  {
    if cap > 0 && !outs[0].done {
      StepsTakenStops(outs[1..], cap - 1);
    }
  }

  /** The states observed before the first `t` steps. */
  function SeenBefore<S>(e: Script<S>, t: nat): (seen: set<S>)
    requires t <= |e.outcomes|
    ensures forall i :: 0 <= i < t ==> StateBefore(e, i) in seen
  {
    if t == 0 then {} else SeenBefore(e, t - 1) + {StateBefore(e, t - 1)}
  }

  /** The states a capped episode observes before its steps (each one is looked up in Q). */
  function Visited<S>(e: Script<S>): set<S>
    requires Supplied(e)
  {
    SeenBefore(e, StepsTaken(e.outcomes, MaxSteps))
  }

  /** None of the first `t` steps says `done`. */
  ghost predicate Undone<S>(outs: seq<Outcome<S>>, t: nat)
    requires t <= |outs|
  {
    t == 0 || (Undone(outs, t - 1) && !outs[t - 1].done)
  }

  /** `Undone` says of each of the first `t` steps that it is not `done`. */
  lemma {:induction false} UndoneMeans<S>(outs: seq<Outcome<S>>, t: nat)
    requires t <= |outs|
    ensures Undone(outs, t) <==> forall i :: 0 <= i < t ==> !outs[i].done
  {
    if t > 0 {
      UndoneMeans(outs, t - 1);
    }
  }

  /** A capped loop that has passed `t` steps without `done` and stops at step `t`
      took `t + 1` steps. */
  lemma StepsTakenStopsAt<S>(outs: seq<Outcome<S>>, cap: nat, t: nat)
    requires t < cap <= |outs|
    requires Undone(outs, t)
    requires outs[t].done || t == cap - 1
    ensures StepsTaken(outs, cap) == t + 1
  {
    UndoneMeans(outs, t);
    StepsTakenStopsAtUndone(outs, cap, t);
  }

  /** The same, with "no earlier step is `done`" stated by quantifier. */
  lemma StepsTakenStopsAtUndone<S>(outs: seq<Outcome<S>>, cap: nat, t: nat)
    requires t < cap <= |outs|
    requires forall i :: 0 <= i < t ==> !outs[i].done
    requires outs[t].done || t == cap - 1
    ensures StepsTaken(outs, cap) == t + 1
    decreases t
  {
    if t > 0 {
      StepsTakenStopsAtUndone(outs[1..], cap - 1, t - 1);
    }
  }

  /** How a capped episode ends: `Done` exactly when some step within the cap says `done`,
      carrying the reward of the first such step. */
  function EndingOf<S>(e: Script<S>): Ending
    requires Supplied(e)
  {
    var n := StepsTaken(e.outcomes, MaxSteps);
    if e.outcomes[n - 1].done then Done(e.outcomes[n - 1].reward) else CutOff
  }

  /** An episode ends `Done(r)` exactly when step `t` within the cap is the first `done`
      step and `r` is its reward; it is cut off exactly when no step within the cap is `done`. */
  lemma EndingOfCases<S>(e: Script<S>)
    requires Supplied(e)
    ensures EndingOf(e).CutOff? <==> forall t :: 0 <= t < MaxSteps ==> !e.outcomes[t].done
    ensures forall t :: (0 <= t < MaxSteps && e.outcomes[t].done && forall i :: 0 <= i < t ==> !e.outcomes[i].done)
                          ==> EndingOf(e) == Done(e.outcomes[t].reward)
  {
    StepsTakenStops(e.outcomes, MaxSteps);
    forall t | 0 <= t < MaxSteps && e.outcomes[t].done && (forall i :: 0 <= i < t ==> !e.outcomes[i].done)
      ensures EndingOf(e) == Done(e.outcomes[t].reward)
    {
      UndoneMeans(e.outcomes, t);
      StepsTakenStopsAt(e.outcomes, MaxSteps, t);
    }
  }

  /** The episode contains a `done` step, so an uncapped loop over it stops. */
  predicate Terminates<S>(outs: seq<Outcome<S>>)
  {
    exists i :: 0 <= i < |outs| && outs[i].done
  }

  /** The index of the first `done` step: the last step an uncapped episode takes. */
  function FirstDone<S>(outs: seq<Outcome<S>>): (k: nat)
    requires Terminates(outs)
    ensures k < |outs| && outs[k].done
    ensures forall i :: 0 <= i < k ==> !outs[i].done
  {
    if outs[0].done then 0
    else
      var i :| 0 <= i < |outs| && outs[i].done;
      assert outs[1..][i - 1].done;
      1 + FirstDone(outs[1..])
  }

  /** Every script can answer every step a capped loop may ask for. */
  ghost predicate AllSupplied<S>(es: seq<Script<S>>)
  {
    forall i :: 0 <= i < |es| ==> Supplied(es[i])
  }

  /** What one capped episode adds to `reward_total`: the reward of its `done` step, or nothing. */
  function EndReward(ending: Ending): real
  {
    if ending.Done? then ending.reward else 0.0
  }

  /** `reward_total` after the episodes `es`: the rewards of their `done` steps added up. */
  ghost function TotalReward<S>(es: seq<Script<S>>): real
    requires AllSupplied(es)
  {
    if es == [] then 0.0 else TotalReward(es[..|es| - 1]) + EndReward(EndingOf(es[|es| - 1]))
  }

  /** One more episode adds its ending reward to the total. */
  lemma TotalRewardStep<S>(es: seq<Script<S>>, i: nat)
    requires i < |es| && AllSupplied(es)
    ensures AllSupplied(es[..i]) && AllSupplied(es[..i + 1])
    ensures TotalReward(es[..i + 1]) == TotalReward(es[..i]) + EndReward(EndingOf(es[i]))
  {
    assert es[..i + 1][..i] == es[..i];
  }

  /** The first `i + 1` elements are the first `i` and then element `i`. */
  lemma TakeOneMore<T>(s: seq<T>, i: nat)
    requires i < |s|
    ensures s[..i + 1] == s[..i] + [s[i]]
  {
  }

  /** Q after `Q[state]` has been evaluated for the states observed before the first `t`
      steps: those never seen before get zero entries, and no existing entry changes. */
  function TouchedBefore<S>(q: Table<S>, e: Script<S>, t: nat, nA: nat): (q': Table<S>)
    requires WellShaped(q, nA) && t <= |e.outcomes|
    ensures WellShaped(q', nA)
  {
    if t == 0 then q else Touch(TouchedBefore(q, e, t - 1, nA), StateBefore(e, t - 1), nA)
  }

  /** Touching only adds the observed states, with zero entries, and no existing entry changes. */
  lemma {:induction false} TouchedBeforeOnlyAdds<S>(q: Table<S>, e: Script<S>, t: nat, nA: nat)
    requires WellShaped(q, nA) && t <= |e.outcomes|
    ensures TouchedBefore(q, e, t, nA).Keys == q.Keys + SeenBefore(e, t)
    ensures forall s :: s in q ==> TouchedBefore(q, e, t, nA)[s] == q[s]
    ensures forall s :: s in TouchedBefore(q, e, t, nA) && s !in q ==> TouchedBefore(q, e, t, nA)[s] == Zeros(nA)
  {
    if t > 0 {
      TouchedBeforeOnlyAdds(q, e, t - 1, nA);
    }
  }

  /** The states observed (and so looked up in Q) in some episode of `es`. */
  ghost function SeenStates<S>(es: seq<Script<S>>): set<S>
    requires AllSupplied(es)
  {
    if es == [] then {} else SeenStates(es[..|es| - 1]) + Visited(es[|es| - 1])
  }

  /** Q after the episodes `es` have been played with Q read only. */
  function TouchedAll<S>(q: Table<S>, es: seq<Script<S>>, nA: nat): (q': Table<S>)
    requires WellShaped(q, nA) && AllSupplied(es)
    ensures WellShaped(q', nA)
  {
    if es == [] then q
    else
      var e := es[|es| - 1];
      TouchedBefore(TouchedAll(q, es[..|es| - 1], nA), e, StepsTaken(e.outcomes, MaxSteps), nA)
  }

  /** Playing one more episode touches the states it observes. */
  lemma TouchedAllStep<S>(q: Table<S>, es: seq<Script<S>>, i: nat, nA: nat)
    requires WellShaped(q, nA) && i < |es| && AllSupplied(es)
    ensures AllSupplied(es[..i]) && AllSupplied(es[..i + 1])
    ensures TouchedAll(q, es[..i + 1], nA)
            == TouchedBefore(TouchedAll(q, es[..i], nA), es[i], StepsTaken(es[i].outcomes, MaxSteps), nA)
  {
    assert es[..i + 1][..i] == es[..i];
  }

  /** Playing episodes with Q read only adds a zero row for each state observed that had
      none, and changes no existing row. */
  lemma {:induction false} TouchedAllOnlyAdds<S>(q: Table<S>, es: seq<Script<S>>, nA: nat)
    requires WellShaped(q, nA) && AllSupplied(es)
    ensures TouchedAll(q, es, nA).Keys == q.Keys + SeenStates(es)
    ensures forall s :: s in q ==> TouchedAll(q, es, nA)[s] == q[s]
    ensures forall s :: s in TouchedAll(q, es, nA) && s !in q ==> TouchedAll(q, es, nA)[s] == Zeros(nA)
  {
    if es != [] {
      var e := es[|es| - 1];
      var prev := TouchedAll(q, es[..|es| - 1], nA);
      TouchedAllOnlyAdds(q, es[..|es| - 1], nA);
      TouchedBeforeOnlyAdds(prev, e, StepsTaken(e.outcomes, MaxSteps), nA);
    }
  }

  /** One capped episode under the epsilon-greedy policy with Q read only, the inner
      loop of both evaluation functions. Each policy call evaluates `Q[state]`, so the
      only change to Q is that states seen for the first time get zero entries. */
  method Play<S>(q: Table<S>, nA: nat, epsilon: real, e: Script<S>) returns (q': Table<S>, ending: Ending)
    requires nA > 0 && WellShaped(q, nA) && Supplied(e)
    ensures q' == TouchedBefore(q, e, StepsTaken(e.outcomes, MaxSteps), nA)
    ensures ending == EndingOf(e)
  {
    var outs := e.outcomes;
    var state := e.start;
    q', ending := q, CutOff;
    var t := 0;
    while t < MaxSteps && ending.CutOff?
      invariant t <= MaxSteps && q' == TouchedBefore(q, e, t, nA)
      invariant ending.CutOff? ==> state == StateBefore(e, t) && Undone(outs, t)
      invariant ending.Done? ==> 0 < t && Undone(outs, t - 1) && outs[t - 1].done && ending.reward == outs[t - 1].reward
      decreases MaxSteps - t
    {
      var probs;
      q', probs := PolicyFn(q', state, epsilon, nA);
      // The action drawn from `probs` is the script's: outs[t].action.
      if outs[t].done {
        ending := Done(outs[t].reward);
      } else {
        state := outs[t].next;
      }
      t := t + 1;
    }
    StepsTakenStopsAt(outs, MaxSteps, t - 1);
  }
}
