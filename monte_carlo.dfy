/** First-visit Monte Carlo control with an epsilon-greedy policy
    (mc_epsilon_greedy.py `train` and `test`). */
module MonteCarlo {
  import opened EpsilonGreedy
  import opened Episodes

  /** One element of the episode trace: the state before the step, the action, the reward. */
  datatype Step<S> = Step(state: S, action: nat, reward: real)

  /** `returns_sum[p]` with its default of 0. */
  function SumOf<S(==)>(sums: map<Pair<S>, real>, p: Pair<S>): real
  {
    if p in sums then sums[p] else 0.0
  }

  /** The running average `returns_sum[p] / returns_count[p]`. */
  function Mean(sum: real, count: nat): real
    requires count > 0
  {
    sum / count as real
  }

  /** Element `t` of the rollout trace. */
  function StepAt<S(==)>(e: Script<S>, t: nat): Step<S>
    requires t < |e.outcomes|
  {
    Step(StateBefore(e, t), e.outcomes[t].action, e.outcomes[t].reward)
  }

  /** The episode list after the first `t` steps: one element appended per step. */
  function TraceBefore<S(==)>(e: Script<S>, t: nat): seq<Step<S>>
    requires t <= |e.outcomes|
  {
    if t == 0 then [] else TraceBefore(e, t - 1) + [StepAt(e, t - 1)]
  }

  /** The episode list the rollout builds: one element per step taken. */
  function Trace<S(==)>(e: Script<S>): seq<Step<S>>
    requires Supplied(e)
  {
    TraceBefore(e, StepsTaken(e.outcomes, MaxSteps))
  }

  /** After `t` steps the list has `t` elements, element `i` recording step `i`. */
  lemma {:induction false} TraceBeforeElements<S>(e: Script<S>, t: nat)
    requires t <= |e.outcomes|
    ensures |TraceBefore(e, t)| == t
    ensures forall i :: 0 <= i < t ==> TraceBefore(e, t)[i] == StepAt(e, i)
  {
    if t > 0 {
      TraceBeforeElements(e, t - 1);
    }
  }

  /** The trace has between 1 and 100 elements, records at `t` the state observed before
      step `t` with that step's action and reward, and ends at the first `done` step
      (or at the cap). */
  lemma TraceShape<S>(e: Script<S>)
    requires Supplied(e)
    ensures 1 <= |Trace(e)| <= MaxSteps
    ensures forall t :: 0 <= t < |Trace(e)| ==>
      Trace(e)[t] == Step(StateBefore(e, t), e.outcomes[t].action, e.outcomes[t].reward)
    ensures forall t :: 0 <= t < |Trace(e)| - 1 ==> !e.outcomes[t].done
    ensures |Trace(e)| == MaxSteps || e.outcomes[|Trace(e)| - 1].done
    ensures EndingOf(e) == if e.outcomes[|Trace(e)| - 1].done then Done(Trace(e)[|Trace(e)| - 1].reward) else CutOff
  {
    StepsTakenStops(e.outcomes, MaxSteps);
    TraceBeforeElements(e, StepsTaken(e.outcomes, MaxSteps));
  }

  /** The (state, action) pairs visited in a trace (`sa_in_episode`). */
  function Pairs<S(==)>(tr: seq<Step<S>>): set<Pair<S>>
  {
    if tr == [] then {} else Pairs(tr[..|tr| - 1]) + {(tr[|tr| - 1].state, tr[|tr| - 1].action)}
  }

  /** A pair is in `Pairs(tr)` exactly when some element of the trace has that state and action. */
  lemma {:induction false} PairsMembers<S>(tr: seq<Step<S>>, p: Pair<S>)
    ensures p in Pairs(tr) <==> exists t :: 0 <= t < |tr| && (tr[t].state, tr[t].action) == p
  {
    if tr != [] {
      var init := tr[..|tr| - 1];
      PairsMembers(init, p);
      if p in Pairs(init) {
        var t :| 0 <= t < |init| && (init[t].state, init[t].action) == p;
        assert tr[t] == init[t];
      }
      if exists t :: 0 <= t < |tr| && (tr[t].state, tr[t].action) == p {
        var t :| 0 <= t < |tr| && (tr[t].state, tr[t].action) == p;
        if t < |init| {
          assert init[t] == tr[t];
        }
      }
    }
  }

  /** The index of the first occurrence of pair `p` in the trace. */
  function FirstVisit<S(==)>(tr: seq<Step<S>>, p: Pair<S>): (k: nat)
    requires p in Pairs(tr)
    ensures k < |tr| && (tr[k].state, tr[k].action) == p
    ensures forall i :: 0 <= i < k ==> (tr[i].state, tr[i].action) != p
  {
    PairsMembers(tr, p);
    if (tr[0].state, tr[0].action) == p then 0
    else
      var t :| 0 <= t < |tr| && (tr[t].state, tr[t].action) == p;
      assert (tr[1..][t - 1].state, tr[1..][t - 1].action) == p;
      PairsMembers(tr[1..], p);
      1 + FirstVisit(tr[1..], p)
  }

  /** `discount_factor ** i` */
  function Pow(x: real, i: nat): real
  {
    if i == 0 then 1.0 else x * Pow(x, i - 1)
  }

  /** `sum(x.reward * discount_factor ** i for i, x in enumerate(tr))`. */
  function DiscountedSum<S(==)>(tr: seq<Step<S>>, gamma: real): real
  {
    DiscountedFrom(tr, gamma, 0)
  }

  /** The same sum with the exponents starting at `i` instead of 0. */
  function DiscountedFrom<S(==)>(tr: seq<Step<S>>, gamma: real, i: nat): real
  {
    if tr == [] then 0.0 else tr[0].reward * Pow(gamma, i) + DiscountedFrom(tr[1..], gamma, i + 1)
  }

  /** Starting the exponents one later multiplies the sum by `gamma`. */
  lemma {:induction false} DiscountedFromShift<S>(tr: seq<Step<S>>, gamma: real, i: nat)
    ensures DiscountedFrom(tr, gamma, i + 1) == gamma * DiscountedFrom(tr, gamma, i)
  {
    if tr != [] {
      DiscountedFromShift(tr[1..], gamma, i + 1);
      Distribute(tr[0].reward, gamma, Pow(gamma, i), DiscountedFrom(tr[1..], gamma, i + 1));
    }
  }

  /** `r * (g * p) + g * d == g * (r * p + d)` */
  lemma Distribute(r: real, g: real, p: real, d: real)
    ensures r * (g * p) + g * d == g * (r * p + d)
  {
  }

  /** The discounted sum obeys the return recursion `G_t = r_t + gamma * G_(t+1)`. */
  lemma DiscountedSumRecursion<S>(tr: seq<Step<S>>, gamma: real)
    requires tr != []
    ensures DiscountedSum(tr, gamma) == tr[0].reward + gamma * DiscountedSum(tr[1..], gamma)
  {
    DiscountedFromShift(tr[1..], gamma, 0);
  }

  /** Without discounting the return is the plain sum of the rewards. */
  lemma {:induction false} UndiscountedSum<S>(tr: seq<Step<S>>)
    ensures DiscountedSum(tr, 1.0) == RewardSum(tr)
  {
    if tr != [] {
      DiscountedSumRecursion(tr, 1.0);
      UndiscountedSum(tr[1..]);
    }
  }

  /** The rewards of a trace added up. */
  function RewardSum<S(==)>(tr: seq<Step<S>>): real
  {
    if tr == [] then 0.0 else tr[0].reward + RewardSum(tr[1..])
  }

  /** The first-visit return `G` of pair `p`: the discounted rewards from its first occurrence on. */
  function Return<S(==)>(tr: seq<Step<S>>, p: Pair<S>, gamma: real): real
    requires p in Pairs(tr)
  {
    DiscountedSum(tr[FirstVisit(tr, p)..], gamma)
  }

  /** The first-visit rule on a concrete trace: a pair seen at steps 0 and 2 with rewards
      1, 0, 2 and no discounting has return 3 (from step 0), not 2 (from step 2). */
  lemma FirstVisitExample()
    ensures var tr := [Step(7, 0, 1.0), Step(8, 1, 0.0), Step(7, 0, 2.0)];
            FirstVisit(tr, (7, 0)) == 0 && Return(tr, (7, 0), 1.0) == 3.0 && DiscountedSum(tr[2..], 1.0) == 2.0
  {
    var tr := [Step(7, 0, 1.0), Step(8, 1, 0.0), Step(7, 0, 2.0)];
    assert (tr[0].state, tr[0].action) == (7, 0);
    UndiscountedSum(tr);
    UndiscountedSum(tr[2..]);
    assert tr[1..][1..] == tr[2..];
  }

  /** The rollout of one training episode: follow the policy for at most 100 steps,
      appending `(state, action, reward)` to the trace and stopping at `done`. */
  method Rollout<S(==)>(q: Table<S>, nA: nat, epsilon: real, e: Script<S>)
    returns (q': Table<S>, trace: seq<Step<S>>, ending: Ending)
    requires nA > 0 && WellShaped(q, nA) && Supplied(e)
    ensures q' == TouchedBefore(q, e, StepsTaken(e.outcomes, MaxSteps), nA)
    ensures trace == Trace(e)
    ensures ending == EndingOf(e)
  {
    var outs := e.outcomes;
    var state := e.start;
    q', trace, ending := q, [], CutOff;
    var t := 0;
    while t < MaxSteps && ending.CutOff?
      invariant t <= MaxSteps
      invariant q' == TouchedBefore(q, e, t, nA) && trace == TraceBefore(e, t)
      invariant ending.CutOff? ==> state == StateBefore(e, t) && Undone(outs, t)
      invariant ending.Done? ==> 0 < t && Undone(outs, t - 1) && outs[t - 1].done && ending.reward == outs[t - 1].reward
      decreases MaxSteps - t
    {
      q', trace := TakeStep(q, q', trace, state, epsilon, nA, e, t);
      if outs[t].done {
        ending := Done(outs[t].reward);
      } else {
        state := outs[t].next;
      }
      t := t + 1;
    }
    StepsTakenStopsAt(outs, MaxSteps, t - 1);
  }

  /** Step `t` of the rollout: the policy evaluates `Q[state]`, the script's action is taken,
      and `(state, action, reward)` is appended to the trace. */
  method TakeStep<S(==)>(q0: Table<S>, q: Table<S>, trace: seq<Step<S>>, state: S, epsilon: real, nA: nat,
                         e: Script<S>, t: nat)
    returns (q': Table<S>, trace': seq<Step<S>>)
    requires nA > 0 && WellShaped(q0, nA) && t < |e.outcomes| && state == StateBefore(e, t)
    requires q == TouchedBefore(q0, e, t, nA) && trace == TraceBefore(e, t)
    ensures q' == TouchedBefore(q0, e, t + 1, nA) && trace' == TraceBefore(e, t + 1)
  {
    var probs;
    q', probs := PolicyFn(q, state, epsilon, nA);
    // The action drawn from `probs` is the script's: e.outcomes[t].action.
    trace' := trace + [Step(state, e.outcomes[t].action, e.outcomes[t].reward)];
  }

  /** The tables the update writes: Q, `returns_sum` and `returns_count`. */
  datatype Estimates<S> = Estimates(q: Table<S>, sums: map<Pair<S>, real>, counts: map<Pair<S>, nat>)

  /** Every action recorded in the trace is an action of the environment. */
  ghost predicate ActionsBelow<S>(tr: seq<Step<S>>, nA: nat)
  {
    forall t :: 0 <= t < |tr| ==> tr[t].action < nA
  }

  /** No element occurs twice. */
  ghost predicate Distinct<T>(s: seq<T>)
  {
    forall i, j :: 0 <= i < j < |s| ==> s[i] != s[j]
  }

  /** The elements of a sequence, as a set. */
  function Elements<T>(s: seq<T>): set<T>
  {
    if s == [] then {} else Elements(s[..|s| - 1]) + {s[|s| - 1]}
  }

  /** One pass of the update loop for pair `p = (s, a)`: `returns_sum[p]` gains the
      first-visit return of `p`, `returns_count[p]` gains 1, and `Q[s][a]` becomes their quotient. */
  function Credit<S(==)>(est: Estimates<S>, episode: seq<Step<S>>, gamma: real, nA: nat, p: Pair<S>): (r: Estimates<S>)
    requires WellShaped(est.q, nA) && ActionsBelow(episode, nA) && p in Pairs(episode)
    ensures WellShaped(r.q, nA)
  {
    PairsMembers(episode, p);
    var sum := SumOf(est.sums, p) + Return(episode, p, gamma);
    var count := CountOf(est.counts, p) + 1;
    Estimates(SetCell(est.q, p.0, p.1, Mean(sum, count), nA), est.sums[p := sum], est.counts[p := count])
  }

  /** The pairs of `ps` credited one after the other, in that order. */
  function CreditAll<S(==)>(est: Estimates<S>, episode: seq<Step<S>>, gamma: real, nA: nat, ps: seq<Pair<S>>): (r: Estimates<S>)
    requires WellShaped(est.q, nA) && ActionsBelow(episode, nA)
    requires forall i :: 0 <= i < |ps| ==> ps[i] in Pairs(episode)
    ensures WellShaped(r.q, nA)
  {
    if ps == [] then est
    else Credit(CreditAll(est, episode, gamma, nA, ps[..|ps| - 1]), episode, gamma, nA, ps[|ps| - 1])
  }

  /** Crediting `p` gives its sum the first-visit return and its count one more visit,
      stores their quotient in its Q cell (creating the row if missing), and changes no
      other accumulator entry and no other cell; a row it creates is zero elsewhere. */
  lemma CreditEffect<S>(est: Estimates<S>, episode: seq<Step<S>>, gamma: real, nA: nat, p: Pair<S>)
    requires WellShaped(est.q, nA) && ActionsBelow(episode, nA) && p in Pairs(episode)
    ensures var r := Credit(est, episode, gamma, nA, p);
      && SumOf(r.sums, p) == SumOf(est.sums, p) + Return(episode, p, gamma)
      && CountOf(r.counts, p) == CountOf(est.counts, p) + 1
      && p.0 in r.q && p.1 < nA && r.q[p.0][p.1] == Mean(SumOf(r.sums, p), CountOf(r.counts, p))
    ensures var r := Credit(est, episode, gamma, nA, p);
      forall p' :: p' != p ==> SumOf(r.sums, p') == SumOf(est.sums, p') && CountOf(r.counts, p') == CountOf(est.counts, p')
    ensures var r := Credit(est, episode, gamma, nA, p);
      && r.q.Keys == est.q.Keys + {p.0}
      && r.sums.Keys == est.sums.Keys + {p} && r.counts.Keys == est.counts.Keys + {p}
    ensures var r := Credit(est, episode, gamma, nA, p);
      forall s, a :: s in est.q && 0 <= a < nA && (s, a) != p ==> r.q[s][a] == est.q[s][a]
    ensures var r := Credit(est, episode, gamma, nA, p);
      forall a :: p.0 !in est.q && 0 <= a < nA && a != p.1 ==> r.q[p.0][a] == 0.0
  {
    PairsMembers(episode, p);
    var sum := SumOf(est.sums, p) + Return(episode, p, gamma);
    var count := CountOf(est.counts, p) + 1;
    SetCellEffect(est.q, p.0, p.1, Mean(sum, count), nA);
  }

  /** After crediting the pairs of `ps` (each listed once), a pair of `ps` has gained its
      first-visit return and one count, and its Q cell holds their quotient. */
  lemma {:induction false} CreditAllCredits<S>(est: Estimates<S>, episode: seq<Step<S>>, gamma: real, nA: nat,
                                               ps: seq<Pair<S>>, p: Pair<S>)
    requires WellShaped(est.q, nA) && ActionsBelow(episode, nA)
    requires forall i :: 0 <= i < |ps| ==> ps[i] in Pairs(episode)
    requires Distinct(ps) && p in ps
    ensures var r := CreditAll(est, episode, gamma, nA, ps);
      && SumOf(r.sums, p) == SumOf(est.sums, p) + Return(episode, p, gamma)
      && CountOf(r.counts, p) == CountOf(est.counts, p) + 1
      && p.0 in r.q && p.1 < nA && r.q[p.0][p.1] == Mean(SumOf(r.sums, p), CountOf(r.counts, p))
  {
    var init, last := ps[..|ps| - 1], ps[|ps| - 1];
    var prev := CreditAll(est, episode, gamma, nA, init);
    CreditEffect(prev, episode, gamma, nA, last);
    if last == p {
      DistinctLast(ps);
      CreditAllKeepsPair(est, episode, gamma, nA, init, p);
    } else {
      InitMembers(ps, p);
      CreditAllCredits(est, episode, gamma, nA, init, p);
      PairsMembers(episode, p);
      assert (p.0, p.1) != last;
    }
  }

  /** Crediting the pairs of `ps` leaves the sum and count of any other pair as they were. */
  lemma {:induction false} CreditAllKeepsPair<S>(est: Estimates<S>, episode: seq<Step<S>>, gamma: real, nA: nat,
                                                 ps: seq<Pair<S>>, p: Pair<S>)
    requires WellShaped(est.q, nA) && ActionsBelow(episode, nA)
    requires forall i :: 0 <= i < |ps| ==> ps[i] in Pairs(episode)
    requires p !in ps
    ensures SumOf(CreditAll(est, episode, gamma, nA, ps).sums, p) == SumOf(est.sums, p)
    ensures CountOf(CreditAll(est, episode, gamma, nA, ps).counts, p) == CountOf(est.counts, p)
  {
    if ps != [] {
      var init, last := ps[..|ps| - 1], ps[|ps| - 1];
      InitMembers(ps, p);
      CreditAllKeepsPair(est, episode, gamma, nA, init, p);
      CreditEffect(CreditAll(est, episode, gamma, nA, init), episode, gamma, nA, last);
    }
  }

  /** Crediting the pairs of `ps` leaves every other cell of Q as it read before: an
      existing cell keeps its value and a cell in a row created on the way reads 0. */
  lemma {:induction false} CreditAllKeepsCell<S>(est: Estimates<S>, episode: seq<Step<S>>, gamma: real, nA: nat,
                                                 ps: seq<Pair<S>>, s: S, a: nat)
    requires WellShaped(est.q, nA) && ActionsBelow(episode, nA)
    requires forall i :: 0 <= i < |ps| ==> ps[i] in Pairs(episode)
    requires (s, a) !in ps && a < nA
    ensures s in est.q ==> s in CreditAll(est, episode, gamma, nA, ps).q
                           && CreditAll(est, episode, gamma, nA, ps).q[s][a] == est.q[s][a]
    ensures s in CreditAll(est, episode, gamma, nA, ps).q && s !in est.q ==>
              CreditAll(est, episode, gamma, nA, ps).q[s][a] == 0.0
  {
    if ps != [] {
      var init, last := ps[..|ps| - 1], ps[|ps| - 1];
      InitMembers(ps, (s, a));
      CreditAllKeepsCell(est, episode, gamma, nA, init, s, a);
      CreditEffect(CreditAll(est, episode, gamma, nA, init), episode, gamma, nA, last);
    }
  }

  /** Crediting the pairs of `ps` adds exactly those pairs to the accumulators. */
  lemma {:induction false} CreditAllKeys<S>(est: Estimates<S>, episode: seq<Step<S>>, gamma: real, nA: nat,
                                            ps: seq<Pair<S>>)
    requires WellShaped(est.q, nA) && ActionsBelow(episode, nA)
    requires forall i :: 0 <= i < |ps| ==> ps[i] in Pairs(episode)
    ensures CreditAll(est, episode, gamma, nA, ps).sums.Keys == est.sums.Keys + Elements(ps)
    ensures CreditAll(est, episode, gamma, nA, ps).counts.Keys == est.counts.Keys + Elements(ps)
  {
    if ps != [] {
      var init, last := ps[..|ps| - 1], ps[|ps| - 1];
      CreditAllKeys(est, episode, gamma, nA, init);
      CreditEffect(CreditAll(est, episode, gamma, nA, init), episode, gamma, nA, last);
    }
  }

  /** Crediting the pairs of `ps` removes no row of Q, and adds none when every pair's
      state already has a row. */
  lemma {:induction false} CreditAllRows<S>(est: Estimates<S>, episode: seq<Step<S>>, gamma: real, nA: nat,
                                            ps: seq<Pair<S>>)
    requires WellShaped(est.q, nA) && ActionsBelow(episode, nA)
    requires forall i :: 0 <= i < |ps| ==> ps[i] in Pairs(episode)
    ensures est.q.Keys <= CreditAll(est, episode, gamma, nA, ps).q.Keys
    ensures (forall i :: 0 <= i < |ps| ==> ps[i].0 in est.q) ==> CreditAll(est, episode, gamma, nA, ps).q.Keys == est.q.Keys
  {
    if ps != [] {
      var init, last := ps[..|ps| - 1], ps[|ps| - 1];
      CreditAllRows(est, episode, gamma, nA, init);
      CreditEffect(CreditAll(est, episode, gamma, nA, init), episode, gamma, nA, last);
    }
  }

  /** An element of a non-empty sequence is its last element or an element of the rest. */
  lemma InitMembers<T>(ps: seq<T>, x: T)
    requires ps != []
    ensures x in ps <==> x in ps[..|ps| - 1] || x == ps[|ps| - 1]
  {
    assert ps == ps[..|ps| - 1] + [ps[|ps| - 1]];
  }

  /** In a sequence without repeats the last element does not occur before. */
  lemma DistinctLast<T>(ps: seq<T>)
    requires ps != [] && Distinct(ps)
    ensures ps[|ps| - 1] !in ps[..|ps| - 1]
  {
    var init := ps[..|ps| - 1];
    forall i | 0 <= i < |init|
      ensures init[i] != ps[|ps| - 1]
    {
      assert init[i] == ps[i];
    }
  }

  /** `order` lists each pair of `pairs` exactly once: one order in which a loop over the set can visit them. */
  ghost predicate Enumerates<T>(order: seq<T>, pairs: set<T>)
  {
    Distinct(order) && Elements(order) == pairs
  }

  /** The update after one episode: for each distinct pair visited, in the order the loop
      over the set `sa_in_episode` meets them, add its first-visit return to `returns_sum`,
      add 1 to `returns_count` and set `Q[s][a]` to their quotient. */
  method Update<S(==)>(q: Table<S>, sums: map<Pair<S>, real>, counts: map<Pair<S>, nat>,
                       episode: seq<Step<S>>, gamma: real, nA: nat)
    returns (q': Table<S>, sums': map<Pair<S>, real>, counts': map<Pair<S>, nat>, ghost order: seq<Pair<S>>)
    requires nA > 0 && WellShaped(q, nA) && ActionsBelow(episode, nA)
    ensures Enumerates(order, Pairs(episode))
    ensures forall i :: 0 <= i < |order| ==> order[i] in Pairs(episode)
    ensures Estimates(q', sums', counts') == CreditAll(Estimates(q, sums, counts), episode, gamma, nA, order)
  {
    var todo := Pairs(episode);
    order := [];
    q', sums', counts' := q, sums, counts;
    while todo != {}
      invariant Distinct(order) && Elements(order) + todo == Pairs(episode) && Elements(order) !! todo
      invariant forall i :: 0 <= i < |order| ==> order[i] in Pairs(episode)
      invariant Estimates(q', sums', counts') == CreditAll(Estimates(q, sums, counts), episode, gamma, nA, order)
      decreases |todo|
    {
      var p :| p in todo;
      q', sums', counts' := CreditPair(q', sums', counts', episode, gamma, nA, p);
      ExtendOrder(order, todo, Pairs(episode), p);
      CreditAllSnoc(Estimates(q, sums, counts), episode, gamma, nA, order, p);
      order, todo := order + [p], todo - {p};
    }
  }

  /** The body of the update loop for pair `p = (state, action)`: find the first occurrence of
      `p`, sum the discounted rewards from there, add that to `returns_sum[p]`, add 1 to
      `returns_count[p]`, and store their quotient in `Q[state][action]`. */
  method CreditPair<S(==)>(q: Table<S>, sums: map<Pair<S>, real>, counts: map<Pair<S>, nat>,
                           episode: seq<Step<S>>, gamma: real, nA: nat, p: Pair<S>)
    returns (q': Table<S>, sums': map<Pair<S>, real>, counts': map<Pair<S>, nat>)
    requires WellShaped(q, nA) && ActionsBelow(episode, nA) && p in Pairs(episode)
    ensures Estimates(q', sums', counts') == Credit(Estimates(q, sums, counts), episode, gamma, nA, p)
  {
    PairsMembers(episode, p);
    var k := FirstVisit(episode, p);
    var g := DiscountedSum(episode[k..], gamma);
    sums' := sums[p := SumOf(sums, p) + g];
    counts' := counts[p := CountOf(counts, p) + 1];
    q' := SetCell(q, p.0, p.1, Mean(sums'[p], counts'[p]), nA);
  }

  /** Crediting one more pair after `ps` is one more `Credit`. */
  lemma CreditAllSnoc<S>(est: Estimates<S>, episode: seq<Step<S>>, gamma: real, nA: nat, ps: seq<Pair<S>>, p: Pair<S>)
    requires WellShaped(est.q, nA) && ActionsBelow(episode, nA)
    requires forall i :: 0 <= i < |ps| ==> ps[i] in Pairs(episode)
    requires p in Pairs(episode)
    ensures CreditAll(est, episode, gamma, nA, ps + [p])
            == Credit(CreditAll(est, episode, gamma, nA, ps), episode, gamma, nA, p)
  {
    assert (ps + [p])[..|ps|] == ps;
  }

  /** Moving one element from the pairs still to do to the end of the order keeps the order
      free of repeats and together with the rest still covering all pairs. */
  lemma ExtendOrder<T>(order: seq<T>, todo: set<T>, all: set<T>, x: T)
    requires Distinct(order) && Elements(order) + todo == all && Elements(order) !! todo && x in todo
    ensures (order + [x])[..|order|] == order
    ensures Distinct(order + [x]) && Elements(order + [x]) + (todo - {x}) == all
    ensures Elements(order + [x]) !! (todo - {x})
  {
    assert (order + [x])[..|order|] == order;
    ElementsMembers(order, x);
  }

  /** `x` is in `Elements(s)` exactly when it occurs in `s`. */
  lemma {:induction false} ElementsMembers<T>(s: seq<T>, x: T)
    ensures x in Elements(s) <==> x in s
  {
    if s != [] {
      ElementsMembers(s[..|s| - 1], x);
      assert s == s[..|s| - 1] + [s[|s| - 1]];
    }
  }

  /** How many of the episodes `es` visit pair `p`: each visiting episode counts once,
      however often the pair repeats in it. */
  ghost function Visits<S>(es: seq<Script<S>>, p: Pair<S>): nat
    requires AllSupplied(es)
  {
    if es == [] then 0
    else Visits(es[..|es| - 1], p) + (if p in Pairs(Trace(es[|es| - 1])) then 1 else 0)
  }

  /** The first-visit returns of `p` in the episodes that visit it, added up. */
  ghost function ReturnTotal<S>(es: seq<Script<S>>, p: Pair<S>, gamma: real): real
    requires AllSupplied(es)
  {
    if es == [] then 0.0
    else
      var e := es[|es| - 1];
      ReturnTotal(es[..|es| - 1], p, gamma) + (if p in Pairs(Trace(e)) then Return(Trace(e), p, gamma) else 0.0)
  }

  /** The pairs visited in some episode of `es`. */
  ghost function SeenPairs<S>(es: seq<Script<S>>): set<Pair<S>>
    requires AllSupplied(es)
  {
    if es == [] then {} else SeenPairs(es[..|es| - 1]) + Pairs(Trace(es[|es| - 1]))
  }

  /** The first-visit Monte Carlo estimate of `p` after the episodes `es`: the average of
      its first-visit returns over the episodes that visit it, and 0 if none does. */
  ghost function Estimate<S>(es: seq<Script<S>>, p: Pair<S>, gamma: real): real
    requires AllSupplied(es)
  {
    if Visits(es, p) > 0 then Mean(ReturnTotal(es, p, gamma), Visits(es, p)) else 0.0
  }

  /** A pair has been visited exactly when it is among the pairs seen, and a pair never
      visited has no return to its name. */
  lemma {:induction false} VisitsSeen<S>(es: seq<Script<S>>, p: Pair<S>, gamma: real)
    requires AllSupplied(es)
    ensures Visits(es, p) > 0 <==> p in SeenPairs(es)
    ensures Visits(es, p) == 0 ==> ReturnTotal(es, p, gamma) == 0.0
  {
    if es != [] {
      VisitsSeen(es[..|es| - 1], p, gamma);
    }
  }

  /** After a single episode the estimate of a pair it visits is that episode's first-visit
      return itself: an average over one count. */
  lemma SingleEpisodeEstimate<S>(e: Script<S>, p: Pair<S>, gamma: real)
    requires Supplied(e) && p in Pairs(Trace(e))
    ensures AllSupplied([e])
    ensures Estimate([e], p, gamma) == Return(Trace(e), p, gamma)
  {
    assert [e][..0] == [];
    assert Visits([e], p) == 1;
    assert ReturnTotal([e], p, gamma) == Return(Trace(e), p, gamma);
  }

  /** The learned tables and Q rows account for exactly the episodes `es`. */
  ghost predicate LearnedKeys<S>(q: Table<S>, sums: map<Pair<S>, real>, counts: map<Pair<S>, nat>,
                                 es: seq<Script<S>>, nA: nat)
    requires AllSupplied(es)
  {
    && WellShaped(q, nA)
    && q.Keys == SeenStates(es)
    && sums.Keys == SeenPairs(es) && counts.Keys == SeenPairs(es)
  }

  /** `returns_count` and `returns_sum` hold the visit count and the total first-visit return. */
  ghost predicate LearnedAccumulators<S>(sums: map<Pair<S>, real>, counts: map<Pair<S>, nat>,
                                         es: seq<Script<S>>, gamma: real)
    requires AllSupplied(es)
  {
    && (forall p :: p in counts ==> counts[p] == Visits(es, p))
    && (forall p :: p in sums ==> sums[p] == ReturnTotal(es, p, gamma))
  }

  /** Every cell of Q holds the Monte Carlo estimate of its pair. */
  ghost predicate LearnedCells<S>(q: Table<S>, es: seq<Script<S>>, gamma: real, nA: nat)
    requires AllSupplied(es) && WellShaped(q, nA)
  {
    forall s, a :: s in q && 0 <= a < nA ==> q[s][a] == Estimate(es, (s, a), gamma)
  }

  /** The state of `train` after the episodes `es`. */
  ghost predicate Learned<S>(q: Table<S>, sums: map<Pair<S>, real>, counts: map<Pair<S>, nat>,
                             es: seq<Script<S>>, gamma: real, nA: nat)
    requires AllSupplied(es)
  {
    && LearnedKeys(q, sums, counts, es, nA)
    && LearnedAccumulators(sums, counts, es, gamma)
    && LearnedCells(q, es, gamma, nA)
  }

  /** Adding episode `e` to the history adds its visits, its first-visit returns, its pairs
      and its observed states. */
  lemma History<S>(es: seq<Script<S>>, e: Script<S>, p: Pair<S>, gamma: real)
    requires AllSupplied(es) && Supplied(e)
    ensures AllSupplied(es + [e])
    ensures Visits(es + [e], p) == Visits(es, p) + (if p in Pairs(Trace(e)) then 1 else 0)
    ensures ReturnTotal(es + [e], p, gamma)
            == ReturnTotal(es, p, gamma) + (if p in Pairs(Trace(e)) then Return(Trace(e), p, gamma) else 0.0)
    ensures SeenPairs(es + [e]) == SeenPairs(es) + Pairs(Trace(e))
    ensures SeenStates(es + [e]) == SeenStates(es) + Visited(e)
  {
    assert (es + [e])[..|es|] == es;
  }

  /** Every pair of the trace has a state observed in the episode. */
  lemma PairStateVisited<S>(e: Script<S>, p: Pair<S>)
    requires Supplied(e) && p in Pairs(Trace(e))
    ensures p.0 in Visited(e)
  {
    TraceShape(e);
    PairsMembers(Trace(e), p);
    TraceBeforeElements(e, StepsTaken(e.outcomes, MaxSteps));
    var t :| 0 <= t < |Trace(e)| && (Trace(e)[t].state, Trace(e)[t].action) == p;
    assert p.0 == StateBefore(e, t);
  }

  /** The trace records only actions of the environment. */
  lemma TraceActions<S>(e: Script<S>, nA: nat)
    requires Supplied(e) && ActionsInRange(e, nA)
    ensures ActionsBelow(Trace(e), nA)
  {
    TraceShape(e);
  }

  /** With the accumulators accounting for `es`, their defaulting reads give the visit
      count and the return total of any pair. */
  lemma AccumulatorsRead<S>(q: Table<S>, sums: map<Pair<S>, real>, counts: map<Pair<S>, nat>,
                            es: seq<Script<S>>, gamma: real, nA: nat, p: Pair<S>)
    requires AllSupplied(es) && LearnedKeys(q, sums, counts, es, nA) && LearnedAccumulators(sums, counts, es, gamma)
    ensures SumOf(sums, p) == ReturnTotal(es, p, gamma) && CountOf(counts, p) == Visits(es, p)
  {
    VisitsSeen(es, p, gamma);
  }

  /** One episode of `train` on tables accounting for `es`: the rollout touches Q, then the
      update credits each visited pair once, in the order `order`. */
  ghost function AfterEpisode<S>(q: Table<S>, sums: map<Pair<S>, real>, counts: map<Pair<S>, nat>,
                                 e: Script<S>, gamma: real, nA: nat, order: seq<Pair<S>>): Estimates<S>
    requires WellShaped(q, nA) && Supplied(e) && ActionsInRange(e, nA)
    requires forall i :: 0 <= i < |order| ==> order[i] in Pairs(Trace(e))
  {
    TraceActions(e, nA);
    CreditAll(Estimates(TouchedBefore(q, e, StepsTaken(e.outcomes, MaxSteps), nA), sums, counts), Trace(e), gamma, nA, order)
  }

  /** One more episode keeps the key sets in step with the history. */
  lemma StepKeys<S>(q: Table<S>, sums: map<Pair<S>, real>, counts: map<Pair<S>, nat>,
                    es: seq<Script<S>>, e: Script<S>, gamma: real, nA: nat, order: seq<Pair<S>>)
    requires AllSupplied(es) && Supplied(e) && ActionsInRange(e, nA)
    requires LearnedKeys(q, sums, counts, es, nA)
    requires Enumerates(order, Pairs(Trace(e))) && forall i :: 0 <= i < |order| ==> order[i] in Pairs(Trace(e))
    ensures AllSupplied(es + [e])
    ensures var r := AfterEpisode(q, sums, counts, e, gamma, nA, order);
            LearnedKeys(r.q, r.sums, r.counts, es + [e], nA)
  {
    var p0: Pair<S> :| true;
    History(es, e, p0, gamma);
    TraceActions(e, nA);
    var n := StepsTaken(e.outcomes, MaxSteps);
    var q1 := TouchedBefore(q, e, n, nA);
    TouchedBeforeOnlyAdds(q, e, n, nA);
    forall i | 0 <= i < |order|
      ensures order[i].0 in q1
    {
      PairStateVisited(e, order[i]);
    }
    CreditAllKeys(Estimates(q1, sums, counts), Trace(e), gamma, nA, order);
    CreditAllRows(Estimates(q1, sums, counts), Trace(e), gamma, nA, order);
  }

  /** One more episode keeps the accumulators in step with the history. */
  lemma StepAccumulators<S>(q: Table<S>, sums: map<Pair<S>, real>, counts: map<Pair<S>, nat>,
                            es: seq<Script<S>>, e: Script<S>, gamma: real, nA: nat, order: seq<Pair<S>>)
    requires AllSupplied(es) && Supplied(e) && ActionsInRange(e, nA)
    requires LearnedKeys(q, sums, counts, es, nA) && LearnedAccumulators(sums, counts, es, gamma)
    requires Enumerates(order, Pairs(Trace(e))) && forall i :: 0 <= i < |order| ==> order[i] in Pairs(Trace(e))
    ensures AllSupplied(es + [e])
    ensures var r := AfterEpisode(q, sums, counts, e, gamma, nA, order);
            LearnedAccumulators(r.sums, r.counts, es + [e], gamma)
  {
    var p0: Pair<S> :| true;
    History(es, e, p0, gamma);
    var r := AfterEpisode(q, sums, counts, e, gamma, nA, order);
    forall p | p in r.counts
      ensures r.counts[p] == Visits(es + [e], p)
    {
      StepAccumulatorsAt(q, sums, counts, es, e, gamma, nA, order, p);
    }
    forall p | p in r.sums
      ensures r.sums[p] == ReturnTotal(es + [e], p, gamma)
    {
      StepAccumulatorsAt(q, sums, counts, es, e, gamma, nA, order, p);
    }
  }

  /** After one more episode, the accumulators of pair `p` read its visit count and return total. */
  lemma StepAccumulatorsAt<S>(q: Table<S>, sums: map<Pair<S>, real>, counts: map<Pair<S>, nat>,
                              es: seq<Script<S>>, e: Script<S>, gamma: real, nA: nat, order: seq<Pair<S>>, p: Pair<S>)
    requires AllSupplied(es) && Supplied(e) && ActionsInRange(e, nA)
    requires LearnedKeys(q, sums, counts, es, nA) && LearnedAccumulators(sums, counts, es, gamma)
    requires Enumerates(order, Pairs(Trace(e))) && forall i :: 0 <= i < |order| ==> order[i] in Pairs(Trace(e))
    ensures AllSupplied(es + [e])
    ensures var r := AfterEpisode(q, sums, counts, e, gamma, nA, order);
            && CountOf(r.counts, p) == Visits(es + [e], p)
            && SumOf(r.sums, p) == ReturnTotal(es + [e], p, gamma)
  {
    History(es, e, p, gamma);
    TraceActions(e, nA);
    var q1 := TouchedBefore(q, e, StepsTaken(e.outcomes, MaxSteps), nA);
    var est := Estimates(q1, sums, counts);
    AccumulatorsRead(q, sums, counts, es, gamma, nA, p);
    ElementsMembers(order, p);
    var r := CreditAll(est, Trace(e), gamma, nA, order);
    assert r == AfterEpisode(q, sums, counts, e, gamma, nA, order);
    if p in order {
      CreditAllCredits(est, Trace(e), gamma, nA, order, p);
    } else {
      CreditAllKeepsPair(est, Trace(e), gamma, nA, order, p);
    }
  }

  /** One more episode keeps every Q cell equal to the estimate of its pair. */
  lemma StepCells<S>(q: Table<S>, sums: map<Pair<S>, real>, counts: map<Pair<S>, nat>,
                     es: seq<Script<S>>, e: Script<S>, gamma: real, nA: nat, order: seq<Pair<S>>)
    requires AllSupplied(es) && Supplied(e) && ActionsInRange(e, nA)
    requires Learned(q, sums, counts, es, gamma, nA)
    requires Enumerates(order, Pairs(Trace(e))) && forall i :: 0 <= i < |order| ==> order[i] in Pairs(Trace(e))
    ensures AllSupplied(es + [e])
    ensures var r := AfterEpisode(q, sums, counts, e, gamma, nA, order);
            LearnedCells(r.q, es + [e], gamma, nA)
  {
    var p0: Pair<S> :| true;
    History(es, e, p0, gamma);
    var r := AfterEpisode(q, sums, counts, e, gamma, nA, order);
    forall s, a | s in r.q && 0 <= a < nA
      ensures r.q[s][a] == Estimate(es + [e], (s, a), gamma)
    {
      StepCellAt(q, sums, counts, es, e, gamma, nA, order, s, a);
    }
  }

  /** After one more episode, the Q cell of `(s, a)`, if present, holds the estimate of the pair. */
  lemma StepCellAt<S>(q: Table<S>, sums: map<Pair<S>, real>, counts: map<Pair<S>, nat>,
                      es: seq<Script<S>>, e: Script<S>, gamma: real, nA: nat, order: seq<Pair<S>>, s: S, a: nat)
    requires AllSupplied(es) && Supplied(e) && ActionsInRange(e, nA)
    requires Learned(q, sums, counts, es, gamma, nA)
    requires Enumerates(order, Pairs(Trace(e))) && forall i :: 0 <= i < |order| ==> order[i] in Pairs(Trace(e))
    requires a < nA
    ensures AllSupplied(es + [e])
    ensures var r := AfterEpisode(q, sums, counts, e, gamma, nA, order);
            s in r.q ==> r.q[s][a] == Estimate(es + [e], (s, a), gamma)
  {
    History(es, e, (s, a), gamma);
    ElementsMembers(order, (s, a));
    if (s, a) in order {
      StepCellCredited(q, sums, counts, es, e, gamma, nA, order, (s, a));
    } else {
      StepCellKept(q, sums, counts, es, e, gamma, nA, order, s, a);
    }
  }

  /** The Q cell of a pair visited in the new episode holds its updated estimate. */
  lemma StepCellCredited<S>(q: Table<S>, sums: map<Pair<S>, real>, counts: map<Pair<S>, nat>,
                            es: seq<Script<S>>, e: Script<S>, gamma: real, nA: nat, order: seq<Pair<S>>, p: Pair<S>)
    requires AllSupplied(es) && Supplied(e) && ActionsInRange(e, nA)
    requires LearnedKeys(q, sums, counts, es, nA) && LearnedAccumulators(sums, counts, es, gamma)
    requires Enumerates(order, Pairs(Trace(e))) && forall i :: 0 <= i < |order| ==> order[i] in Pairs(Trace(e))
    requires p in order
    ensures AllSupplied(es + [e])
    ensures var r := AfterEpisode(q, sums, counts, e, gamma, nA, order);
            p.0 in r.q && p.1 < nA && r.q[p.0][p.1] == Estimate(es + [e], p, gamma)
  {
    History(es, e, p, gamma);
    ElementsMembers(order, p);
    TraceActions(e, nA);
    var q1 := TouchedBefore(q, e, StepsTaken(e.outcomes, MaxSteps), nA);
    AccumulatorsRead(q, sums, counts, es, gamma, nA, p);
    var r := CreditAll(Estimates(q1, sums, counts), Trace(e), gamma, nA, order);
    CreditAllCredits(Estimates(q1, sums, counts), Trace(e), gamma, nA, order, p);
    assert r == AfterEpisode(q, sums, counts, e, gamma, nA, order);
    assert SumOf(r.sums, p) == ReturnTotal(es + [e], p, gamma);
    assert CountOf(r.counts, p) == Visits(es + [e], p);
  }

  /** The Q cell of a pair not visited in the new episode keeps its estimate; a row the
      episode creates reads 0 there, the estimate of a pair never visited. */
  lemma StepCellKept<S>(q: Table<S>, sums: map<Pair<S>, real>, counts: map<Pair<S>, nat>,
                        es: seq<Script<S>>, e: Script<S>, gamma: real, nA: nat, order: seq<Pair<S>>, s: S, a: nat)
    requires AllSupplied(es) && Supplied(e) && ActionsInRange(e, nA)
    requires Learned(q, sums, counts, es, gamma, nA)
    requires Enumerates(order, Pairs(Trace(e))) && forall i :: 0 <= i < |order| ==> order[i] in Pairs(Trace(e))
    requires (s, a) !in order && a < nA
    ensures AllSupplied(es + [e])
    ensures var r := AfterEpisode(q, sums, counts, e, gamma, nA, order);
            s in r.q ==> r.q[s][a] == Estimate(es + [e], (s, a), gamma)
  {
    var p := (s, a);
    History(es, e, p, gamma);
    ElementsMembers(order, p);
    TraceActions(e, nA);
    var n := StepsTaken(e.outcomes, MaxSteps);
    var q1 := TouchedBefore(q, e, n, nA);
    TouchedBeforeOnlyAdds(q, e, n, nA);
    var r := CreditAll(Estimates(q1, sums, counts), Trace(e), gamma, nA, order);
    CreditAllKeepsCell(Estimates(q1, sums, counts), Trace(e), gamma, nA, order, s, a);
    assert r == AfterEpisode(q, sums, counts, e, gamma, nA, order);
    assert Estimate(es + [e], p, gamma) == Estimate(es, p, gamma);
    if s in q {
      assert r.q[s][a] == q[s][a];
    } else {
      // A state never observed has no visited pair.
      SeenPairsStates(es, p);
      VisitsSeen(es, p, gamma);
      assert Estimate(es, p, gamma) == 0.0;
    }
  }

  /** A pair visited in some episode has a state observed in that episode. */
  lemma {:induction false} SeenPairsStates<S>(es: seq<Script<S>>, p: Pair<S>)
    requires AllSupplied(es)
    ensures p in SeenPairs(es) ==> p.0 in SeenStates(es)
  {
    if es != [] {
      SeenPairsStates(es[..|es| - 1], p);
      if p in Pairs(Trace(es[|es| - 1])) {
        PairStateVisited(es[|es| - 1], p);
      }
    }
  }

  /** One more episode, the one at index `i`, keeps the tables in step with the history. */
  lemma LearnedStep<S>(q: Table<S>, sums: map<Pair<S>, real>, counts: map<Pair<S>, nat>,
                       es: seq<Script<S>>, i: nat, gamma: real, nA: nat, order: seq<Pair<S>>,
                       q': Table<S>, sums': map<Pair<S>, real>, counts': map<Pair<S>, nat>)
    requires i < |es| && AllSupplied(es) && ActionsInRange(es[i], nA)
    requires AllSupplied(es[..i]) && Learned(q, sums, counts, es[..i], gamma, nA)
    requires Enumerates(order, Pairs(Trace(es[i]))) && forall j :: 0 <= j < |order| ==> order[j] in Pairs(Trace(es[i]))
    requires Estimates(q', sums', counts') == AfterEpisode(q, sums, counts, es[i], gamma, nA, order)
    ensures AllSupplied(es[..i + 1])
    ensures Learned(q', sums', counts', es[..i + 1], gamma, nA)
  {
    var e := es[i];
    TakeOneMore(es, i);
    StepKeys(q, sums, counts, es[..i], e, gamma, nA, order);
    StepAccumulators(q, sums, counts, es[..i], e, gamma, nA, order);
    StepCells(q, sums, counts, es[..i], e, gamma, nA, order);
  }

  /** One iteration of the `i_episode` loop of `train`: roll out episode `i`, adding the
      reward of its `done` step to `reward_total`, then credit each distinct visited pair once. */
  method Episode<S(==)>(scripts: seq<Script<S>>, i: nat, q: Table<S>, sums: map<Pair<S>, real>,
                        counts: map<Pair<S>, nat>, rewardTotal: real, gamma: real, epsilon: real, nA: nat)
    returns (q': Table<S>, sums': map<Pair<S>, real>, counts': map<Pair<S>, nat>, rewardTotal': real)
    requires nA > 0 && i < |scripts| && AllSupplied(scripts) && ActionsInRange(scripts[i], nA)
    requires AllSupplied(scripts[..i]) && Learned(q, sums, counts, scripts[..i], gamma, nA)
    requires rewardTotal == TotalReward(scripts[..i])
    ensures AllSupplied(scripts[..i + 1])
    ensures Learned(q', sums', counts', scripts[..i + 1], gamma, nA)
    ensures rewardTotal' == TotalReward(scripts[..i + 1])
  {
    var e := scripts[i];
    var q1, trace, ending := Rollout(q, nA, epsilon, e);
    rewardTotal' := rewardTotal;
    if ending.Done? {
      rewardTotal' := rewardTotal' + ending.reward;
    }
    assert rewardTotal' == rewardTotal + EndReward(ending);
    TotalRewardStep(scripts, i);
    TraceActions(e, nA);
    ghost var order;
    q', sums', counts', order := Update(q1, sums, counts, trace, gamma, nA);
    LearnedStep(q, sums, counts, scripts, i, gamma, nA, order, q', sums', counts');
  }

  /** First-visit Monte Carlo control (`train`) over the episodes `scripts`, one per
      `i_episode`. Each Q cell ends up holding the average of the first-visit returns of
      its pair over the episodes that visited it (0 for a pair never visited), Q has a row
      for exactly the states observed, and `reward_total` is the sum of the rewards of the
      `done` steps. */
  method Train<S(==)>(scripts: seq<Script<S>>, gamma: real, epsilon: real, nA: nat)
    returns (q: Table<S>, rewardTotal: real)
    requires nA > 0
    requires forall i :: 0 <= i < |scripts| ==> Supplied(scripts[i]) && ActionsInRange(scripts[i], nA)
    ensures AllSupplied(scripts)
    ensures WellShaped(q, nA) && q.Keys == SeenStates(scripts)
    ensures forall s, a :: s in q && 0 <= a < nA ==> q[s][a] == Estimate(scripts, (s, a), gamma)
    ensures rewardTotal == TotalReward(scripts)
  {
    var sums: map<Pair<S>, real> := map[];
    var counts: map<Pair<S>, nat> := map[];
    q := map[];
    rewardTotal := 0.0;
    var i := 0;
    while i < |scripts|
      invariant i <= |scripts| && AllSupplied(scripts[..i])
      invariant Learned(q, sums, counts, scripts[..i], gamma, nA)
      invariant rewardTotal == TotalReward(scripts[..i])
    {
      q, sums, counts, rewardTotal := Episode(scripts, i, q, sums, counts, rewardTotal, gamma, epsilon, nA);
      i := i + 1;
    }
    assert scripts[..i] == scripts;
  }

  /** `test`: play each episode under the policy with Q read only, adding the reward of each
      `done` step to `reward_total`. Q changes only by gaining zero rows for unseen states. */
  method Test<S(==)>(scripts: seq<Script<S>>, q: Table<S>, epsilon: real, nA: nat)
    returns (q': Table<S>, rewardTotal: real)
    requires nA > 0 && WellShaped(q, nA) && AllSupplied(scripts)
    ensures q' == TouchedAll(q, scripts, nA)
    ensures rewardTotal == TotalReward(scripts)
  {
    q', rewardTotal := q, 0.0;
    var i := 0;
    while i < |scripts|
      invariant i <= |scripts| && AllSupplied(scripts[..i])
      invariant q' == TouchedAll(q, scripts[..i], nA)
      invariant rewardTotal == TotalReward(scripts[..i])
    {
      q', rewardTotal := TestEpisode(q, scripts, i, q', rewardTotal, epsilon, nA);
      i := i + 1;
    }
    assert scripts[..i] == scripts;
  }

  /** One iteration of the `i_episode` loop of `test`. */
  method TestEpisode<S(==)>(q0: Table<S>, scripts: seq<Script<S>>, i: nat, q: Table<S>, rewardTotal: real,
                            epsilon: real, nA: nat)
    returns (q': Table<S>, rewardTotal': real)
    requires nA > 0 && WellShaped(q0, nA) && i < |scripts| && AllSupplied(scripts)
    requires q == TouchedAll(q0, scripts[..i], nA) && rewardTotal == TotalReward(scripts[..i])
    ensures q' == TouchedAll(q0, scripts[..i + 1], nA) && rewardTotal' == TotalReward(scripts[..i + 1])
  {
    var ending;
    q', ending := Play(q, nA, epsilon, scripts[i]);
    rewardTotal' := rewardTotal;
    if ending.Done? {
      rewardTotal' := rewardTotal' + ending.reward;
    }
    TotalRewardStep(scripts, i);
    TouchedAllStep(q0, scripts, i, nA);
  }
}
