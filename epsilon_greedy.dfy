/** The action-value table Q and the epsilon-greedy policy derived from it.
    Both training scripts define the same `make_epsilon_greedy_policy`; it is
    modelled once here. Values are exact reals: no floating-point rounding. */
module EpsilonGreedy {

  /** Q: each state seen so far maps to one value estimate per action. */
  type Table<S> = map<S, seq<real>>

  /** The zero vector a fresh Q entry starts as (`np.zeros(nA)`). */
  function Zeros(n: nat): (z: seq<real>)
    ensures |z| == n
  {
    seq(n, _ => 0.0)
  }

  /** Every entry, once created, has one value per action. */
  ghost predicate WellShaped<S>(q: Table<S>, nA: nat)
  {
    forall s :: s in q ==> |q[s]| == nA
  }

  /** `Q[s]` as the lazy-default table answers it: a state never seen reads as zeros. */
  function Row<S>(q: Table<S>, s: S, nA: nat): (row: seq<real>)
    requires WellShaped(q, nA)
    ensures |row| == nA
    ensures s !in q ==> forall a :: 0 <= a < nA ==> row[a] == 0.0
  {
    if s in q then q[s] else Zeros(nA)
  }

  /** The table after `Q[s]` has been evaluated: a missing state is inserted with
      a zero vector, and no state's values change. */
  function Touch<S>(q: Table<S>, s: S, nA: nat): (q': Table<S>)
    requires WellShaped(q, nA)
    ensures WellShaped(q', nA)
    ensures s in q'
  {
    if s in q then q else q[s := Zeros(nA)]
  }

  /** Evaluating `Q[s]` adds `s` if it was missing and changes no state's values. */
  lemma TouchKeepsValues<S>(q: Table<S>, s: S, nA: nat)
    requires WellShaped(q, nA)
    ensures Touch(q, s, nA).Keys == q.Keys + {s}
    ensures forall t :: t in q ==> Touch(q, s, nA)[t] == q[t]
    ensures Row(Touch(q, s, nA), s, nA) == Row(q, s, nA)
  {
  }

  /** A (state, action) key of the per-pair tables kept beside Q. */
  type Pair<S> = (S, nat)

  /** A per-pair tally read with the default of 0 of a `defaultdict`. */
  function CountOf<S(==)>(counts: map<Pair<S>, nat>, p: Pair<S>): nat
  {
    if p in counts then counts[p] else 0
  }

  /** `Q[state][action] = v` on the lazy-default table: the row of `state` is created
      (all zeros) if missing, then one cell of it is overwritten. */
  function SetCell<S>(q: Table<S>, state: S, action: nat, v: real, nA: nat): (q': Table<S>)
    requires WellShaped(q, nA) && action < nA
    ensures WellShaped(q', nA)
  {
    var t := Touch(q, state, nA);
    t[state := t[state][action := v]]
  }

  /** Writing one cell adds the row of `state` if missing, sets that cell to `v`,
      and leaves every other cell as it read before (a new row's other cells read 0). */
  lemma SetCellEffect<S>(q: Table<S>, state: S, action: nat, v: real, nA: nat)
    requires WellShaped(q, nA) && action < nA
    ensures SetCell(q, state, action, v, nA).Keys == q.Keys + {state}
    ensures SetCell(q, state, action, v, nA)[state][action] == v
    ensures forall s, a :: s in q && 0 <= a < nA && (s, a) != (state, action) ==>
              SetCell(q, state, action, v, nA)[s][a] == q[s][a]
    ensures state !in q ==> forall a :: 0 <= a < nA && a != action ==>
              SetCell(q, state, action, v, nA)[state][a] == 0.0
  {
    TouchKeepsValues(q, state, nA);
  }

  /** `sum` of a vector, added left to right. */
  function Sum(v: seq<real>): real
  {
    if v == [] then 0.0 else v[0] + Sum(v[1..])
  }

  /** `k` is the lowest index at which `v` attains its maximum. */
  ghost predicate IsFirstMax(v: seq<real>, k: int)
  {
    && 0 <= k < |v|
    && (forall i :: 0 <= i < |v| ==> v[i] <= v[k])
    && (forall i :: 0 <= i < k ==> v[i] < v[k])
  }

  /** `np.argmax`: the first index of the largest value. */
  function ArgMax(v: seq<real>): (k: nat)
    requires |v| > 0
    ensures k < |v|
    decreases |v|
  {
    if |v| == 1 then 0
    else
      var k := ArgMax(v[..|v| - 1]);
      if v[|v| - 1] > v[k] then |v| - 1 else k
  }

  /** `np.argmax` returns the first index of the largest value. */
  lemma {:induction false} ArgMaxIsFirstMax(v: seq<real>)
    requires |v| > 0
    ensures IsFirstMax(v, ArgMax(v))
    decreases |v|
  {
    if |v| > 1 {
      ArgMaxIsFirstMax(v[..|v| - 1]);
    }
  }

  /** Only one index is the first maximum, so `ArgMax` is exactly that index. */
  lemma ArgMaxCharacterised(v: seq<real>, k: int)
    requires |v| > 0
    ensures IsFirstMax(v, k) <==> k == ArgMax(v)
  {
    ArgMaxIsFirstMax(v);
  }

  /** `policy_fn(observation)` for an observation whose Q entry is `row`: every
      action gets `epsilon / nA`, and the first arg-max action gets an extra
      `1 - epsilon`. */
  function Policy(row: seq<real>, epsilon: real, nA: nat): (probs: seq<real>)
    requires nA > 0 && |row| == nA
    ensures |probs| == nA
  {
    var a := seq(nA, _ => epsilon / nA as real);
    var best := ArgMax(row);
    a[best := a[best] + (1.0 - epsilon)]
  }

  /** `policy_fn(observation)` on the lazy-default table: evaluating `Q[observation]`
      creates a zero entry for a state never seen, then the distribution is that of the row. */
  method PolicyFn<S>(q: Table<S>, observation: S, epsilon: real, nA: nat) returns (q': Table<S>, probs: seq<real>)
    requires nA > 0 && WellShaped(q, nA)
    ensures q' == Touch(q, observation, nA)
    ensures probs == Policy(Row(q, observation, nA), epsilon, nA)
  {
    q' := Touch(q, observation, nA);
    probs := Policy(q'[observation], epsilon, nA);
  }

  /** Action `i` has probability `epsilon / nA`, plus `1 - epsilon` exactly when `i` is the
      lowest index holding the largest value of the row. */
  lemma PolicyEntry(row: seq<real>, epsilon: real, nA: nat, i: nat)
    requires nA > 0 && |row| == nA && i < nA
    ensures Policy(row, epsilon, nA)[i]
            == epsilon / nA as real + (if IsFirstMax(row, i) then 1.0 - epsilon else 0.0)
  {
    ArgMaxCharacterised(row, i);
  }

  /** Adding `d` to one entry adds `d` to the sum. */
  lemma {:induction false} SumBump(v: seq<real>, k: nat, d: real)
    requires k < |v|
    ensures Sum(v[k := v[k] + d]) == Sum(v) + d
  {
    var w := v[k := v[k] + d];
    if k == 0 {
      assert w[1..] == v[1..];
    } else {
      assert w[1..] == v[1..][k - 1 := v[k] + d];
      SumBump(v[1..], k - 1, d);
    }
  }

  /** A vector of `n` equal entries `c` sums to `n * c`. */
  lemma {:induction false} SumConstant(n: nat, c: real)
    ensures Sum(seq(n, _ => c)) == n as real * c
  {
    if n > 0 {
      var v := seq(n, _ => c);
      assert v[1..] == seq(n - 1, _ => c);
      SumConstant(n - 1, c);
      assert Sum(v) == c + (n - 1) as real * c;
      assert c + (n - 1) as real * c == n as real * c;
    }
  }

  /** For `0 <= epsilon <= 1` the policy is a probability distribution over the
      `nA` actions: no entry is negative and the entries sum to exactly 1. */
  lemma PolicyIsDistribution(row: seq<real>, epsilon: real, nA: nat)
    requires nA > 0 && |row| == nA
    requires 0.0 <= epsilon <= 1.0
    ensures forall i :: 0 <= i < nA ==> Policy(row, epsilon, nA)[i] >= 0.0
    ensures Sum(Policy(row, epsilon, nA)) == 1.0
  {
    var c := epsilon / nA as real;
    var a := seq(nA, _ => c);
    var best := ArgMax(row);
    assert Policy(row, epsilon, nA) == a[best := a[best] + (1.0 - epsilon)];
    SumBump(a, best, 1.0 - epsilon);
    SumConstant(nA, c);
    assert nA as real * c == epsilon;
  }

  /** Outside the range the source tolerates the vector is no distribution: with at least two
      actions, a negative `epsilon` makes every non-greedy entry negative, and
      `epsilon * (nA - 1) > nA` makes the greedy entry negative. */
  lemma PolicyNegativeEntry(row: seq<real>, epsilon: real, nA: nat)
    requires nA >= 2 && |row| == nA
    requires epsilon < 0.0 || epsilon * (nA - 1) as real > nA as real
    ensures exists i :: 0 <= i < nA && Policy(row, epsilon, nA)[i] < 0.0
  {
    var best := ArgMax(row);
    var n := nA as real;
    if epsilon < 0.0 {
      var other := if best == 0 then 1 else 0;
      assert epsilon / n < 0.0;
      assert Policy(row, epsilon, nA)[other] == epsilon / n;
    } else {
      var greedy := epsilon / n + (1.0 - epsilon);
      assert greedy * n == n - epsilon * (n - 1.0);
      assert Policy(row, epsilon, nA)[best] == greedy;
      NegativeFactor(greedy, n);
    }
  }

  /** A product that is negative with a positive factor has a negative other factor. */
  lemma NegativeFactor(x: real, y: real)
    requires 0.0 < y && x * y < 0.0
    ensures x < 0.0
  {
    assert x == (x * y) / y;
  }

  /** The first arg-max action is never less likely than any other action. */
  lemma BestActionMostLikely(row: seq<real>, epsilon: real, nA: nat, i: nat)
    requires nA > 0 && |row| == nA && i < nA
    requires epsilon <= 1.0
    ensures Policy(row, epsilon, nA)[i] <= Policy(row, epsilon, nA)[ArgMax(row)]
  {
  }

  /** With `epsilon = 0` the policy is greedy: all mass on the first arg-max action. */
  lemma GreedyWhenEpsilonZero(row: seq<real>, nA: nat, i: nat)
    requires nA > 0 && |row| == nA && i < nA
    ensures Policy(row, 0.0, nA)[i] == if i == ArgMax(row) then 1.0 else 0.0
  {
    ArgMaxCharacterised(row, i);
  }

  /** With `epsilon = 1` the policy is uniform over the actions. */
  lemma UniformWhenEpsilonOne(row: seq<real>, nA: nat, i: nat)
    requires nA > 0 && |row| == nA && i < nA
    ensures Policy(row, 1.0, nA)[i] == 1.0 / nA as real
  {
  }
}
