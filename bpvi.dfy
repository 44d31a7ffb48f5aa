/**
 * Blind-policy value iteration with a flat representation (BpviStd).
 *
 * The solver keeps one alpha vector per action.  It starts every vector at
 * the constant min_s R(s,a)/(1-gamma), a lower bound on the value of always
 * taking action a, and each round replaces vector a by gamma·T(a)·vector + R(·,a).
 */
module Bpvi {
  import opened Vectors
  import opened Wrappers

  /**
   * The parts of PomdpStd that the solver reads: rewards[a] is R(·,a) and
   * transitions[a] is the matrix T(a) with T(a)[s][s'] = Pr(s' | s, a).
   */
  datatype Pomdp = Pomdp(nrStates: nat, nrActions: nat, gamma: real,
                         rewards: seq<Vector>, transitions: seq<Matrix>)
  {
    /** Dimensions agree, there is a state to take a minimum over, and 0 <= gamma < 1. */
    predicate Valid()
    {
      && nrStates > 0
      && 0.0 <= gamma < 1.0
      && |rewards| == nrActions
      && |transitions| == nrActions
      && (forall a :: 0 <= a < nrActions ==> |rewards[a]| == nrStates)
      && (forall a :: 0 <= a < nrActions ==> |transitions[a]| == nrStates && Rows(transitions[a], nrStates))
    }

    /** Every T(a) is a probability matrix. */
    predicate Probabilistic()
    {
      forall a :: 0 <= a < |transitions| ==> Stochastic(transitions[a])
    }

    /** The factor 1/(1-gamma) of line 37. */
    function Factor(): real
      requires gamma < 1.0
    {
      1.0 / (1.0 - gamma)
    }
  }

  /** An entry of ValueFunctionStd: an action tag and its coefficient vector. */
  datatype AlphaVector = AlphaVector(action: int, coeffs: Vector)

  /** The shape BpviStd keeps: entry a is tagged a and has one coefficient per state. */
  predicate WellFormed(p: Pomdp, vf: seq<AlphaVector>)
  {
    && |vf| == p.nrActions
    && forall k :: 0 <= k < |vf| ==> vf[k].action == k && |vf[k].coeffs| == p.nrStates
  }

  /** The initial coefficient for action a: the smallest entry of R(·,a)/(1-gamma). */
  function BlindValue(p: Pomdp, a: nat): real
    requires p.Valid() && a < p.nrActions
  {
    MinOf(Scale(p.Factor(), p.rewards[a]))
  }

  /** The value function the constructor builds. */
  function BlindInit(p: Pomdp): (r: seq<AlphaVector>)
    requires p.Valid()
    ensures WellFormed(p, r)
  {
    seq(p.nrActions, a requires 0 <= a < p.nrActions =>
      AlphaVector(a, Homogene(p.nrStates, BlindValue(p, a))))
  }

  /** The backup of one action: gamma·T(a)·v + R(·,a). */
  function Backup(p: Pomdp, a: nat, v: Vector): (r: Vector)
    requires p.Valid() && a < p.nrActions && |v| == p.nrStates
    ensures |r| == p.nrStates
  {
    Add(Scale(p.gamma, MatVec(p.transitions[a], v)), p.rewards[a])
  }

  /**
   * One round: every entry keeps its tag and its vector is backed up with
   * the action of its index.
   */
  function Round(p: Pomdp, vf: seq<AlphaVector>): (r: seq<AlphaVector>)
    requires p.Valid() && WellFormed(p, vf)
    ensures WellFormed(p, r)
    ensures forall k :: 0 <= k < |r| ==> r[k].action == vf[k].action
  {
    seq(|vf|, k requires 0 <= k < |vf| => AlphaVector(vf[k].action, Backup(p, k, vf[k].coeffs)))
  }

  /** The value function after n rounds from vf. */
  function Rounds(p: Pomdp, vf: seq<AlphaVector>, n: nat): (r: seq<AlphaVector>)
    requires p.Valid() && WellFormed(p, vf)
    ensures WellFormed(p, r)
  {
    if n == 0 then vf else Round(p, Rounds(p, vf, n - 1))
  }

  /** Every initial coefficient of action a is the least R(s,a)/(1-gamma). */
  lemma BlindInitIsLowerBound(p: Pomdp, a: nat, s: nat)
    requires p.Valid() && a < p.nrActions && s < p.nrStates
    ensures forall t :: 0 <= t < p.nrStates ==> BlindInit(p)[a].coeffs[s] <= p.Factor() * p.rewards[a][t]
    ensures exists t :: 0 <= t < p.nrStates && BlindInit(p)[a].coeffs[s] == p.Factor() * p.rewards[a][t]
  {
    assert BlindInit(p)[a].coeffs[s] == BlindValue(p, a);
    forall t | 0 <= t < p.nrStates
      ensures BlindValue(p, a) <= p.Factor() * p.rewards[a][t]
    {
      MinScaledLe(p.Factor(), p.rewards[a], t);
    }
    var t := MinScaledAttained(p.Factor(), p.rewards[a]);
  }

  /**
   * The constructor's entry a: tagged a, nrStates coefficients, each equal to
   * min_s R(s,a) times 1/(1-gamma).
   */
  lemma BlindInitValue(p: Pomdp, a: nat)
    requires p.Valid() && a < p.nrActions
    ensures BlindInit(p)[a].action == a && |BlindInit(p)[a].coeffs| == p.nrStates
    ensures forall s :: 0 <= s < p.nrStates ==> BlindInit(p)[a].coeffs[s] == p.Factor() * MinOf(p.rewards[a])
  {
    FactorPositive(p.gamma);
    ScaledMin(p.Factor(), p.rewards[a]);
  }

  /** 1/(1-g) is positive for g < 1. */
  lemma FactorPositive(g: real)
    requires g < 1.0
    ensures 1.0 / (1.0 - g) > 0.0
  {
    var d := 1.0 - g;
    assert d * (1.0 / d) == 1.0;
    if 1.0 / d <= 0.0 {
      MulMonotone(d, 1.0 / d, 0.0);
    }
  }

  /** (1 - g)·f = 1 for f = 1/(1-g). */
  lemma FactorInverse(g: real)
    requires g < 1.0
    ensures (1.0 - g) * (1.0 / (1.0 - g)) == 1.0
  {
  }

  /** f·r with (1-g)·f = 1, multiplied back by 1 - g, is r. */
  lemma Unscale(g: real, f: real, r: real, x: real)
    requires g < 1.0 && (1.0 - g) * f == 1.0 && f * r <= x
    ensures r <= (1.0 - g) * x
  {
    MulMonotone(1.0 - g, f * r, x);
    assert (1.0 - g) * (f * r) == ((1.0 - g) * f) * r;
  }

  /** b <= f·r with f = 1/(1-g) gives b <= g·b + r. */
  lemma LowerStep(g: real, b: real, r: real)
    requires 0.0 <= g < 1.0 && b <= (1.0 / (1.0 - g)) * r
    ensures b <= g * b + r
  {
    var f := 1.0 / (1.0 - g);
    FactorInverse(g);
    MulMonotone(1.0 - g, b, f * r);
    assert (1.0 - g) * (f * r) == ((1.0 - g) * f) * r;
  }

  /** d <= B and f·r <= B with f = 1/(1-g) give g·d + r <= B. */
  lemma UpperStep(g: real, d: real, r: real, bound: real)
    requires 0.0 <= g < 1.0 && d <= bound && (1.0 / (1.0 - g)) * r <= bound
    ensures g * d + r <= bound
  {
    FactorInverse(g);
    Unscale(g, 1.0 / (1.0 - g), r, bound);
    MulMonotone(g, d, bound);
  }

  /** With non-negative transitions a backup is monotone in the vector it backs up. */
  lemma BackupMonotone(p: Pomdp, a: nat, u: Vector, v: Vector)
    requires p.Valid() && p.Probabilistic() && a < p.nrActions
    requires |u| == p.nrStates && Le(u, v)
    ensures Le(Backup(p, a, u), Backup(p, a, v))
  {
    var m := p.transitions[a];
    forall s | 0 <= s < p.nrStates
      ensures Backup(p, a, u)[s] <= Backup(p, a, v)[s]
    {
      DotMonotone(m[s], u, v);
      MulMonotone(p.gamma, Dot(m[s], u), Dot(m[s], v));
    }
  }

  /** Coordinate s of a backup. */
  lemma BackupAt(p: Pomdp, a: nat, v: Vector, s: nat)
    requires p.Valid() && a < p.nrActions && |v| == p.nrStates && s < p.nrStates
    ensures Backup(p, a, v)[s] == p.gamma * Dot(p.transitions[a][s], v) + p.rewards[a][s]
  {
    assert MatVec(p.transitions[a], v)[s] == Dot(p.transitions[a][s], v);
  }

  /** Coordinate s of the backup of a constant vector b under a stochastic T(a) is gamma·b + R(s,a). */
  lemma HomogeneBackupAt(p: Pomdp, a: nat, b: real, s: nat)
    requires p.Valid() && p.Probabilistic() && a < p.nrActions && s < p.nrStates
    ensures Backup(p, a, Homogene(p.nrStates, b))[s] == p.gamma * b + p.rewards[a][s]
  {
    var row := p.transitions[a][s];
    assert |row| == p.nrStates && Sum(row) == 1.0;
    DotHomogene(row, b);
    BackupAt(p, a, Homogene(p.nrStates, b), s);
  }

  /** Coordinate s of the first backup of a blind vector is not below the blind value. */
  lemma BlindBackupImprovesAt(p: Pomdp, a: nat, s: nat)
    requires p.Valid() && p.Probabilistic() && a < p.nrActions && s < p.nrStates
    ensures BlindInit(p)[a].coeffs[s] <= Backup(p, a, BlindInit(p)[a].coeffs)[s]
  {
    var b := BlindValue(p, a);
    assert BlindInit(p)[a].coeffs == Homogene(p.nrStates, b);
    HomogeneBackupAt(p, a, b, s);
    MinScaledLe(p.Factor(), p.rewards[a], s);
    LowerStep(p.gamma, b, p.rewards[a][s]);
  }

  /** The first backup of a blind vector does not lower any coefficient. */
  lemma BlindBackupImproves(p: Pomdp, a: nat)
    requires p.Valid() && p.Probabilistic() && a < p.nrActions
    ensures Le(BlindInit(p)[a].coeffs, Backup(p, a, BlindInit(p)[a].coeffs))
  {
    forall s | 0 <= s < p.nrStates
      ensures BlindInit(p)[a].coeffs[s] <= Backup(p, a, BlindInit(p)[a].coeffs)[s]
    {
      BlindBackupImprovesAt(p, a, s);
    }
  }

  /**
   * Blind value iteration never lowers a coefficient: round n+1 dominates
   * round n, entry by entry.
   */
  lemma {:induction false} BlindMonotone(p: Pomdp, n: nat)
    requires p.Valid() && p.Probabilistic()
    ensures forall a :: 0 <= a < p.nrActions ==>
      Le(Rounds(p, BlindInit(p), n)[a].coeffs, Rounds(p, BlindInit(p), n + 1)[a].coeffs)
  {
    var init := BlindInit(p);
    if n == 0 {
      forall a | 0 <= a < p.nrActions
        ensures Le(Rounds(p, init, 0)[a].coeffs, Rounds(p, init, 1)[a].coeffs)
      {
        BlindBackupImproves(p, a);
      }
    } else {
      BlindMonotone(p, n - 1);
      forall a | 0 <= a < p.nrActions
        ensures Le(Rounds(p, init, n)[a].coeffs, Rounds(p, init, n + 1)[a].coeffs)
      {
        BackupMonotone(p, a, Rounds(p, init, n - 1)[a].coeffs, Rounds(p, init, n)[a].coeffs);
      }
    }
  }

  /** Coordinate s of the backup of a vector bounded by B = max_s R(s,a)/(1-gamma) is bounded by B. */
  lemma BackupBoundedAt(p: Pomdp, a: nat, v: Vector, s: nat)
    requires p.Valid() && p.Probabilistic() && a < p.nrActions && |v| == p.nrStates && s < p.nrStates
    requires forall t :: 0 <= t < |v| ==> v[t] <= MaxOf(Scale(p.Factor(), p.rewards[a]))
    ensures Backup(p, a, v)[s] <= MaxOf(Scale(p.Factor(), p.rewards[a]))
  {
    var bound := MaxOf(Scale(p.Factor(), p.rewards[a]));
    var row := p.transitions[a][s];
    BackupAt(p, a, v, s);
    DotBounded(row, v, bound);
    assert Sum(row) == 1.0;
    var r := p.rewards[a][s];
    MaxScaledGe(p.Factor(), p.rewards[a], s);
    UpperStep(p.gamma, Dot(row, v), r, bound);
  }

  /** Backing up a vector bounded by max_s R(s,a)/(1-gamma) stays bounded by it. */
  lemma BackupBounded(p: Pomdp, a: nat, v: Vector)
    requires p.Valid() && p.Probabilistic() && a < p.nrActions && |v| == p.nrStates
    requires forall s :: 0 <= s < |v| ==> v[s] <= MaxOf(Scale(p.Factor(), p.rewards[a]))
    ensures forall s :: 0 <= s < p.nrStates ==> Backup(p, a, v)[s] <= MaxOf(Scale(p.Factor(), p.rewards[a]))
  {
    forall s | 0 <= s < p.nrStates
      ensures Backup(p, a, v)[s] <= MaxOf(Scale(p.Factor(), p.rewards[a]))
    {
      BackupBoundedAt(p, a, v, s);
    }
  }

  /** Every coefficient of every round stays at or below max_s R(s,a)/(1-gamma). */
  lemma {:induction false} BlindBounded(p: Pomdp, n: nat)
    requires p.Valid() && p.Probabilistic()
    ensures forall a, s :: 0 <= a < p.nrActions && 0 <= s < p.nrStates ==>
      Rounds(p, BlindInit(p), n)[a].coeffs[s] <= MaxOf(Scale(p.Factor(), p.rewards[a]))
  {
    var init := BlindInit(p);
    if n == 0 {
      forall a, s | 0 <= a < p.nrActions && 0 <= s < p.nrStates
        ensures init[a].coeffs[s] <= MaxOf(Scale(p.Factor(), p.rewards[a]))
      {
        var scaled := Scale(p.Factor(), p.rewards[a]);
        assert init[a].coeffs[s] == MinOf(scaled) <= scaled[0] <= MaxOf(scaled);
      }
    } else {
      BlindBounded(p, n - 1);
      forall a | 0 <= a < p.nrActions
        ensures forall s :: 0 <= s < p.nrStates ==>
          Rounds(p, init, n)[a].coeffs[s] <= MaxOf(Scale(p.Factor(), p.rewards[a]))
      {
        BackupBounded(p, a, Rounds(p, init, n - 1)[a].coeffs);
      }
    }
  }

  /**
   * A single-state example: R = 1, T = identity, gamma = 0.9.  The blind
   * vector is 1/(1-0.9) = 10 and one round leaves it at 1 + 0.9·10 = 10.
   */
  lemma SingleStateFixpoint()
    ensures Pomdp(1, 1, 0.9, [[1.0]], [[[1.0]]]).Valid()
    ensures BlindInit(Pomdp(1, 1, 0.9, [[1.0]], [[[1.0]]])) == [AlphaVector(0, [10.0])]
    ensures Round(Pomdp(1, 1, 0.9, [[1.0]], [[[1.0]]]), [AlphaVector(0, [10.0])]) == [AlphaVector(0, [10.0])]
  {
    var p := Pomdp(1, 1, 0.9, [[1.0]], [[[1.0]]]);
    assert p.Factor() == 10.0;
    assert Scale(10.0, [1.0]) == [10.0];
    assert BlindValue(p, 0) == 10.0;
    assert BlindInit(p)[0] == AlphaVector(0, [10.0]);
    assert MatVec([[1.0]], [10.0]) == [10.0];
    assert Scale(0.9, [10.0]) == [9.0];
    assert Add([9.0], [1.0]) == [10.0];
    assert Backup(p, 0, [10.0]) == [10.0];
    assert Round(p, [AlphaVector(0, [10.0])])[0] == AlphaVector(0, [10.0]);
  }

  /**
   * Round n+1 from the blind start is one Round after round n; with
   * stochastic transitions it dominates round n and stays within the
   * per-action bound.
   */
  lemma NextRound(p: Pomdp, n: nat)
    requires p.Valid()
    ensures Rounds(p, BlindInit(p), n + 1) == Round(p, Rounds(p, BlindInit(p), n))
    ensures p.Probabilistic() ==> forall a :: 0 <= a < p.nrActions ==>
      Le(Rounds(p, BlindInit(p), n)[a].coeffs, Round(p, Rounds(p, BlindInit(p), n))[a].coeffs)
    ensures p.Probabilistic() ==> forall a, s :: 0 <= a < p.nrActions && 0 <= s < p.nrStates ==>
      Round(p, Rounds(p, BlindInit(p), n))[a].coeffs[s] <= MaxOf(Scale(p.Factor(), p.rewards[a]))
  {
    if p.Probabilistic() {
      BlindMonotone(p, n);
      BlindBounded(p, n + 1);
    }
  }

  /** Two states that both move to s1; only s1 has a reward. */
  const DriftToReward := Pomdp(2, 1, 0.5, [[0.0, 1.0]], [[[0.0, 1.0], [0.0, 1.0]]])

  lemma DriftToRewardInit()
    ensures DriftToReward.Valid() && DriftToReward.Probabilistic()
    ensures BlindInit(DriftToReward) == [AlphaVector(0, [0.0, 0.0])]
  {
    var p := DriftToReward;
    assert Sum(p.transitions[0][0]) == 1.0 && Sum(p.transitions[0][1]) == 1.0;
    assert p.Factor() == 2.0;
    assert Scale(2.0, [0.0, 1.0]) == [0.0, 2.0];
    assert ArgMin([0.0, 2.0]) == 0;
    assert BlindValue(p, 0) == 0.0;
    assert Homogene(2, 0.0) == [0.0, 0.0];
  }

  /** The first round from the blind start: [0, 0] becomes [0, 1]. */
  lemma DriftToRewardRound1()
    ensures DriftToReward.Valid()
    ensures Round(DriftToReward, [AlphaVector(0, [0.0, 0.0])]) == [AlphaVector(0, [0.0, 1.0])]
  {
    var p := DriftToReward;
    assert MatVec(p.transitions[0], [0.0, 0.0]) == [0.0, 0.0];
    assert Scale(0.5, [0.0, 0.0]) == [0.0, 0.0];
    assert Backup(p, 0, [0.0, 0.0]) == [0.0, 1.0];
    assert Round(p, [AlphaVector(0, [0.0, 0.0])])[0] == AlphaVector(0, [0.0, 1.0]);
  }

  /** The second round: s0 inherits half of s1's value, [0, 1] becomes [0.5, 1.5]. */
  lemma DriftToRewardRound2()
    ensures DriftToReward.Valid()
    ensures Round(DriftToReward, [AlphaVector(0, [0.0, 1.0])]) == [AlphaVector(0, [0.5, 1.5])]
  {
    var p := DriftToReward;
    assert MatVec(p.transitions[0], [0.0, 1.0]) == [1.0, 1.0];
    assert Scale(0.5, [1.0, 1.0]) == [0.5, 0.5];
    assert Backup(p, 0, [0.0, 1.0]) == [0.5, 1.5];
    assert Round(p, [AlphaVector(0, [0.0, 1.0])])[0] == AlphaVector(0, [0.5, 1.5]);
  }

  /**
   * The bound of BlindBounded is per action, not per state: in DriftToReward
   * coefficient s0 is 0.5 after two rounds, above max_a R(s0,a)/(1-gamma) = 0.
   */
  lemma PerStateBoundFails()
    ensures DriftToReward.Valid() && DriftToReward.Probabilistic()
    ensures Rounds(DriftToReward, BlindInit(DriftToReward), 2) == [AlphaVector(0, [0.5, 1.5])]
    ensures Rounds(DriftToReward, BlindInit(DriftToReward), 2)[0].coeffs[0]
      > DriftToReward.Factor() * DriftToReward.rewards[0][0]
  {
    DriftToRewardInit();
    DriftToRewardRound1();
    DriftToRewardRound2();
    assert DriftToReward.Factor() == 2.0;
  }

  /**
   * ValueIterationStats as far as BpviStd uses it: register records one
   * round and the value-function size passed with it.
   */
  class ValueIterationStats {
    var iterations: nat
    var registeredSizes: seq<nat>

    constructor ()
      ensures iterations == 0 && registeredSizes == []
    {
      iterations := 0;
      registeredSizes := [];
    }

    method Register(size: nat)
      modifies this
      ensures iterations == old(iterations) + 1
      ensures registeredSizes == old(registeredSizes) + [size]
    {
      iterations := iterations + 1;
      registeredSizes := registeredSizes + [size];
    }
  }

  class BpviStd {
    const pomdp: Pomdp
    const iterationStats: ValueIterationStats
    /** The value function being improved (current in ValueIterationStd). */
    var current: seq<AlphaVector>
    /** The snapshot taken at the start of the last round (old); None before the first round. */
    var previous: Option<seq<AlphaVector>>

    /**
     * The solver's shape, and its history: after n registered rounds current
     * is round n from the blind start and previous is round n-1.
     */
    ghost predicate Valid()
      reads this, iterationStats
    {
      && pomdp.Valid()
      && WellFormed(pomdp, current)
      && current == Rounds(pomdp, BlindInit(pomdp), iterationStats.iterations)
      && previous == if iterationStats.iterations == 0 then None
                     else Some(Rounds(pomdp, BlindInit(pomdp), iterationStats.iterations - 1))
    }

    /** Blind initialisation: one homogeneous vector per action, in action order. */
    constructor (pomdp: Pomdp)
      requires pomdp.Valid()
      ensures Valid() && this.pomdp == pomdp
      ensures current == BlindInit(pomdp) && previous == None
      ensures fresh(iterationStats)
      ensures iterationStats.iterations == 0 && iterationStats.registeredSizes == []
    {
      var iniv: seq<AlphaVector> := [];
      for a := 0 to pomdp.nrActions
        invariant iniv == BlindInit(pomdp)[..a]
      {
        var factor := 1.0 / (1.0 - pomdp.gamma);
        var vr := Scale(factor, pomdp.rewards[a]);
        var idx := ArgMin(vr);
        iniv := iniv + [AlphaVector(a, Homogene(pomdp.nrStates, vr[idx]))];
      }
      this.pomdp := pomdp;
      iterationStats := new ValueIterationStats();
      current := iniv;
      previous := None;
    }

    /**
     * One round: snapshot current into previous, back up each action's
     * vector in place, register the round.
     */
    method Iterate() returns (stats: ValueIterationStats)
      requires Valid()
      modifies this, iterationStats
      ensures Valid()
      ensures previous == Some(old(current))
      ensures current == Round(pomdp, old(current))
      ensures stats == iterationStats
      ensures iterationStats.iterations == old(iterationStats.iterations) + 1
      ensures iterationStats.registeredSizes == old(iterationStats.registeredSizes) + [|current|]
      ensures pomdp.Probabilistic() ==>
        forall a :: 0 <= a < pomdp.nrActions ==> Le(old(current)[a].coeffs, current[a].coeffs)
      ensures pomdp.Probabilistic() ==>
        forall a, s :: 0 <= a < pomdp.nrActions && 0 <= s < pomdp.nrStates ==>
          current[a].coeffs[s] <= MaxOf(Scale(pomdp.Factor(), pomdp.rewards[a]))
    {
      ghost var n := iterationStats.iterations;
      ghost var target := Round(pomdp, current);
      previous := Some(current);
      var a := 0;
      while a < pomdp.nrActions
        invariant 0 <= a <= pomdp.nrActions
        invariant previous == Some(old(current))
        invariant |current| == |target|
        invariant forall k :: 0 <= k < a ==> current[k] == target[k]
        invariant forall k :: a <= k < |current| ==> current[k] == old(current)[k]
        invariant unchanged(iterationStats)
      {
        var vec := current[a].coeffs;
        var res := Scale(pomdp.gamma, MatVec(pomdp.transitions[a], vec));
        res := Add(res, pomdp.rewards[a]);
        assert AlphaVector(current[a].action, res) == target[a];
        current := current[a := current[a].(coeffs := res)];
        a := a + 1;
      }
      assert current == target;
      NextRound(pomdp, n);
      iterationStats.Register(|current|);
      stats := iterationStats;
    }
  }
}
