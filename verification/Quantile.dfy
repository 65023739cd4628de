/**
 The quantile estimator: a random walk on a shared multiplier. Each updater loads the multiplier,
 compares its value with the estimate it got, and applies a step of at most one later on, when
 other updaters may have moved the estimate. Random draws are arbitrary; arithmetic is exact.
 */
module Quantile {

  /** An updater between its load of the multiplier and its step keeps the stale estimate. */
  datatype Pc = Idle | Loaded(estimate: real, value: real)

  datatype Config = Config(original: real, adjustment: real, lo: real, hi: real)

  datatype State = State(multiplier: int, pc: seq<Pc>)

  datatype Step = Load(t: nat, value: real) | Update(t: nat, draw: bool)

  /** calculate_quantile */
  function Estimate(c: Config, multiplier: int): real {
    c.original + multiplier as real * c.adjustment
  }

  predicate Enabled(c: Config, s: State, step: Step) {
    match step
    case Load(t, value) => t < |s.pc| && s.pc[t].Idle? && c.lo <= value <= c.hi
    case Update(t, _) => t < |s.pc| && s.pc[t].Loaded?
  }

  function Apply(c: Config, s: State, step: Step): State
    requires Enabled(c, s, step)
  {
    match step
    case Load(t, value) => s.(pc := s.pc[t := Loaded(Estimate(c, s.multiplier), value)])
    case Update(t, draw) =>
      var p := s.pc[t];
      var delta := if p.value < p.estimate then (if draw then 0 else -1) else (if draw then 1 else 0);
      State(s.multiplier + delta, s.pc[t := Idle])
  }

  /** How many updaters may still raise, or lower, the estimate. */
  function Raisers(pc: seq<Pc>): nat {
    if pc == [] then 0
    else (if pc[0].Loaded? && pc[0].value >= pc[0].estimate then 1 else 0) + Raisers(pc[1..])
  }

  function Lowerers(pc: seq<Pc>): nat {
    if pc == [] then 0
    else (if pc[0].Loaded? && pc[0].value < pc[0].estimate then 1 else 0) + Lowerers(pc[1..])
  }

  lemma {:induction false} Replace(pc: seq<Pc>, t: nat, p: Pc)
    requires t < |pc|
    ensures Raisers(pc[t := p]) - Raisers([p]) == Raisers(pc) - Raisers([pc[t]])
    ensures Lowerers(pc[t := p]) - Lowerers([p]) == Lowerers(pc) - Lowerers([pc[t]])
  {
    if t == 0 {
      assert pc[0 := p][1..] == pc[1..];
    } else {
      assert pc[t := p][1..] == pc[1..][t - 1 := p];
      Replace(pc[1..], t - 1, p);
    }
  }

  lemma {:induction false} PendingFits(pc: seq<Pc>)
    ensures Raisers(pc) + Lowerers(pc) <= |pc|
  {
    if pc != [] { PendingFits(pc[1..]); }
  }

  /** The largest multiplier whose estimate is at most `hi`, the smallest with at least `lo`. */
  function Top(c: Config): int
    requires c.adjustment > 0.0
  {
    ((c.hi - c.original) / c.adjustment).Floor
  }

  function Bottom(c: Config): int
    requires c.adjustment > 0.0
  {
    -((c.original - c.lo) / c.adjustment).Floor
  }

  lemma TopIsLargest(c: Config, m: int)
    requires c.adjustment > 0.0
    ensures Estimate(c, m) <= c.hi <==> m <= Top(c)
  {
    var x := (c.hi - c.original) / c.adjustment;
    assert x * c.adjustment == c.hi - c.original;
    if m as real <= x {
      assert (x - m as real) * c.adjustment >= 0.0;
    } else {
      assert (m as real - x) * c.adjustment > 0.0;
    }
  }

  lemma BottomIsSmallest(c: Config, m: int)
    requires c.adjustment > 0.0
    ensures c.lo <= Estimate(c, m) <==> Bottom(c) <= m
  {
    var x := (c.original - c.lo) / c.adjustment;
    assert x * c.adjustment == c.original - c.lo;
    if -(m as real) <= x {
      assert (x + m as real) * c.adjustment >= 0.0;
    } else {
      assert (-(m as real) - x) * c.adjustment > 0.0;
    }
  }

  /** The multiplier stays within K of the data even if every pending step is taken. */
  ghost predicate Inv(c: Config, s: State)
    requires c.adjustment > 0.0
  {
    && s.multiplier + Raisers(s.pc) <= Top(c) + |s.pc|
    && Bottom(c) - |s.pc| <= s.multiplier - Lowerers(s.pc)
  }

  lemma LoadKeeps(c: Config, s: State, t: nat, value: real)
    requires c.adjustment > 0.0 && Inv(c, s) && Enabled(c, s, Load(t, value))
    ensures Inv(c, Apply(c, s, Load(t, value)))
  {
    var s' := Apply(c, s, Load(t, value));
    Replace(s.pc, t, s'.pc[t]);
    PendingFits(s'.pc);
    TopIsLargest(c, s.multiplier);
    BottomIsSmallest(c, s.multiplier);
  }

  lemma UpdateKeeps(c: Config, s: State, t: nat, draw: bool)
    requires c.adjustment > 0.0 && Inv(c, s) && Enabled(c, s, Update(t, draw))
    ensures Inv(c, Apply(c, s, Update(t, draw)))
  {
    Replace(s.pc, t, Idle);
  }

  predicate Start(c: Config, s: State) {
    && c.adjustment > 0.0 && c.lo <= Estimate(c, s.multiplier) <= c.hi
    && forall t :: 0 <= t < |s.pc| ==> s.pc[t].Idle?
  }

  predicate Run(c: Config, ss: seq<State>, steps: seq<Step>) {
    && |ss| == |steps| + 1 && Start(c, ss[0])
    && forall i {:trigger StepAt(c, ss, steps, i)} :: 0 <= i < |steps| ==> StepAt(c, ss, steps, i)
  }

  predicate StepAt(c: Config, ss: seq<State>, steps: seq<Step>, i: nat) {
    && i < |steps| && i + 1 < |ss|
    && Enabled(c, ss[i], steps[i]) && ss[i + 1] == Apply(c, ss[i], steps[i])
  }

  lemma {:induction false} IdleCounts(pc: seq<Pc>)
    requires forall t :: 0 <= t < |pc| ==> pc[t].Idle?
    ensures Raisers(pc) == 0 && Lowerers(pc) == 0
  {
    if pc != [] { IdleCounts(pc[1..]); }
  }

  lemma {:induction false} RunInv(c: Config, ss: seq<State>, steps: seq<Step>, i: nat)
    requires Run(c, ss, steps) && i < |ss|
    ensures c.adjustment > 0.0 && Inv(c, ss[i]) && |ss[i].pc| == |ss[0].pc|
    decreases i
  {
    if i == 0 {
      IdleCounts(ss[0].pc);
      TopIsLargest(c, ss[0].multiplier);
      BottomIsSmallest(c, ss[0].multiplier);
    } else {
      RunInv(c, ss, steps, i - 1);
      assert StepAt(c, ss, steps, i - 1);
      match steps[i - 1]
      case Load(t, value) => LoadKeeps(c, ss[i - 1], t, value);
      case Update(t, draw) => UpdateKeeps(c, ss[i - 1], t, draw);
    }
  }

  /** With K updaters and all values in [lo, hi], no interleaving of stale loads with steps and no
      random outcome takes the estimate further than K adjustments outside [lo, hi]. */
  lemma EstimateIsBounded(c: Config, ss: seq<State>, steps: seq<Step>, i: nat)
    requires Run(c, ss, steps) && i < |ss|
    ensures var k := |ss[0].pc| as real;
      c.lo - k * c.adjustment <= Estimate(c, ss[i].multiplier) <= c.hi + k * c.adjustment
  {
    RunInv(c, ss, steps, i);
    var m, k := ss[i].multiplier, |ss[0].pc|;
    TopIsLargest(c, m - k);
    BottomIsSmallest(c, m + k);
    assert (m - k) as real == m as real - k as real && (m + k) as real == m as real + k as real;
  }

  // ---- which way an update goes ----

  /** Step `a` is the load and step `b` the update of one call of thread `t`. */
  predicate IsCall(steps: seq<Step>, a: nat, b: nat, t: nat) {
    && a < b < |steps| && steps[a].Load? && steps[a].t == t && steps[b].Update? && steps[b].t == t
    && forall k :: a < k < b ==> steps[k].t != t
  }

  lemma {:induction false} LoadWaits(c: Config, ss: seq<State>, steps: seq<Step>, a: nat, b: nat, t: nat)
    requires Run(c, ss, steps) && a < b <= |steps| && steps[a].Load? && steps[a].t == t
    requires forall k :: a < k < b ==> steps[k].t != t
    ensures t < |ss[b].pc|
    ensures ss[b].pc[t] == Loaded(c.original + ss[a].multiplier as real * c.adjustment, steps[a].value)
    decreases b
  {
    assert StepAt(c, ss, steps, b - 1);
    if b > a + 1 { LoadWaits(c, ss, steps, a, b - 1, t); }
  }

  /** An update compares its value with the estimate of its load, however stale. Below it the estimate goes down by one
      adjustment if the draw fails, otherwise it goes up by one if the draw succeeds; in the other cases it stays. */
  lemma UpdateFollowsItsLoad(c: Config, ss: seq<State>, steps: seq<Step>, a: nat, b: nat, t: nat)
    requires Run(c, ss, steps) && IsCall(steps, a, b, t)
    ensures var loaded, v := c.original + ss[a].multiplier as real * c.adjustment, steps[a].value;
      && (ss[b + 1].multiplier == ss[b].multiplier + 1 <==> v >= loaded && steps[b].draw)
      && (ss[b + 1].multiplier == ss[b].multiplier - 1 <==> v < loaded && !steps[b].draw)
      && (ss[b + 1].multiplier == ss[b].multiplier <==> (v < loaded <==> steps[b].draw))
  {
    LoadWaits(c, ss, steps, a, b, t);
    assert StepAt(c, ss, steps, b);
  }

  /** Nothing but an update moves the estimate. */
  lemma LoadsMoveNothing(c: Config, ss: seq<State>, steps: seq<Step>, i: nat)
    requires Run(c, ss, steps) && i < |steps| && steps[i].Load?
    ensures ss[i + 1].multiplier == ss[i].multiplier
  {
    assert StepAt(c, ss, steps, i);
  }
}
