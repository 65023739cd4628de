/**
 Nothing gets stuck. Each step of a call brings it nearer to its end, so that a call takes a bounded number of steps of
 its own however the steps of others fall between them; only a lost race for the head of a deferred list adds two. A
 traversal and a drain take at most as many steps as the list and the batch they set out with allow.
 */
module ProgressTheorems {
  import L = LensList
  import D = Deferral
  import DP = DeferralProof
  import Region
  import opened LensSystem
  import opened LensTheorems
  import opened DrainTheorems

  // ---- calls of the clients ----

  /** How many steps of its own a thread is away from the end of its call in the list machine. A removal goes on in the
      deferral machine. */
  function ListSteps(p: L.Pc): nat {
    match p
    case Idle => 0
    case Fresh(_) => 4
    case Refused(_) => 1
    case PushNext(_, _) => 3
    case PushPrev(_, _) => 2
    case PushHead(_, _) => 1
    case KillNext(_, _) => 8
    case KillPrev(_, _) => 7
    case KillHead(_, _) => 6
  }

  function DeferSteps(p: D.Pc): nat {
    match p
    case Idle => 0
    case Removed(_, _) => 5
    case Noded(_, _) => 4
    case Epoched(_, _, _) => 3
    case Loaded(_, _, _, _) => 2
    case Linked(_, _, _, _) => 1
  }

  function Remaining(s: State, t: Tid): nat {
    ListSteps(L.PcOf(s.l, t)) + DeferSteps(D.PcOf(s.d, t))
  }

  /** The step is one of thread `t`. */
  predicate Of(step: Step, t: Tid) {
    OfClient(step) && !step.ReadHead? && !step.Look? && !step.Advance? && !step.Finish? && step.t == t
  }

  predicate Starts(step: Step) {
    step.Create? || step.Unregister?
  }

  /** The compare-and-exchange of the push fails: by itself, or because the head has changed since it was loaded. */
  predicate LosesRace(s: State, step: Step) {
    step.CasDefers? && D.PcOf(s.d, step.t).Linked? && |s.d.defers| == 2 &&
    (step.spurious || s.d.defers[D.PcOf(s.d, step.t).e % 2] != D.PcOf(s.d, step.t).top)
  }

  lemma PushAdvances(s: State, step: Step, s': State, t: Tid)
    requires Takes(s, step, s') && Of(step, t)
    requires step.Register? || step.DropFresh? || step.StoreNext? || step.StorePrev? || step.StoreHead?
    ensures s'.d == s.d && ListSteps(L.PcOf(s'.l, t)) < ListSteps(L.PcOf(s.l, t))
  {
  }

  lemma KillAdvances(s: State, step: Step, s': State, t: Tid)
    requires Takes(s, step, s') && Of(step, t) && (step.KillNextPrev? || step.KillPrevNext?)
    ensures s'.d == s.d && ListSteps(L.PcOf(s'.l, t)) < ListSteps(L.PcOf(s.l, t))
  {
  }

  /** The end of the unlinking is the start of the deferral. */
  lemma UnlinkAdvances(s: State, step: Step, s': State, t: Tid)
    requires Inv(s) && Takes(s, step, s') && Of(step, t) && step.KillHeadStore?
    ensures Remaining(s', t) < Remaining(s, t)
  {
    assert L.PcOf(s.l, t).Idle? || D.PcOf(s.d, t).Idle?;
    UnlinkedPcs(s, t);
  }

  lemma UnlinkedPcs(s: State, t: Tid)
    requires L.PcOf(s.l, t).KillHead? && FinishRemoval(s, t).Ok?
    ensures var s' := FinishRemoval(s, t).state; L.PcOf(s'.l, t).Idle? && D.PcOf(s'.d, t).Removed?
  {
  }

  lemma DeferAdvances(s: State, step: Step, s': State, t: Tid)
    requires Takes(s, step, s') && Of(step, t) && !OnListOnly(step) && !step.KillHeadStore?
    ensures s'.l == s.l
    ensures DeferSteps(D.PcOf(s'.d, t)) + 1 <= DeferSteps(D.PcOf(s.d, t)) + if LosesRace(s, step) then 2 else 0
  {
  }

  lemma CallAdvances(s: State, step: Step, s': State, t: Tid)
    requires Inv(s) && Takes(s, step, s') && Of(step, t) && !Starts(step)
    ensures Remaining(s', t) + 1 <= Remaining(s, t) + if LosesRace(s, step) then 2 else 0
  {
    if step.KillNextPrev? || step.KillPrevNext? {
      KillAdvances(s, step, s', t);
    } else if OnListOnly(step) {
      PushAdvances(s, step, s', t);
    } else if step.KillHeadStore? {
      UnlinkAdvances(s, step, s', t);
    } else {
      DeferAdvances(s, step, s', t);
    }
  }

  lemma OtherPushPc(s: State, step: Step, s': State, t: Tid)
    requires Takes(s, step, s') && !Of(step, t)
    requires step.Create? || step.Register? || step.DropFresh? || step.StoreNext? || step.StorePrev? || step.StoreHead?
    ensures L.PcOf(s'.l, t) == L.PcOf(s.l, t)
  {
  }

  lemma OtherKillPc(s: State, step: Step, s': State, t: Tid)
    requires Takes(s, step, s') && !Of(step, t)
    requires step.Unregister? || step.KillNextPrev? || step.KillPrevNext? || step.KillHeadStore?
    ensures L.PcOf(s'.l, t) == L.PcOf(s.l, t)
  {
    if step.KillNextPrev? || step.KillPrevNext? { OtherUnlinkPc(s, step, s', t); }
  }

  lemma OtherUnlinkPc(s: State, step: Step, s': State, t: Tid)
    requires Takes(s, step, s') && !Of(step, t) && (step.KillNextPrev? || step.KillPrevNext?)
    ensures L.PcOf(s'.l, t) == L.PcOf(s.l, t)
  {
  }

  lemma PollerListPc(s: State, step: Step, s': State, t: Tid)
    requires Takes(s, step, s') && (step.FreeLens? || step.ReadHead? || step.Look? || step.Advance? || step.Finish?)
    ensures L.PcOf(s'.l, t) == L.PcOf(s.l, t)
  {
  }

  lemma OtherListPc(s: State, step: Step, s': State, t: Tid)
    requires Takes(s, step, s') && !Of(step, t) && (OnListOnly(step) || OnBoth(step))
    ensures L.PcOf(s'.l, t) == L.PcOf(s.l, t)
  {
    if step.Unregister? || step.KillNextPrev? || step.KillPrevNext? || step.KillHeadStore? {
      OtherKillPc(s, step, s', t);
    } else if step.FreeLens? || step.ReadHead? || step.Look? || step.Advance? || step.Finish? {
      PollerListPc(s, step, s', t);
    } else {
      OtherPushPc(s, step, s', t);
    }
  }

  lemma PollerDeferPc(s: State, step: Step, s': State, t: Tid)
    requires Takes(s, step, s') && !OfClient(step)
    ensures D.PcOf(s'.d, t) == D.PcOf(s.d, t)
  {
  }

  lemma OtherDeferPc(s: State, step: Step, s': State, t: Tid)
    requires Takes(s, step, s') && !Of(step, t) && !OnListOnly(step)
    ensures D.PcOf(s'.d, t) == D.PcOf(s.d, t)
  {
    if !OfClient(step) { PollerDeferPc(s, step, s', t); }
  }

  lemma OthersDoNotDelay(s: State, step: Step, s': State, t: Tid)
    requires Takes(s, step, s') && !Of(step, t)
    ensures Remaining(s', t) == Remaining(s, t)
  {
    if OnListOnly(step) || OnBoth(step) { OtherListPc(s, step, s', t); }
    if !OnListOnly(step) { OtherDeferPc(s, step, s', t); }
    if !OnBoth(step) { StepIsLocal(s, step, s'); }
  }

  /** The steps of thread `t` from `i` up to `j`, and how many of them lose a race. */
  function Own(steps: seq<Step>, i: nat, j: nat, t: Tid): nat
    requires i <= j <= |steps|
  {
    if i == j then 0 else Own(steps, i, j - 1, t) + if Of(steps[j - 1], t) then 1 else 0
  }

  function Races(ss: seq<State>, steps: seq<Step>, i: nat, j: nat, t: Tid): nat
    requires i <= j <= |steps| <= |ss|
  {
    if i == j then 0
    else Races(ss, steps, i, j - 1, t) + if Of(steps[j - 1], t) && LosesRace(ss[j - 1], steps[j - 1]) then 1 else 0
  }

  lemma CallHop(ss: seq<State>, steps: seq<Step>, j: nat, t: Tid)
    requires Run(ss, steps) && j < |steps| && !(Of(steps[j], t) && Starts(steps[j]))
    ensures Remaining(ss[j + 1], t) + (if Of(steps[j], t) then 1 else 0)
         <= Remaining(ss[j], t) + if Of(steps[j], t) && LosesRace(ss[j], steps[j]) then 2 else 0
  {
    RunInv(ss, steps, j);
    assert StepAt(ss, steps, j);
    if Of(steps[j], t) {
      CallAdvances(ss[j], steps[j], ss[j + 1], t);
    } else {
      OthersDoNotDelay(ss[j], steps[j], ss[j + 1], t);
    }
  }

  lemma {:induction false} CallBudget(ss: seq<State>, steps: seq<Step>, i: nat, j: nat, t: Tid)
    requires Run(ss, steps) && i <= j <= |steps|
    requires forall k :: i <= k < j ==> !(Of(steps[k], t) && Starts(steps[k]))
    ensures Remaining(ss[j], t) + Own(steps, i, j, t) <= Remaining(ss[i], t) + 2 * Races(ss, steps, i, j, t)
    decreases j
  {
    if i < j {
      CallBudget(ss, steps, i, j - 1, t);
      CallHop(ss, steps, j - 1, t);
    }
  }

  lemma CallsAreShort(s: State, t: Tid)
    requires Inv(s)
    ensures Remaining(s, t) <= 8
  {
    assert L.PcOf(s.l, t).Idle? || D.PcOf(s.d, t).Idle?;
  }

  /** Until it starts another one, a thread takes no more steps than its call has left, and two for each lost race,
      whatever steps of others come between; and it always has one to take, or waits for the lock. */
  lemma CallsEnd(ss: seq<State>, steps: seq<Step>, i: nat, j: nat, t: Tid)
    requires Run(ss, steps) && i <= j <= |steps|
    requires forall k :: i <= k < j ==> !(Of(steps[k], t) && Starts(steps[k]))
    ensures Remaining(ss[j], t) + Own(steps, i, j, t) <= Remaining(ss[i], t) + 2 * Races(ss, steps, i, j, t)
    ensures Remaining(ss[i], t) <= 8
    ensures Remaining(ss[j], t) > 0 ==> CanStep(ss[j], t)
  {
    CallBudget(ss, steps, i, j, t);
    RunInv(ss, steps, i);
    CallsAreShort(ss[i], t);
    RunInv(ss, steps, j);
    if Remaining(ss[j], t) > 0 { CallsCanGoOn(ss[j], t); }
  }

  /** The thread has a step to take, or waits for the lock in order to register a lens. */
  predicate CanStep(s: State, t: Tid) {
    || (s.l.lock && L.PcOf(s.l, t).Fresh?)
    || Enabled(s, Register(t)) || Enabled(s, DropFresh(t))
    || Enabled(s, StoreNext(t)) || Enabled(s, StorePrev(t)) || Enabled(s, StoreHead(t))
    || Enabled(s, KillNextPrev(t)) || Enabled(s, KillPrevNext(t)) || Enabled(s, KillHeadStore(t))
    || Enabled(s, AllocNodeFails(t)) || Enabled(s, LoadEpoch(t)) || Enabled(s, LoadDefers(t))
    || Enabled(s, LinkNode(t)) || Enabled(s, CasDefers(t, false))
  }

  lemma CallsCanGoOn(s: State, t: Tid)
    requires Inv(s) && Remaining(s, t) > 0
    ensures CanStep(s, t)
  {
  }

  // ---- the traversal ----

  predicate Moves(step: Step) {
    step.Look? || step.Advance? || step.Finish?
  }

  /** The steps of the traversal from `i` up to `j`. */
  function MovesIn(steps: seq<Step>, i: nat, j: nat): nat
    requires i <= j <= |steps|
  {
    if i == j then 0 else MovesIn(steps, i, j - 1) + if Moves(steps[j - 1]) then 1 else 0
  }

  /** Two moves for each lens visited; the last ones end the traversal. */
  ghost predicate Paced(l: L.State, moves: nat) {
    match l.cursor
    case At(_) => moves == 2 * |l.visited|
    case Seen(_) => moves + 1 == 2 * |l.visited|
    case Away => moves == 2 * |l.visited| + 1
  }

  lemma MovePaces(s: State, step: Step, s': State, moves: nat)
    requires Takes(s, step, s') && Moves(step) && Paced(s.l, moves)
    ensures Paced(s'.l, moves + 1)
  {
  }

  lemma OtherStepsKeepPace(s: State, step: Step, s': State)
    requires Takes(s, step, s') && !Moves(step) && !step.ReadHead?
    ensures s'.l.cursor == s.l.cursor && s'.l.visited == s.l.visited
  {
    if !OnListOnly(step) && !OnBoth(step) { StepIsLocal(s, step, s'); }
  }

  lemma {:induction false} PacedRun(ss: seq<State>, steps: seq<Step>, i: nat, j: nat)
    requires Run(ss, steps) && OneTraversal(steps, i, j)
    ensures Paced(ss[j].l, MovesIn(steps, i + 1, j))
    decreases j
  {
    assert StepAt(ss, steps, j - 1);
    if j > i + 1 {
      PacedRun(ss, steps, i, j - 1);
      if Moves(steps[j - 1]) {
        MovePaces(ss[j - 1], steps[j - 1], ss[j], MovesIn(steps, i + 1, j - 1));
      } else {
        OtherStepsKeepPace(ss[j - 1], steps[j - 1], ss[j]);
      }
    }
  }

  /** A traversal takes at most two steps for each lens that was listed at its head load, and one to end; before that it
      always has one to take. */
  lemma TraversalsEnd(ss: seq<State>, steps: seq<Step>, i: nat, j: nat)
    requires Run(ss, steps) && OneTraversal(steps, i, j)
    ensures !ss[j].l.cursor.Away? ==> MovesIn(steps, i + 1, j) <= 2 * |ss[i].l.listed|
    ensures !ss[j].l.cursor.Away? ==> CanMove(ss[j])
  {
    PacedRun(ss, steps, i, j);
    if !ss[j].l.cursor.Away? {
      MovesAreBounded(ss, steps, i, j);
    }
  }

  predicate CanMove(s: State) {
    Enabled(s, Look) || Enabled(s, Advance) || Enabled(s, Finish)
  }

  lemma MovesAreBounded(ss: seq<State>, steps: seq<Step>, i: nat, j: nat)
    requires Run(ss, steps) && OneTraversal(steps, i, j) && !ss[j].l.cursor.Away?
    ensures |ss[j].l.visited| <= |ss[i].l.listed|
  {
    TraversalDescends(ss, steps, j);
    SnapshotIsFixed(ss, steps, i, j);
  }

  // ---- the drain ----

  predicate Drains(step: Step) {
    step.FreeLens? || step.FreeNode?
  }

  function DrainsIn(steps: seq<Step>, i: nat, j: nat): nat
    requires i <= j <= |steps|
  {
    if i == j then 0 else DrainsIn(steps, i, j - 1) + if Drains(steps[j - 1]) then 1 else 0
  }

  /** The nodes of list `q`, and of the drain. */
  function NodesOf(d: D.State, q: nat): set<Off> {
    set n | n in d.place && d.place[n] == D.Queue(q)
  }

  /** The number of nodes that the next exchange takes. */
  function BatchSize(d: D.State): nat {
    |NodesOf(d, (d.epoch + 1) % 2)|
  }

  /** Two steps for each node that has been drained; the last one ends the drain. */
  ghost predicate DrainPaced(d: D.State, batch: nat, drains: nat) {
    match d.poller
    case Drain(_) => drains + 2 * |NodesOf(d, 2)| == 2 * batch
    case DrainNode(_, _) => drains + 2 * |NodesOf(d, 2)| == 2 * batch + 1
    case Bump => drains <= 2 * batch + 1
    case Resting => true
  }

  lemma ExchangePaces(d: D.State, view: nat)
    requires D.Inv(d) && d.poller.Resting?
    ensures DrainPaced(D.Exchange(d, view), BatchSize(d), 0)
  {
    var q: nat := (d.epoch + 1) % 2;
    forall n ensures n in NodesOf(D.Exchange(d, view), 2) <==> n in NodesOf(d, q) {
      assert !D.Queued(d.place, n, 2);
    }
    assert NodesOf(D.Exchange(d, view), 2) == NodesOf(d, q);
  }

  lemma FreeLensPaces(d: D.State, batch: nat, drains: nat)
    requires D.Inv(d) && d.poller.Drain? && D.FreeLens(d).Ok? && DrainPaced(d, batch, drains)
    ensures DrainPaced(D.FreeLens(d).state, batch, drains + 1)
  {
    var d' := D.FreeLens(d).state;
    if d'.poller.DrainNode? { assert NodesOf(d', 2) == NodesOf(d, 2); }
  }

  lemma FreeNodePaces(d: D.State, batch: nat, drains: nat)
    requires D.Inv(d) && d.poller.DrainNode? && D.FreeNode(d).Ok? && DrainPaced(d, batch, drains)
    ensures DrainPaced(D.FreeNode(d).state, batch, drains + 1)
  {
    var d', node := D.FreeNode(d).state, d.poller.node;
    assert D.Queued(d.place, node, 2);
    assert NodesOf(d', 2) == NodesOf(d, 2) - {node};
  }

  lemma ClientPaces(s: State, step: Step, s': State, batch: nat, drains: nat)
    requires Inv(s) && Takes(s, step, s') && OfClient(step) && DrainPaced(s.d, batch, drains)
    ensures DrainPaced(s'.d, batch, drains)
  {
    ClientLeaves(s, step, s');
    forall n ensures n in NodesOf(s'.d, 2) <==> n in NodesOf(s.d, 2) {
      assert D.Queued(s'.d.place, n, 2) <==> D.Queued(s.d.place, n, 2);
    }
    assert NodesOf(s'.d, 2) == NodesOf(s.d, 2);
  }

  lemma DrainPaces(s: State, step: Step, s': State, batch: nat, drains: nat)
    requires Inv(s) && Takes(s, step, s') && DrainPaced(s.d, batch, drains) && !step.Exchange? && !step.BumpEpoch?
    ensures DrainPaced(s'.d, batch, drains + if Drains(step) then 1 else 0)
  {
    if step.FreeLens? {
      FreeLensPaces(s.d, batch, drains);
    } else if step.FreeNode? {
      FreeNodePaces(s.d, batch, drains);
    } else {
      ClientPaces(s, step, s', batch, drains);
    }
  }

  lemma DrainPaceHop(ss: seq<State>, steps: seq<Step>, j: nat, batch: nat, drains: nat)
    requires Run(ss, steps) && j < |steps| && DrainPaced(ss[j].d, batch, drains)
    requires !ss[j].d.poller.Resting? && !ss[j + 1].d.poller.Resting?
    ensures DrainPaced(ss[j + 1].d, batch, drains + if Drains(steps[j]) then 1 else 0)
  {
    RunInv(ss, steps, j);
    assert StepAt(ss, steps, j);
    BumpRests(ss[j], steps[j], ss[j + 1]);
    DrainPaces(ss[j], steps[j], ss[j + 1], batch, drains);
  }

  lemma {:induction false} DrainPacedRun(ss: seq<State>, steps: seq<Step>, i: nat, j: nat)
    requires Run(ss, steps) && OneDrain(ss, steps, i, j)
    ensures DrainPaced(ss[j].d, BatchSize(ss[i].d), DrainsIn(steps, i + 1, j))
    decreases j
  {
    if j > i + 1 {
      DrainPacedRun(ss, steps, i, j - 1);
      DrainPaceHop(ss, steps, j - 1, BatchSize(ss[i].d), DrainsIn(steps, i + 1, j - 1));
    } else {
      DrainPaceStarts(ss, steps, i);
    }
  }

  lemma DrainPaceStarts(ss: seq<State>, steps: seq<Step>, i: nat)
    requires Run(ss, steps) && i < |steps| && steps[i].Exchange?
    ensures DrainPaced(ss[i + 1].d, BatchSize(ss[i].d), 0)
  {
    RunInv(ss, steps, i);
    assert StepAt(ss, steps, i);
    ExchangeStepPaces(ss[i], steps[i].view, ss[i + 1]);
  }

  lemma ExchangeStepPaces(s: State, view: nat, s': State)
    requires Inv(s) && Takes(s, Exchange(view), s')
    ensures DrainPaced(s'.d, BatchSize(s.d), 0)
  {
    ExchangePaces(s.d, view);
  }

  predicate CanDrain(s: State) {
    Enabled(s, FreeLens) || Enabled(s, FreeNode) || Enabled(s, BumpEpoch)
  }

  lemma PaceIsBounded(d: D.State, batch: nat, drains: nat)
    requires DrainPaced(d, batch, drains) && !d.poller.Resting?
    ensures drains <= 2 * batch + 1
  {
  }

  /** A drain takes at most two steps for each node of the list that its increment took, and one to end; before that it
      always has one to take. */
  lemma DrainsEnd(ss: seq<State>, steps: seq<Step>, i: nat, j: nat)
    requires Run(ss, steps) && OneDrain(ss, steps, i, j)
    ensures DrainsIn(steps, i + 1, j) <= 2 * BatchSize(ss[i].d) + 1 && CanDrain(ss[j])
  {
    DrainPacedRun(ss, steps, i, j);
    PaceIsBounded(ss[j].d, BatchSize(ss[i].d), DrainsIn(steps, i + 1, j));
  }
}
