/**
 What becomes of the deferrals that one epoch increment takes. The drain walks them from the newest to the oldest; a
 node that the poller has not mapped stops it, and a block whose whole class length is not mapped is leaked.
 */
module DrainTheorems {
  import Region
  import D = Deferral
  import DP = DeferralProof
  import opened LensSystem
  import opened LensTheorems

  // ---- the batch of an exchange ----

  /** `n` is on the list that the next exchange takes. */
  ghost predicate InBatch(d: D.State, n: Off) {
    D.Queued(d.place, n, (d.epoch + 1) % 2)
  }

  /** No node pushed at or after `n` stops the drain. */
  ghost predicate Reached(d: D.State, view: nat, n: Off) {
    forall m {:trigger InBatch(d, m)} ::
      InBatch(d, m) && m in d.ticket && n in d.ticket && d.ticket[n].id <= d.ticket[m].id ==>
        Region.InView(view, m, D.DEFER_LEN)
  }

  /** The fate that a member of the batch should meet. */
  ghost function DueFate(d: D.State, view: nat, n: Off): D.Fate
    requires n in d.nodes && n in d.ticket
  {
    if Reached(d, view, n) then
      D.Drained(d.ticket[n], d.epoch, D.Fits(view, d.nodes[n].off, d.nodes[n].len), D.Fits(view, n, D.DEFER_LEN))
    else D.Dropped
  }

  /** The poller has mapped all blocks of the batch. */
  ghost predicate Covers(d: D.State, view: nat) {
    forall n {:trigger InBatch(d, n)} :: InBatch(d, n) && n in d.nodes ==>
      D.Fits(view, n, D.DEFER_LEN) && D.Fits(view, d.nodes[n].off, d.nodes[n].len)
  }

  predicate FreedInFull(f: D.Fate) {
    f.Drained? && f.lensFreed && f.nodeFreed
  }

  /** A covered batch is due to be freed in full, and no other one is. */
  lemma CoveredIsDue(d: D.State, view: nat)
    requires D.Inv(d)
    ensures Covers(d, view) <==>
      forall n {:trigger InBatch(d, n)} :: InBatch(d, n) ==>
          n in d.nodes && n in d.ticket && FreedInFull(DueFate(d, view, n))
  {
    forall n | InBatch(d, n) ensures n in d.nodes && n in d.ticket { assert D.QueuedOk(d, (d.epoch + 1) % 2, n); }
  }

  // ---- a drain in progress ----

  /** A member still waits with the content it had at the exchange, or has met its due fate. */
  ghost predicate MemberOk(d0: D.State, view: nat, d: D.State, n: Off) {
    && n in d0.nodes && n in d0.ticket && d0.ticket[n].id in d.fate
    && if D.Queued(d.place, n, 2) then
         && n in d.nodes && d.nodes[n] == d0.nodes[n] && n in d.ticket && d.ticket[n] == d0.ticket[n]
         && d.fate[d0.ticket[n].id] == D.Waiting(n)
       else d.fate[d0.ticket[n].id] == DueFate(d0, view, n)
  }

  ghost predicate MembersOk(d0: D.State, view: nat, d: D.State) {
    && (forall n {:trigger MemberOk(d0, view, d, n)} {:trigger InBatch(d0, n)} :: InBatch(d0, n) ==>
      MemberOk(d0, view, d, n))
    && (forall n {:trigger D.Queued(d.place, n, 2)} :: D.Queued(d.place, n, 2) ==> InBatch(d0, n))
  }

  /** What the drain has passed lies in the view. */
  ghost predicate PassedOk(d0: D.State, view: nat, d: D.State) {
    d.poller.Drain? || d.poller.DrainNode? ==>
      && (forall n {:trigger InBatch(d0, n)} :: InBatch(d0, n) && !D.Queued(d.place, n, 2) ==>
        Region.InView(view, n, D.DEFER_LEN))
      && (d.poller.DrainNode? ==> Region.InView(view, d.poller.node, D.DEFER_LEN))
  }

  ghost predicate Draining(d0: D.State, view: nat, d: D.State) {
    d.epoch == d0.epoch && d.view == view && MembersOk(d0, view, d) && PassedOk(d0, view, d)
  }

  lemma ExchangeStarts(d0: D.State, view: nat)
    requires D.Inv(d0) && d0.poller.Resting?
    ensures Draining(d0, view, D.Exchange(d0, view))
  {
    var d := D.Exchange(d0, view);
    forall n ensures D.Queued(d.place, n, 2) <==> InBatch(d0, n) { DP.ExchangeMoves(d0, view, n); }
    forall n | InBatch(d0, n) ensures MemberOk(d0, view, d, n) { assert D.QueuedOk(d0, (d0.epoch + 1) % 2, n); }
  }

  /** Two members of a batch have different numbers. */
  lemma NumbersDiffer(d0: D.State, m: Off, n: Off)
    requires D.Inv(d0) && InBatch(d0, m) && InBatch(d0, n) && m != n
    ensures m in d0.ticket && n in d0.ticket && d0.ticket[m].id != d0.ticket[n].id
  {
    var q: nat := (d0.epoch + 1) % 2;
    assert D.QueuedOk(d0, q, m) && D.QueuedOk(d0, q, n);
  }

  /** Nothing moves into or out of the hands of the drain, and no deferral is settled. */
  ghost predicate LeavesDrain(d: D.State, d': D.State) {
    && d'.epoch == d.epoch && d'.view == d.view
    && (forall n {:trigger D.Queued(d'.place, n, 2)} :: D.Queued(d'.place, n, 2) <==> D.Queued(d.place, n, 2))
    && (forall n {:trigger D.Queued(d.place, n, 2)} :: D.Queued(d.place, n, 2) && n in d.nodes && n in d.ticket ==>
          n in d'.nodes && d'.nodes[n] == d.nodes[n] && n in d'.ticket && d'.ticket[n] == d.ticket[n])
    && (forall id :: id in d.fate ==> id in d'.fate && d'.fate[id] == d.fate[id])
    && (forall id :: id in d'.fate && id !in d.fate ==> d'.fate[id].Waiting?)
  }

  lemma DrainFrame(d0: D.State, view: nat, d: D.State, d': D.State)
    requires Draining(d0, view, d) && LeavesDrain(d, d') && PassedOk(d0, view, d')
    ensures Draining(d0, view, d')
  {
    forall n | InBatch(d0, n) ensures MemberOk(d0, view, d', n) { assert MemberOk(d0, view, d, n); }
  }

  lemma AllocNodeLeaves(d: D.State, t: Tid, node: Off)
    requires D.Inv(d) && D.PcOf(d, t).Removed? && node !in d.nodes
    ensures LeavesDrain(d, D.AllocNode(d, t, node))
  {
  }

  lemma LinkNodeLeaves(d: D.State, t: Tid)
    requires D.Inv(d) && D.PcOf(d, t).Loaded? && D.LinkNode(d, t).Ok?
    ensures LeavesDrain(d, D.LinkNode(d, t).state)
  {
    assert D.ThreadOk(d, t);
  }

  lemma CasDefersLeaves(d: D.State, t: Tid, spurious: bool)
    requires D.Inv(d) && D.PcOf(d, t).Linked?
    ensures LeavesDrain(d, D.CasDefers(d, t, spurious))
  {
    assert D.ThreadOk(d, t);
    var d' := D.CasDefers(d, t, spurious);
    forall n ensures D.Queued(d'.place, n, 2) <==> D.Queued(d.place, n, 2) {}
  }

  predicate OfClient(step: Step) {
    !step.Exchange? && !step.FreeLens? && !step.FreeNode? && !step.BumpEpoch?
  }

  /** A client neither moves nor settles what is being drained. */
  lemma ClientLeaves(s: State, step: Step, s': State)
    requires Inv(s) && Takes(s, step, s') && OfClient(step)
    ensures LeavesDrain(s.d, s'.d) && s'.d.poller == s.d.poller
  {
    if step.AllocNode? || step.LinkNode? || step.CasDefers? {
      NodeLeaves(s, step, s');
    } else {
      QuietClient(s, step, s');
      QuietLeaves(s.d, s'.d);
    }
  }

  lemma NodeLeaves(s: State, step: Step, s': State)
    requires Inv(s) && Takes(s, step, s') && (step.AllocNode? || step.LinkNode? || step.CasDefers?)
    ensures LeavesDrain(s.d, s'.d) && s'.d.poller == s.d.poller
  {
    match step
    case AllocNode(t, node) => AllocNodeLeaves(s.d, t, node);
    case LinkNode(t) => LinkNodeLeaves(s.d, t);
    case CasDefers(t, spurious) => CasDefersLeaves(s.d, t, spurious);
  }

  lemma QuietLeaves(d: D.State, d': D.State)
    requires d' == d.(pc := d'.pc, carried := d'.carried, lensLen := d'.lensLen)
    ensures LeavesDrain(d, d') && d'.poller == d.poller
  {
  }

  lemma QuietClient(s: State, step: Step, s': State)
    requires Takes(s, step, s') && OfClient(step) && !step.AllocNode? && !step.LinkNode? && !step.CasDefers?
    ensures s'.d == s.d.(pc := s'.d.pc, carried := s'.d.carried, lensLen := s'.d.lensLen)
  {
    if OnListOnly(step) { StepIsLocal(s, step, s'); }
  }

  /** Stopping at a node outside the view drops exactly the members that are not reached. */
  lemma AbandonDrains(d0: D.State, view: nat, d: D.State)
    requires D.Inv(d0) && D.Inv(d) && Draining(d0, view, d)
    requires d.poller.Drain? && d.poller.node != 0 && !Region.InView(view, d.poller.node, D.DEFER_LEN)
    ensures Draining(d0, view, D.Abandon(d))
  {
    var d', stop := D.Abandon(d), d.poller.node;
    assert D.Queued(d.place, stop, 2) && InBatch(d0, stop) && MemberOk(d0, view, d, stop);
    forall n ensures !D.Queued(d'.place, n, 2) {}
    forall n | InBatch(d0, n) ensures MemberOk(d0, view, d', n) {
      assert MemberOk(d0, view, d, n);
      if D.Queued(d.place, n, 2) {
        assert d0.ticket[n].id <= d0.ticket[stop].id;
        assert !Reached(d0, view, n);
      }
    }
  }

  /** The node being freed was reached. */
  lemma DrainedIsReached(d0: D.State, view: nat, d: D.State)
    requires D.Inv(d0) && D.Inv(d) && Draining(d0, view, d) && d.poller.DrainNode?
    ensures InBatch(d0, d.poller.node) && Reached(d0, view, d.poller.node)
  {
    var node := d.poller.node;
    assert D.Queued(d.place, node, 2) && InBatch(d0, node) && MemberOk(d0, view, d, node);
    forall m | InBatch(d0, m) && m in d0.ticket && d0.ticket[node].id <= d0.ticket[m].id
      ensures Region.InView(view, m, D.DEFER_LEN)
    {
      assert MemberOk(d0, view, d, m);
      if D.Queued(d.place, m, 2) && m != node {
        NumbersDiffer(d0, m, node);
        assert false;
      }
    }
  }

  lemma FreeNodeQueue(d: D.State, n: Off)
    requires D.Inv(d) && d.poller.DrainNode? && D.FreeNode(d).Ok?
    ensures D.Queued(D.FreeNode(d).state.place, n, 2) <==> n != d.poller.node && D.Queued(d.place, n, 2)
  {
  }

  lemma FreeNodeMembers(d0: D.State, view: nat, d: D.State, n: Off)
    requires D.Inv(d0) && D.Inv(d) && Draining(d0, view, d) && d.poller.DrainNode? && D.FreeNode(d).Ok?
    requires InBatch(d0, n)
    ensures MemberOk(d0, view, D.FreeNode(d).state, n)
  {
    var node := d.poller.node;
    DrainedIsReached(d0, view, d);
    assert MemberOk(d0, view, d, node) && MemberOk(d0, view, d, n);
    FreeNodeQueue(d, n);
    if n != node { NumbersDiffer(d0, n, node); }
  }

  lemma FreeNodeDrains(d0: D.State, view: nat, d: D.State)
    requires D.Inv(d0) && D.Inv(d) && Draining(d0, view, d) && d.poller.DrainNode? && D.FreeNode(d).Ok?
    ensures Draining(d0, view, D.FreeNode(d).state)
  {
    var d' := D.FreeNode(d).state;
    forall n
      ensures D.Queued(d'.place, n, 2) <==> n != d.poller.node && D.Queued(d.place, n, 2)
    {
      FreeNodeQueue(d, n);
    }
    forall n | InBatch(d0, n) ensures MemberOk(d0, view, d', n) { FreeNodeMembers(d0, view, d, n); }
  }

  lemma FreeLensDrains(d0: D.State, view: nat, d: D.State)
    requires D.Inv(d0) && D.Inv(d) && Draining(d0, view, d) && d.poller.Drain? && D.FreeLens(d).Ok?
    ensures Draining(d0, view, D.FreeLens(d).state)
  {
    if d.poller.node != 0 && !Region.InView(view, d.poller.node, D.DEFER_LEN) {
      AbandonDrains(d0, view, d);
    } else {
      DrainFrame(d0, view, d, D.FreeLens(d).state);
    }
  }

  lemma DrainStep(d0: D.State, view: nat, s: State, step: Step, s': State)
    requires D.Inv(d0) && Inv(s) && Takes(s, step, s') && Draining(d0, view, s.d) && !step.Exchange? && !step.BumpEpoch?
    ensures Draining(d0, view, s'.d)
  {
    if step.FreeLens? {
      FreeLensDrains(d0, view, s.d);
    } else if step.FreeNode? {
      FreeNodeDrains(d0, view, s.d);
    } else {
      ClientLeaves(s, step, s');
      DrainFrame(d0, view, s.d, s'.d);
    }
  }

  // ---- every run ----

  /** The steps from i up to j belong to one epoch increment, whose exchange is step i. */
  predicate OneDrain(ss: seq<State>, steps: seq<Step>, i: nat, j: nat) {
    && i < j < |ss| == |steps| + 1 && steps[i].Exchange?
    && forall k :: i < k <= j ==> !ss[k].d.poller.Resting?
  }

  lemma BumpRests(s: State, step: Step, s': State)
    requires Takes(s, step, s') && (step.Exchange? ==> !s.d.poller.Resting?) && !s'.d.poller.Resting?
    ensures !step.Exchange? && !step.BumpEpoch?
  {
  }

  /** The state after `j` steps is part of the drain that step `i` began. */
  ghost predicate DrainAt(ss: seq<State>, steps: seq<Step>, i: nat, j: nat) {
    i < |steps| && j < |ss| && i < |ss| && steps[i].Exchange? && Draining(ss[i].d, steps[i].view, ss[j].d)
  }

  lemma DrainBegins(ss: seq<State>, steps: seq<Step>, i: nat)
    requires Run(ss, steps) && i < |steps| && steps[i].Exchange?
    ensures DrainAt(ss, steps, i, i + 1)
  {
    RunInv(ss, steps, i);
    assert StepAt(ss, steps, i);
    ExchangeStarts(ss[i].d, steps[i].view);
  }

  lemma DrainHop(ss: seq<State>, steps: seq<Step>, i: nat, j: nat)
    requires Run(ss, steps) && OneDrain(ss, steps, i, j) && i + 1 < j && DrainAt(ss, steps, i, j - 1)
    ensures DrainAt(ss, steps, i, j)
  {
    RunInv(ss, steps, i);
    RunInv(ss, steps, j - 1);
    assert StepAt(ss, steps, j - 1);
    BumpRests(ss[j - 1], steps[j - 1], ss[j]);
    DrainStep(ss[i].d, steps[i].view, ss[j - 1], steps[j - 1], ss[j]);
  }

  lemma {:induction false} DrainRun(ss: seq<State>, steps: seq<Step>, i: nat, j: nat)
    requires Run(ss, steps) && OneDrain(ss, steps, i, j)
    ensures DrainAt(ss, steps, i, j)
    decreases j
  {
    if j == i + 1 {
      DrainBegins(ss, steps, i);
    } else {
      DrainRun(ss, steps, i, j - 1);
      DrainHop(ss, steps, i, j);
    }
  }

  /** When a drain is over, each deferral of its batch has met the fate that the view decides: it was dropped if and
      only if a node pushed at or after it is out of view, and otherwise its two blocks were freed if and only if they
      fit. So the whole batch was freed if and only if the view covers it. */
  lemma DrainIsExact(ss: seq<State>, steps: seq<Step>, i: nat, j: nat)
    requires Run(ss, steps) && OneDrain(ss, steps, i, j) && ss[j].d.poller.Bump?
    ensures forall n {:trigger InBatch(ss[i].d, n)} :: InBatch(ss[i].d, n) ==>
      && n in ss[i].d.nodes && n in ss[i].d.ticket && ss[i].d.ticket[n].id in ss[j].d.fate
      && ss[j].d.fate[ss[i].d.ticket[n].id] == DueFate(ss[i].d, steps[i].view, n)
    ensures Covers(ss[i].d, steps[i].view) <==>
      forall n {:trigger InBatch(ss[i].d, n)} :: InBatch(ss[i].d, n) ==>
        && n in ss[i].d.ticket && ss[i].d.ticket[n].id in ss[j].d.fate
        && FreedInFull(ss[j].d.fate[ss[i].d.ticket[n].id])
  {
    var d0, d, view := ss[i].d, ss[j].d, steps[i].view;
    DrainRun(ss, steps, i, j);
    RunInv(ss, steps, i);
    RunInv(ss, steps, j);
    forall n | InBatch(d0, n)
      ensures n in d0.nodes && n in d0.ticket && d0.ticket[n].id in d.fate
      ensures d.fate[d0.ticket[n].id] == DueFate(d0, view, n)
    {
      assert MemberOk(d0, view, d, n) && !D.Queued(d.place, n, 2);
    }
    CoveredIsDue(d0, view);
  }

  // ---- runs in which every exchange is covered ----

  /** No deferral has been lost, and none will be by the drain in progress. */
  ghost predicate Lossless(d: D.State) {
    && (forall id :: id in d.fate ==> d.fate[id].Waiting? || FreedInFull(d.fate[id]))
    && (d.poller.Drain? || d.poller.DrainNode? ==>
          forall n {:trigger D.Queued(d.place, n, 2)} :: D.Queued(d.place, n, 2) && n in d.nodes ==>
            D.Fits(d.view, n, D.DEFER_LEN) && D.Fits(d.view, d.nodes[n].off, d.nodes[n].len))
  }

  lemma ExchangeLoses(d: D.State, view: nat)
    requires D.Inv(d) && d.poller.Resting? && Lossless(d) && Covers(d, view)
    ensures Lossless(D.Exchange(d, view))
  {
    var d' := D.Exchange(d, view);
    forall n | D.Queued(d'.place, n, 2) && n in d'.nodes
      ensures D.Fits(view, n, D.DEFER_LEN) && D.Fits(view, d'.nodes[n].off, d'.nodes[n].len)
    {
      DP.ExchangeMoves(d, view, n);
      assert InBatch(d, n);
    }
  }

  lemma FreeLensLoses(d: D.State)
    requires D.Inv(d) && d.poller.Drain? && Lossless(d) && D.FreeLens(d).Ok?
    ensures Lossless(D.FreeLens(d).state)
  {
    assert d.poller.node != 0 ==> D.Queued(d.place, d.poller.node, 2) && D.QueuedOk(d, 2, d.poller.node);
  }

  lemma FreeNodeLoses(d: D.State)
    requires D.Inv(d) && d.poller.DrainNode? && Lossless(d) && D.FreeNode(d).Ok?
    ensures Lossless(D.FreeNode(d).state)
  {
    var d' := D.FreeNode(d).state;
    assert D.Queued(d.place, d.poller.node, 2) && D.QueuedOk(d, 2, d.poller.node);
    forall n | D.Queued(d'.place, n, 2)
      ensures D.Queued(d.place, n, 2) && (n in d'.nodes ==> n in d.nodes && d'.nodes[n] == d.nodes[n])
    {
      FreeNodeQueue(d, n);
    }
  }

  lemma LosslessFrame(d: D.State, d': D.State)
    requires D.Inv(d) && Lossless(d) && LeavesDrain(d, d') && d'.poller == d.poller
    ensures Lossless(d')
  {
    forall n | D.Queued(d'.place, n, 2) ensures n in d.nodes && n in d'.nodes && d'.nodes[n] == d.nodes[n] {
      assert D.Queued(d.place, n, 2) && D.QueuedOk(d, 2, n);
    }
  }

  lemma ClientLoses(s: State, step: Step, s': State)
    requires Inv(s) && Takes(s, step, s') && Lossless(s.d) && OfClient(step)
    ensures Lossless(s'.d)
  {
    ClientLeaves(s, step, s');
    LosslessFrame(s.d, s'.d);
  }

  lemma PollerLoses(s: State, step: Step, s': State)
    requires Inv(s) && Takes(s, step, s') && Lossless(s.d) && (step.Exchange? ==> Covers(s.d, step.view))
    requires !OfClient(step)
    ensures Lossless(s'.d)
  {
    if step.Exchange? {
      ExchangeLoses(s.d, step.view);
    } else if step.BumpEpoch? {
      BumpLoses(s.d);
    } else {
      FreeLoses(s, step, s');
    }
  }

  lemma FreeLoses(s: State, step: Step, s': State)
    requires Inv(s) && Takes(s, step, s') && Lossless(s.d) && (step.FreeLens? || step.FreeNode?)
    ensures Lossless(s'.d)
  {
    if step.FreeLens? { FreeLensLoses(s.d); } else { FreeNodeLoses(s.d); }
  }

  lemma BumpLoses(d: D.State)
    requires Lossless(d)
    ensures Lossless(D.BumpEpoch(d))
  {
  }

  lemma LosslessStep(s: State, step: Step, s': State)
    requires Inv(s) && Takes(s, step, s') && Lossless(s.d) && (step.Exchange? ==> Covers(s.d, step.view))
    ensures Lossless(s'.d)
  {
    if OfClient(step) {
      ClientLoses(s, step, s');
    } else {
      PollerLoses(s, step, s');
    }
  }

  ghost predicate ExchangesCovered(ss: seq<State>, steps: seq<Step>, i: nat)
    requires i < |ss| == |steps| + 1
  {
    forall k :: 0 <= k < i && steps[k].Exchange? ==> Covers(ss[k].d, steps[k].view)
  }

  lemma {:induction false} LosslessRun(ss: seq<State>, steps: seq<Step>, i: nat)
    requires Run(ss, steps) && i < |ss| && ExchangesCovered(ss, steps, i)
    ensures Lossless(ss[i].d)
    decreases i
  {
    if i > 0 {
      LosslessRun(ss, steps, i - 1);
      RunInv(ss, steps, i - 1);
      assert StepAt(ss, steps, i - 1);
      LosslessStep(ss[i - 1], steps[i - 1], ss[i]);
    }
  }

  /** If the view of each exchange covers the batch it takes, every deferral ever made is freed, lens and node, by one
      of the first two increments whose exchange follows its push; until then it waits. */
  lemma NothingIsLost(ss: seq<State>, steps: seq<Step>, i: nat, id: nat)
    requires Run(ss, steps) && i < |ss| && ExchangesCovered(ss, steps, i) && id < ss[i].d.issued
    ensures Timely(ss[i].d, id) && (ss[i].d.fate[id].Waiting? || FreedInFull(ss[i].d.fate[id]))
  {
    LosslessRun(ss, steps, i);
    DeferralTiming(ss, steps, i, id);
  }
}
