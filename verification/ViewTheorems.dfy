/**
 How much of the region the poller has to map. It opens the region anew for each poll, so its mapping is at least as
 long as the region was at the bump before; and that is enough for the deferred free to lose nothing.
 */
module ViewTheorems {
  import O = LensSystem
  import OT = LensTheorems
  import D = Deferral
  import T = DrainTheorems
  import opened SizeClass
  import opened Composition

  // ---- blocks deferred in an earlier epoch lie below a mark ----

  /** The node `n` and the lens it carries end below the mark. */
  ghost predicate Below(d: D.State, mark: nat, n: Off) {
    n in d.nodes && D.Fits(mark, n, D.DEFER_LEN) && D.Fits(mark, d.nodes[n].off, d.nodes[n].len)
  }

  /** The thread has loaded an epoch that is over. */
  predicate Late(d: D.State, t: Tid) {
    var p := D.PcOf(d, t);
    (p.Epoched? || p.Loaded? || p.Linked?) && p.e < d.epoch
  }

  ghost predicate QueuedBelow(d: D.State, mark: nat) {
    forall n {:trigger Below(d, mark, n)} ::
      n in d.place && d.place[n].Queue? && n in d.ticket && d.ticket[n].read < d.epoch ==> Below(d, mark, n)
  }

  ghost predicate ThreadsBelow(d: D.State, mark: nat) {
    forall t {:trigger Late(d, t)} :: Late(d, t) ==> Below(d, mark, D.PcOf(d, t).node)
  }

  /** What was deferred in an epoch that is over lies below the mark. */
  ghost predicate OldBelow(d: D.State, mark: nat) {
    QueuedBelow(d, mark) && ThreadsBelow(d, mark)
  }

  lemma OldIsCovered(d: D.State, mark: nat, view: nat)
    requires D.Inv(d) && OldBelow(d, mark) && mark <= view
    ensures T.Covers(d, view)
  {
    forall n | T.InBatch(d, n) && n in d.nodes
      ensures D.Fits(view, n, D.DEFER_LEN) && D.Fits(view, d.nodes[n].off, d.nodes[n].len)
    {
      assert D.QueuedOk(d, (d.epoch + 1) % 2, n);
      assert Below(d, mark, n);
    }
  }

  // ---- every step of the deferral machine but the bump keeps them there ----

  lemma ThreadsFrame(d: D.State, mark: nat, d': D.State, t: Tid)
    requires ThreadsBelow(d, mark) && D.Inv(d) && d'.epoch == d.epoch
    requires (Late(d', t) ==> Below(d', mark, D.PcOf(d', t).node))
    requires forall u :: u != t ==> D.PcOf(d', u) == D.PcOf(d, u)
    requires forall n :: n in d.nodes && n in d.place && d.place[n].Held? ==>
      n in d'.nodes && d'.nodes[n].off == d.nodes[n].off && d'.nodes[n].len == d.nodes[n].len
    ensures ThreadsBelow(d', mark)
  {
    forall u | Late(d', u) ensures Below(d', mark, D.PcOf(d', u).node) {
      if u != t {
        assert Late(d, u) && D.ThreadOk(d, u);
      }
    }
  }

  lemma QueuedFrame(d: D.State, mark: nat, d': D.State)
    requires QueuedBelow(d, mark) && d'.epoch == d.epoch
    requires forall n :: n in d'.place && d'.place[n].Queue? && n in d'.ticket ==>
      && n in d.place && d.place[n].Queue? && n in d.ticket && d.ticket[n] == d'.ticket[n]
      && (n in d.nodes ==> n in d'.nodes && d'.nodes[n].off == d.nodes[n].off && d'.nodes[n].len == d.nodes[n].len)
    ensures QueuedBelow(d', mark)
  {
    forall n | n in d'.place && d'.place[n].Queue? && n in d'.ticket && d'.ticket[n].read < d'.epoch
      ensures Below(d', mark, n)
    {
      assert Below(d, mark, n);
    }
  }

  lemma AllocNodeBelow(d: D.State, mark: nat, t: Tid, node: Off)
    requires D.Inv(d) && OldBelow(d, mark) && D.PcOf(d, t).Removed? && node !in d.nodes
    ensures OldBelow(D.AllocNode(d, t, node), mark)
  {
    var d' := D.AllocNode(d, t, node);
    QueuedFrame(d, mark, d');
    ThreadsFrame(d, mark, d', t);
  }

  lemma LinkNodeBelow(d: D.State, mark: nat, t: Tid)
    requires D.Inv(d) && OldBelow(d, mark) && D.PcOf(d, t).Loaded? && D.LinkNode(d, t).Ok?
    ensures OldBelow(D.LinkNode(d, t).state, mark)
  {
    var d' := D.LinkNode(d, t).state;
    assert D.ThreadOk(d, t);
    assert Late(d', t) ==> Late(d, t);
    QueuedFrame(d, mark, d');
    ThreadsFrame(d, mark, d', t);
  }

  lemma CasDefersBelow(d: D.State, mark: nat, t: Tid, spurious: bool)
    requires D.Inv(d) && OldBelow(d, mark) && D.PcOf(d, t).Linked?
    ensures OldBelow(D.CasDefers(d, t, spurious), mark)
  {
    var d', p := D.CasDefers(d, t, spurious), D.PcOf(d, t);
    assert D.ThreadOk(d, t);
    assert p.e < d.epoch ==> Late(d, t) && Below(d, mark, p.node);
    assert Late(d', t) ==> Late(d, t);
    forall n | n in d'.place && d'.place[n].Queue? && n in d'.ticket && d'.ticket[n].read < d'.epoch
      ensures Below(d', mark, n)
    {
      assert n == p.node || Below(d, mark, n);
    }
    ThreadsFrame(d, mark, d', t);
  }

  lemma LoadEpochBelow(d: D.State, mark: nat, t: Tid)
    requires D.Inv(d) && OldBelow(d, mark) && D.PcOf(d, t).Noded?
    ensures OldBelow(D.LoadEpoch(d, t), mark)
  {
    var d' := D.LoadEpoch(d, t);
    QueuedFrame(d, mark, d');
    ThreadsFrame(d, mark, d', t);
  }

  lemma LoadDefersBelow(d: D.State, mark: nat, t: Tid)
    requires D.Inv(d) && OldBelow(d, mark) && D.PcOf(d, t).Epoched?
    ensures OldBelow(D.LoadDefers(d, t), mark)
  {
    var d' := D.LoadDefers(d, t);
    assert D.ThreadOk(d, t);
    assert Late(d', t) ==> Late(d, t);
    QueuedFrame(d, mark, d');
    ThreadsFrame(d, mark, d', t);
  }

  /** A thread enters or leaves the machine. */
  lemma EdgeBelow(d: D.State, mark: nat, d': D.State, t: Tid)
    requires D.Inv(d) && OldBelow(d, mark)
    requires d' == d.(pc := d'.pc, carried := d'.carried, lensLen := d'.lensLen)
    requires !Late(d', t) && forall u :: u != t ==> D.PcOf(d', u) == D.PcOf(d, u)
    ensures OldBelow(d', mark)
  {
    QueuedFrame(d, mark, d');
    ThreadsFrame(d, mark, d', t);
  }

  /** The poller takes nodes over, and gives back or loses none that a thread holds. */
  lemma PollerBelow(d: D.State, mark: nat, d': D.State)
    requires D.Inv(d) && OldBelow(d, mark) && d'.pc == d.pc && d'.epoch == d.epoch
    requires forall n :: n in d.place && d.place[n].Held? && n in d.nodes ==> n in d'.nodes && d'.nodes[n] == d.nodes[n]
    requires forall n :: n in d'.place && d'.place[n].Queue? && n in d'.ticket ==>
      && n in d.place && d.place[n].Queue? && n in d.ticket && d.ticket[n] == d'.ticket[n]
      && (n in d.nodes ==> n in d'.nodes && d'.nodes[n] == d.nodes[n])
    ensures OldBelow(d', mark)
  {
    QueuedFrame(d, mark, d');
    forall t | Late(d', t) ensures Below(d', mark, D.PcOf(d', t).node) {
      assert Late(d, t) && D.ThreadOk(d, t);
    }
  }

  lemma FreeLensBelow(d: D.State, mark: nat)
    requires D.Inv(d) && OldBelow(d, mark) && d.poller.Drain? && D.FreeLens(d).Ok?
    ensures OldBelow(D.FreeLens(d).state, mark)
  {
    PollerBelow(d, mark, D.FreeLens(d).state);
  }

  lemma FreeNodeBelow(d: D.State, mark: nat)
    requires D.Inv(d) && OldBelow(d, mark) && d.poller.DrainNode? && D.FreeNode(d).Ok?
    ensures OldBelow(D.FreeNode(d).state, mark)
  {
    assert D.QueuedOk(d, 2, d.poller.node);
    PollerBelow(d, mark, D.FreeNode(d).state);
  }

  lemma ExchangeBelow(d: D.State, mark: nat, view: nat)
    requires D.Inv(d) && OldBelow(d, mark) && d.poller.Resting?
    ensures OldBelow(D.Exchange(d, view), mark)
  {
    PollerBelow(d, mark, D.Exchange(d, view));
  }

  lemma EpochSideBelow(s: O.State, mark: nat, step: O.Step, s': O.State)
    requires D.Inv(s.d) && OT.Takes(s, step, s') && OldBelow(s.d, mark) && T.OfClient(step) && !OT.OnListOnly(step)
    ensures OldBelow(s'.d, mark)
  {
    match step
    case AllocNode(t, node) => AllocNodeBelow(s.d, mark, t, node);
    case AllocNodeFails(t) => EdgeBelow(s.d, mark, s'.d, t);
    case KillHeadStore(t) => EdgeBelow(s.d, mark, s'.d, t);
    case LoadEpoch(t) => LoadEpochBelow(s.d, mark, t);
    case LoadDefers(t) => LoadDefersBelow(s.d, mark, t);
    case LinkNode(t) => LinkNodeBelow(s.d, mark, t);
    case CasDefers(t, spurious) => CasDefersBelow(s.d, mark, t, spurious);
    case _ => OT.StepIsLocal(s, step, s');
  }

  lemma ClientBelow(s: O.State, mark: nat, step: O.Step, s': O.State)
    requires D.Inv(s.d) && OT.Takes(s, step, s') && OldBelow(s.d, mark) && T.OfClient(step)
    ensures OldBelow(s'.d, mark)
  {
    if OT.OnListOnly(step) {
      OT.StepIsLocal(s, step, s');
    } else {
      EpochSideBelow(s, mark, step, s');
    }
  }

  lemma BelowStep(s: O.State, mark: nat, step: O.Step, s': O.State)
    requires D.Inv(s.d) && OT.Takes(s, step, s') && OldBelow(s.d, mark) && !step.BumpEpoch?
    ensures OldBelow(s'.d, mark)
  {
    match step
    case Exchange(view) => ExchangeBelow(s.d, mark, view);
    case FreeLens => FreeLensBelow(s.d, mark);
    case FreeNode => FreeNodeBelow(s.d, mark);
    case _ => ClientBelow(s, mark, step, s');
  }

  // ---- at a bump everything deferred lies below the end of the region ----

  lemma HeldIsBelow(s: State, o: Off)
    requires Inv(s) && O.Outstanding(s.optics, o)
    ensures D.Fits(s.alloc.pos, o, LenOf(s.optics, o))
  {
    assert Backed(s, o);
    AllocClassIsLeast(LenOf(s.optics, o));
  }

  lemma NodeIsBelow(s: State, n: Off)
    requires Inv(s) && n in s.optics.d.nodes && s.optics.d.nodes[n].off in s.optics.d.carried
    requires s.optics.d.nodes[n].off in s.optics.d.lensLen
    requires s.optics.d.lensLen[s.optics.d.nodes[n].off] == s.optics.d.nodes[n].len
    ensures Below(s.optics.d, s.alloc.pos, n)
  {
    HeldIsBelow(s, n);
    HeldIsBelow(s, s.optics.d.nodes[n].off);
  }

  lemma BumpBelow(s: State)
    requires Inv(s) && s.optics.d.poller.Bump?
    ensures OldBelow(D.BumpEpoch(s.optics.d), s.alloc.pos)
  {
    var d := s.optics.d;
    var d' := D.BumpEpoch(d);
    forall n | n in d'.place && d'.place[n].Queue? ensures Below(d', s.alloc.pos, n) {
      assert D.Carries(d, n);
      NodeIsBelow(s, n);
    }
    forall t | Late(d', t) ensures Below(d', s.alloc.pos, D.PcOf(d', t).node) {
      assert D.ThreadOk(d, t);
      NodeIsBelow(s, D.PcOf(d, t).node);
    }
  }

  // ---- every run of the joint machine ----

  /** A joint step is a step of the optics layer, or leaves that layer alone. */
  lemma Projects(s: State, step: Step, s': State)
    requires Takes(s, step, s')
    ensures step.Alloc? ==> s'.optics == s.optics
    ensures !step.Alloc? ==> OT.Takes(s.optics, step.step, s'.optics)
  {
  }

  predicate Bumps(step: Step) {
    step == Optics(O.BumpEpoch)
  }

  /** The end of the region at the last bump of the epoch before state `i`. */
  function Mark(ss: seq<State>, steps: seq<Step>, i: nat): nat
    requires i < |ss| == |steps| + 1
  {
    if i == 0 then 0 else if Bumps(steps[i - 1]) then ss[i - 1].alloc.pos else Mark(ss, steps, i - 1)
  }

  /** Each exchange up to state `i` is made with a mapping that reaches as far as the region did at the bump before. */
  ghost predicate MapsTheLastBump(ss: seq<State>, steps: seq<Step>, i: nat)
    requires i < |ss| == |steps| + 1
  {
    forall k :: 0 <= k < i && steps[k].Optics? && steps[k].step.Exchange? ==> Mark(ss, steps, k) <= steps[k].step.view
  }

  ghost predicate SafeAt(ss: seq<State>, steps: seq<Step>, i: nat)
    requires i < |ss| == |steps| + 1
  {
    forall d {:trigger T.Lossless(d)} :: d == ss[i].optics.d ==> T.Lossless(d) && OldBelow(d, Mark(ss, steps, i))
  }

  lemma MarkStep(s: State, mark: nat, step: Step, s': State)
    requires Inv(s) && Takes(s, step, s') && OldBelow(s.optics.d, mark)
    ensures OldBelow(s'.optics.d, if Bumps(step) then s.alloc.pos else mark)
  {
    Projects(s, step, s');
    if Bumps(step) {
      BumpBelow(s);
    } else if !step.Alloc? {
      assert step.step.BumpEpoch? ==> Bumps(step);
      BelowStep(s.optics, mark, step.step, s'.optics);
    }
  }

  lemma LosslessStep(s: State, mark: nat, step: Step, s': State)
    requires Inv(s) && Takes(s, step, s') && OldBelow(s.optics.d, mark) && T.Lossless(s.optics.d)
    requires step.Optics? && step.step.Exchange? ==> mark <= step.step.view
    ensures T.Lossless(s'.optics.d)
  {
    Projects(s, step, s');
    if !step.Alloc? {
      if step.step.Exchange? { OldIsCovered(s.optics.d, mark, step.step.view); }
      T.LosslessStep(s.optics, step.step, s'.optics);
    }
  }

  lemma SafeHop(ss: seq<State>, steps: seq<Step>, i: nat)
    requires Run(ss, steps) && i + 1 < |ss| && SafeAt(ss, steps, i) && MapsTheLastBump(ss, steps, i + 1)
    ensures SafeAt(ss, steps, i + 1)
  {
    RunInv(ss, steps, i);
    assert StepAt(ss, steps, i) && T.Lossless(ss[i].optics.d);
    MarkStep(ss[i], Mark(ss, steps, i), steps[i], ss[i + 1]);
    LosslessStep(ss[i], Mark(ss, steps, i), steps[i], ss[i + 1]);
  }

  lemma InitSafe()
    ensures OldBelow(D.Init(), 0) && T.Lossless(D.Init())
  {
  }

  lemma SafeStart(ss: seq<State>, steps: seq<Step>)
    requires Run(ss, steps)
    ensures SafeAt(ss, steps, 0)
  {
    assert ss[0].optics.d == D.Init();
    InitSafe();
  }

  lemma {:induction false} SafeRun(ss: seq<State>, steps: seq<Step>, i: nat)
    requires Run(ss, steps) && i < |ss| && MapsTheLastBump(ss, steps, i)
    ensures SafeAt(ss, steps, i)
    decreases i
  {
    if i == 0 {
      SafeStart(ss, steps);
    } else {
      SafeRun(ss, steps, i - 1);
      SafeHop(ss, steps, i - 1);
    }
  }

  /** A poller whose mapping reaches as far as the region did at its last bump leaks nothing: in every run of both
      layers each deferral waits, or its lens and its node were freed by one of the first two increments after its
      push. */
  lemma FreshMappingLosesNothing(ss: seq<State>, steps: seq<Step>, i: nat, id: nat)
    requires Run(ss, steps) && i < |ss| && MapsTheLastBump(ss, steps, i) && id < ss[i].optics.d.issued
    ensures OT.Timely(ss[i].optics.d, id)
    ensures ss[i].optics.d.fate[id].Waiting? || T.FreedInFull(ss[i].optics.d.fate[id])
  {
    SafeRun(ss, steps, i);
    RunInv(ss, steps, i);
    assert Inv(ss[i]) && T.Lossless(ss[i].optics.d);
    OT.FateIsTimely(ss[i].optics.d, id);
  }
}
