/**
 What becomes of a lens that optics_lens_free took out of the list. In every state of every run it is on its way to the
 deferred free, in the hands of a thread or on a queued node, or it has been given up once and for all by a step that
 says so: an allocation that failed, a drain that stopped before its node, or one that could not reach its block.
 */
module RemovalTheorems {
  import L = LensList
  import D = Deferral
  import Region
  import opened LensSystem
  import opened LensTheorems
  import opened DrainTheorems

  // ---- lenses out of the list ----

  /** A lens block that is neither in the list nor in the hands of a thread that pushes or removes it. */
  ghost predicate Removed(l: L.State, o: Off) {
    && o in l.mem && o !in l.listed
    && forall t {:trigger L.PcOf(l, t)} :: L.PcOf(l, t).Idle? || L.PcOf(l, t).off != o
  }

  /** Whoever is noted as the holder of a block is at work on it. */
  ghost predicate HolderOk(l: L.State, o: Off) {
    o in l.owner && l.owner[o].Held? ==>
      !L.PcOf(l, l.owner[o].t).Idle? && L.PcOf(l, l.owner[o].t).off == o
  }

  ghost predicate HoldersOk(l: L.State) {
    forall o {:trigger HolderOk(l, o)} :: HolderOk(l, o)
  }

  predicate Unlinked(l: L.State, o: Off) {
    o in l.owner && l.owner[o] == L.Unlinked
  }

  lemma RemovedIsUnlinked(l: L.State, o: Off)
    requires L.Inv(l) && HoldersOk(l)
    ensures Removed(l, o) <==> Unlinked(l, o)
  {
    assert HolderOk(l, o);
    if Unlinked(l, o) {
      forall t ensures L.PcOf(l, t).Idle? || L.PcOf(l, t).off != o { assert L.ThreadOk(l, t); }
    }
  }

  // ---- lenses on their way to the deferred free ----

  ghost predicate ByThread(d: D.State, t: Tid, o: Off) {
    !D.PcOf(d, t).Idle? && D.PcOf(d, t).off == o
  }

  ghost predicate ByNode(d: D.State, n: Off, o: Off) {
    && n in d.place && d.place[n].Queue? && n in d.nodes && d.nodes[n].off == o
    && !(d.poller.DrainNode? && d.poller.node == n)
  }

  ghost predicate Pending(d: D.State, o: Off) {
    (exists t :: ByThread(d, t, o)) || (exists n :: ByNode(d, n, o))
  }

  /** What is pending is carried, and by that thread or node alone. */
  lemma PendingIsCarried(d: D.State, o: Off)
    requires D.Inv(d)
    ensures forall t :: ByThread(d, t, o) ==> o in d.carried && d.carried[o] == D.Thread(t)
    ensures forall n :: ByNode(d, n, o) ==> o in d.carried && d.carried[o] == D.OnNode(n)
    ensures Pending(d, o) ==> o in d.carried
  {
    forall t | ByThread(d, t, o) ensures o in d.carried && d.carried[o] == D.Thread(t) { assert D.ThreadOk(d, t); }
    forall n | ByNode(d, n, o) ensures o in d.carried && d.carried[o] == D.OnNode(n) { assert D.Carries(d, n); }
  }

  lemma PendingIsUnlinked(s: State, o: Off)
    requires Inv(s) && Pending(s.d, o)
    ensures Unlinked(s.l, o)
  {
    PendingIsCarried(s.d, o);
  }

  /** A step after which the same threads and nodes have the same lenses. */
  lemma SamePending(d: D.State, d': D.State, o: Off)
    requires forall t :: ByThread(d', t, o) <==> ByThread(d, t, o)
    requires forall n :: ByNode(d', n, o) <==> ByNode(d, n, o)
    ensures Pending(d', o) <==> Pending(d, o)
  {
    if Pending(d, o) {
      if t :| ByThread(d, t, o) {
        assert ByThread(d', t, o);
      } else {
        var n :| ByNode(d, n, o);
        assert ByNode(d', n, o);
      }
    }
    if Pending(d', o) {
      if t :| ByThread(d', t, o) {
        assert ByThread(d, t, o);
      } else {
        var n :| ByNode(d', n, o);
        assert ByNode(d, n, o);
      }
    }
  }

  // ---- what each step does to them ----

  /** The lenses that a step gives up: nobody will free them any more. */
  ghost function GivesUp(s: State, step: Step): set<Off> {
    match step
    case AllocNodeFails(t) => if D.PcOf(s.d, t).Removed? then {D.PcOf(s.d, t).off} else {}
    case FreeLens =>
      if !s.d.poller.Drain? || s.d.poller.node == 0 then {}
      else if !Region.InView(s.d.view, s.d.poller.node, D.DEFER_LEN) then
        set n | n in s.d.place && n in s.d.nodes && s.d.place[n] == D.Queue(2) :: s.d.nodes[n].off
      else if s.d.poller.node in s.d.nodes && !D.Releases(s.d) then {s.d.nodes[s.d.poller.node].off}
      else {}
    case _ => {}
  }

  /** The lens that a step adds to those on their way, and the one it frees. */
  function Joins(s: State, step: Step): set<Off> {
    if step.KillHeadStore? && L.PcOf(s.l, step.t).KillHead? then {L.PcOf(s.l, step.t).off} else {}
  }

  function Leaves(s: State, step: Step): set<Off> {
    if step.FreeLens? && D.Releases(s.d) then {s.d.nodes[s.d.poller.node].off} else {}
  }

  lemma NodeStepPending(d: D.State, t: Tid, node: Off, o: Off)
    requires D.Inv(d) && D.PcOf(d, t).Removed? && node !in d.nodes
    ensures Pending(D.AllocNode(d, t, node), o) <==> Pending(d, o)
  {
    SamePending(d, D.AllocNode(d, t, node), o);
  }

  lemma LinkPending(d: D.State, t: Tid, o: Off)
    requires D.Inv(d) && D.PcOf(d, t).Loaded? && D.LinkNode(d, t).Ok?
    ensures Pending(D.LinkNode(d, t).state, o) <==> Pending(d, o)
  {
    assert D.ThreadOk(d, t);
    SamePending(d, D.LinkNode(d, t).state, o);
  }

  lemma RetryPending(d: D.State, d': D.State, t: Tid, o: Off)
    requires d'.place == d.place && d'.nodes == d.nodes && d'.poller == d.poller
    requires forall u :: u != t ==> D.PcOf(d', u) == D.PcOf(d, u)
    requires !D.PcOf(d, t).Idle? && !D.PcOf(d', t).Idle? && D.PcOf(d', t).off == D.PcOf(d, t).off
    ensures Pending(d', o) <==> Pending(d, o)
  {
    SamePending(d, d', o);
  }

  /** The push moves the lens from the thread to the node. */
  lemma PushPending(d: D.State, t: Tid, o: Off)
    requires D.Inv(d) && D.PcOf(d, t).Linked? && d.defers[D.PcOf(d, t).e % 2] == D.PcOf(d, t).top
    ensures Pending(D.CasDefers(d, t, false), o) <==> Pending(d, o)
  {
    var d', p := D.CasDefers(d, t, false), D.PcOf(d, t);
    assert D.ThreadOk(d, t);
    if o == p.off {
      assert ByThread(d, t, o);
      assert ByNode(d', p.node, o) by {
        if d.poller.DrainNode? { assert D.Queued(d.place, d.poller.node, 2); }
      }
    } else {
      SamePending(d, d', o);
    }
  }

  lemma CasPending(d: D.State, t: Tid, spurious: bool, o: Off)
    requires D.Inv(d) && D.PcOf(d, t).Linked?
    ensures Pending(D.CasDefers(d, t, spurious), o) <==> Pending(d, o)
  {
    if spurious || d.defers[D.PcOf(d, t).e % 2] != D.PcOf(d, t).top {
      RetryPending(d, D.CasDefers(d, t, spurious), t, o);
    } else {
      PushPending(d, t, o);
    }
  }

  lemma BeginPending(d: D.State, t: Tid, off: Off, len: nat, o: Off)
    requires D.Inv(d) && D.PcOf(d, t).Idle?
    ensures Pending(D.Begin(d, t, off, len), o) <==> Pending(d, o) || o == off
  {
    var d' := D.Begin(d, t, off, len);
    if o == off { assert ByThread(d', t, o); } else { SamePending(d, d', o); }
  }

  lemma FailPending(d: D.State, t: Tid, o: Off)
    requires D.Inv(d) && D.PcOf(d, t).Removed?
    ensures Pending(D.AllocNodeFails(d, t), o) <==> Pending(d, o) && o != D.PcOf(d, t).off
  {
    var d', off := D.AllocNodeFails(d, t), D.PcOf(d, t).off;
    if o == off {
      assert ByThread(d, t, o);
      PendingIsCarried(d, o);
      forall u ensures !ByThread(d', u, o) { assert ByThread(d', u, o) ==> ByThread(d, u, o); }
      forall n ensures !ByNode(d', n, o) { assert ByNode(d', n, o) ==> ByNode(d, n, o); }
    } else {
      SamePending(d, d', o);
    }
  }

  lemma ExchangePending(d: D.State, view: nat, o: Off)
    requires D.Inv(d) && d.poller.Resting?
    ensures Pending(D.Exchange(d, view), o) <==> Pending(d, o)
  {
    SamePending(d, D.Exchange(d, view), o);
  }

  lemma FreeNodePending(d: D.State, o: Off)
    requires D.Inv(d) && d.poller.DrainNode? && D.FreeNode(d).Ok?
    ensures Pending(D.FreeNode(d).state, o) <==> Pending(d, o)
  {
    var d' := D.FreeNode(d).state;
    forall n ensures ByNode(d', n, o) <==> ByNode(d, n, o) {}
    forall t ensures ByThread(d', t, o) <==> ByThread(d, t, o) {}
    SamePending(d, d', o);
  }

  lemma BumpPending(d: D.State, o: Off)
    requires d.poller.Bump?
    ensures Pending(D.BumpEpoch(d), o) <==> Pending(d, o)
  {
    var d' := D.BumpEpoch(d);
    forall t ensures ByThread(d', t, o) <==> ByThread(d, t, o) {}
    SamePending(d, d', o);
  }

  /** A drain that stops gives up all that is left of its batch. */
  lemma AbandonPending(d: D.State, o: Off)
    requires D.Inv(d) && d.poller.Drain?
    ensures Pending(D.Abandon(d), o) <==>
      Pending(d, o) && !(exists n :: ByNode(d, n, o) && d.place[n] == D.Queue(2))
  {
    var d' := D.Abandon(d);
    PendingIsCarried(d, o);
    forall t ensures ByThread(d', t, o) <==> ByThread(d, t, o) {}
    forall n ensures ByNode(d', n, o) <==> ByNode(d, n, o) && d.place[n] != D.Queue(2) {}
    if n :| ByNode(d, n, o) && d.place[n] == D.Queue(2) {
      assert !Pending(d', o);
    } else {
      SamePending(d, d', o);
    }
  }

  /** A node whose lens is freed or leaked carries it no more. */
  lemma TakePending(d: D.State, o: Off)
    requires D.Inv(d) && d.poller.Drain? && d.poller.node != 0 && Region.InView(d.view, d.poller.node, D.DEFER_LEN)
    requires D.FreeLens(d).Ok?
    ensures D.Queued(d.place, d.poller.node, 2) && d.poller.node in d.nodes
    ensures ByNode(d, d.poller.node, d.nodes[d.poller.node].off)
    ensures Pending(D.FreeLens(d).state, o) <==> Pending(d, o) && o != d.nodes[d.poller.node].off
  {
    var d', node := D.FreeLens(d).state, d.poller.node;
    assert D.Queued(d.place, node, 2) && D.QueuedOk(d, 2, node);
    var off := d.nodes[node].off;
    assert ByNode(d, node, off);
    PendingIsCarried(d, o);
    forall t ensures ByThread(d', t, o) <==> ByThread(d, t, o) {}
    forall n ensures ByNode(d', n, o) <==> ByNode(d, n, o) && n != node {}
    if o != off { SamePending(d, d', o); }
  }

  predicate OfDeferral(step: Step) {
    step.AllocNode? || step.LoadEpoch? || step.LoadDefers? || step.LinkNode? || step.CasDefers?
  }

  lemma DeferralStepPending(s: State, step: Step, s': State, o: Off)
    requires Inv(s) && Takes(s, step, s') && OfDeferral(step)
    ensures Pending(s'.d, o) <==> Pending(s.d, o)
  {
    if step.LoadEpoch? || step.LoadDefers? {
      LoadPending(s, step, s', o);
    } else {
      match step
      case AllocNode(t, node) => NodeStepPending(s.d, t, node, o);
      case LinkNode(t) => LinkPending(s.d, t, o);
      case CasDefers(t, spurious) => CasPending(s.d, t, spurious, o);
    }
  }

  lemma LoadPending(s: State, step: Step, s': State, o: Off)
    requires Takes(s, step, s') && (step.LoadEpoch? || step.LoadDefers?)
    ensures Pending(s'.d, o) <==> Pending(s.d, o)
  {
    RetryPending(s.d, s'.d, step.t, o);
  }

  lemma FreeLensPending(s: State, s': State, o: Off)
    requires Inv(s) && Takes(s, FreeLens, s')
    ensures Pending(s'.d, o) <==> Pending(s.d, o) && o !in GivesUp(s, FreeLens) && o !in Leaves(s, FreeLens)
    ensures o in GivesUp(s, FreeLens) || o in Leaves(s, FreeLens) ==> Pending(s.d, o)
  {
    var d, node := s.d, s.d.poller.node;
    if node == 0 {
      forall t ensures ByThread(s'.d, t, o) <==> ByThread(d, t, o) {}
      SamePending(d, s'.d, o);
    } else if !Region.InView(d.view, node, D.DEFER_LEN) {
      AbandonPending(d, o);
      if o in GivesUp(s, FreeLens) {
        var n :| n in d.place && n in d.nodes && d.place[n] == D.Queue(2) && d.nodes[n].off == o;
        assert ByNode(d, n, o);
      }
    } else {
      TakePending(d, o);
    }
  }

  /** What is on its way after a step: what was before or has just been unlinked, less what was freed or given up. */
  lemma PendingStep(s: State, step: Step, s': State, o: Off)
    requires Inv(s) && Takes(s, step, s')
    ensures Pending(s'.d, o) <==>
      (Pending(s.d, o) || o in Joins(s, step)) && o !in GivesUp(s, step) && o !in Leaves(s, step)
    ensures o in GivesUp(s, step) || o in Leaves(s, step) ==> Pending(s.d, o)
  {
    if OfDeferral(step) {
      DeferralStepPending(s, step, s', o);
    } else if step.FreeLens? {
      FreeLensPending(s, s', o);
    } else if OnListOnly(step) {
      StepIsLocal(s, step, s');
    } else {
      EdgeStepPending(s, step, s', o);
    }
  }

  lemma EdgeStepPending(s: State, step: Step, s': State, o: Off)
    requires Inv(s) && Takes(s, step, s') && !OfDeferral(step) && !step.FreeLens? && !OnListOnly(step)
    ensures Pending(s'.d, o) <==> (Pending(s.d, o) || o in Joins(s, step)) && o !in GivesUp(s, step)
    ensures o in GivesUp(s, step) ==> Pending(s.d, o)
  {
    match step
    case KillHeadStore(t) => BeginPending(s.d, t, L.PcOf(s.l, t).off, s.l.mem[L.PcOf(s.l, t).off].len, o);
    case AllocNodeFails(t) =>
      FailPending(s.d, t, o);
      assert ByThread(s.d, t, D.PcOf(s.d, t).off);
    case Exchange(view) => ExchangePending(s.d, view, o);
    case FreeNode => FreeNodePending(s.d, o);
    case BumpEpoch => BumpPending(s.d, o);
  }

  // ---- who holds a block of the list ----

  /** No owner changes, and a thread at work stays at work on its block. */
  lemma SameOwners(l: L.State, l': L.State, t: Tid, o: Off)
    requires HolderOk(l, o) && l'.owner == l.owner && forall u :: u != t ==> L.PcOf(l', u) == L.PcOf(l, u)
    requires !L.PcOf(l, t).Idle? ==> !L.PcOf(l', t).Idle? && L.PcOf(l', t).off == L.PcOf(l, t).off
    ensures HolderOk(l', o) && (Unlinked(l', o) <==> Unlinked(l, o))
  {
  }

  /** The owner of the block of thread `t` changes. */
  lemma OneOwner(l: L.State, l': L.State, t: Tid, o: Off)
    requires HolderOk(l, o) && forall u :: u != t ==> L.PcOf(l', u) == L.PcOf(l, u)
    requires !L.PcOf(l, t).Idle? && !Unlinked(l, L.PcOf(l, t).off)
    requires var off := L.PcOf(l, t).off;
      && l'.owner == (if off in l'.owner then l.owner[off := l'.owner[off]] else l.owner - {off})
      && (off in l'.owner ==>
            || l'.owner[off] == L.InList
            || (l'.owner[off] == L.Held(t) && L.PcOf(l', t).KillHead? && L.PcOf(l', t).off == off))
    ensures HolderOk(l', o) && (Unlinked(l', o) <==> Unlinked(l, o))
  {
  }

  lemma CreateHolder(l: L.State, t: Tid, off: Off, name: L.Name, len: nat, o: Off)
    requires L.PcOf(l, t).Idle? && off !in l.owner && HolderOk(l, o)
    ensures var l' := L.Create(l, t, off, name, len); HolderOk(l', o) && (Unlinked(l', o) <==> Unlinked(l, o))
  {
  }

  predicate KeepsOwners(step: Step) {
    || step.Register? || step.StoreNext? || step.StorePrev? || step.Unregister? || step.KillNextPrev?
  }

  lemma EditHolder(s: State, step: Step, s': State, o: Off)
    requires Takes(s, step, s') && KeepsOwners(step) && HolderOk(s.l, o)
    ensures HolderOk(s'.l, o) && (Unlinked(s'.l, o) <==> Unlinked(s.l, o))
  {
    SameOwners(s.l, s'.l, step.t, o);
  }

  lemma OwnHolder(s: State, step: Step, s': State, o: Off)
    requires Inv(s) && Takes(s, step, s') && (step.DropFresh? || step.StoreHead? || step.KillPrevNext?)
    requires HolderOk(s.l, o)
    ensures HolderOk(s'.l, o) && (Unlinked(s'.l, o) <==> Unlinked(s.l, o))
  {
    assert L.ThreadOk(s.l, step.t);
    OneOwner(s.l, s'.l, step.t, o);
  }

  lemma ListStepHolder(s: State, step: Step, s': State, o: Off)
    requires Inv(s) && Takes(s, step, s') && OnListOnly(step) && HolderOk(s.l, o)
    ensures HolderOk(s'.l, o) && (Unlinked(s'.l, o) <==> Unlinked(s.l, o))
  {
    if step.Create? {
      CreateHolder(s.l, step.t, step.off, step.name, step.len, o);
    } else if KeepsOwners(step) {
      EditHolder(s, step, s', o);
    } else if step.DropFresh? || step.StoreHead? || step.KillPrevNext? {
      OwnHolder(s, step, s', o);
    } else {
      CursorHolder(s, step, s', o);
    }
  }

  lemma CursorHolder(s: State, step: Step, s': State, o: Off)
    requires Takes(s, step, s') && (step.ReadHead? || step.Look? || step.Advance? || step.Finish?) && HolderOk(s.l, o)
    ensures HolderOk(s'.l, o) && (Unlinked(s'.l, o) <==> Unlinked(s.l, o))
  {
    SameOwners(s.l, s'.l, 0, o);
  }

  lemma JoinHolder(s: State, t: Tid, s': State, o: Off)
    requires Inv(s) && Takes(s, KillHeadStore(t), s') && HolderOk(s.l, o)
    ensures HolderOk(s'.l, o) && (Unlinked(s'.l, o) <==> Unlinked(s.l, o) || o in Joins(s, KillHeadStore(t)))
    ensures o in Joins(s, KillHeadStore(t)) ==> !Unlinked(s.l, o)
  {
    assert L.ThreadOk(s.l, t);
    UnlinkOwner(s.l, t, o);
  }

  lemma UnlinkOwner(l: L.State, t: Tid, o: Off)
    requires L.PcOf(l, t).KillHead? && L.PcOf(l, t).off in l.owner && HolderOk(l, o)
    requires l.owner[L.PcOf(l, t).off].Held? ==> l.owner[L.PcOf(l, t).off].t == t
    ensures var l' := L.KillHeadStore(l, t);
      HolderOk(l', o) && (Unlinked(l', o) <==> Unlinked(l, o) || o == L.PcOf(l, t).off)
  {
  }

  lemma HolderStep(s: State, step: Step, s': State, o: Off)
    requires Inv(s) && Takes(s, step, s') && HolderOk(s.l, o)
    ensures HolderOk(s'.l, o)
    ensures Unlinked(s'.l, o) <==> (Unlinked(s.l, o) || o in Joins(s, step)) && o !in Leaves(s, step)
    ensures o in Joins(s, step) ==> !Unlinked(s.l, o)
  {
    if step.KillHeadStore? {
      JoinHolder(s, step.t, s', o);
    } else if step.FreeLens? {
      FreeLensHolder(s, s', o);
    } else if OnListOnly(step) {
      ListStepHolder(s, step, s', o);
    } else {
      StepIsLocal(s, step, s');
    }
  }

  lemma FreeLensHolder(s: State, s': State, o: Off)
    requires Inv(s) && Takes(s, FreeLens, s') && HolderOk(s.l, o)
    ensures HolderOk(s'.l, o) && (Unlinked(s'.l, o) <==> Unlinked(s.l, o) && o !in Leaves(s, FreeLens))
  {
    if D.Releases(s.d) { ReleaseIsLegal(s); }
  }

  // ---- every run ----

  /** Every lens out of the list is on its way or given up, and none is both. */
  ghost predicate Accounts(s: State, gone: set<Off>, o: Off) {
    && (Unlinked(s.l, o) <==> Pending(s.d, o) || o in gone)
    && !(Pending(s.d, o) && o in gone)
  }

  ghost predicate Accounted(s: State, gone: set<Off>) {
    forall o {:trigger Accounts(s, gone, o)} :: Accounts(s, gone, o)
  }

  lemma AccountStep(s: State, step: Step, s': State, gone: set<Off>, o: Off)
    requires Inv(s) && Takes(s, step, s') && HolderOk(s.l, o) && Accounts(s, gone, o)
    ensures Accounts(s', gone + GivesUp(s, step), o) && !(o in gone && o in GivesUp(s, step))
  {
    PendingStep(s, step, s', o);
    HolderStep(s, step, s', o);
  }

  lemma AccountAll(s: State, step: Step, s': State, gone: set<Off>)
    requires Inv(s) && Takes(s, step, s') && HoldersOk(s.l) && Accounted(s, gone)
    ensures HoldersOk(s'.l) && Accounted(s', gone + GivesUp(s, step))
  {
    var gone' := gone + GivesUp(s, step);
    forall o ensures HolderOk(s'.l, o) && Accounts(s', gone', o) {
      assert HolderOk(s.l, o) && Accounts(s, gone, o);
      HolderStep(s, step, s', o);
      AccountStep(s, step, s', gone, o);
    }
  }

  /** The lenses given up in the first `i` steps of a run. */
  ghost function GivenUp(ss: seq<State>, steps: seq<Step>, i: nat): set<Off>
    requires i < |ss| == |steps| + 1
  {
    if i == 0 then {} else GivenUp(ss, steps, i - 1) + GivesUp(ss[i - 1], steps[i - 1])
  }

  lemma AccountHop(ss: seq<State>, steps: seq<Step>, i: nat)
    requires Run(ss, steps) && i < |steps| && HoldersOk(ss[i].l) && Accounted(ss[i], GivenUp(ss, steps, i))
    ensures HoldersOk(ss[i + 1].l) && Accounted(ss[i + 1], GivenUp(ss, steps, i + 1))
  {
    RunInv(ss, steps, i);
    assert StepAt(ss, steps, i);
    AccountAll(ss[i], steps[i], ss[i + 1], GivenUp(ss, steps, i));
  }

  lemma {:induction false} RunAccounts(ss: seq<State>, steps: seq<Step>, i: nat)
    requires Run(ss, steps) && i < |ss|
    ensures HoldersOk(ss[i].l) && Accounted(ss[i], GivenUp(ss, steps, i))
    decreases i
  {
    if i > 0 {
      RunAccounts(ss, steps, i - 1);
      AccountHop(ss, steps, i - 1);
    } else {
      forall o ensures HolderOk(ss[0].l, o) {}
      forall o ensures Accounts(ss[0], {}, o) {}
    }
  }

  /** In every state of every run a lens that is out of the list, and in the hands of no thread that works on the list,
      is carried to its deferred free by a thread or a queued node, or was given up, and never both. */
  lemma RemovedLensIsAccountedFor(ss: seq<State>, steps: seq<Step>, i: nat, o: Off)
    requires Run(ss, steps) && i < |ss|
    ensures Removed(ss[i].l, o) <==> Pending(ss[i].d, o) || o in GivenUp(ss, steps, i)
    ensures !(Pending(ss[i].d, o) && o in GivenUp(ss, steps, i))
  {
    RunInv(ss, steps, i);
    RunAccounts(ss, steps, i);
    RemovedIsUnlinked(ss[i].l, o);
    assert Accounts(ss[i], GivenUp(ss, steps, i), o);
  }

  /** No lens is given up twice, and what is given up was on its way. */
  lemma GivenUpOnce(ss: seq<State>, steps: seq<Step>, i: nat)
    requires Run(ss, steps) && i < |steps|
    ensures GivesUp(ss[i], steps[i]) !! GivenUp(ss, steps, i)
    ensures forall o :: o in GivesUp(ss[i], steps[i]) ==> Pending(ss[i].d, o) && Removed(ss[i].l, o)
  {
    RunInv(ss, steps, i);
    RunAccounts(ss, steps, i);
    assert StepAt(ss, steps, i);
    forall o | o in GivesUp(ss[i], steps[i])
      ensures o !in GivenUp(ss, steps, i) && Pending(ss[i].d, o) && Removed(ss[i].l, o)
    {
      assert Accounts(ss[i], GivenUp(ss, steps, i), o);
      PendingStep(ss[i], steps[i], ss[i + 1], o);
      RemovedIsUnlinked(ss[i].l, o);
    }
  }

  // ---- runs in which nothing is given up ----

  lemma CoveredGivesNothingUp(s: State, step: Step, s': State)
    requires Inv(s) && Takes(s, step, s') && Lossless(s.d) && !step.AllocNodeFails?
    ensures GivesUp(s, step) == {}
  {
    if step.FreeLens? && s.d.poller.node != 0 {
      var node := s.d.poller.node;
      assert D.Queued(s.d.place, node, 2) && D.QueuedOk(s.d, 2, node);
    }
  }

  lemma CoveredHop(ss: seq<State>, steps: seq<Step>, i: nat)
    requires Run(ss, steps) && i < |steps| && ExchangesCovered(ss, steps, i) && !steps[i].AllocNodeFails?
    ensures GivesUp(ss[i], steps[i]) == {}
  {
    RunInv(ss, steps, i);
    LosslessRun(ss, steps, i);
    assert StepAt(ss, steps, i);
    CoveredGivesNothingUp(ss[i], steps[i], ss[i + 1]);
  }

  /** If no allocation of a defer node fails and each exchange covers the list it takes, no lens is ever given up: each
      lens out of the list is on its way. */
  lemma {:induction false} NothingIsGivenUp(ss: seq<State>, steps: seq<Step>, i: nat)
    requires Run(ss, steps) && i < |ss| && ExchangesCovered(ss, steps, i)
    requires forall k :: 0 <= k < i ==> !steps[k].AllocNodeFails?
    ensures GivenUp(ss, steps, i) == {}
    ensures forall o :: Removed(ss[i].l, o) <==> Pending(ss[i].d, o)
    decreases i
  {
    if i > 0 {
      NothingIsGivenUp(ss, steps, i - 1);
      CoveredHop(ss, steps, i - 1);
    }
    forall o ensures Removed(ss[i].l, o) <==> Pending(ss[i].d, o) { RemovedLensIsAccountedFor(ss, steps, i, o); }
  }

  // ---- a removed lens is freed in time ----

  /** How many increments have taken their list in the steps from `i` up to `j`. */
  function Exchanges(steps: seq<Step>, i: nat, j: nat): nat
    requires i <= j <= |steps|
  {
    if i == j then 0 else Exchanges(steps, i, j - 1) + if steps[j - 1].Exchange? then 1 else 0
  }

  lemma ExchangeCounts(s: State, step: Step, s': State)
    requires Takes(s, step, s')
    ensures s'.d.exchanges == s.d.exchanges + if step.Exchange? then 1 else 0
  {
    if OnListOnly(step) {
      StepIsLocal(s, step, s');
    } else if OfDeferral(step) || step.AllocNodeFails? || step.KillHeadStore? {
      ClientExchangesNothing(s, step, s');
    }
  }

  lemma ClientExchangesNothing(s: State, step: Step, s': State)
    requires Takes(s, step, s') && (OfDeferral(step) || step.AllocNodeFails? || step.KillHeadStore?)
    ensures s'.d.exchanges == s.d.exchanges
  {
  }

  lemma {:induction false} ExchangesAreCounted(ss: seq<State>, steps: seq<Step>, i: nat, j: nat)
    requires Run(ss, steps) && i <= j < |ss|
    ensures ss[j].d.exchanges == ss[i].d.exchanges + Exchanges(steps, i, j)
    decreases j
  {
    if i < j {
      ExchangesAreCounted(ss, steps, i, j - 1);
      assert StepAt(ss, steps, j - 1);
      ExchangeCounts(ss[j - 1], steps[j - 1], ss[j]);
    }
  }

  /** The lens is on a queued node, pushed with this ticket. */
  ghost predicate OnNode(d: D.State, n: Off, o: Off, k: D.Ticket) {
    ByNode(d, n, o) && n in d.ticket && d.ticket[n] == k
  }

  lemma ClientLeavesNode(s: State, step: Step, s': State, n: Off, o: Off, k: D.Ticket)
    requires Inv(s) && Takes(s, step, s') && OnNode(s.d, n, o, k) && OfDeferral(step)
    ensures OnNode(s'.d, n, o, k)
  {
    if step.LinkNode? {
      LinkLeavesNode(s.d, step.t, n, o, k);
    } else if step.CasDefers? {
      CasLeavesNode(s.d, step.t, step.spurious, n, o, k);
    } else if step.AllocNode? {
      AllocLeavesNode(s.d, step.t, step.node, n, o, k);
    } else {
      QuietClient(s, step, s');
    }
  }

  lemma AllocLeavesNode(d: D.State, t: Tid, node: Off, n: Off, o: Off, k: D.Ticket)
    requires D.PcOf(d, t).Removed? && node !in d.nodes && OnNode(d, n, o, k)
    ensures OnNode(D.AllocNode(d, t, node), n, o, k)
  {
  }

  lemma LinkLeavesNode(d: D.State, t: Tid, n: Off, o: Off, k: D.Ticket)
    requires D.Inv(d) && D.PcOf(d, t).Loaded? && D.LinkNode(d, t).Ok? && OnNode(d, n, o, k)
    ensures OnNode(D.LinkNode(d, t).state, n, o, k)
  {
    assert D.ThreadOk(d, t);
  }

  lemma CasLeavesNode(d: D.State, t: Tid, spurious: bool, n: Off, o: Off, k: D.Ticket)
    requires D.Inv(d) && D.PcOf(d, t).Linked? && OnNode(d, n, o, k)
    ensures OnNode(D.CasDefers(d, t, spurious), n, o, k)
  {
    assert D.ThreadOk(d, t);
  }

  lemma PollerLeavesNode(s: State, step: Step, s': State, n: Off, o: Off, k: D.Ticket)
    requires Inv(s) && Takes(s, step, s') && OnNode(s.d, n, o, k) && !OfClient(step)
    requires o !in GivesUp(s, step) && o !in Leaves(s, step)
    ensures OnNode(s'.d, n, o, k)
  {
    match step
    case FreeNode => FreeNodeLeavesNode(s.d, n, o, k);
    case FreeLens => FreeLensLeavesNode(s, s', n, o, k);
    case _ =>
  }

  lemma FreeNodeLeavesNode(d: D.State, n: Off, o: Off, k: D.Ticket)
    requires D.Inv(d) && d.poller.DrainNode? && D.FreeNode(d).Ok? && OnNode(d, n, o, k)
    ensures OnNode(D.FreeNode(d).state, n, o, k)
  {
    assert D.QueuedOk(d, 2, d.poller.node);
    if D.FreeNode(d).state.poller.DrainNode? { assert false; }
  }

  lemma FreeLensLeavesNode(s: State, s': State, n: Off, o: Off, k: D.Ticket)
    requires Inv(s) && Takes(s, FreeLens, s') && OnNode(s.d, n, o, k)
    requires o !in GivesUp(s, FreeLens) && o !in Leaves(s, FreeLens)
    ensures OnNode(s'.d, n, o, k)
  {
    assert s'.d == D.FreeLens(s.d).state;
    if s.d.poller.node != 0 && !Region.InView(s.d.view, s.d.poller.node, D.DEFER_LEN) {
      assert s.d.place[n] != D.Queue(2);
      AbandonLeavesNode(s.d, n, o, k);
    }
  }

  lemma AbandonLeavesNode(d: D.State, n: Off, o: Off, k: D.Ticket)
    requires OnNode(d, n, o, k) && d.place[n] != D.Queue(2)
    ensures OnNode(D.Abandon(d), n, o, k)
  {
  }

  /** The node keeps its lens and its ticket until the lens is freed or given up. */
  lemma NodeStays(s: State, step: Step, s': State, n: Off, o: Off, k: D.Ticket)
    requires Inv(s) && Takes(s, step, s') && OnNode(s.d, n, o, k)
    requires o !in GivesUp(s, step) && o !in Leaves(s, step)
    ensures OnNode(s'.d, n, o, k)
  {
    if OfDeferral(step) {
      ClientLeavesNode(s, step, s', n, o, k);
    } else if !OfClient(step) {
      PollerLeavesNode(s, step, s', n, o, k);
    } else {
      QuietClient(s, step, s');
    }
  }

  /** At rest, a queued node has seen at most one exchange since its push. */
  lemma RestingNodesAreYoung(d: D.State, n: Off, o: Off, k: D.Ticket)
    requires D.Inv(d) && OnNode(d, n, o, k)
    ensures k.pushedAt <= d.exchanges
    ensures d.poller.Resting? ==> d.exchanges <= k.pushedAt + 1
  {
    var q := d.place[n].q;
    assert D.Queued(d.place, n, q) && D.QueuedOk(d, q, n);
  }

  /** The step neither frees the lens nor gives it up. */
  ghost predicate Stays(s: State, step: Step, o: Off) {
    o !in Leaves(s, step) && o !in GivesUp(s, step)
  }

  /** So do all steps from `i` up to `j`. */
  ghost predicate Kept(ss: seq<State>, steps: seq<Step>, i: nat, j: nat, o: Off)
    requires i <= j < |ss| == |steps| + 1
  {
    forall k :: i <= k < j ==> Stays(ss[k], steps[k], o)
  }

  lemma {:induction false} KeptOnNode(ss: seq<State>, steps: seq<Step>, i: nat, j: nat, n: Off, o: Off, k: D.Ticket)
    requires Run(ss, steps) && i <= j < |ss| && OnNode(ss[i].d, n, o, k) && Kept(ss, steps, i, j, o)
    ensures OnNode(ss[j].d, n, o, k)
    decreases j
  {
    if i < j {
      KeptButLast(ss, steps, i, j, o);
      KeptOnNode(ss, steps, i, j - 1, n, o, k);
      NodeHop(ss, steps, j - 1, n, o, k);
    }
  }

  lemma NodeHop(ss: seq<State>, steps: seq<Step>, j: nat, n: Off, o: Off, k: D.Ticket)
    requires Run(ss, steps) && j + 1 < |ss| && OnNode(ss[j].d, n, o, k)
    requires Stays(ss[j], steps[j], o)
    ensures OnNode(ss[j + 1].d, n, o, k)
  {
    RunInv(ss, steps, j);
    assert StepAt(ss, steps, j);
    NodeStays(ss[j], steps[j], ss[j + 1], n, o, k);
  }

  lemma KeptButLast(ss: seq<State>, steps: seq<Step>, i: nat, j: nat, o: Off)
    requires i < j < |ss| == |steps| + 1 && Kept(ss, steps, i, j, o)
    ensures Kept(ss, steps, i, j - 1, o)
    ensures Stays(ss[j - 1], steps[j - 1], o)
  {
  }

  lemma {:induction false} KeptStaysUnlinked(ss: seq<State>, steps: seq<Step>, i: nat, j: nat, o: Off)
    requires Run(ss, steps) && i <= j < |ss| && Unlinked(ss[i].l, o) && Kept(ss, steps, i, j, o)
    ensures Unlinked(ss[j].l, o)
    decreases j
  {
    if i < j {
      KeptButLast(ss, steps, i, j, o);
      KeptStaysUnlinked(ss, steps, i, j - 1, o);
      UnlinkedHop(ss, steps, j - 1, o);
    }
  }

  lemma UnlinkedHop(ss: seq<State>, steps: seq<Step>, j: nat, o: Off)
    requires Run(ss, steps) && j + 1 < |ss| && Unlinked(ss[j].l, o) && Stays(ss[j], steps[j], o)
    ensures Unlinked(ss[j + 1].l, o)
  {
    RunInv(ss, steps, j);
    RunAccounts(ss, steps, j);
    assert StepAt(ss, steps, j) && HolderOk(ss[j].l, o);
    HolderStep(ss[j], steps[j], ss[j + 1], o);
  }

  lemma RemovedInRun(ss: seq<State>, steps: seq<Step>, i: nat, o: Off)
    requires Run(ss, steps) && i < |ss|
    ensures Removed(ss[i].l, o) <==> Unlinked(ss[i].l, o)
  {
    RunInv(ss, steps, i);
    RunAccounts(ss, steps, i);
    RemovedIsUnlinked(ss[i].l, o);
  }

  /** A lens that is on a node cannot be kept past two exchanges and the rest that follows. */
  lemma NodeIsDrained(ss: seq<State>, steps: seq<Step>, m: nat, j: nat, n: Off, o: Off)
    requires Run(ss, steps) && m <= j < |ss| && ByNode(ss[m].d, n, o)
    requires Exchanges(steps, m, j) >= 2 && ss[j].d.poller.Resting?
    ensures !Kept(ss, steps, m, j, o)
  {
    if Kept(ss, steps, m, j, o) {
      RunInv(ss, steps, m);
      RunInv(ss, steps, j);
      assert D.QueuedOk(ss[m].d, ss[m].d.place[n].q, n);
      var k := ss[m].d.ticket[n];
      KeptOnNode(ss, steps, m, j, n, o, k);
      RestingNodesAreYoung(ss[m].d, n, o, k);
      RestingNodesAreYoung(ss[j].d, n, o, k);
      ExchangesAreCounted(ss, steps, m, j);
    }
  }

  /** The deferral of the lens has been pushed: no thread carries it any more. */
  ghost predicate Handed(d: D.State, o: Off) {
    forall t :: !ByThread(d, t, o)
  }

  /** A removed lens whose deferral is pushed by step `m` is freed or given up before the poller rests after two more
      exchanges. */
  lemma RemovedLensIsSettled(ss: seq<State>, steps: seq<Step>, i: nat, m: nat, j: nat, o: Off)
    requires Run(ss, steps) && i <= m <= j < |ss| && Removed(ss[i].l, o) && Handed(ss[m].d, o)
    requires o !in GivenUp(ss, steps, i) && Exchanges(steps, m, j) >= 2 && ss[j].d.poller.Resting?
    ensures !Kept(ss, steps, i, j, o)
  {
    if Kept(ss, steps, i, j, o) {
      RemovedInRun(ss, steps, i, o);
      KeptStaysUnlinked(ss, steps, i, m, o);
      RemovedInRun(ss, steps, m, o);
      KeptIsNotGivenUp(ss, steps, i, m, o);
      RemovedLensIsAccountedFor(ss, steps, m, o);
      var n :| ByNode(ss[m].d, n, o);
      NodeIsDrained(ss, steps, m, j, n, o);
    }
  }

  lemma {:induction false} KeptIsNotGivenUp(ss: seq<State>, steps: seq<Step>, i: nat, j: nat, o: Off)
    requires i <= j < |ss| == |steps| + 1 && Kept(ss, steps, i, j, o) && o !in GivenUp(ss, steps, i)
    ensures o !in GivenUp(ss, steps, j)
    decreases j
  {
    if i < j {
      KeptButLast(ss, steps, i, j, o);
      KeptIsNotGivenUp(ss, steps, i, j - 1, o);
    }
  }

  lemma NoneGivenUp(ss: seq<State>, steps: seq<Step>, k: nat, j: nat, o: Off)
    requires Run(ss, steps) && k < j < |ss| && ExchangesCovered(ss, steps, j)
    requires forall k :: 0 <= k < j ==> !steps[k].AllocNodeFails?
    ensures o !in GivesUp(ss[k], steps[k])
  {
    NothingIsGivenUp(ss, steps, k + 1);
  }

  /** If no defer node allocation fails and each exchange covers the list it takes, every lens that was taken out of the
      list is given back to the allocator by the time the poller rests after two exchanges that follow the push of its
      deferral. */
  lemma RemovedLensIsFreed(ss: seq<State>, steps: seq<Step>, i: nat, m: nat, j: nat, o: Off)
    requires Run(ss, steps) && i <= m <= j < |ss| && Removed(ss[i].l, o) && Handed(ss[m].d, o)
    requires Exchanges(steps, m, j) >= 2 && ss[j].d.poller.Resting?
    requires ExchangesCovered(ss, steps, j) && forall k :: 0 <= k < j ==> !steps[k].AllocNodeFails?
    ensures exists k :: i <= k < j && steps[k].FreeLens? && o in ss[k].l.mem && o !in ss[k + 1].l.mem
  {
    NothingIsGivenUp(ss, steps, i);
    RemovedLensIsSettled(ss, steps, i, m, j, o);
    var k :| i <= k < j && !Stays(ss[k], steps[k], o);
    NoneGivenUp(ss, steps, k, j, o);
    LeavingIsFreed(ss, steps, k, o);
  }

  lemma LeavingIsFreed(ss: seq<State>, steps: seq<Step>, k: nat, o: Off)
    requires Run(ss, steps) && k < |steps| && o in Leaves(ss[k], steps[k])
    ensures steps[k].FreeLens? && o in ss[k].l.mem && o !in ss[k + 1].l.mem
  {
    RunInv(ss, steps, k);
    assert StepAt(ss, steps, k);
    ReleaseIsLegal(ss[k]);
  }
}
