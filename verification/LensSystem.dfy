/**
 One optics region as a whole: the lens list, the deferred free and one poller, composed.
 The allocator appears through its contract: an allocation returns an offset no outstanding
 block has, and a free is legal only for an outstanding block with its own length.
 */
module LensSystem {
  import L = LensList
  import LP = LensProof
  import D = Deferral
  import DP = DeferralProof

  type Off = nat
  type Tid = nat

  datatype State = State(l: L.State, d: D.State)

  datatype Outcome = Ok(state: State) | Crash

  datatype Step =
    | Create(t: Tid, off: Off, name: L.Name, len: nat)
    | Register(t: Tid)
    | DropFresh(t: Tid)
    | StoreNext(t: Tid)
    | StorePrev(t: Tid)
    | StoreHead(t: Tid)
    | Unregister(t: Tid, off: Off)
    | KillNextPrev(t: Tid)
    | KillPrevNext(t: Tid)
    | KillHeadStore(t: Tid)
    | AllocNode(t: Tid, node: Off)
    | AllocNodeFails(t: Tid)
    | LoadEpoch(t: Tid)
    | LoadDefers(t: Tid)
    | LinkNode(t: Tid)
    | CasDefers(t: Tid, spurious: bool)
    | Exchange(view: nat)
    | FreeLens
    | FreeNode
    | BumpEpoch
    | ReadHead(view: nat)
    | Look
    | Advance
    | Finish

  predicate Outstanding(s: State, off: Off) {
    off in s.l.mem || off in s.d.nodes
  }

  predicate ClientIdle(s: State, t: Tid) {
    L.PcOf(s.l, t).Idle? && D.PcOf(s.d, t).Idle?
  }

  predicate PollerIdle(s: State) {
    s.d.poller.Resting? && s.l.cursor.Away?
  }

  predicate Enabled(s: State, step: Step) {
    match step
    case Create(t, off, _, len) => ClientIdle(s, t) && off > 0 && !Outstanding(s, off)
    case Register(t) => L.PcOf(s.l, t).Fresh? && !s.l.lock
    case DropFresh(t) => L.PcOf(s.l, t).Refused?
    case StoreNext(t) => L.PcOf(s.l, t).PushNext?
    case StorePrev(t) => L.PcOf(s.l, t).PushPrev?
    case StoreHead(t) => L.PcOf(s.l, t).PushHead?
    // Whoever frees a lens whose name was registered again for another one breaks the list; see HandleMustBeSafe.
    case Unregister(t, off) => ClientIdle(s, t) && !s.l.lock && L.SafeHandle(s.l, off)
    case KillNextPrev(t) => L.PcOf(s.l, t).KillNext?
    case KillPrevNext(t) => L.PcOf(s.l, t).KillPrev?
    case KillHeadStore(t) => L.PcOf(s.l, t).KillHead?
    case AllocNode(t, node) => D.PcOf(s.d, t).Removed? && node > 0 && !Outstanding(s, node)
    case AllocNodeFails(t) => D.PcOf(s.d, t).Removed?
    case LoadEpoch(t) => D.PcOf(s.d, t).Noded?
    case LoadDefers(t) => D.PcOf(s.d, t).Epoched? && |s.d.defers| == 2
    case LinkNode(t) => D.PcOf(s.d, t).Loaded?
    case CasDefers(t, _) => D.PcOf(s.d, t).Linked? && |s.d.defers| == 2
    case Exchange(_) => PollerIdle(s) && |s.d.defers| == 2
    case FreeLens => s.d.poller.Drain?
    case FreeNode => s.d.poller.DrainNode?
    case BumpEpoch => s.d.poller.Bump?
    case ReadHead(_) => PollerIdle(s)
    case Look => s.l.cursor.At? && s.l.cursor.cur != 0
    case Advance => s.l.cursor.Seen?
    case Finish => s.l.cursor == L.At(0)
  }

  function OnList(s: State, o: L.Outcome): Outcome {
    if o.Ok? then Ok(s.(l := o.state)) else Crash
  }

  function OnDefers(s: State, o: D.Outcome): Outcome {
    if o.Ok? then Ok(s.(d := o.state)) else Crash
  }

  /** lens_defer_free reads the length of the lens it has just unlinked. */
  function FinishRemoval(s: State, t: Tid): Outcome
    requires L.PcOf(s.l, t).KillHead?
  {
    var off := L.PcOf(s.l, t).off;
    if off !in s.l.mem then Crash
    else Ok(State(L.KillHeadStore(s.l, t), D.Begin(s.d, t, off, s.l.mem[off].len)))
  }

  /** The poller frees the lens of a drained node and moves on to the node itself. */
  function FreeDrained(s: State): Outcome
    requires s.d.poller.Drain?
  {
    var o := D.FreeLens(s.d);
    if o.Crash? then Crash
    else if !D.Releases(s.d) then Ok(s.(d := o.state))
    else
      var d := s.d.nodes[s.d.poller.node];
      OnList(s.(d := o.state), L.Reclaim(s.l, d.off, d.len))
  }

  function Apply(s: State, step: Step): Outcome
    requires Enabled(s, step)
  {
    match step
    case Create(t, off, name, len) => Ok(s.(l := L.Create(s.l, t, off, name, len)))
    case Register(t) => OnList(s, L.Register(s.l, t))
    case DropFresh(t) => OnList(s, L.DropFresh(s.l, t))
    case StoreNext(t) => OnList(s, L.StoreNext(s.l, t))
    case StorePrev(t) => OnList(s, L.StorePrev(s.l, t))
    case StoreHead(t) => Ok(s.(l := L.StoreHead(s.l, t)))
    case Unregister(t, off) => OnList(s, L.Unregister(s.l, t, off))
    case KillNextPrev(t) => OnList(s, L.KillNextPrev(s.l, t))
    case KillPrevNext(t) => OnList(s, L.KillPrevNext(s.l, t))
    case KillHeadStore(t) => FinishRemoval(s, t)
    case AllocNode(t, node) => Ok(s.(d := D.AllocNode(s.d, t, node)))
    case AllocNodeFails(t) => Ok(s.(d := D.AllocNodeFails(s.d, t)))
    case LoadEpoch(t) => Ok(s.(d := D.LoadEpoch(s.d, t)))
    case LoadDefers(t) => Ok(s.(d := D.LoadDefers(s.d, t)))
    case LinkNode(t) => OnDefers(s, D.LinkNode(s.d, t))
    case CasDefers(t, spurious) => Ok(s.(d := D.CasDefers(s.d, t, spurious)))
    case Exchange(view) => Ok(s.(d := D.Exchange(s.d, view)))
    case FreeLens => FreeDrained(s)
    case FreeNode => OnDefers(s, D.FreeNode(s.d))
    case BumpEpoch => Ok(s.(d := D.BumpEpoch(s.d)))
    case ReadHead(view) => Ok(s.(l := L.ReadHead(s.l, view)))
    case Look => OnList(s, L.Look(s.l))
    case Advance => OnList(s, L.Advance(s.l))
    case Finish => Ok(s.(l := s.l.(cursor := L.Away)))
  }

  // ---- invariant ----

  ghost predicate Bridge(s: State) {
    && s.l.mem.Keys !! s.d.nodes.Keys
    && (forall o :: o in s.d.carried ==>
          && o in s.d.lensLen && o in s.l.mem && o in s.l.owner
          && s.l.owner[o] == L.Unlinked && s.d.lensLen[o] == s.l.mem[o].len)
    && (s.d.poller.Resting? || s.l.cursor.Away?)
    && (forall t {:trigger L.PcOf(s.l, t)} {:trigger D.PcOf(s.d, t)} :: L.PcOf(s.l, t).Idle? || D.PcOf(s.d, t).Idle?)
  }

  ghost predicate Inv(s: State) {
    L.Inv(s.l) && D.Inv(s.d) && Bridge(s)
  }

  ghost predicate KeepsUnlinked(l: L.State, l': L.State) {
    forall o :: o in l.mem && o in l.owner && l.owner[o] == L.Unlinked ==>
      o in l'.mem && o in l'.owner && l'.owner[o] == L.Unlinked && l'.mem[o].len == l.mem[o].len
  }

  /** An edit of links by thread `t`, which holds the lock. */
  ghost predicate LocalEdit(l: L.State, l': L.State, t: Tid) {
    && !L.PcOf(l, t).Idle? && (forall u :: u != t ==> L.PcOf(l', u) == L.PcOf(l, u))
    && KeepsUnlinked(l, l') && l'.mem.Keys == l.mem.Keys && l'.cursor == l.cursor
  }

  lemma EditBridge(s: State, l': L.State, t: Tid)
    requires Bridge(s) && LocalEdit(s.l, l', t)
    ensures Bridge(s.(l := l'))
  {
    ListStepBridge(s, l', t);
  }

  /** A step of the list machine that frees and unlinks nothing keeps the bridge. */
  lemma ListStepBridge(s: State, l': L.State, t: Tid)
    requires Bridge(s) && (L.PcOf(l', t).Idle? || D.PcOf(s.d, t).Idle?)
    requires forall u :: u != t ==> L.PcOf(l', u) == L.PcOf(s.l, u)
    requires KeepsUnlinked(s.l, l')
    requires l'.mem.Keys !! s.d.nodes.Keys && l'.cursor == s.l.cursor
    ensures Bridge(s.(l := l'))
  {
  }

  /** A step of the traversal, which runs only while the poller drains nothing. */
  lemma CursorBridge(s: State, l': L.State)
    requires Bridge(s) && s.d.poller.Resting? && l'.mem == s.l.mem && l'.owner == s.l.owner && l'.pc == s.l.pc
    ensures Bridge(s.(l := l'))
  {
    forall t ensures L.PcOf(l', t).Idle? || D.PcOf(s.d, t).Idle? {
      assert L.PcOf(s.l, t).Idle? || D.PcOf(s.d, t).Idle?;
    }
  }

  lemma DeferStepBridge(s: State, d': D.State, t: Tid)
    requires Bridge(s) && (L.PcOf(s.l, t).Idle? || D.PcOf(d', t).Idle?)
    requires forall u :: u != t ==> D.PcOf(d', u) == D.PcOf(s.d, u)
    requires d'.carried.Keys <= s.d.carried.Keys && d'.lensLen == s.d.lensLen
    requires s.l.mem.Keys !! d'.nodes.Keys && (d'.poller.Resting? || s.l.cursor.Away?)
    ensures Bridge(s.(d := d'))
  {
  }

  // ---- every step keeps the invariant ----

  lemma CreateOk(s: State, t: Tid, off: Off, name: L.Name, len: nat)
    requires Inv(s) && ClientIdle(s, t) && off > 0 && !Outstanding(s, off)
    ensures Inv(s.(l := L.Create(s.l, t, off, name, len)))
  {
    assert L.ThreadOk(s.l, t);
    LP.CreateKeeps(s.l, t, off, name, len);
    ListStepBridge(s, L.Create(s.l, t, off, name, len), t);
  }

  lemma RegisterOk(s: State, t: Tid)
    requires Inv(s) && L.PcOf(s.l, t).Fresh? && !s.l.lock
    ensures L.Register(s.l, t).Ok? && Inv(s.(l := L.Register(s.l, t).state))
  {
    assert L.ThreadOk(s.l, t);
    LP.RegisterKeeps(s.l, t);
    ListStepBridge(s, L.Register(s.l, t).state, t);
  }

  lemma DropFreshOk(s: State, t: Tid)
    requires Inv(s) && L.PcOf(s.l, t).Refused?
    ensures L.DropFresh(s.l, t).Ok? && Inv(s.(l := L.DropFresh(s.l, t).state))
  {
    assert L.ThreadOk(s.l, t);
    LP.DropFreshKeeps(s.l, t);
    ListStepBridge(s, L.DropFresh(s.l, t).state, t);
  }

  lemma StoreNextOk(s: State, t: Tid)
    requires Inv(s) && L.PcOf(s.l, t).PushNext?
    ensures L.StoreNext(s.l, t).Ok? && Inv(s.(l := L.StoreNext(s.l, t).state))
  {
    assert L.ThreadOk(s.l, t);
    LP.StoreNextKeeps(s.l, t);
    ListStepBridge(s, L.StoreNext(s.l, t).state, t);
  }

  lemma StorePrevOk(s: State, t: Tid)
    requires Inv(s) && L.PcOf(s.l, t).PushPrev?
    ensures L.StorePrev(s.l, t).Ok? && Inv(s.(l := L.StorePrev(s.l, t).state))
  {
    assert L.ThreadOk(s.l, t);
    LP.StorePrevKeeps(s.l, t);
    ListStepBridge(s, L.StorePrev(s.l, t).state, t);
  }

  lemma StoreHeadOk(s: State, t: Tid)
    requires Inv(s) && L.PcOf(s.l, t).PushHead?
    ensures Inv(s.(l := L.StoreHead(s.l, t)))
  {
    assert L.ThreadOk(s.l, t);
    LP.StoreHeadKeeps(s.l, t);
    ListStepBridge(s, L.StoreHead(s.l, t), t);
  }

  lemma UnregisterOk(s: State, t: Tid, off: Off)
    requires Inv(s) && ClientIdle(s, t) && !s.l.lock && L.SafeHandle(s.l, off)
    ensures L.Unregister(s.l, t, off).Ok? && Inv(s.(l := L.Unregister(s.l, t, off).state))
  {
    if L.LiveHandle(s.l, off) {
      assert L.ThreadOk(s.l, t);
      LP.UnregisterKeeps(s.l, t, off);
      ListStepBridge(s, L.Unregister(s.l, t, off).state, t);
    } else {
      assert s.(l := s.l) == s;
    }
  }

  lemma KillNextPrevLocal(l: L.State, t: Tid)
    requires L.Inv(l) && L.PcOf(l, t).KillNext? && L.KillNextPrev(l, t).Ok?
    ensures LocalEdit(l, L.KillNextPrev(l, t).state, t)
  {
    assert L.ThreadOk(l, t) && L.NextLink(l, L.PcOf(l, t).off) && L.PrevLink(l, L.PcOf(l, t).off);
  }

  lemma KillNextPrevOk(s: State, t: Tid)
    requires Inv(s) && L.PcOf(s.l, t).KillNext?
    ensures L.KillNextPrev(s.l, t).Ok? && Inv(s.(l := L.KillNextPrev(s.l, t).state))
  {
    LP.KillNextPrevKeeps(s.l, t);
    KillNextPrevLocal(s.l, t);
    EditBridge(s, L.KillNextPrev(s.l, t).state, t);
  }

  lemma KillPrevNextLocal(l: L.State, t: Tid)
    requires L.Inv(l) && L.PcOf(l, t).KillPrev? && L.KillPrevNext(l, t).Ok?
    ensures LocalEdit(l, L.KillPrevNext(l, t).state, t)
  {
    assert L.ThreadOk(l, t) && L.NextLink(l, L.PcOf(l, t).off) && L.PrevLink(l, L.PcOf(l, t).off);
  }

  lemma KillPrevNextOk(s: State, t: Tid)
    requires Inv(s) && L.PcOf(s.l, t).KillPrev?
    ensures L.KillPrevNext(s.l, t).Ok? && Inv(s.(l := L.KillPrevNext(s.l, t).state))
  {
    LP.KillPrevNextKeeps(s.l, t);
    KillPrevNextLocal(s.l, t);
    EditBridge(s, L.KillPrevNext(s.l, t).state, t);
  }

  /** A lens handed from the list machine to the deferral machine is not yet carried by it. */
  lemma FinishRemovalBridge(s: State, t: Tid)
    requires Bridge(s) && L.PcOf(s.l, t).KillHead? && FinishRemoval(s, t).Ok? && L.PcOf(s.l, t).off in s.l.owner
    requires s.l.owner[L.PcOf(s.l, t).off] != L.Unlinked
    ensures Bridge(FinishRemoval(s, t).state)
  {
    var s', off := FinishRemoval(s, t).state, L.PcOf(s.l, t).off;
    assert s'.l.mem == s.l.mem && s'.l.owner == s.l.owner[off := L.Unlinked] && s'.l.cursor == s.l.cursor;
    forall u ensures L.PcOf(s'.l, u).Idle? || D.PcOf(s'.d, u).Idle? {
      assert L.PcOf(s.l, u).Idle? || D.PcOf(s.d, u).Idle?;
    }
  }

  lemma FinishRemovalOk(s: State, t: Tid)
    requires Inv(s) && L.PcOf(s.l, t).KillHead?
    ensures FinishRemoval(s, t).Ok? && Inv(FinishRemoval(s, t).state)
  {
    assert L.ThreadOk(s.l, t);
    var off := L.PcOf(s.l, t).off;
    LP.KillHeadStoreKeeps(s.l, t);
    DP.BeginKeeps(s.d, t, off, s.l.mem[off].len);
    FinishRemovalBridge(s, t);
  }

  lemma AllocNodeOk(s: State, t: Tid, node: Off)
    requires Inv(s) && D.PcOf(s.d, t).Removed? && node > 0 && !Outstanding(s, node)
    ensures Inv(s.(d := D.AllocNode(s.d, t, node)))
  {
    assert D.ThreadOk(s.d, t);
    DP.AllocNodeKeeps(s.d, t, node);
    DeferStepBridge(s, D.AllocNode(s.d, t, node), t);
  }

  lemma AllocNodeFailsOk(s: State, t: Tid)
    requires Inv(s) && D.PcOf(s.d, t).Removed?
    ensures Inv(s.(d := D.AllocNodeFails(s.d, t)))
  {
    assert D.ThreadOk(s.d, t);
    DP.AllocNodeFailsKeeps(s.d, t);
    DeferStepBridge(s, D.AllocNodeFails(s.d, t), t);
  }

  lemma LoadEpochOk(s: State, t: Tid)
    requires Inv(s) && D.PcOf(s.d, t).Noded?
    ensures Inv(s.(d := D.LoadEpoch(s.d, t)))
  {
    assert D.ThreadOk(s.d, t);
    DP.LoadEpochKeeps(s.d, t);
    DeferStepBridge(s, D.LoadEpoch(s.d, t), t);
  }

  lemma LoadDefersOk(s: State, t: Tid)
    requires Inv(s) && D.PcOf(s.d, t).Epoched?
    ensures Inv(s.(d := D.LoadDefers(s.d, t)))
  {
    assert D.ThreadOk(s.d, t);
    DP.LoadDefersKeeps(s.d, t);
    DeferStepBridge(s, D.LoadDefers(s.d, t), t);
  }

  lemma LinkNodeOk(s: State, t: Tid)
    requires Inv(s) && D.PcOf(s.d, t).Loaded?
    ensures D.LinkNode(s.d, t).Ok? && Inv(s.(d := D.LinkNode(s.d, t).state))
  {
    assert D.ThreadOk(s.d, t);
    DP.LinkNodeKeeps(s.d, t);
    DeferStepBridge(s, D.LinkNode(s.d, t).state, t);
  }

  lemma CasDefersOk(s: State, t: Tid, spurious: bool)
    requires Inv(s) && D.PcOf(s.d, t).Linked?
    ensures Inv(s.(d := D.CasDefers(s.d, t, spurious)))
  {
    assert D.ThreadOk(s.d, t);
    DP.CasDefersKeeps(s.d, t, spurious);
    DeferStepBridge(s, D.CasDefers(s.d, t, spurious), t);
  }

  lemma ReleaseBridge(s: State)
    requires Bridge(s) && D.Releases(s.d) && s.l.cursor.Away? && FreeDrained(s).Ok?
    ensures Bridge(FreeDrained(s).state)
  {
    var s' := FreeDrained(s).state;
    forall u ensures L.PcOf(s'.l, u).Idle? || D.PcOf(s'.d, u).Idle? {
      assert L.PcOf(s.l, u).Idle? || D.PcOf(s.d, u).Idle?;
    }
  }

  /** What the poller frees is allocated, unlinked and has the length it is freed with. */
  lemma ReleaseIsLegal(s: State)
    requires Inv(s) && D.Releases(s.d)
    ensures var d := s.d.nodes[s.d.poller.node]; LP.Reclaimable(s.l, d.off, d.len)
  {
    DP.ReleasedIsCarried(s.d);
  }

  lemma FreeDrainedOk(s: State)
    requires Inv(s) && s.d.poller.Drain?
    ensures FreeDrained(s).Ok? && Inv(FreeDrained(s).state)
  {
    DP.FreeLensKeeps(s.d);
    if D.Releases(s.d) {
      ReleaseIsLegal(s);
      LP.ReclaimKeeps(s.l, s.d.nodes[s.d.poller.node].off, s.d.nodes[s.d.poller.node].len);
      ReleaseBridge(s);
    } else {
      DeferStepBridge(s, D.FreeLens(s.d).state, 0);
    }
  }

  /** A step of the poller in the deferral machine. */
  lemma PollerBridge(s: State, d': D.State)
    requires Bridge(s) && s.l.cursor.Away? && d'.pc == s.d.pc && d'.carried == s.d.carried && d'.lensLen == s.d.lensLen
    requires d'.nodes.Keys <= s.d.nodes.Keys
    ensures Bridge(s.(d := d'))
  {
    forall t ensures L.PcOf(s.l, t).Idle? || D.PcOf(d', t).Idle? {
      assert L.PcOf(s.l, t).Idle? || D.PcOf(s.d, t).Idle?;
    }
  }

  lemma ExchangeOk(s: State, view: nat)
    requires Inv(s) && PollerIdle(s)
    ensures Inv(s.(d := D.Exchange(s.d, view)))
  {
    DP.ExchangeKeeps(s.d, view);
    PollerBridge(s, D.Exchange(s.d, view));
  }

  lemma FreeNodeOk(s: State)
    requires Inv(s) && s.d.poller.DrainNode?
    ensures D.FreeNode(s.d).Ok? && Inv(s.(d := D.FreeNode(s.d).state))
  {
    DP.FreeNodeKeeps(s.d);
    PollerBridge(s, D.FreeNode(s.d).state);
  }

  lemma BumpEpochOk(s: State)
    requires Inv(s) && s.d.poller.Bump?
    ensures Inv(s.(d := D.BumpEpoch(s.d)))
  {
    DP.BumpEpochKeeps(s.d);
    PollerBridge(s, D.BumpEpoch(s.d));
  }

  lemma ReadHeadOk(s: State, view: nat)
    requires Inv(s) && PollerIdle(s)
    ensures Inv(s.(l := L.ReadHead(s.l, view)))
  {
    LP.ReadHeadKeeps(s.l, view);
    CursorBridge(s, L.ReadHead(s.l, view));
  }

  lemma LookIsLocal(l: L.State)
    requires l.cursor.At? && L.Look(l).Ok?
    ensures var l' := L.Look(l).state; l'.mem == l.mem && l'.owner == l.owner && l'.pc == l.pc
  {
  }

  lemma Assemble(s: State, l': L.State)
    requires L.Inv(l') && D.Inv(s.d) && Bridge(s.(l := l'))
    ensures Inv(s.(l := l'))
  {
  }

  lemma LookOk(s: State)
    requires Inv(s) && s.l.cursor.At? && s.l.cursor.cur != 0
    ensures L.Look(s.l).Ok? && Inv(s.(l := L.Look(s.l).state))
  {
    LP.LookKeeps(s.l);
    LookIsLocal(s.l);
    CursorBridge(s, L.Look(s.l).state);
    Assemble(s, L.Look(s.l).state);
  }

  lemma AdvanceOk(s: State)
    requires Inv(s) && s.l.cursor.Seen?
    ensures L.Advance(s.l).Ok? && Inv(s.(l := L.Advance(s.l).state))
  {
    LP.AdvanceKeeps(s.l);
    CursorBridge(s, L.Advance(s.l).state);
  }

  lemma FinishOk(s: State)
    requires Inv(s) && s.l.cursor == L.At(0)
    ensures Inv(s.(l := s.l.(cursor := L.Away)))
  {
    LP.CursorFrame(s.l, s.l.(cursor := L.Away));
    CursorBridge(s, s.l.(cursor := L.Away));
  }

  /** No step crashes in a state that satisfies the invariant, and the invariant persists. */
  lemma StepKeeps(s: State, step: Step)
    requires Inv(s) && Enabled(s, step)
    ensures Apply(s, step).Ok? && Inv(Apply(s, step).state)
  {
    match step
    case Create(t, off, name, len) => CreateOk(s, t, off, name, len);
    case Register(t) => RegisterOk(s, t);
    case DropFresh(t) => DropFreshOk(s, t);
    case StoreNext(t) => StoreNextOk(s, t);
    case StorePrev(t) => StorePrevOk(s, t);
    case StoreHead(t) => StoreHeadOk(s, t);
    case Unregister(t, off) => UnregisterOk(s, t, off);
    case KillNextPrev(t) => KillNextPrevOk(s, t);
    case KillPrevNext(t) => KillPrevNextOk(s, t);
    case KillHeadStore(t) => FinishRemovalOk(s, t);
    case AllocNode(t, node) => AllocNodeOk(s, t, node);
    case AllocNodeFails(t) => AllocNodeFailsOk(s, t);
    case LoadEpoch(t) => LoadEpochOk(s, t);
    case LoadDefers(t) => LoadDefersOk(s, t);
    case LinkNode(t) => LinkNodeOk(s, t);
    case CasDefers(t, spurious) => CasDefersOk(s, t, spurious);
    case FreeLens => FreeDrainedOk(s);
    case Exchange(view) => ExchangeOk(s, view);
    case FreeNode => FreeNodeOk(s);
    case BumpEpoch => BumpEpochOk(s);
    case ReadHead(view) => ReadHeadOk(s, view);
    case Look => LookOk(s);
    case Advance => AdvanceOk(s);
    case Finish => FinishOk(s);
  }
}
