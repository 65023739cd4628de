/**
 The optics layer on top of the allocator. A lens or a defer node is created in the step in which the allocator
 returns its block, and given back in the step in which alloc_free takes the block over; all other steps of the two
 machines interleave freely. A free that the allocator does not allow is a `Crash`.
 */
module Composition {
  import O = LensSystem
  import OT = LensTheorems
  import L = LensList
  import D = Deferral
  import A = Allocator
  import AP = AllocatorProof
  import AT = AllocatorTheorems
  import C = Chains
  import opened SizeClass
  import opened Wrappers

  type Off = nat
  type Tid = nat

  datatype State = State(optics: O.State, alloc: A.State)

  datatype Block = Block(off: Off, len: nat)

  datatype Outcome = Ok(state: State) | Crash

  /** `u` is the thread that runs alloc_free. */
  datatype Step =
    | Optics(step: O.Step)
    | Alloc(astep: A.Step)
    | Obtain(step: O.Step, astep: A.Step)
    | GiveBack(step: O.Step, u: Tid)

  // ---- what the optics layer takes and gives back ----

  function Taken(step: O.Step): Option<Block> {
    match step
    case Create(_, off, _, len) => Some(Block(off, len))
    case AllocNode(_, node) => Some(Block(node, D.DEFER_LEN))
    case _ => None
  }

  function Given(s: O.State, step: O.Step): Option<Block>
    requires O.Enabled(s, step)
  {
    match step
    case DropFresh(t) =>
      var off := L.PcOf(s.l, t).off;
      if off in s.l.mem then Some(Block(off, s.l.mem[off].len)) else None
    case FreeLens =>
      if D.Releases(s.d) then var d := s.d.nodes[s.d.poller.node]; Some(Block(d.off, d.len)) else None
    case FreeNode =>
      if D.Fits(s.d.view, s.d.poller.node, D.DEFER_LEN) then Some(Block(s.d.poller.node, D.DEFER_LEN)) else None
    case _ => None
  }

  /** The length a block of the optics layer was asked for with. */
  function LenOf(s: O.State, o: Off): nat {
    if o in s.l.mem then s.l.mem[o].len else D.DEFER_LEN
  }

  predicate OfClass(len: nat, k: nat) {
    len <= MAX_LEN && k == AllocClass(len).index
  }

  // ---- the joint machine ----

  predicate Enabled(s: State, step: Step) {
    match step
    case Optics(step) => O.Enabled(s.optics, step) && Taken(step).None? && Given(s.optics, step).None?
    case Alloc(astep) =>
      A.Enabled(s.alloc, astep) && |s.alloc.chain.heads| == 2 * CLASSES && !astep.Free? &&
      (A.Apply(s.alloc, astep).Done? ==> A.Apply(s.alloc, astep).ret == 0)
    case Obtain(step, astep) =>
      && A.Enabled(s.alloc, astep) && |s.alloc.chain.heads| == 2 * CLASSES && A.Apply(s.alloc, astep).Done?
      && Taken(step) == Some(Block(A.Apply(s.alloc, astep).ret, AT.Wanted(s.alloc, astep)))
      && A.Apply(s.alloc, astep).ret != 0
      && (step.Create? ==> O.ClientIdle(s.optics, step.t)) && (step.AllocNode? ==> D.PcOf(s.optics.d, step.t).Removed?)
    case GiveBack(step, u) => O.Enabled(s.optics, step) && Given(s.optics, step).Some? && A.PcOf(s.alloc, u).Idle?
  }

  /** An offset that is in use, or a free of what is not outstanding with its own length, is a crash. */
  function Apply(s: State, step: Step): Outcome
    requires Enabled(s, step)
  {
    match step
    case Optics(step) =>
      var o := O.Apply(s.optics, step);
      if o.Ok? then Ok(s.(optics := o.state)) else Crash
    case Alloc(astep) =>
      var a := A.Apply(s.alloc, astep);
      if a.Done? then Ok(s.(alloc := a.state)) else Crash
    case Obtain(step, astep) =>
      if !O.Enabled(s.optics, step) || O.Apply(s.optics, step).Crash? then Crash
      else Ok(State(O.Apply(s.optics, step).state, A.Apply(s.alloc, astep).state))
    case GiveBack(step, u) =>
      var b := Given(s.optics, step).value;
      if O.Apply(s.optics, step).Crash? || !A.Enabled(s.alloc, A.Free(u, b.off, b.len))
        || |s.alloc.chain.heads| != 2 * CLASSES then Crash
      else
        var a := A.Apply(s.alloc, A.Free(u, b.off, b.len));
        if a.Crash? then Crash else Ok(State(O.Apply(s.optics, step).state, a.state))
  }

  // ---- invariant ----

  /** What the optics layer holds is outstanding in the allocator, in the class of its length. */
  ghost predicate Backed(s: State, o: Off) {
    O.Outstanding(s.optics, o) ==> A.Outstanding(s.alloc, o) && OfClass(LenOf(s.optics, o), s.alloc.kind[o])
  }

  /** A request that waits for a slab waits for one of its own class. */
  ghost predicate Asks(a: A.State, t: Tid) {
    match A.PcOf(a, t)
    case NeedsSlab(k, want) => OfClass(want, k)
    case Linking(k, want, _, _, _, _) => OfClass(want, k)
    case _ => true
  }

  ghost predicate Inv(s: State) {
    && O.Inv(s.optics) && A.Inv(s.alloc)
    && (forall o {:trigger Backed(s, o)} :: Backed(s, o))
    && (forall t {:trigger Asks(s.alloc, t)} :: Asks(s.alloc, t))
  }

  // ---- the allocator's side ----

  lemma AsksKeep(a: A.State, step: A.Step, t: Tid)
    requires A.Enabled(a, step) && |a.chain.heads| == 2 * CLASSES && A.Apply(a, step).Done? && Asks(a, t)
    requires step.Grow? ==> Asks(a, step.t)
    ensures Asks(A.Apply(a, step).state, t)
  {
    match step
    case Alloc(u, len) => AllocAsks(a, u, len, t);
    case Grow(u) => CarveAsks(a, u, t);
    case _ =>
  }

  lemma AllocAsks(a: A.State, u: Tid, len: nat, t: Tid)
    requires A.Enabled(a, A.Alloc(u, len)) && |a.chain.heads| == 2 * CLASSES && A.Apply(a, A.Alloc(u, len)).Done?
    requires Asks(a, t)
    ensures Asks(A.Apply(a, A.Alloc(u, len)).state, t)
  {
    var a' := A.Apply(a, A.Alloc(u, len)).state;
    assert a'.pc == a.pc || a'.pc == a.pc[u := A.NeedsSlab(AllocClass(len).index, len)];
  }

  lemma CarveAsks(a: A.State, u: Tid, t: Tid)
    requires A.PcOf(a, u).NeedsSlab? && A.Carve(a, u).Done? && Asks(a, t) && Asks(a, u)
    ensures Asks(A.Carve(a, u).state, t)
  {
  }

  /** A returned block is of the class of the request. */
  lemma ReturnIsOfClass(a: A.State, step: A.Step)
    requires A.Inv(a) && A.Enabled(a, step) && A.Apply(a, step).Done? && A.Apply(a, step).ret != 0
    requires step.SpliceSlab? ==> Asks(a, step.t)
    ensures var r := A.Apply(a, step); r.ret in r.state.kind && OfClass(AT.Wanted(a, step), r.state.kind[r.ret])
  {
    match step
    case Alloc(t, len) =>
      AllocClassIsLeast(len);
      var k := AllocClass(len).index;
      AP.RefillKeeps(a, k);
      PopIsOfClass(A.Refill(a, k), t, k, AllocClass(len).len, len);
    case SpliceSlab(t) =>
      assert A.ThreadOk(a, t);
      AP.SlabFacts(a, t);
    case _ =>
  }

  lemma PopIsOfClass(a: A.State, t: Tid, k: nat, len: nat, want: nat)
    requires A.ListsOk(a) && k < CLASSES && A.PopOrFill(a, t, k, len, want).Done?
    requires A.PopOrFill(a, t, k, len, want).ret != 0
    ensures var r := A.PopOrFill(a, t, k, len, want); r.ret in r.state.kind && r.state.kind[r.ret] == k
  {
    assert C.HeadOk(a.chain, k);
  }

  // ---- the side of the optics layer ----

  /** The blocks of the optics layer and their lengths, from one state to the next. */
  ghost predicate SameBlock(s: O.State, s': O.State, o: Off) {
    && (O.Outstanding(s', o) <==> O.Outstanding(s, o))
    && (O.Outstanding(s, o) ==> LenOf(s', o) == LenOf(s, o))
  }

  lemma EditStepBlocks(s: O.State, step: O.Step, o: Off)
    requires O.Enabled(s, step) && OT.EditsLinks(step) && O.Apply(s, step).Ok?
    ensures SameBlock(s, O.Apply(s, step).state, o)
  {
    OT.StepIsLocal(s, step, O.Apply(s, step).state);
  }

  lemma ListStepBlocks(s: O.State, step: O.Step, o: Off)
    requires O.Enabled(s, step) && OT.OnListOnly(step) && O.Apply(s, step).Ok? && !step.Create? && !step.DropFresh?
    ensures SameBlock(s, O.Apply(s, step).state, o)
  {
    if OT.EditsLinks(step) {
      EditStepBlocks(s, step, o);
    } else {
      OT.StepIsLocal(s, step, O.Apply(s, step).state);
    }
  }

  lemma DeferStepBlocks(s: O.State, step: O.Step, o: Off)
    requires O.Enabled(s, step) && !OT.OnListOnly(step) && !OT.OnBoth(step) && O.Apply(s, step).Ok? && !step.AllocNode?
    requires D.Inv(s.d) && Given(s, step).None?
    ensures SameBlock(s, O.Apply(s, step).state, o)
  {
    OT.StepIsLocal(s, step, O.Apply(s, step).state);
    if step.LinkNode? {
      assert D.ThreadOk(s.d, step.t);
    }
  }

  lemma QuietStepBlocks(s: O.State, step: O.Step, o: Off)
    requires O.Inv(s) && O.Enabled(s, step) && O.Apply(s, step).Ok? && Taken(step).None? && Given(s, step).None?
    ensures SameBlock(s, O.Apply(s, step).state, o)
  {
    if OT.OnListOnly(step) && !step.DropFresh? {
      ListStepBlocks(s, step, o);
    } else if !OT.OnBoth(step) && !step.DropFresh? {
      DeferStepBlocks(s, step, o);
    }
  }

  /** What is given back is held, with the length it is given back with. */
  lemma GivenIsHeld(s: O.State, step: O.Step)
    requires O.Inv(s) && O.Enabled(s, step) && Given(s, step).Some?
    ensures var b := Given(s, step).value; O.Outstanding(s, b.off) && LenOf(s, b.off) == b.len
  {
    match step
    case FreeLens => O.ReleaseIsLegal(s);
    case FreeNode => assert D.QueuedOk(s.d, 2, s.d.poller.node);
    case _ =>
  }

  /** And it is the only block to go. */
  lemma GivenGoes(s: O.State, step: O.Step, o: Off)
    requires O.Inv(s) && O.Enabled(s, step) && O.Apply(s, step).Ok? && Given(s, step).Some?
    ensures var b := Given(s, step).value;
      if o == b.off then !O.Outstanding(O.Apply(s, step).state, o) else SameBlock(s, O.Apply(s, step).state, o)
  {
    GivenIsHeld(s, step);
  }

  lemma TakenComes(s: O.State, step: O.Step, o: Off)
    requires O.Enabled(s, step) && O.Apply(s, step).Ok? && Taken(step).Some?
    ensures var b := Taken(step).value; var s' := O.Apply(s, step).state;
      if o == b.off then O.Outstanding(s', o) && LenOf(s', o) == b.len else SameBlock(s, s', o)
  {
  }

  // ---- every step of the joint machine ----

  lemma Assemble(o: O.State, a: A.State)
    requires O.Inv(o) && A.Inv(a)
    requires forall x {:trigger Backed(State(o, a), x)} :: Backed(State(o, a), x)
    requires forall t {:trigger Asks(a, t)} :: Asks(a, t)
    ensures Inv(State(o, a))
  {
  }

  lemma OpticsKeeps(s: State, step: O.Step)
    requires Inv(s) && Enabled(s, Optics(step))
    ensures Apply(s, Optics(step)).Ok? && Inv(Apply(s, Optics(step)).state)
  {
    O.StepKeeps(s.optics, step);
    var s' := Apply(s, Optics(step)).state;
    forall o ensures Backed(s', o) {
      assert Backed(s, o);
      QuietStepBlocks(s.optics, step, o);
    }
    forall t ensures Asks(s'.alloc, t) { assert Asks(s.alloc, t); }
  }

  lemma AllocKeeps(s: State, astep: A.Step)
    requires Inv(s) && Enabled(s, Alloc(astep))
    ensures Apply(s, Alloc(astep)).Ok? && Inv(Apply(s, Alloc(astep)).state)
  {
    AT.StepKeeps(s.alloc, astep);
    var s' := Apply(s, Alloc(astep)).state;
    forall o ensures Backed(s', o) {
      assert Backed(s, o);
      if O.Outstanding(s.optics, o) {
        AT.HeldStays(s.alloc, astep, o);
      }
    }
    AllAsk(s.alloc, astep);
  }

  lemma AllAsk(a: A.State, step: A.Step)
    requires A.Enabled(a, step) && |a.chain.heads| == 2 * CLASSES && A.Apply(a, step).Done?
    requires forall t {:trigger Asks(a, t)} :: Asks(a, t)
    ensures forall t {:trigger Asks(A.Apply(a, step).state, t)} :: Asks(A.Apply(a, step).state, t)
  {
    forall t ensures Asks(A.Apply(a, step).state, t) {
      assert Asks(a, t);
      assert step.Grow? ==> Asks(a, step.t);
      AsksKeep(a, step, t);
    }
  }

  /** An offset the allocator returns is in use nowhere in the optics layer. */
  lemma ObtainedIsFresh(s: State, step: O.Step, astep: A.Step)
    requires Inv(s) && Enabled(s, Obtain(step, astep))
    ensures O.Enabled(s.optics, step)
  {
    AT.StepKeeps(s.alloc, astep);
    assert Backed(s, A.Apply(s.alloc, astep).ret);
  }

  lemma ObtainBacks(s: State, step: O.Step, astep: A.Step, o: Off)
    requires Inv(s) && Enabled(s, Obtain(step, astep)) && Apply(s, Obtain(step, astep)).Ok?
    ensures Backed(Apply(s, Obtain(step, astep)).state, o)
  {
    assert Backed(s, o);
    TakenComes(s.optics, step, o);
    if o == A.Apply(s.alloc, astep).ret {
      AT.StepKeeps(s.alloc, astep);
      assert astep.SpliceSlab? ==> Asks(s.alloc, astep.t);
      ReturnIsOfClass(s.alloc, astep);
    } else if O.Outstanding(s.optics, o) {
      AT.HeldStays(s.alloc, astep, o);
    }
  }

  lemma ObtainKeeps(s: State, step: O.Step, astep: A.Step)
    requires Inv(s) && Enabled(s, Obtain(step, astep))
    ensures Apply(s, Obtain(step, astep)).Ok? && Inv(Apply(s, Obtain(step, astep)).state)
  {
    ObtainedIsFresh(s, step, astep);
    O.StepKeeps(s.optics, step);
    AT.StepKeeps(s.alloc, astep);
    var x, y := O.Apply(s.optics, step).state, A.Apply(s.alloc, astep).state;
    assert Apply(s, Obtain(step, astep)) == Ok(State(x, y));
    forall o ensures Backed(State(x, y), o) { ObtainBacks(s, step, astep, o); }
    AllAsk(s.alloc, astep);
    Assemble(x, y);
  }

  /** Whatever the optics layer gives back, the allocator may free: the block is outstanding, and the length names its
      class. */
  lemma FreeIsAllowed(s: State, step: O.Step, u: Tid)
    requires Inv(s) && Enabled(s, GiveBack(step, u))
    ensures var b := Given(s.optics, step).value; A.Enabled(s.alloc, A.Free(u, b.off, b.len))
  {
    GivenIsHeld(s.optics, step);
    assert Backed(s, Given(s.optics, step).value.off);
  }

  lemma GiveBackBacks(s: State, step: O.Step, u: Tid, o: Off)
    requires Inv(s) && Enabled(s, GiveBack(step, u)) && Apply(s, GiveBack(step, u)).Ok?
    ensures Backed(Apply(s, GiveBack(step, u)).state, o)
  {
    assert Backed(s, o);
    var b := Given(s.optics, step).value;
    GivenGoes(s.optics, step, o);
    if o != b.off && O.Outstanding(s.optics, o) {
      AT.HeldStays(s.alloc, A.Free(u, b.off, b.len), o);
    }
  }

  lemma GiveBackApplies(s: State, step: O.Step, u: Tid, b: Block)
    requires Inv(s) && Enabled(s, GiveBack(step, u)) && b == Given(s.optics, step).value
    ensures O.Apply(s.optics, step).Ok? && A.Enabled(s.alloc, A.Free(u, b.off, b.len))
    ensures |s.alloc.chain.heads| == 2 * CLASSES
    ensures A.Apply(s.alloc, A.Free(u, b.off, b.len)).Done?
    ensures Apply(s, GiveBack(step, u)) ==
      Ok(State(O.Apply(s.optics, step).state, A.Apply(s.alloc, A.Free(u, b.off, b.len)).state))
  {
    FreeIsAllowed(s, step, u);
    OpticsStepOk(s.optics, step);
    FreeOk(s.alloc, u, b.off, b.len);
  }

  lemma OpticsStepOk(s: O.State, step: O.Step)
    requires O.Inv(s) && O.Enabled(s, step)
    ensures O.Apply(s, step).Ok?
  {
    O.StepKeeps(s, step);
  }

  lemma FreeOk(a: A.State, u: Tid, off: Off, len: nat)
    requires A.Inv(a) && A.Enabled(a, A.Free(u, off, len))
    ensures A.Apply(a, A.Free(u, off, len)).Done?
  {
    AT.FreeStepKeeps(a, u, off, len);
  }

  lemma GiveBackKeeps(s: State, step: O.Step, u: Tid)
    requires Inv(s) && Enabled(s, GiveBack(step, u))
    ensures Apply(s, GiveBack(step, u)).Ok? && Inv(Apply(s, GiveBack(step, u)).state)
  {
    var b := Given(s.optics, step).value;
    GiveBackApplies(s, step, u, b);
    var x, y := O.Apply(s.optics, step).state, A.Apply(s.alloc, A.Free(u, b.off, b.len)).state;
    forall o ensures Backed(State(x, y), o) { GiveBackBacks(s, step, u, o); }
    AllAsk(s.alloc, A.Free(u, b.off, b.len));
    O.StepKeeps(s.optics, step);
    AT.StepKeeps(s.alloc, A.Free(u, b.off, b.len));
    Assemble(x, y);
  }

  lemma StepKeeps(s: State, step: Step)
    requires Inv(s) && Enabled(s, step)
    ensures Apply(s, step).Ok? && Inv(Apply(s, step).state)
  {
    match step
    case Optics(step) => OpticsKeeps(s, step);
    case Alloc(astep) => AllocKeeps(s, astep);
    case Obtain(step, astep) => ObtainKeeps(s, step, astep);
    case GiveBack(step, u) => GiveBackKeeps(s, step, u);
  }

  // ---- every run ----

  predicate Takes(s: State, step: Step, s': State) {
    Enabled(s, step) && Apply(s, step) == Ok(s')
  }

  predicate Run(ss: seq<State>, steps: seq<Step>) {
    && |ss| == |steps| + 1 && ss[0].optics == OT.Init() && A.Init(ss[0].alloc)
    && forall i {:trigger StepAt(ss, steps, i)} :: 0 <= i < |steps| ==> StepAt(ss, steps, i)
  }

  predicate StepAt(ss: seq<State>, steps: seq<Step>, i: nat) {
    i < |steps| && i + 1 < |ss| && Takes(ss[i], steps[i], ss[i + 1])
  }

  lemma InitInv(s: State)
    requires s.optics == OT.Init() && A.Init(s.alloc)
    ensures Inv(s)
  {
    OT.InitInv();
    AT.InitInv(s.alloc);
    forall o ensures Backed(s, o) {}
    forall t ensures Asks(s.alloc, t) {}
  }

  ghost predicate InvAt(ss: seq<State>, i: nat) {
    i < |ss| && forall s {:trigger Inv(s)} :: s == ss[i] ==> Inv(s)
  }

  lemma Start(ss: seq<State>, steps: seq<Step>)
    requires Run(ss, steps)
    ensures InvAt(ss, 0)
  {
    InitInv(ss[0]);
  }

  lemma Hop(ss: seq<State>, steps: seq<Step>, i: nat)
    requires Run(ss, steps) && i + 1 < |ss| && InvAt(ss, i)
    ensures InvAt(ss, i + 1)
  {
    assert StepAt(ss, steps, i);
    StepKeeps(ss[i], steps[i]);
  }

  lemma {:induction false} RunInv(ss: seq<State>, steps: seq<Step>, i: nat)
    requires Run(ss, steps) && i < |ss|
    ensures InvAt(ss, i)
    decreases i
  {
    if i == 0 {
      Start(ss, steps);
    } else {
      RunInv(ss, steps, i - 1);
      Hop(ss, steps, i - 1);
    }
  }

  /** The two layers together never crash: no offset is handed out twice, and every block the optics layer gives back is
      outstanding and of the class of the length it is given back with. */
  lemma NeverCrashes(ss: seq<State>, steps: seq<Step>, next: Step)
    requires Run(ss, steps) && Enabled(ss[|ss| - 1], next)
    ensures Apply(ss[|ss| - 1], next).Ok?
  {
    RunInv(ss, steps, |ss| - 1);
    StepKeeps(ss[|ss| - 1], next);
  }

  /** Two blocks that the optics layer holds never overlap, and each has room for what was asked. */
  lemma BlocksAreApart(ss: seq<State>, steps: seq<Step>, i: nat, a: Off, b: Off)
    requires Run(ss, steps) && i < |ss| && O.Outstanding(ss[i].optics, a) && O.Outstanding(ss[i].optics, b) && a != b
    ensures a + LenOf(ss[i].optics, a) <= b || b + LenOf(ss[i].optics, b) <= a
    ensures ss[i].alloc.base <= a && a + LenOf(ss[i].optics, a) <= ss[i].alloc.pos
  {
    RunInv(ss, steps, i);
    HeldApart(ss[i], a, b);
  }

  lemma HeldApart(s: State, a: Off, b: Off)
    requires Inv(s) && O.Outstanding(s.optics, a) && O.Outstanding(s.optics, b) && a != b
    ensures a + LenOf(s.optics, a) <= b || b + LenOf(s.optics, b) <= a
    ensures s.alloc.base <= a && a + LenOf(s.optics, a) <= s.alloc.pos
  {
    assert Backed(s, a) && Backed(s, b);
    AllocClassIsLeast(LenOf(s.optics, a));
    AllocClassIsLeast(LenOf(s.optics, b));
    assert A.Apart(s.alloc, a, b);
  }

  // ---- nothing is outstanding but what the optics layer holds ----

  ghost predicate Held(s: State, o: Off) {
    A.Outstanding(s.alloc, o) ==> O.Outstanding(s.optics, o)
  }

  lemma AllocHolds(s: State, astep: A.Step, s': State, o: Off)
    requires Inv(s) && Takes(s, Alloc(astep), s') && Held(s, o)
    ensures Held(s', o)
  {
    if A.Outstanding(s'.alloc, o) && !A.Outstanding(s.alloc, o) {
      AT.OnlyReturnsAreNew(s.alloc, astep, o);
      assert A.GeometryOk(s'.alloc) by { AT.StepKeeps(s.alloc, astep); }
    }
  }

  lemma ObtainHolds(s: State, step: O.Step, astep: A.Step, s': State, o: Off)
    requires Inv(s) && Takes(s, Obtain(step, astep), s') && Held(s, o)
    ensures Held(s', o)
  {
    TakenComes(s.optics, step, o);
    if A.Outstanding(s'.alloc, o) { AT.OnlyReturnsAreNew(s.alloc, astep, o); }
  }

  lemma GiveBackHolds(s: State, step: O.Step, u: Tid, s': State, o: Off)
    requires Inv(s) && Takes(s, GiveBack(step, u), s') && Held(s, o)
    ensures Held(s', o)
  {
    var b := Given(s.optics, step).value;
    GiveBackApplies(s, step, u, b);
    GivenGoes(s.optics, step, o);
    if o == b.off {
      AT.FreedIsNotOut(s.alloc, u, b.off, b.len);
    } else if A.Outstanding(s'.alloc, o) {
      AT.OnlyReturnsAreNew(s.alloc, A.Free(u, b.off, b.len), o);
      FreeReturnsNothing(s.alloc, u, b.off, b.len);
    }
  }

  lemma FreeReturnsNothing(a: A.State, u: Tid, off: Off, len: nat)
    requires A.Inv(a) && A.Enabled(a, A.Free(u, off, len)) && A.Apply(a, A.Free(u, off, len)).Done?
    ensures A.Apply(a, A.Free(u, off, len)).ret == 0 && !A.Outstanding(A.Apply(a, A.Free(u, off, len)).state, 0)
  {
    AT.FreeStepKeeps(a, u, off, len);
  }

  lemma HeldStep(s: State, step: Step, s': State, o: Off)
    requires Inv(s) && Takes(s, step, s') && Held(s, o)
    ensures Held(s', o)
  {
    match step
    case Optics(ostep) => QuietStepBlocks(s.optics, ostep, o);
    case Alloc(astep) => AllocHolds(s, astep, s', o);
    case Obtain(ostep, astep) => ObtainHolds(s, ostep, astep, s', o);
    case GiveBack(ostep, u) => GiveBackHolds(s, ostep, u, s', o);
  }

  /** In every run of both layers the blocks outstanding in the allocator are exactly the lenses and defer nodes of the
      optics layer: no block is lost between the two. */
  lemma {:induction false} HoldingsAgree(ss: seq<State>, steps: seq<Step>, i: nat, o: Off)
    requires Run(ss, steps) && i < |ss|
    ensures A.Outstanding(ss[i].alloc, o) <==> O.Outstanding(ss[i].optics, o)
    decreases i
  {
    RunInv(ss, steps, i);
    HeldIsBacked(ss[i], o);
    if i > 0 {
      HoldingsAgree(ss, steps, i - 1, o);
      HeldHop(ss, steps, i - 1, o);
    }
  }

  lemma HeldIsBacked(s: State, o: Off)
    requires Inv(s)
    ensures O.Outstanding(s.optics, o) ==> A.Outstanding(s.alloc, o)
  {
    assert Backed(s, o);
  }

  lemma HeldHop(ss: seq<State>, steps: seq<Step>, i: nat, o: Off)
    requires Run(ss, steps) && i + 1 < |ss| && Held(ss[i], o)
    ensures Held(ss[i + 1], o)
  {
    RunInv(ss, steps, i);
    assert StepAt(ss, steps, i);
    HeldStep(ss[i], steps[i], ss[i + 1], o);
  }
}
