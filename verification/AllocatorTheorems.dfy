/** What holds of every run of the allocator: any interleaving of allocs, fills and frees. */
module AllocatorTheorems {
  import opened SizeClass
  import opened Chains
  import opened Allocator
  import opened AllocatorProof

  lemma AllocKeeps(s: State, t: Tid, len: nat)
    requires Inv(s) && Enabled(s, Alloc(t, len))
    ensures var r := Apply(s, Alloc(t, len));
      && r.Done? && Inv(r.state)
      && (r.ret != 0 ==> GoodReturn(s, r.state, r.ret, len))
  {
    AllocClassIsLeast(len);
    var c := AllocClass(len);
    RefillKeeps(s, c.index);
    PopKeeps(Refill(s, c.index), t, c.index, c.len, len);
  }

  lemma FreeStepKeeps(s: State, t: Tid, off: Off, len: nat)
    requires Inv(s) && Enabled(s, Free(t, off, len))
    ensures var r := Apply(s, Free(t, off, len)); r.Done? && Inv(r.state) && r.ret == 0
  {
    FreeBeginKeeps(s, t, off, AllocClass(len).index);
  }

  lemma QuietStepKeeps(s: State, step: Step)
    requires Inv(s) && Enabled(s, step) && (step.GrowFails? || step.FreeLoad?)
    ensures var r := Apply(s, step); r.Done? && Inv(r.state) && r.ret == 0
  {
    assert ThreadOk(s, step.t);
    LocalStepKeeps(s, step.t, PcOf(Apply(s, step).state, step.t));
  }

  /** The length the caller of a returning step has asked for. */
  function Wanted(s: State, step: Step): nat {
    match step
    case Alloc(_, len) => len
    case SpliceSlab(t) => if PcOf(s, t).Linking? then PcOf(s, t).want else 0
    case _ => 0
  }

  /** No step crashes, the invariant persists, and a returned offset is good. */
  lemma StepKeeps(s: State, step: Step)
    requires Inv(s) && Enabled(s, step)
    ensures var r := Apply(s, step);
      r.Done? && Inv(r.state) && (r.ret != 0 ==> GoodReturn(s, r.state, r.ret, Wanted(s, step)))
  {
    match step
    case Alloc(t, len) => AllocKeeps(s, t, len);
    case Grow(t) => CarveKeeps(s, t);
    case GrowFails(t) => QuietStepKeeps(s, step);
    case LinkNext(t) => LinkKeeps(s, t);
    case SpliceSlab(t) => SpliceKeeps(s, t);
    case Free(t, off, len) => FreeStepKeeps(s, t, off, len);
    case FreeLoad(t) => QuietStepKeeps(s, step);
    case FreeStore(t) => FreeStoreKeeps(s, t);
    case FreeCas(t, spurious) => FreePushKeeps(s, t, spurious);
    case ClientWrite(off, block) => ClientWriteKeeps(s, off, block);
  }

  predicate Takes(s: State, step: Step, s': State) {
    Enabled(s, step) && |s.chain.heads| == 2 * CLASSES && Apply(s, step).Done? && Apply(s, step).state == s'
  }

  predicate Run(ss: seq<State>, steps: seq<Step>) {
    && |ss| == |steps| + 1 && Init(ss[0])
    && forall i {:trigger StepAt(ss, steps, i)} :: 0 <= i < |steps| ==> StepAt(ss, steps, i)
  }

  predicate StepAt(ss: seq<State>, steps: seq<Step>, i: nat) {
    i < |steps| && i + 1 < |ss| && Takes(ss[i], steps[i], ss[i + 1])
  }

  lemma InitInv(s: State)
    requires Init(s)
    ensures Inv(s)
  {
    forall t ensures ThreadOk(s, t) {}
    forall q | 0 <= q < |s.chain.heads| ensures HeadOk(s.chain, q) {}
  }

  lemma {:induction false} RunInv(ss: seq<State>, steps: seq<Step>, i: nat)
    requires Run(ss, steps) && i < |ss|
    ensures Inv(ss[i])
    decreases i
  {
    if i == 0 {
      InitInv(ss[0]);
    } else {
      RunInv(ss, steps, i - 1);
      assert StepAt(ss, steps, i - 1);
      StepKeeps(ss[i - 1], steps[i - 1]);
    }
  }

  /** No run can be continued into a crash, and whenever alloc_alloc or alloc_fill_class returns an
      offset it names an all-zero block that was not outstanding, is long enough, lies above the
      header and inside the region, and overlaps no other outstanding block. */
  lemma ReturnsAreGood(ss: seq<State>, steps: seq<Step>, next: Step)
    requires Run(ss, steps) && Enabled(ss[|ss| - 1], next)
    ensures var s := ss[|ss| - 1];
      |s.chain.heads| == 2 * CLASSES && Apply(s, next).Done? &&
      (Apply(s, next).ret != 0 ==> GoodReturn(s, Apply(s, next).state, Apply(s, next).ret, Wanted(s, next)))
  {
    RunInv(ss, steps, |ss| - 1);
    StepKeeps(ss[|ss| - 1], next);
  }

  /** The blocks met when following the links of list `q` from a block on. */
  ghost function Walk(s: State, q: nat, from: Off): (xs: seq<Off>)
    requires Inv(s) && (from == 0 || In(s.chain.member, from, q))
    ensures forall i :: 0 <= i < |xs| ==> In(s.chain.member, xs[i], q) && xs[i] in s.chain.rank
    ensures forall i, j :: 0 <= i < j < |xs| ==> s.chain.rank[xs[j]] < s.chain.rank[xs[i]]
    ensures xs == [] <==> from == 0
    ensures xs != [] ==> xs[0] == from && from in s.chain.rank
    decreases if from == 0 || from !in s.chain.rank then 0 else s.chain.rank[from] + 1
  {
    if from == 0 then []
    else
      assert LinkOk(s.chain, Links(s.mem), from);
      [from] + Walk(s, q, s.mem[from].first)
  }

  lemma {:induction false} WalkMeetsAll(s: State, q: nat, from: Off, o: Off)
    requires Inv(s) && In(s.chain.member, from, q) && In(s.chain.member, o, q)
    requires from in s.chain.rank && o in s.chain.rank && s.chain.rank[o] <= s.chain.rank[from]
    ensures o in Walk(s, q, from)
    decreases s.chain.rank[from]
  {
    assert LinkOk(s.chain, Links(s.mem), from);
    if o != from {
      assert SameRank(s.chain.rank, o, from) ==> o == from;
      WalkMeetsAll(s, q, s.mem[from].first, o);
    }
  }

  /** Following the links from a list head ends, never meets a block twice, stays in the list's size
      class, and meets exactly the blocks that belong to the list. */
  lemma ListIsItsMembers(ss: seq<State>, steps: seq<Step>, i: nat, q: nat)
    requires Run(ss, steps) && i < |ss| && q < |ss[i].chain.heads|
    ensures Inv(ss[i]) && (ss[i].chain.heads[q] == 0 || In(ss[i].chain.member, ss[i].chain.heads[q], q))
    ensures var xs := Walk(ss[i], q, ss[i].chain.heads[q]);
      && (forall o :: o in xs <==> In(ss[i].chain.member, o, q))
      && (forall o :: o in xs ==> o in ss[i].kind && ss[i].kind[o] == ClassOf(q))
      && (forall j, k :: 0 <= j < k < |xs| ==> xs[j] != xs[k])
  {
    RunInv(ss, steps, i);
    var s := ss[i];
    var h := s.chain.heads[q];
    assert HeadOk(s.chain, q);
    var xs := Walk(s, q, h);
    forall o ensures o in xs <==> In(s.chain.member, o, q) {
      if In(s.chain.member, o, q) { WalkMeetsAll(s, q, h, o); }
    }
  }

  /** A block that is neither outstanding nor listed is in the hands of the thread named. */
  ghost predicate HolderOk(s: State, o: Off) {
    && o in s.owner
    && match s.owner[o]
       case Held(t) => var p := PcOf(s, t); (p.Freeing? || p.Loaded? || p.Stored?) && p.off == o
       case Slab(t) => PcOf(s, t).Linking? && o in PcOf(s, t).slab
       case _ => true
  }

  ghost predicate HoldersOk(s: State) {
    forall o {:trigger HolderOk(s, o)} :: o in s.owner ==> HolderOk(s, o)
  }

  lemma AllocHolders(s: State, t: Tid, len: nat)
    requires HoldersOk(s) && Enabled(s, Alloc(t, len)) && |s.chain.heads| == 2 * CLASSES
    requires Apply(s, Alloc(t, len)).Done?
    ensures HoldersOk(Apply(s, Alloc(t, len)).state)
  {
    var s' := Apply(s, Alloc(t, len)).state;
    forall o | o in s'.owner ensures HolderOk(s', o) { assert o in s.owner ==> HolderOk(s, o); }
  }

  lemma SpliceHolders(s: State, t: Tid)
    requires HoldersOk(s) && Enabled(s, SpliceSlab(t)) && |s.chain.heads| == 2 * CLASSES && SpliceIn(s, t).Done?
    ensures HoldersOk(SpliceIn(s, t).state)
  {
    var s' := SpliceIn(s, t).state;
    forall o | o in s'.owner ensures HolderOk(s', o) { assert o in s.owner ==> HolderOk(s, o); }
  }

  lemma CarveHolders(s: State, t: Tid)
    requires HoldersOk(s) && PcOf(s, t).NeedsSlab? && Carve(s, t).Done?
    ensures HoldersOk(Carve(s, t).state)
  {
    var s' := Carve(s, t).state;
    forall o | o in s'.owner ensures HolderOk(s', o) { assert o in s.owner ==> HolderOk(s, o); }
  }

  lemma FreeHolders(s: State, step: Step)
    requires step.Free? || step.FreeLoad? || step.FreeStore? || step.FreeCas?
    requires HoldersOk(s) && |s.chain.heads| == 2 * CLASSES && Enabled(s, step) && Apply(s, step).Done?
    requires ThreadOk(s, step.t)
    ensures HoldersOk(Apply(s, step).state)
  {
    var s' := Apply(s, step).state;
    forall o | o in s'.owner ensures HolderOk(s', o) { assert o in s.owner ==> HolderOk(s, o); }
  }

  lemma QuietHolders(s: State, step: Step)
    requires step.GrowFails? || step.LinkNext? || step.ClientWrite?
    requires HoldersOk(s) && |s.chain.heads| == 2 * CLASSES && Enabled(s, step) && Apply(s, step).Done?
    ensures HoldersOk(Apply(s, step).state)
  {
    var s' := Apply(s, step).state;
    forall o | o in s'.owner ensures HolderOk(s', o) { assert o in s.owner ==> HolderOk(s, o); }
  }

  lemma StepKeepsHolders(s: State, step: Step)
    requires Inv(s) && HoldersOk(s) && Enabled(s, step) && Apply(s, step).Done?
    ensures HoldersOk(Apply(s, step).state)
  {
    match step
    case Alloc(t, len) => AllocHolders(s, t, len);
    case SpliceSlab(t) => SpliceHolders(s, t);
    case Grow(t) => CarveHolders(s, t);
    case GrowFails(_) => QuietHolders(s, step);
    case LinkNext(_) => QuietHolders(s, step);
    case ClientWrite(_, _) => QuietHolders(s, step);
    case _ =>
      assert ThreadOk(s, step.t);
      FreeHolders(s, step);
  }

  lemma {:induction false} RunHolders(ss: seq<State>, steps: seq<Step>, i: nat)
    requires Run(ss, steps) && i < |ss|
    ensures HoldersOk(ss[i])
    decreases i
  {
    if i > 0 {
      RunHolders(ss, steps, i - 1);
      RunInv(ss, steps, i - 1);
      assert StepAt(ss, steps, i - 1);
      StepKeepsHolders(ss[i - 1], steps[i - 1]);
    }
  }

  /** In every state of every run each block ever carved is, in exactly one way, outstanding, in one
      list of its own class, held by one free in flight, or part of the slab of one fill. */
  lemma BlocksAreConserved(ss: seq<State>, steps: seq<Step>, i: nat, o: Off)
    requires Run(ss, steps) && i < |ss| && o in ss[i].kind
    ensures o in ss[i].owner && o in ss[i].mem
    ensures ss[i].owner[o] == Listed <==> o in ss[i].chain.member
    ensures o in ss[i].chain.member ==> ClassOf(ss[i].chain.member[o]) == ss[i].kind[o]
    ensures match ss[i].owner[o]
            case Out => true
            case Listed => true
            case Held(t) =>
              var p := PcOf(ss[i], t);
              (p.Freeing? || p.Loaded? || p.Stored?) && p.off == o && p.k == ss[i].kind[o]
            case Slab(t) => var p := PcOf(ss[i], t); p.Linking? && o in p.slab && p.k == ss[i].kind[o]
  {
    RunInv(ss, steps, i);
    RunHolders(ss, steps, i);
    var s := ss[i];
    assert HolderOk(s, o);
    if s.owner[o].Held? { assert ThreadOk(s, s.owner[o].t); }
    if s.owner[o].Slab? {
      var t := s.owner[o].t;
      assert ThreadOk(s, t) && SlabBlock(s, t, PcOf(s, t), o);
    }
  }

  /** Carved blocks are never forgotten and never change class. */
  lemma {:induction false} CarvedBlocksStay(ss: seq<State>, steps: seq<Step>, i: nat, j: nat, o: Off)
    requires Run(ss, steps) && i <= j < |ss| && o in ss[i].kind
    ensures o in ss[j].kind && ss[j].kind[o] == ss[i].kind[o]
    decreases j
  {
    if i < j {
      CarvedBlocksStay(ss, steps, i, j - 1, o);
      KindHop(ss, steps, j - 1, o);
    }
  }

  lemma KindHop(ss: seq<State>, steps: seq<Step>, j: nat, o: Off)
    requires Run(ss, steps) && j + 1 < |ss| && o in ss[j].kind
    ensures o in ss[j + 1].kind && ss[j + 1].kind[o] == ss[j].kind[o]
  {
    RunInv(ss, steps, j);
    assert StepAt(ss, steps, j);
    KindStep(ss[j], steps[j], o);
  }

  lemma KindStep(s: State, step: Step, o: Off)
    requires Inv(s) && Enabled(s, step) && Apply(s, step).Done? && o in s.kind
    ensures o in Apply(s, step).state.kind && Apply(s, step).state.kind[o] == s.kind[o]
  {
    if step.Grow? {
      assert ThreadOk(s, step.t);
      CarveGeometry(s, step.t);
    }
  }

  // ---- outstanding blocks are left alone ----

  /** The block is outstanding as before, in its class and with its content. */
  ghost predicate Unmoved(s: State, s': State, o: Off) {
    && Outstanding(s, o) && Outstanding(s', o) && s'.kind[o] == s.kind[o]
    && o in s.mem && o in s'.mem && s'.mem[o] == s.mem[o]
  }

  lemma PopLeaves(s: State, t: Tid, k: nat, len: nat, want: nat, o: Off)
    requires ListsOk(s) && k < CLASSES && PopOrFill(s, t, k, len, want).Done? && Outstanding(s, o) && o in s.mem
    ensures Unmoved(s, PopOrFill(s, t, k, len, want).state, o)
  {
    assert HeadOk(s.chain, k);
  }

  lemma AllocLeaves(s: State, t: Tid, len: nat, o: Off)
    requires Inv(s) && Enabled(s, Alloc(t, len)) && Apply(s, Alloc(t, len)).Done? && Outstanding(s, o)
    ensures Unmoved(s, Apply(s, Alloc(t, len)).state, o)
  {
    AllocClassIsLeast(len);
    var c := AllocClass(len);
    RefillLists(s, c.index);
    PopLeaves(Refill(s, c.index), t, c.index, c.len, len, o);
  }

  lemma CarveLeaves(s: State, t: Tid, o: Off)
    requires Inv(s) && PcOf(s, t).NeedsSlab? && Carve(s, t).Done? && Outstanding(s, o)
    ensures Unmoved(s, Carve(s, t).state, o)
  {
    CarveGeometry(s, t);
  }

  lemma SpliceLeaves(s: State, t: Tid, o: Off)
    requires Inv(s) && Enabled(s, SpliceSlab(t)) && SpliceIn(s, t).Done? && Outstanding(s, o)
    ensures Unmoved(s, SpliceIn(s, t).state, o)
  {
    assert ThreadOk(s, t);
    SlabFacts(s, t);
    SpliceOthers(s, t, o);
  }

  lemma LinkLeaves(s: State, t: Tid, o: Off)
    requires Inv(s) && Enabled(s, LinkNext(t)) && LinkOne(s, t).Done? && Outstanding(s, o)
    ensures Unmoved(s, LinkOne(s, t).state, o)
  {
    assert ThreadOk(s, t);
    assert SlabBlock(s, t, PcOf(s, t), PcOf(s, t).node);
  }

  predicate OfFree(step: Step) {
    step.Free? || step.FreeLoad? || step.FreeStore? || step.FreeCas?
  }

  lemma FreeLeaves(s: State, step: Step, o: Off)
    requires Inv(s) && OfFree(step) && Enabled(s, step) && Apply(s, step).Done? && Outstanding(s, o)
    requires !(step.Free? && step.off == o)
    ensures Unmoved(s, Apply(s, step).state, o)
  {
    assert ThreadOk(s, step.t);
  }

  /** No step but its own free takes an outstanding block away, and none but a write of its holder changes what it
      holds. */
  lemma HeldStays(s: State, step: Step, o: Off)
    requires Inv(s) && Enabled(s, step) && Apply(s, step).Done? && Outstanding(s, o) && !(step.Free? && step.off == o)
    ensures Outstanding(Apply(s, step).state, o) && Apply(s, step).state.kind[o] == s.kind[o]
    ensures !(step.ClientWrite? && step.off == o) ==> Unmoved(s, Apply(s, step).state, o)
  {
    match step
    case Alloc(t, len) => AllocLeaves(s, t, len, o);
    case Grow(t) => CarveLeaves(s, t, o);
    case SpliceSlab(t) => SpliceLeaves(s, t, o);
    case LinkNext(t) => LinkLeaves(s, t, o);
    case GrowFails(_) =>
    case ClientWrite(_, _) =>
    case _ => FreeLeaves(s, step, o);
  }

  /** As long as its holder neither frees nor writes it, an outstanding block stays outstanding with what it holds,
      whatever all other threads allocate and free. */
  lemma {:induction false} HeldBlocksAreLeftAlone(ss: seq<State>, steps: seq<Step>, i: nat, j: nat, o: Off)
    requires Run(ss, steps) && i <= j < |ss| && Outstanding(ss[i], o)
    requires forall k :: i <= k < j ==>
        !(steps[k].Free? && steps[k].off == o) && !(steps[k].ClientWrite? && steps[k].off == o)
    ensures Unmoved(ss[i], ss[j], o)
    decreases j
  {
    if i < j {
      HeldBlocksAreLeftAlone(ss, steps, i, j - 1, o);
      HeldHop(ss, steps, j - 1, o);
    } else {
      RunInv(ss, steps, i);
    }
  }

  lemma HeldHop(ss: seq<State>, steps: seq<Step>, j: nat, o: Off)
    requires Run(ss, steps) && j + 1 < |ss| && Outstanding(ss[j], o)
    requires !(steps[j].Free? && steps[j].off == o) && !(steps[j].ClientWrite? && steps[j].off == o)
    ensures Unmoved(ss[j], ss[j + 1], o)
  {
    RunInv(ss, steps, j);
    assert StepAt(ss, steps, j);
    HeldStays(ss[j], steps[j], o);
  }

  /** No block becomes outstanding but the one that is returned. */
  lemma OnlyReturnsAreNew(s: State, step: Step, o: Off)
    requires Inv(s) && Enabled(s, step) && Apply(s, step).Done? && Outstanding(Apply(s, step).state, o)
    ensures Outstanding(s, o) || o == Apply(s, step).ret
  {
    match step
    case Alloc(t, len) => AllocReturnsNew(s, t, len, o);
    case Grow(t) => CarveMakesNone(s, t, o);
    case SpliceSlab(t) => SpliceReturnsNew(s, t, o);
    case _ =>
  }

  lemma AllocReturnsNew(s: State, t: Tid, len: nat, o: Off)
    requires Enabled(s, Alloc(t, len)) && |s.chain.heads| == 2 * CLASSES && Apply(s, Alloc(t, len)).Done?
    requires Outstanding(Apply(s, Alloc(t, len)).state, o)
    ensures Outstanding(s, o) || o == Apply(s, Alloc(t, len)).ret
  {
  }

  lemma CarveMakesNone(s: State, t: Tid, o: Off)
    requires PcOf(s, t).NeedsSlab? && Carve(s, t).Done? && Outstanding(Carve(s, t).state, o)
    ensures Outstanding(s, o)
  {
  }

  lemma SpliceReturnsNew(s: State, t: Tid, o: Off)
    requires Enabled(s, SpliceSlab(t)) && |s.chain.heads| == 2 * CLASSES && SpliceIn(s, t).Done?
    requires Outstanding(SpliceIn(s, t).state, o)
    ensures Outstanding(s, o) || o == SpliceIn(s, t).ret
  {
  }

  /** A freed block is not outstanding any more. */
  lemma FreedIsNotOut(s: State, t: Tid, off: Off, len: nat)
    requires Enabled(s, Free(t, off, len)) && |s.chain.heads| == 2 * CLASSES && Apply(s, Free(t, off, len)).Done?
    ensures !Outstanding(Apply(s, Free(t, off, len)).state, off)
  {
  }
}
