/**
 What a caller of the allocator gets. A request takes a block from the lists of its class if there is one, and otherwise
 carves a slab in a bounded number of steps and gets its first block; it comes back empty-handed only if the region
 cannot grow. A free ends with its block on the free list of its class. Steps of others fall anywhere in between.
 */
module AllocatorProgress {
  import opened SizeClass
  import opened Chains
  import opened Allocator
  import opened AllocatorProof
  import opened AllocatorTheorems

  /** The step is one of thread `t`. */
  predicate Of(step: Step, t: Tid) {
    !step.ClientWrite? && step.t == t
  }

  predicate Starts(step: Step) {
    step.Alloc? || step.Free?
  }

  lemma OthersLeaveMe(s: State, step: Step, s': State, t: Tid)
    requires Takes(s, step, s') && !Of(step, t)
    ensures PcOf(s', t) == PcOf(s, t)
  {
    if step.Alloc? { AllocLeavesPc(s, step.t, step.len, t); }
  }

  lemma AllocLeavesPc(s: State, u: Tid, len: nat, t: Tid)
    requires Enabled(s, Alloc(u, len)) && |s.chain.heads| == 2 * CLASSES && Apply(s, Alloc(u, len)).Done? && t != u
    ensures PcOf(Apply(s, Alloc(u, len)).state, t) == PcOf(s, t)
  {
  }

  // ---- alloc_alloc ----

  /** A block of the class is on one of its two lists. */
  predicate HasBlock(s: State, k: nat)
    requires k < CLASSES && |s.chain.heads| == 2 * CLASSES
  {
    s.chain.heads[k] != 0 || s.chain.heads[CLASSES + k] != 0
  }

  /** A request is served from the lists of its class whenever they are not empty, and the region does not grow. */
  lemma ListedBlocksAreUsed(s: State, t: Tid, len: nat)
    requires Inv(s) && Enabled(s, Alloc(t, len))
    ensures var k := AllocClass(len).index; var r := Apply(s, Alloc(t, len));
      && k < CLASSES && r.Done? && r.state.pos == s.pos && r.state.kind == s.kind
      && (r.ret != 0 <==> HasBlock(s, k))
      && (r.ret != 0 ==> r.ret in s.chain.member && ClassOf(s.chain.member[r.ret]) == k && PcOf(r.state, t).Idle?)
      && (r.ret == 0 ==> PcOf(r.state, t) == NeedsSlab(k, len))
  {
    AllocClassIsLeast(len);
    var c := AllocClass(len);
    AllocKeeps(s, t, len);
    ClassIsUsed(s, t, c.index, c.len, len);
  }

  lemma ClassIsUsed(s: State, t: Tid, k: nat, len: nat, want: nat)
    requires ListsOk(s) && k < CLASSES && PopOrFill(Refill(s, k), t, k, len, want).Done? && PcOf(s, t).Idle?
    ensures var r := PopOrFill(Refill(s, k), t, k, len, want);
      && r.state.pos == s.pos && r.state.kind == s.kind && (r.ret != 0 <==> HasBlock(s, k))
      && (r.ret != 0 ==> r.ret in s.chain.member && ClassOf(s.chain.member[r.ret]) == k && PcOf(r.state, t).Idle?)
      && (r.ret == 0 ==> PcOf(r.state, t) == NeedsSlab(k, want))
  {
    RefilledHead(s, k);
    PopUses(Refill(s, k), t, k, len, want);
  }

  lemma PopUses(s: State, t: Tid, k: nat, len: nat, want: nat)
    requires k < CLASSES && |s.chain.heads| == 2 * CLASSES && PopOrFill(s, t, k, len, want).Done? && PcOf(s, t).Idle?
    ensures var r := PopOrFill(s, t, k, len, want);
      && r.ret == s.chain.heads[k] && r.state.pos == s.pos && r.state.kind == s.kind
      && PcOf(r.state, t) == if r.ret == 0 then NeedsSlab(k, want) else Idle
  {
  }

  lemma RefilledHead(s: State, k: nat)
    requires ListsOk(s) && k < CLASSES
    ensures Refill(s, k).chain.heads[k] != 0 <==> HasBlock(s, k)
    ensures Refill(s, k).chain.heads[k] != 0 ==>
      Refill(s, k).chain.heads[k] in s.chain.member && ClassOf(s.chain.member[Refill(s, k).chain.heads[k]]) == k
  {
    assert HeadOk(s.chain, k) && HeadOk(s.chain, FreeList(k));
  }

  /** A request for `len` bytes of class `k` that has made `own` steps since it found its lists empty. */
  ghost predicate Filling(s: State, t: Tid, k: nat, len: nat, own: nat) {
    && k < CLASSES
    && match PcOf(s, t)
       case NeedsSlab(k', want) => k' == k && want == len && own == 0
       case Linking(k', want, start, end, node, _) =>
         && k' == k && want == len && end == start + SlabBlocks(k) * ClassLen(k)
         && node == start + own * ClassLen(k)
       case _ => false
  }

  lemma GrowFills(s: State, t: Tid, k: nat, len: nat, s': State)
    requires Inv(s) && Takes(s, Grow(t), s') && Filling(s, t, k, len, 0)
    ensures Filling(s', t, k, len, 1)
  {
    SlabHoldsItsBlocks(k);
  }

  lemma LinkFills(s: State, t: Tid, k: nat, len: nat, own: nat, s': State)
    requires Inv(s) && Takes(s, LinkNext(t), s') && Filling(s, t, k, len, own)
    ensures Filling(s', t, k, len, own + 1)
  {
    assert (own + 1) * ClassLen(k) == own * ClassLen(k) + ClassLen(k);
  }

  /** How far a fill has come: always short of the end of its slab. */
  lemma FillIsShort(s: State, t: Tid, k: nat, len: nat, own: nat)
    requires Inv(s) && Filling(s, t, k, len, own)
    ensures own < SlabBlocks(k)
  {
    assert ThreadOk(s, t);
    if PcOf(s, t).Linking? { RoomInRow(own, SlabBlocks(k), ClassLen(k)); }
  }

  lemma RoomInRow(own: nat, n: nat, len: nat)
    requires len > 0
    ensures own * len + len <= n * len <==> own < n
    ensures own * len + len >= n * len <==> own + 1 >= n
  {
    var rest: int := n - own;
    assert n * len == own * len + rest * len;
    if rest >= 2 {
      assert rest * len >= 2 * len;
    } else if rest <= 0 {
      assert rest * len <= 0;
    }
  }

  predicate CanFill(s: State, t: Tid) {
    Enabled(s, Grow(t)) || Enabled(s, LinkNext(t)) || Enabled(s, SpliceSlab(t))
  }

  /** What a step returns to its caller, 0 for nothing. */
  function Ret(s: State, step: Step): Off {
    if Enabled(s, step) && |s.chain.heads| == 2 * CLASSES && Apply(s, step).Done? then Apply(s, step).ret else 0
  }

  /** A step of thread `t` hands it a good block for `len` bytes. */
  ghost predicate Serves(s: State, step: Step, s': State, t: Tid, len: nat) {
    Of(step, t) && Takes(s, step, s') && Ret(s, step) != 0 && GoodReturn(s, s', Ret(s, step), len)
  }

  lemma SpliceServes(s: State, t: Tid, k: nat, len: nat, own: nat, s': State)
    requires Inv(s) && Takes(s, SpliceSlab(t), s') && Filling(s, t, k, len, own)
    ensures Serves(s, SpliceSlab(t), s', t, len) && PcOf(s', t).Idle? && own + 1 == SlabBlocks(k)
  {
    StepKeeps(s, SpliceSlab(t));
    assert ThreadOk(s, t);
    SlabFacts(s, t);
    FillIsShort(s, t, k, len, own);
    RoomInRow(own, SlabBlocks(k), ClassLen(k));
  }

  /** The next step of a fill goes on with it or serves it. */
  lemma FillStep(s: State, step: Step, s': State, t: Tid, k: nat, len: nat, own: nat)
    requires Inv(s) && Takes(s, step, s') && Filling(s, t, k, len, own) && Of(step, t) && !step.GrowFails?
    ensures Filling(s', t, k, len, own + 1) || (Serves(s, step, s', t, len) && PcOf(s', t).Idle?)
  {
    match step
    case Grow(_) => GrowFills(s, t, k, len, s');
    case LinkNext(_) => LinkFills(s, t, k, len, own, s');
    case SpliceSlab(_) => SpliceServes(s, t, k, len, own, s');
    case _ =>
  }

  lemma FillCanGoOn(s: State, t: Tid, k: nat, len: nat, own: nat)
    requires Inv(s) && Filling(s, t, k, len, own)
    ensures CanFill(s, t)
  {
    assert ThreadOk(s, t);
  }

  // ---- every run ----

  /** The steps of thread `t` from `i` up to `j`. */
  function Own(steps: seq<Step>, i: nat, j: nat, t: Tid): nat
    requires i <= j <= |steps|
  {
    if i == j then 0 else Own(steps, i, j - 1, t) + if Of(steps[j - 1], t) then 1 else 0
  }

  /** From step `i` up to `j` thread `t` makes one request, and the region does not refuse it. */
  predicate OneRequest(steps: seq<Step>, i: nat, j: nat, t: Tid, len: nat) {
    && i < j <= |steps| && steps[i] == Alloc(t, len)
    && forall k :: i < k < j && Of(steps[k], t) ==> !Starts(steps[k]) && !steps[k].GrowFails?
  }

  ghost predicate ServedBy(ss: seq<State>, steps: seq<Step>, k: nat, t: Tid, len: nat) {
    k < |steps| && k + 1 < |ss| && Serves(ss[k], steps[k], ss[k + 1], t, len)
  }

  /** The request has been served, once, or is being filled. */
  ghost predicate Attended(ss: seq<State>, steps: seq<Step>, i: nat, j: nat, t: Tid, k: nat, len: nat)
    requires i < j <= |steps| && j < |ss|
  {
    || Filling(ss[j], t, k, len, Own(steps, i + 1, j, t))
    || (PcOf(ss[j], t).Idle? && exists h :: i <= h < j && ServedBy(ss, steps, h, t, len))
  }

  lemma RequestBegins(ss: seq<State>, steps: seq<Step>, i: nat, t: Tid, k: nat, len: nat)
    requires Run(ss, steps) && OneRequest(steps, i, i + 1, t, len) && len <= MAX_LEN && k == AllocClass(len).index
    ensures Attended(ss, steps, i, i + 1, t, k, len)
  {
    RunInv(ss, steps, i);
    assert StepAt(ss, steps, i);
    AllocBegins(ss[i], t, k, len, ss[i + 1]);
    assert Serves(ss[i], steps[i], ss[i + 1], t, len) ==> ServedBy(ss, steps, i, t, len);
  }

  lemma AllocBegins(s: State, t: Tid, k: nat, len: nat, s': State)
    requires Inv(s) && Takes(s, Alloc(t, len), s') && k == AllocClass(len).index
    ensures Filling(s', t, k, len, 0) || (Serves(s, Alloc(t, len), s', t, len) && PcOf(s', t).Idle?)
  {
    ListedBlocksAreUsed(s, t, len);
    AllocKeeps(s, t, len);
  }

  /** An idle thread stays idle until it starts a call. */
  lemma IdleStaysIdle(s: State, step: Step, s': State, t: Tid)
    requires Takes(s, step, s') && PcOf(s, t).Idle? && !(Of(step, t) && Starts(step))
    ensures PcOf(s', t).Idle?
  {
    if !Of(step, t) { OthersLeaveMe(s, step, s', t); }
  }

  lemma FillingStep(s: State, step: Step, s': State, t: Tid, k: nat, len: nat, own: nat)
    requires Inv(s) && Takes(s, step, s') && Filling(s, t, k, len, own) && (Of(step, t) ==> !step.GrowFails?)
    ensures Of(step, t) ==> Filling(s', t, k, len, own + 1) || (Serves(s, step, s', t, len) && PcOf(s', t).Idle?)
    ensures !Of(step, t) ==> Filling(s', t, k, len, own)
  {
    if Of(step, t) { FillStep(s, step, s', t, k, len, own); } else { OthersLeaveMe(s, step, s', t); }
  }

  lemma RequestHop(ss: seq<State>, steps: seq<Step>, i: nat, j: nat, t: Tid, k: nat, len: nat)
    requires Run(ss, steps) && i < j < |steps| && OneRequest(steps, i, j + 1, t, len)
    requires Attended(ss, steps, i, j, t, k, len)
    ensures Attended(ss, steps, i, j + 1, t, k, len)
  {
    RunInv(ss, steps, j);
    assert StepAt(ss, steps, j);
    var own := Own(steps, i + 1, j, t);
    if Filling(ss[j], t, k, len, own) {
      FillingStep(ss[j], steps[j], ss[j + 1], t, k, len, own);
      assert Own(steps, i + 1, j + 1, t) == own + if Of(steps[j], t) then 1 else 0;
      assert Serves(ss[j], steps[j], ss[j + 1], t, len) ==> ServedBy(ss, steps, j, t, len);
    } else {
      var h :| i <= h < j && ServedBy(ss, steps, h, t, len);
      IdleStaysIdle(ss[j], steps[j], ss[j + 1], t);
    }
  }

  lemma OneRequestSoFar(steps: seq<Step>, i: nat, j: nat, t: Tid, len: nat)
    requires OneRequest(steps, i, j, t, len) && i + 1 < j
    ensures OneRequest(steps, i, j - 1, t, len)
  {
  }

  lemma {:induction false} RequestRun(ss: seq<State>, steps: seq<Step>, i: nat, j: nat, t: Tid, k: nat, len: nat)
    requires Run(ss, steps) && OneRequest(steps, i, j, t, len) && Attended(ss, steps, i, i + 1, t, k, len)
    ensures Attended(ss, steps, i, j, t, k, len)
    decreases j
  {
    if j > i + 1 {
      OneRequestSoFar(steps, i, j, t, len);
      RequestRun(ss, steps, i, j - 1, t, k, len);
      RequestHop(ss, steps, i, j - 1, t, k, len);
    }
  }

  /** A request that the region does not refuse ends with a good block in the hands of its caller. Until then the caller
      always has a step to take, and it takes fewer than there are blocks in a slab. */
  lemma RequestsAreServed(ss: seq<State>, steps: seq<Step>, i: nat, j: nat, t: Tid, len: nat)
    requires Run(ss, steps) && OneRequest(steps, i, j, t, len)
    ensures len <= MAX_LEN && AllocClass(len).index < CLASSES
    ensures PcOf(ss[j], t).Idle? ==> exists k :: i <= k < j && ServedBy(ss, steps, k, t, len)
    ensures !PcOf(ss[j], t).Idle? ==> CanFill(ss[j], t) && Own(steps, i + 1, j, t) < SlabBlocks(AllocClass(len).index)
  {
    RunInv(ss, steps, i);
    assert StepAt(ss, steps, i);
    AllocClassIsLeast(len);
    var k := AllocClass(len).index;
    RequestBegins(ss, steps, i, t, k, len);
    RequestRun(ss, steps, i, j, t, k, len);
    RunInv(ss, steps, j);
    if !PcOf(ss[j], t).Idle? {
      FillIsShort(ss[j], t, k, len, Own(steps, i + 1, j, t));
      FillCanGoOn(ss[j], t, k, len, Own(steps, i + 1, j, t));
    }
  }

  // ---- alloc_free ----

  function FreeSteps(p: Pc): nat {
    match p
    case Freeing(_, _) => 3
    case Loaded(_, _, _) => 2
    case Stored(_, _, _) => 1
    case _ => 0
  }

  /** The compare-and-exchange fails: by itself, or because the head has changed since it was loaded. */
  predicate LosesRace(s: State, step: Step) {
    step.FreeCas? && PcOf(s, step.t).Stored? && FreeList(PcOf(s, step.t).k) < |s.chain.heads| &&
    (step.spurious || s.chain.heads[FreeList(PcOf(s, step.t).k)] != PcOf(s, step.t).top)
  }

  /** The push that ends a free: the block is the head of the free list of its class. */
  ghost predicate Lists(s: State, step: Step, s': State, t: Tid, off: Off) {
    && step.FreeCas? && step.t == t && off in s.kind && FreeList(s.kind[off]) < |s'.chain.heads|
    && In(s'.chain.member, off, FreeList(s.kind[off])) && s'.chain.heads[FreeList(s.kind[off])] == off
  }

  /** A free of the block `off` in flight. */
  ghost predicate Freeing(s: State, t: Tid, off: Off) {
    var p := PcOf(s, t);
    (p.Freeing? || p.Loaded? || p.Stored?) && p.off == off
  }

  lemma FreeStep(s: State, step: Step, s': State, t: Tid, off: Off)
    requires Inv(s) && Takes(s, step, s') && Freeing(s, t, off) && Of(step, t)
    ensures FreeSteps(PcOf(s', t)) + 1 == FreeSteps(PcOf(s, t)) + if LosesRace(s, step) then 2 else 0
    ensures Freeing(s', t, off) || (Lists(s, step, s', t, off) && PcOf(s', t).Idle?)
  {
    assert ThreadOk(s, t);
  }

  /** How many of the steps of thread `t` lose a race. */
  function Races(ss: seq<State>, steps: seq<Step>, i: nat, j: nat, t: Tid): nat
    requires i <= j <= |steps| <= |ss|
  {
    if i == j then 0
    else Races(ss, steps, i, j - 1, t) + if Of(steps[j - 1], t) && LosesRace(ss[j - 1], steps[j - 1]) then 1 else 0
  }

  predicate OneFree(steps: seq<Step>, i: nat, j: nat, t: Tid, off: Off, len: nat) {
    && i < j <= |steps| && steps[i] == Free(t, off, len)
    && forall k :: i < k < j && Of(steps[k], t) ==> !Starts(steps[k])
  }

  ghost predicate ListedBy(ss: seq<State>, steps: seq<Step>, k: nat, t: Tid, off: Off) {
    k < |steps| && k + 1 < |ss| && Lists(ss[k], steps[k], ss[k + 1], t, off)
  }

  ghost predicate FreeAttended(ss: seq<State>, steps: seq<Step>, i: nat, j: nat, t: Tid, off: Off)
    requires i < j <= |steps| < |ss|
  {
    || (Freeing(ss[j], t, off) &&
        Own(steps, i + 1, j, t) + FreeSteps(PcOf(ss[j], t)) == 3 + 2 * Races(ss, steps, i + 1, j, t))
    || (PcOf(ss[j], t).Idle? && exists k :: i < k < j && ListedBy(ss, steps, k, t, off))
  }

  lemma FreeingStep(s: State, step: Step, s': State, t: Tid, off: Off)
    requires Inv(s) && Takes(s, step, s') && Freeing(s, t, off)
    ensures Of(step, t) ==>
      && FreeSteps(PcOf(s', t)) + 1 == FreeSteps(PcOf(s, t)) + (if LosesRace(s, step) then 2 else 0)
      && (Freeing(s', t, off) || (Lists(s, step, s', t, off) && PcOf(s', t).Idle?))
    ensures !Of(step, t) ==> PcOf(s', t) == PcOf(s, t)
  {
    if Of(step, t) { FreeStep(s, step, s', t, off); } else { OthersLeaveMe(s, step, s', t); }
  }

  lemma FreeHop(ss: seq<State>, steps: seq<Step>, i: nat, j: nat, t: Tid, off: Off, len: nat)
    requires Run(ss, steps) && i < j < |steps| && OneFree(steps, i, j + 1, t, off, len)
    requires FreeAttended(ss, steps, i, j, t, off)
    ensures FreeAttended(ss, steps, i, j + 1, t, off)
  {
    RunInv(ss, steps, j);
    assert StepAt(ss, steps, j);
    if Freeing(ss[j], t, off) {
      FreeingStep(ss[j], steps[j], ss[j + 1], t, off);
      assert Lists(ss[j], steps[j], ss[j + 1], t, off) ==> ListedBy(ss, steps, j, t, off);
    } else {
      var k :| i < k < j && ListedBy(ss, steps, k, t, off);
      IdleStaysIdle(ss[j], steps[j], ss[j + 1], t);
    }
  }

  lemma {:induction false} FreeRun(ss: seq<State>, steps: seq<Step>, i: nat, j: nat, t: Tid, off: Off, len: nat)
    requires Run(ss, steps) && OneFree(steps, i, j, t, off, len)
    ensures FreeAttended(ss, steps, i, j, t, off)
    decreases j
  {
    if j == i + 1 {
      RunInv(ss, steps, i);
      assert StepAt(ss, steps, i);
    } else {
      FreeRun(ss, steps, i, j - 1, t, off, len);
      FreeHop(ss, steps, i, j - 1, t, off, len);
    }
  }

  /** A free ends with its block at the head of the free list of its class, after three more steps of its own and two
      for each lost race. */
  lemma FreesAreListed(ss: seq<State>, steps: seq<Step>, i: nat, j: nat, t: Tid, off: Off, len: nat)
    requires Run(ss, steps) && OneFree(steps, i, j, t, off, len)
    ensures PcOf(ss[j], t).Idle? ==> exists k :: i < k < j && ListedBy(ss, steps, k, t, off)
    ensures !PcOf(ss[j], t).Idle? ==>
      CanFree(ss[j], t) && Own(steps, i + 1, j, t) < 3 + 2 * Races(ss, steps, i + 1, j, t)
  {
    FreeRun(ss, steps, i, j, t, off, len);
    RunInv(ss, steps, j);
    if Freeing(ss[j], t, off) { FreeCanGoOn(ss[j], t, off); }
  }

  predicate CanFree(s: State, t: Tid) {
    Enabled(s, FreeLoad(t)) || Enabled(s, FreeStore(t)) || Enabled(s, FreeCas(t, false))
  }

  lemma FreeCanGoOn(s: State, t: Tid, off: Off)
    requires Inv(s) && Freeing(s, t, off)
    ensures CanFree(s, t)
  {
    assert ThreadOk(s, t);
  }
}
