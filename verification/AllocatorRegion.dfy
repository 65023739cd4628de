/**
 The allocator on top of the region. A slab is carved in the step in which region_grow stores its new position; the
 other stores of a grow, and the two loads of every reader, interleave freely with everything the allocator does.
 */
module AllocatorRegion {
  import A = Allocator
  import AT = AllocatorTheorems
  import R = Region
  import opened Bits
  import opened SizeClass

  type Off = nat
  type Tid = nat

  datatype State = State(alloc: A.State, region: R.State)

  datatype Step = Alloc(astep: A.Step) | Region(rstep: R.Step) | Carve(t: Tid, rstep: R.Step)

  predicate Init(s: State) {
    A.Init(s.alloc) && R.Init(s.region) && s.alloc.pos == s.region.pos && s.alloc.base == s.region.base
  }

  /** The step makes a grow by `len` bytes visible. */
  predicate Grants(s: R.State, step: R.Step, len: nat) {
    || step == R.GrowInPlace(len)
    || (step.StorePos? && s.grower.PtrStored? && s.grower.newPos == s.grower.oldPos + len)
  }

  predicate Enabled(s: State, step: Step) {
    match step
    case Alloc(astep) => A.Enabled(s.alloc, astep) && !astep.Grow? && |s.alloc.chain.heads| == 2 * CLASSES
    case Region(rstep) => R.Enabled(s.region, rstep) && !rstep.GrowInPlace? && !rstep.StorePos?
    case Carve(t, rstep) =>
      && A.Enabled(s.alloc, A.Grow(t)) && |s.alloc.chain.heads| == 2 * CLASSES && R.Enabled(s.region, rstep)
      && A.PcOf(s.alloc, t).k < CLASSES && Grants(s.region, rstep, SlabLen(A.PcOf(s.alloc, t).k))
  }

  function AllocStep(step: Step): A.Step
    requires !step.Region?
  {
    if step.Alloc? then step.astep else A.Grow(step.t)
  }

  predicate Takes(s: State, step: Step, s': State) {
    && Enabled(s, step)
    && (if step.Alloc? then s'.region == s.region else s'.region == R.Apply(s.region, step.rstep))
    && (if step.Region? then s'.alloc == s.alloc else AT.Takes(s.alloc, AllocStep(step), s'.alloc))
  }

  predicate Run(ss: seq<State>, steps: seq<Step>) {
    && |ss| == |steps| + 1 && Init(ss[0])
    && forall i {:trigger StepAt(ss, steps, i)} :: 0 <= i < |steps| ==> StepAt(ss, steps, i)
  }

  predicate StepAt(ss: seq<State>, steps: seq<Step>, i: nat) {
    i < |steps| && i + 1 < |ss| && Takes(ss[i], steps[i], ss[i + 1])
  }

  ghost predicate Inv(s: State) {
    A.Inv(s.alloc) && R.Inv(s.region) && s.alloc.pos == s.region.pos
  }

  lemma AllocPosition(a: A.State, step: A.Step, a': A.State)
    requires AT.Takes(a, step, a')
    ensures !step.Grow? ==> a'.pos == a.pos
    ensures step.Grow? ==> A.PcOf(a, step.t).k < CLASSES && a'.pos == a.pos + SlabLen(A.PcOf(a, step.t).k)
  {
  }

  lemma RegionPosition(r: R.State, step: R.Step, len: nat)
    requires R.MapsOk(r) && R.Enabled(r, step)
    ensures !step.GrowInPlace? && !step.StorePos? ==> R.Apply(r, step).pos == r.pos
    ensures Grants(r, step, len) ==> R.Apply(r, step).pos == r.pos + len
  {
  }

  lemma PositionsAgree(s: State, step: Step, s': State)
    requires Inv(s) && Takes(s, step, s')
    ensures s'.alloc.pos == s'.region.pos
  {
    if !step.Region? { AllocPosition(s.alloc, AllocStep(step), s'.alloc); }
    if !step.Alloc? {
      RegionPosition(s.region, step.rstep, if step.Carve? then SlabLen(A.PcOf(s.alloc, step.t).k) else 0);
    }
  }

  lemma StepKeeps(s: State, step: Step, s': State)
    requires Inv(s) && Takes(s, step, s')
    ensures Inv(s')
  {
    PositionsAgree(s, step, s');
    if !step.Region? { AT.StepKeeps(s.alloc, AllocStep(step)); }
    if !step.Alloc? { R.StepKeeps(s.region, step.rstep); }
  }

  lemma {:induction false} RunInv(ss: seq<State>, steps: seq<Step>, i: nat)
    requires Run(ss, steps) && i < |ss|
    ensures Inv(ss[i])
    decreases i
  {
    if i > 0 {
      RunInv(ss, steps, i - 1);
      assert StepAt(ss, steps, i - 1);
      StepKeeps(ss[i - 1], steps[i - 1], ss[i]);
    } else {
      AT.InitInv(ss[0].alloc);
      forall t ensures R.ReaderOk(ss[0].region, t) {}
    }
  }

  lemma BlockStep(s: State, step: Step, s': State, o: Off)
    requires Inv(s) && Takes(s, step, s') && o in s.alloc.kind
    ensures o in s'.alloc.kind && s'.alloc.kind[o] == s.alloc.kind[o]
  {
    if !step.Region? { AT.KindStep(s.alloc, AllocStep(step), o); }
  }

  /** A block once carved stays where it is. */
  lemma {:induction false} BlocksStay(ss: seq<State>, steps: seq<Step>, i: nat, j: nat, o: Off)
    requires Run(ss, steps) && i <= j < |ss| && o in ss[i].alloc.kind
    ensures o in ss[j].alloc.kind && ss[j].alloc.kind[o] == ss[i].alloc.kind[o]
    decreases j
  {
    if i < j {
      BlocksStay(ss, steps, i, j - 1, o);
      BlockHop(ss, steps, j - 1, o);
    }
  }

  lemma BlockHop(ss: seq<State>, steps: seq<Step>, j: nat, o: Off)
    requires Run(ss, steps) && j + 1 < |ss| && o in ss[j].alloc.kind
    ensures o in ss[j + 1].alloc.kind && ss[j + 1].alloc.kind[o] == ss[j].alloc.kind[o]
  {
    RunInv(ss, steps, j);
    assert StepAt(ss, steps, j);
    BlockStep(ss[j], steps[j], ss[j + 1], o);
  }

  /** The reader of thread `t` makes its two loads in steps `i` and `j`. */
  predicate Reads(steps: seq<Step>, i: nat, j: nat, t: Tid, off: nat, len: nat) {
    && i < j < |steps| && steps[i] == Region(R.LoadPtr(t, off, len)) && steps[j] == Region(R.LoadPos(t))
    && forall k :: i < k < j ==> steps[k] != Region(R.LoadPos(t))
  }

  lemma ReaderStays(s: State, step: Step, s': State, t: Tid)
    requires Takes(s, step, s') && R.ReaderOf(s.region, t).HasPtr? && step != Region(R.LoadPos(t))
    ensures R.ReaderOf(s'.region, t) == R.ReaderOf(s.region, t)
  {
  }

  lemma {:induction false} ReaderWaits(ss: seq<State>, steps: seq<Step>, i: nat, j: nat, t: Tid)
    requires Run(ss, steps) && i < j <= |steps| && steps[i].Region? && steps[i].rstep.LoadPtr? && steps[i].rstep.t == t
    requires forall k :: i < k < j ==> steps[k] != Region(R.LoadPos(t))
    ensures R.ReaderOf(ss[j].region, t) ==
            R.HasPtr(steps[i].rstep.off, steps[i].rstep.len, ss[i].region.ptr, ss[i].region.pos)
    decreases j
  {
    assert StepAt(ss, steps, j - 1);
    if j > i + 1 {
      ReaderWaits(ss, steps, i, j - 1, t);
      ReaderStays(ss[j - 1], steps[j - 1], ss[j], t);
    }
  }

  /** What lies in a block that was carved before the load of the mapping is read inside that mapping. */
  lemma CarvedBlocksAreReadable(ss: seq<State>, steps: seq<Step>, i: nat, j: nat, t: Tid, off: nat, len: nat, o: Off)
    requires Run(ss, steps) && Reads(steps, i, j, t, off, len) && o in ss[i].alloc.kind && ss[i].alloc.kind[o] < CLASSES
    requires o <= off && off + len <= o + ClassLen(ss[i].alloc.kind[o])
    ensures R.ReaderOf(ss[j].region, t).HasPtr? && R.InsideItsMapping(ss[j].region, R.Result(ss[j].region, t))
    ensures off + len < TWO_64 ==> R.Result(ss[j].region, t) == R.Range(ss[i].region.ptr, off, len)
  {
    RunInv(ss, steps, i);
    RunInv(ss, steps, j);
    ReaderWaits(ss, steps, i, j, t);
    R.SafeBelowSeenPosition(ss[j].region, t);
  }

  /** The step returns the block at `off` to a caller of alloc_alloc that asked for `len` bytes. */
  predicate Returns(s: State, step: Step, off: Off, len: nat) {
    && !step.Region? && Enabled(s, step)
    && A.Apply(s.alloc, AllocStep(step)).Done? && A.Apply(s.alloc, AllocStep(step)).ret == off != 0
    && AT.Wanted(s.alloc, AllocStep(step)) == len
  }

  lemma ReturnedIsCarved(s: State, step: Step, s': State, off: Off, len: nat)
    requires Inv(s) && Takes(s, step, s') && Returns(s, step, off, len)
    ensures HasRoom(s'.alloc, off, len)
  {
    AT.StepKeeps(s.alloc, AllocStep(step));
  }

  /** Whatever a step of alloc_alloc returns, a reader that loads the mapping later can reach: the address it forms for
      the length asked for lies inside that mapping, however the region grows and whoever allocates in between. */
  lemma ReturnedBlocksAreReadable(ss: seq<State>, steps: seq<Step>, h: nat, i: nat, j: nat, t: Tid, off: Off, len: nat)
    requires Run(ss, steps) && h < i && Reads(steps, i, j, t, off, len) && Returns(ss[h], steps[h], off, len)
    ensures R.ReaderOf(ss[j].region, t).HasPtr? && R.InsideItsMapping(ss[j].region, R.Result(ss[j].region, t))
    ensures off + len < TWO_64 ==> R.Result(ss[j].region, t) == R.Range(ss[i].region.ptr, off, len)
  {
    ReturnedStays(ss, steps, h, i, off, len);
    CarvedBlocksAreReadable(ss, steps, i, j, t, off, len, off);
  }

  lemma ReturnedStays(ss: seq<State>, steps: seq<Step>, h: nat, i: nat, off: Off, len: nat)
    requires Run(ss, steps) && h < i < |ss| && Returns(ss[h], steps[h], off, len)
    ensures HasRoom(ss[i].alloc, off, len)
  {
    ReturnedHop(ss, steps, h, off, len);
    RoomStays(ss, steps, h + 1, i, off, len);
  }

  /** A block with room for `len` bytes. */
  predicate HasRoom(a: A.State, off: Off, len: nat) {
    off in a.kind && a.kind[off] < CLASSES && len <= ClassLen(a.kind[off])
  }

  lemma RoomStays(ss: seq<State>, steps: seq<Step>, h: nat, i: nat, off: Off, len: nat)
    requires Run(ss, steps) && h <= i < |ss| && HasRoom(ss[h].alloc, off, len)
    ensures HasRoom(ss[i].alloc, off, len)
  {
    BlocksStay(ss, steps, h, i, off);
  }

  lemma ReturnedHop(ss: seq<State>, steps: seq<Step>, h: nat, off: Off, len: nat)
    requires Run(ss, steps) && h + 1 < |ss| && Returns(ss[h], steps[h], off, len)
    ensures HasRoom(ss[h + 1].alloc, off, len)
  {
    RunInv(ss, steps, h);
    assert StepAt(ss, steps, h);
    ReturnedIsCarved(ss[h], steps[h], ss[h + 1], off, len);
  }
}
