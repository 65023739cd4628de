/**
 The region allocator: segregated free lists that live inside the blocks they link. Popping and
 splicing happen under the allocator's lock; filling a class carves a slab with the lock released;
 freeing pushes with a compare-and-exchange and never takes the lock, because the poller calls it
 from another process. Lists 0..20 are the alloc lists of the classes, 21..41 their free lists.
 */
module Allocator {
  import opened SizeClass
  import opened Chains

  type Tid = nat

  const ALL_ONES: nat := 0xFFFF_FFFF_FFFF_FFFF

  /** A block's first word, which holds the link while the block is listed, and all its other bytes. */
  datatype Fill = Zero | Ones | Data
  datatype Block = Block(first: nat, rest: Fill)

  const CLEAN := Block(0, Zero)

  datatype Pc =
    | Idle
    | NeedsSlab(k: nat, want: nat)
    | Linking(k: nat, want: nat, start: Off, end: Off, node: Off, slab: set<Off>)
    | Freeing(off: Off, k: nat)
    | Loaded(off: Off, k: nat, top: Off)
    | Stored(off: Off, k: nat, top: Off)

  /** History: outstanding, in a list, held by a free in flight, or part of a slab being linked. */
  datatype Owner = Out | Listed | Held(t: Tid) | Slab(t: Tid)

  datatype State = State(
    pos: nat,
    mem: map<Off, Block>,
    chain: Chain,
    clock: nat,
    kind: map<Off, nat>,
    owner: map<Off, Owner>,
    pc: map<Tid, Pc>,
    base: nat)

  /** `ret` is the offset the step returns to its caller, 0 for none. */
  datatype Outcome = Done(state: State, ret: Off) | Crash

  datatype Step =
    | Alloc(t: Tid, len: nat)
    | Grow(t: Tid)
    | GrowFails(t: Tid)
    | LinkNext(t: Tid)
    | SpliceSlab(t: Tid)
    | Free(t: Tid, off: Off, len: nat)
    | FreeLoad(t: Tid)
    | FreeStore(t: Tid)
    | FreeCas(t: Tid, spurious: bool)
    | ClientWrite(off: Off, block: Block)

  function PcOf(s: State, t: Tid): Pc {
    if t in s.pc then s.pc[t] else Idle
  }

  function Links(mem: map<Off, Block>): map<Off, Off> {
    map o | o in mem :: mem[o].first
  }

  function FreeList(k: nat): nat {
    CLASSES + k
  }

  function ClassOf(list: nat): nat {
    if list < CLASSES then list else list - CLASSES
  }

  /** The offsets of the `n` blocks of length `len` carved from `start` on. */
  function Row(start: Off, len: nat, n: nat): set<Off> {
    if n == 0 then {} else Row(start, len, n - 1) + {start + (n - 1) * len}
  }

  function SlabOf(start: Off, k: nat): set<Off>
    requires k < CLASSES
  {
    Row(start, ClassLen(k), SlabBlocks(k))
  }

  predicate Init(s: State) {
    && s.mem == map[] && s.kind == map[] && s.owner == map[] && s.pc == map[]
    && s.chain == Chain(map[], map[], seq(2 * CLASSES, _ => 0)) && 0 < s.base <= s.pos
  }

  predicate Enabled(s: State, step: Step) {
    match step
    case Alloc(t, len) => PcOf(s, t).Idle? && len <= MAX_LEN
    case Grow(t) => PcOf(s, t).NeedsSlab?
    case GrowFails(t) => PcOf(s, t).NeedsSlab?
    case LinkNext(t) =>
      PcOf(s, t).Linking? && PcOf(s, t).k < CLASSES && PcOf(s, t).node + ClassLen(PcOf(s, t).k) < PcOf(s, t).end
    case SpliceSlab(t) =>
      PcOf(s, t).Linking? && PcOf(s, t).k < CLASSES && PcOf(s, t).node + ClassLen(PcOf(s, t).k) >= PcOf(s, t).end
    // The caller's duty: an outstanding block, freed with a length of its own class.
    case Free(t, off, len) =>
      PcOf(s, t).Idle? && len <= MAX_LEN && Outstanding(s, off) && s.kind[off] == AllocClass(len).index
    case FreeLoad(t) => PcOf(s, t).Freeing? && FreeList(PcOf(s, t).k) < |s.chain.heads|
    case FreeStore(t) => PcOf(s, t).Loaded?
    case FreeCas(t, _) => PcOf(s, t).Stored? && FreeList(PcOf(s, t).k) < |s.chain.heads|
    case ClientWrite(off, _) => Outstanding(s, off)
  }

  predicate Outstanding(s: State, off: Off) {
    off in s.owner && s.owner[off] == Out && off in s.kind
  }

  // ---- alloc_alloc ----

  /** An empty alloc list takes over the whole free list of its class. */
  function Refill(s: State, k: nat): State
    requires k < CLASSES && |s.chain.heads| == 2 * CLASSES
  {
    if s.chain.heads[k] == 0 then s.(chain := Take(s.chain, FreeList(k), k)) else s
  }

  /** Pops the head of a class, or leaves the lock with nothing and goes on to carve a slab. */
  function PopOrFill(s: State, t: Tid, k: nat, len: nat, want: nat): Outcome
    requires k < CLASSES && |s.chain.heads| == 2 * CLASSES
  {
    var off := s.chain.heads[k];
    if off == 0 then Done(s.(pc := s.pc[t := NeedsSlab(k, want)]), 0)
    else if off !in s.mem || s.mem[off].first == off then Crash
    else Done(s.(chain := Pop(s.chain, Links(s.mem), k),
                 mem := s.mem[off := CLEAN],
                 owner := s.owner[off := Out]), off)
  }

  /** alloc_fill_class: region_grow hands out fresh, zeroed bytes. */
  function Carve(s: State, t: Tid): Outcome
    requires PcOf(s, t).NeedsSlab?
  {
    var p := PcOf(s, t);
    if p.k >= CLASSES then Crash
    else
      var slab := SlabOf(s.pos, p.k);
      Done(s.(pos := s.pos + SlabLen(p.k),
              mem := s.mem + (map o | o in slab :: CLEAN),
              kind := s.kind + (map o | o in slab :: p.k),
              owner := s.owner + (map o | o in slab :: Slab(t)),
              pc := s.pc[t := Linking(p.k, p.want, s.pos, s.pos + SlabLen(p.k), s.pos + ClassLen(p.k), slab)]), 0)
  }

  function LinkOne(s: State, t: Tid): Outcome
    requires PcOf(s, t).Linking? && PcOf(s, t).k < CLASSES
  {
    var p := PcOf(s, t);
    var next := p.node + ClassLen(p.k);
    if p.node !in s.mem then Crash
    else Done(s.(mem := s.mem[p.node := s.mem[p.node].(first := next)], pc := s.pc[t := p.(node := next)]), 0)
  }

  /** Under the lock again: the last block is linked to the list, the second becomes its head and
      the first is returned. */
  function SpliceIn(s: State, t: Tid): Outcome
    requires PcOf(s, t).Linking? && PcOf(s, t).k < CLASSES && |s.chain.heads| == 2 * CLASSES
  {
    var p := PcOf(s, t);
    var len := ClassLen(p.k);
    if p.end < len || p.end - len !in s.mem then Crash
    else
      var last := p.end - len;
      var rest := p.slab - {p.start};
      Done(s.(mem := s.mem[last := s.mem[last].(first := s.chain.heads[p.k])],
              chain := Splice(s.chain, p.k, rest, p.start + len, last, s.clock),
              clock := s.clock + p.end + 1,
              owner := (s.owner + (map o | o in rest :: Listed))[p.start := Out],
              pc := s.pc[t := Idle]), p.start)
  }

  // ---- alloc_free ----

  function FreeBegin(s: State, t: Tid, off: Off, k: nat): Outcome {
    if off !in s.mem then Crash
    else Done(s.(mem := s.mem[off := Block(ALL_ONES, Ones)],
                 owner := s.owner[off := Held(t)],
                 pc := s.pc[t := Freeing(off, k)]), 0)
  }

  function FreeStoreLink(s: State, t: Tid): Outcome
    requires PcOf(s, t).Loaded?
  {
    var p := PcOf(s, t);
    if p.off !in s.mem then Crash
    else Done(s.(mem := s.mem[p.off := s.mem[p.off].(first := p.top)], pc := s.pc[t := Stored(p.off, p.k, p.top)]), 0)
  }

  /** Compares heads by value only: the old head is never dereferenced, so it does not matter how
      often the list has changed and changed back in between. */
  function FreePush(s: State, t: Tid, spurious: bool): Outcome
    requires PcOf(s, t).Stored? && FreeList(PcOf(s, t).k) < |s.chain.heads|
  {
    var p := PcOf(s, t);
    var q := FreeList(p.k);
    if spurious || s.chain.heads[q] != p.top then Done(s.(pc := s.pc[t := Loaded(p.off, p.k, s.chain.heads[q])]), 0)
    else Done(s.(chain := Push(s.chain, q, p.off, s.clock), clock := s.clock + 1,
                 owner := s.owner[p.off := Listed], pc := s.pc[t := Idle]), 0)
  }

  function Apply(s: State, step: Step): Outcome
    requires Enabled(s, step) && |s.chain.heads| == 2 * CLASSES
  {
    match step
    case Alloc(t, len) =>
      var c := AllocClass(len);
      if c.index >= CLASSES then Crash else PopOrFill(Refill(s, c.index), t, c.index, c.len, len)
    case Grow(t) => Carve(s, t)
    case GrowFails(t) => Done(s.(pc := s.pc[t := Idle]), 0)
    case LinkNext(t) => LinkOne(s, t)
    case SpliceSlab(t) => SpliceIn(s, t)
    case Free(t, off, len) => FreeBegin(s, t, off, AllocClass(len).index)
    case FreeLoad(t) =>
      var p := PcOf(s, t);
      Done(s.(pc := s.pc[t := Loaded(p.off, p.k, s.chain.heads[FreeList(p.k)])]), 0)
    case FreeStore(t) => FreeStoreLink(s, t)
    case FreeCas(t, spurious) => FreePush(s, t, spurious)
    case ClientWrite(off, block) => Done(s.(mem := s.mem[off := block]), 0)
  }

  // ---- invariant ----

  predicate Apart(s: State, a: Off, b: Off)
    requires a in s.kind && b in s.kind && s.kind[a] < CLASSES && s.kind[b] < CLASSES
  {
    a + ClassLen(s.kind[a]) <= b || b + ClassLen(s.kind[b]) <= a
  }

  /** Every block lies above the header and below the end of the region, and no two overlap. */
  ghost predicate GeometryOk(s: State) {
    && s.mem.Keys == s.kind.Keys == s.owner.Keys && 0 < s.base <= s.pos
    && (forall o :: o in s.kind ==> s.kind[o] < CLASSES && s.base <= o && o + ClassLen(s.kind[o]) <= s.pos)
    && (forall a, b {:trigger Apart(s, a, b)} :: a in s.kind && b in s.kind && a != b ==> Apart(s, a, b))
  }

  /** Exactly the listed blocks are in a list, and in one of their own class. */
  ghost predicate ListsOk(s: State) {
    && |s.chain.heads| == 2 * CLASSES
    && (forall o :: o in s.chain.member <==> o in s.owner && s.owner[o] == Listed)
    && (forall o :: o in s.chain.member ==> o in s.kind && s.kind[o] == ClassOf(s.chain.member[o]))
    && Ok(s.chain, Links(s.mem), s.clock)
  }

  ghost predicate HoldsBlock(s: State, t: Tid, off: Off, k: nat) {
    k < CLASSES && off in s.owner && s.owner[off] == Held(t) && off in s.kind && s.kind[off] == k && off in s.mem
  }

  ghost predicate NextIn(slab: set<Off>, end: Off, len: nat, o: Off) {
    o + len < end ==> o + len in slab
  }

  /** The blocks of a slab fill it from `start` to `end`, one every `len` bytes. */
  ghost predicate Spaced(slab: set<Off>, start: Off, end: Off, len: nat) {
    && 0 < start && 0 < len && start + 2 * len < end && start in slab
    && (forall o :: o in slab ==> start <= o && o + len <= end)
    && (forall o {:trigger NextIn(slab, end, len, o)} :: o in slab ==> NextIn(slab, end, len, o))
    && (forall a, b :: a in slab && b in slab && a < b ==> a + len <= b)
  }

  ghost predicate SlabBlock(s: State, t: Tid, p: Pc, o: Off)
    requires p.Linking? && p.k < CLASSES
  {
    && o in s.owner && s.owner[o] == Slab(t) && o in s.kind && s.kind[o] == p.k && o in s.mem
    && (p.start < o < p.node ==> s.mem[o].first == o + ClassLen(p.k))
  }

  /** A slab in the hands of one thread: its first block is clean, and the blocks from the second up
      to `node` are linked. */
  ghost predicate HoldsSlab(s: State, t: Tid, p: Pc)
    requires p.Linking?
  {
    && p.k < CLASSES && p.want <= ClassLen(p.k)
    && Spaced(p.slab, p.start, p.end, ClassLen(p.k))
    && (forall o {:trigger SlabBlock(s, t, p, o)} :: o in p.slab ==> SlabBlock(s, t, p, o))
    && p.start in s.mem && s.mem[p.start] == CLEAN
    && p.node in p.slab && p.start < p.node
  }

  ghost predicate ThreadOk(s: State, t: Tid) {
    match PcOf(s, t)
    case Idle => true
    case NeedsSlab(k, want) => k < CLASSES && want <= ClassLen(k)
    case Linking(_, _, _, _, _, _) => HoldsSlab(s, t, PcOf(s, t))
    case Freeing(off, k) => HoldsBlock(s, t, off, k)
    case Loaded(off, k, top) => HoldsBlock(s, t, off, k)
    case Stored(off, k, top) => HoldsBlock(s, t, off, k) && s.mem[off].first == top
  }

  ghost predicate ThreadsOk(s: State) {
    forall t {:trigger ThreadOk(s, t)} :: ThreadOk(s, t)
  }

  ghost predicate Inv(s: State) {
    GeometryOk(s) && ListsOk(s) && ThreadsOk(s)
  }
}
