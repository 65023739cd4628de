/** Every step of the allocator keeps its invariant, cannot crash, and what it returns is good. */
module AllocatorProof {
  import opened SizeClass
  import opened Chains
  import opened Allocator

  // ---- the blocks of a slab ----

  lemma {:induction false} RowBounds(start: Off, len: nat, n: nat, o: Off)
    requires o in Allocator.Row(start, len, n)
    ensures start <= o && o + len <= start + n * len
  {
    assert (n - 1) * len + len == n * len;
    if o != start + (n - 1) * len { RowBounds(start, len, n - 1, o); }
  }

  lemma {:induction false} RowApart(start: Off, len: nat, n: nat, a: Off, b: Off)
    requires a in Allocator.Row(start, len, n) && b in Allocator.Row(start, len, n) && a < b
    ensures a + len <= b
  {
    RowBounds(start, len, n, a);
    RowBounds(start, len, n, b);
    assert (n - 1) * len + len == n * len;
    if b == start + (n - 1) * len {
      RowBounds(start, len, n - 1, a);
    } else {
      RowApart(start, len, n - 1, a, b);
    }
  }

  lemma {:induction false} RowNext(start: Off, len: nat, n: nat, o: Off)
    requires len > 0 && o in Allocator.Row(start, len, n) && o + len < start + n * len
    ensures o + len in Allocator.Row(start, len, n)
  {
    assert (n - 1) * len + len == n * len;
    if o != start + (n - 1) * len {
      RowBounds(start, len, n - 1, o);
      if o + len < start + (n - 1) * len { RowNext(start, len, n - 1, o); }
    }
  }

  lemma {:induction false} RowStart(start: Off, len: nat, n: nat)
    requires n > 0
    ensures start in Allocator.Row(start, len, n)
  {
    if n > 1 { RowStart(start, len, n - 1); } else { assert (n - 1) * len == 0; }
  }

  /** The blocks carved for a class are spaced by its length over the whole slab. */
  lemma SlabIsSpaced(start: Off, k: nat)
    requires k < CLASSES && start > 0
    ensures Spaced(SlabOf(start, k), start, start + SlabLen(k), ClassLen(k))
  {
    var len, n := ClassLen(k), SlabBlocks(k);
    var slab := SlabOf(start, k);
    SlabHoldsItsBlocks(k);
    RowStart(start, len, n);
    assert 2 * len < n * len;
    forall o | o in slab ensures start <= o && o + len <= start + SlabLen(k) { RowBounds(start, len, n, o); }
    forall o | o in slab ensures NextIn(slab, start + SlabLen(k), len, o) {
      if o + len < start + SlabLen(k) { RowNext(start, len, n, o); }
    }
    forall a, b | a in slab && b in slab && a < b ensures a + len <= b { RowApart(start, len, n, a, b); }
  }

  // ---- what does not change ----

  lemma GeometryFrame(s: State, s': State)
    requires GeometryOk(s) && s'.kind == s.kind && s'.pos == s.pos && s'.base == s.base
    requires s'.mem.Keys == s.mem.Keys && s'.owner.Keys == s.owner.Keys
    ensures GeometryOk(s')
  {
    forall a, b | a in s'.kind && b in s'.kind && a != b ensures Apart(s', a, b) { assert Apart(s, a, b); }
  }

  lemma ListsFrame(s: State, s': State)
    requires ListsOk(s) && s'.chain == s.chain && s'.clock == s.clock
    requires forall o :: o in s.owner && s.owner[o] == Listed <==> o in s'.owner && s'.owner[o] == Listed
    requires forall o :: o in s.chain.member && o in s.kind ==> o in s'.kind && s'.kind[o] == s.kind[o]
    requires forall o :: o in s.chain.member && o in s.mem ==> o in s'.mem && s'.mem[o].first == s.mem[o].first
    ensures ListsOk(s')
  {
    LinkFrame(s.chain, Links(s.mem), Links(s'.mem), s.clock);
  }

  lemma OthersFrame(s: State, s': State, t: Tid)
    requires ThreadsOk(s) && forall u :: u != t ==> PcOf(s', u) == PcOf(s, u)
    requires forall o :: o in s.owner && s.owner[o] != Out && s.owner[o] != Listed && s.owner[o].t != t ==>
      && o in s'.owner && s'.owner[o] == s.owner[o]
      && (o in s.kind ==> o in s'.kind && s'.kind[o] == s.kind[o])
      && (o in s.mem ==> o in s'.mem && s'.mem[o] == s.mem[o])
    ensures forall u :: u != t ==> ThreadOk(s', u)
  {
    forall u | u != t ensures ThreadOk(s', u) {
      assert ThreadOk(s, u);
      var p := PcOf(s, u);
      if p.Linking? {
        forall o | o in p.slab ensures SlabBlock(s', u, p, o) { assert SlabBlock(s, u, p, o); }
        assert SlabBlock(s, u, p, p.start);
      }
    }
  }

  lemma ThreadsFrame(s: State, t: Tid)
    requires forall u {:trigger ThreadOk(s, u)} :: u == t ==> ThreadOk(s, u)
    requires forall u :: u != t ==> ThreadOk(s, u)
    ensures ThreadsOk(s)
  {
  }

  // ---- alloc_alloc ----

  lemma RefillLists(s: State, k: nat)
    requires ListsOk(s) && k < CLASSES
    ensures ListsOk(Refill(s, k))
  {
    if s.chain.heads[k] == 0 {
      TakeOk(s.chain, Links(s.mem), FreeList(k), k, s.clock);
    }
  }

  lemma RefillKeeps(s: State, k: nat)
    requires Inv(s) && k < CLASSES
    ensures Inv(Refill(s, k))
  {
    var s' := Refill(s, k);
    RefillLists(s, k);
    GeometryFrame(s, s');
    forall u ensures ThreadOk(s', u) {
      assert ThreadOk(s, u);
      var p := PcOf(s, u);
      if p.Linking? { forall o | o in p.slab ensures SlabBlock(s', u, p, o) { assert SlabBlock(s, u, p, o); } }
    }
  }

  lemma PopLists(s: State, k: nat)
    requires ListsOk(s) && s.mem.Keys == s.owner.Keys && k < CLASSES && s.chain.heads[k] != 0
    ensures var off := s.chain.heads[k];
      && off in s.mem && s.mem[off].first != off
      && off in s.owner && s.owner[off] == Listed && off in s.kind && s.kind[off] == k
    ensures var off := s.chain.heads[k];
      Ok(Pop(s.chain, Links(s.mem), k), Links(s.mem[off := CLEAN]), s.clock)
  {
    var off := s.chain.heads[k];
    PopOk(s.chain, Links(s.mem), k, s.clock);
    LinkFrame(Pop(s.chain, Links(s.mem), k), Links(s.mem), Links(s.mem[off := CLEAN]), s.clock);
  }

  lemma PopStructure(s: State, t: Tid, k: nat, len: nat, want: nat)
    requires GeometryOk(s) && ListsOk(s) && k < CLASSES && s.chain.heads[k] != 0
    ensures var r := PopOrFill(s, t, k, len, want);
      r.Done? && GeometryOk(r.state) && ListsOk(r.state) && r.ret == s.chain.heads[k]
  {
    PopLists(s, k);
    GeometryFrame(s, PopOrFill(s, t, k, len, want).state);
  }

  /** The block comes from its class's list, is clean, and is nobody else's any more. */
  ghost predicate GoodReturn(s: State, s': State, off: Off, len: nat) {
    && Outstanding(s', off) && off in s'.mem && s'.mem[off] == CLEAN
    && s'.kind[off] < CLASSES && len <= ClassLen(s'.kind[off])
    && s'.base <= off && off + ClassLen(s'.kind[off]) <= s'.pos
    && !Outstanding(s, off)
    && (forall o :: Outstanding(s', o) && o != off ==> s'.kind[o] < CLASSES && Apart(s', off, o))
  }

  /** In a state that satisfies the geometry, an outstanding clean block of a large enough class. */
  lemma ReturnIsGood(s: State, s': State, off: Off, len: nat)
    requires GeometryOk(s') && Outstanding(s', off) && s'.mem[off] == CLEAN && !Outstanding(s, off)
    requires len <= ClassLen(s'.kind[off])
    ensures GoodReturn(s, s', off, len)
  {
    forall o | Outstanding(s', o) && o != off ensures s'.kind[o] < CLASSES && Apart(s', off, o) {}
  }

  lemma PopThreads(s: State, t: Tid, k: nat, len: nat, want: nat)
    requires ThreadsOk(s) && |s.chain.heads| == 2 * CLASSES && k < CLASSES && want <= ClassLen(k) && PcOf(s, t).Idle?
    requires PopOrFill(s, t, k, len, want).Done?
    requires s.chain.heads[k] != 0 ==> s.chain.heads[k] in s.owner && s.owner[s.chain.heads[k]] == Listed
    ensures ThreadsOk(PopOrFill(s, t, k, len, want).state)
  {
    var s' := PopOrFill(s, t, k, len, want).state;
    OthersFrame(s, s', t);
    ThreadsFrame(s', t);
  }

  lemma PopKeeps(s: State, t: Tid, k: nat, len: nat, want: nat)
    requires Inv(s) && PcOf(s, t).Idle? && k < CLASSES && want <= ClassLen(k)
    ensures var r := PopOrFill(s, t, k, len, want);
      && r.Done? && Inv(r.state)
      && (r.ret != 0 ==> GoodReturn(s, r.state, r.ret, want))
  {
    if s.chain.heads[k] == 0 {
      var s' := PopOrFill(s, t, k, len, want).state;
      GeometryFrame(s, s');
      ListsFrame(s, s');
    } else {
      PopLists(s, k);
      PopStructure(s, t, k, len, want);
      ReturnIsGood(s, PopOrFill(s, t, k, len, want).state, s.chain.heads[k], want);
    }
    PopThreads(s, t, k, len, want);
  }

  // ---- alloc_fill_class ----

  /** Adding spaced blocks above the end of the region keeps all blocks apart. */
  lemma AddSlab(s: State, s': State, slab: set<Off>, k: nat)
    requires GeometryOk(s) && k < CLASSES && Spaced(slab, s.pos, s'.pos, ClassLen(k)) && s'.base == s.base
    requires s'.kind == s.kind + (map o | o in slab :: k)
    requires s'.mem.Keys == s'.owner.Keys == s'.kind.Keys
    ensures GeometryOk(s') && slab !! s.kind.Keys
  {
    forall o | o in s'.kind ensures s'.kind[o] < CLASSES && s'.base <= o && o + ClassLen(s'.kind[o]) <= s'.pos {}
    forall a, b | a in s'.kind && b in s'.kind && a != b ensures Apart(s', a, b) { AddedApart(s, s', slab, k, a, b); }
  }

  lemma AddedApart(s: State, s': State, slab: set<Off>, k: nat, a: Off, b: Off)
    requires GeometryOk(s) && k < CLASSES && Spaced(slab, s.pos, s'.pos, ClassLen(k))
    requires s'.kind == s.kind + (map o | o in slab :: k) && a in s'.kind && b in s'.kind && a != b
    requires s'.kind[a] < CLASSES && s'.kind[b] < CLASSES
    ensures Apart(s', a, b)
  {
    assert a in s.kind && b in s.kind ==> Apart(s, a, b);
  }

  lemma CarveKeys(s: State, t: Tid)
    requires PcOf(s, t).NeedsSlab? && PcOf(s, t).k < CLASSES && s.mem.Keys == s.kind.Keys == s.owner.Keys
    ensures var s', k := Carve(s, t).state, PcOf(s, t).k;
      && s'.pos == s.pos + SlabLen(k) && s'.base == s.base
      && s'.kind == s.kind + (map o | o in SlabOf(s.pos, k) :: k)
      && s'.mem.Keys == s'.owner.Keys == s'.kind.Keys
  {
    var s', slab := Carve(s, t).state, SlabOf(s.pos, PcOf(s, t).k);
    assert s'.mem.Keys == s.mem.Keys + slab;
    assert s'.owner.Keys == s.owner.Keys + slab;
    assert s'.kind.Keys == s.kind.Keys + slab;
  }

  lemma CarveGeometry(s: State, t: Tid)
    requires GeometryOk(s) && PcOf(s, t).NeedsSlab? && PcOf(s, t).k < CLASSES
    ensures Carve(s, t).Done? && GeometryOk(Carve(s, t).state)
    ensures SlabOf(s.pos, PcOf(s, t).k) !! s.kind.Keys
  {
    SlabIsSpaced(s.pos, PcOf(s, t).k);
    CarveKeys(s, t);
    AddSlab(s, Carve(s, t).state, SlabOf(s.pos, PcOf(s, t).k), PcOf(s, t).k);
  }

  lemma CarveThreads(s: State, t: Tid)
    requires GeometryOk(s) && ThreadsOk(s) && PcOf(s, t).NeedsSlab? && PcOf(s, t).k < CLASSES
    requires SlabOf(s.pos, PcOf(s, t).k) !! s.kind.Keys
    ensures ThreadsOk(Carve(s, t).state)
  {
    assert ThreadOk(s, t);
    CarveOthers(s, t);
    CarvedThread(s, t);
    ThreadsFrame(Carve(s, t).state, t);
  }

  lemma CarvedThread(s: State, t: Tid)
    requires ThreadOk(s, t) && PcOf(s, t).NeedsSlab? && 0 < s.pos
    ensures ThreadOk(Carve(s, t).state, t)
  {
    CarveFields(s, t);
    CarvedSlab(Carve(s, t).state, t, PcOf(s, t).k, PcOf(s, t).want, s.pos);
  }

  lemma CarveOthers(s: State, t: Tid)
    requires ThreadsOk(s) && PcOf(s, t).NeedsSlab? && PcOf(s, t).k < CLASSES
    requires s.mem.Keys == s.kind.Keys == s.owner.Keys
    requires SlabOf(s.pos, PcOf(s, t).k) !! s.kind.Keys
    ensures forall u :: u != t ==> ThreadOk(Carve(s, t).state, u)
  {
    var s', slab := Carve(s, t).state, SlabOf(s.pos, PcOf(s, t).k);
    assert s'.owner == s.owner + (map o | o in slab :: Slab(t));
    assert s'.mem == s.mem + (map o | o in slab :: CLEAN);
    OthersFrame(s, s', t);
  }

  /** What a carve writes. */
  lemma CarveFields(s: State, t: Tid)
    requires PcOf(s, t).NeedsSlab? && PcOf(s, t).k < CLASSES
    ensures var s', k := Carve(s, t).state, PcOf(s, t).k;
      && PcOf(s', t) == Linking(k, PcOf(s, t).want, s.pos, s.pos + SlabLen(k), s.pos + ClassLen(k), SlabOf(s.pos, k))
      && forall o :: o in SlabOf(s.pos, k) ==> CarvedBlock(s', t, k, o)
  {
    var s', k := Carve(s, t).state, PcOf(s, t).k;
    var slab := SlabOf(s.pos, k);
    assert s'.owner == s.owner + (map o | o in slab :: Slab(t));
    assert s'.kind == s.kind + (map o | o in slab :: k);
    assert s'.mem == s.mem + (map o | o in slab :: CLEAN);
  }

  ghost predicate CarvedBlock(s: State, t: Tid, k: nat, o: Off) {
    o in s.owner && s.owner[o] == Slab(t) && o in s.kind && s.kind[o] == k && o in s.mem && s.mem[o] == CLEAN
  }

  lemma CarvedSlab(s: State, t: Tid, k: nat, want: nat, start: Off)
    requires k < CLASSES && want <= ClassLen(k) && 0 < start
    requires PcOf(s, t) == Linking(k, want, start, start + SlabLen(k), start + ClassLen(k), SlabOf(start, k))
    requires forall o :: o in SlabOf(start, k) ==> CarvedBlock(s, t, k, o)
    ensures ThreadOk(s, t)
  {
    SlabIsSpaced(start, k);
    FreshSlab(s, t, PcOf(s, t));
  }

  lemma FreshSlab(s: State, t: Tid, p: Pc)
    requires p.Linking? && p.k < CLASSES && p.want <= ClassLen(p.k) && p.node == p.start + ClassLen(p.k)
    requires Spaced(p.slab, p.start, p.end, ClassLen(p.k))
    requires forall o :: o in p.slab ==> CarvedBlock(s, t, p.k, o)
    ensures HoldsSlab(s, t, p)
  {
    assert NextIn(p.slab, p.end, ClassLen(p.k), p.start);
    assert CarvedBlock(s, t, p.k, p.start);
    forall o | o in p.slab ensures SlabBlock(s, t, p, o) { assert CarvedBlock(s, t, p.k, o); }
  }

  lemma CarveKeeps(s: State, t: Tid)
    requires Inv(s) && PcOf(s, t).NeedsSlab?
    ensures Carve(s, t).Done? && Inv(Carve(s, t).state) && Carve(s, t).ret == 0
  {
    assert ThreadOk(s, t);
    CarveGeometry(s, t);
    ListsFrame(s, Carve(s, t).state);
    CarveThreads(s, t);
  }

  lemma LinkThreads(s: State, t: Tid)
    requires ThreadsOk(s) && Enabled(s, LinkNext(t))
    ensures LinkOne(s, t).Done? && ThreadsOk(LinkOne(s, t).state)
    ensures var n := PcOf(s, t).node; n in s.owner && s.owner[n] == Slab(t)
  {
    assert ThreadOk(s, t);
    var p := PcOf(s, t);
    assert SlabBlock(s, t, p, p.node) && NextIn(p.slab, p.end, ClassLen(p.k), p.node);
    var s' := LinkOne(s, t).state;
    OthersFrame(s, s', t);
    forall o | o in p.slab ensures SlabBlock(s', t, PcOf(s', t), o) { assert SlabBlock(s, t, p, o); }
    ThreadsFrame(s', t);
  }

  lemma LinkKeeps(s: State, t: Tid)
    requires Inv(s) && Enabled(s, LinkNext(t))
    ensures LinkOne(s, t).Done? && Inv(LinkOne(s, t).state) && LinkOne(s, t).ret == 0
  {
    LinkThreads(s, t);
    GeometryFrame(s, LinkOne(s, t).state);
    ListsFrame(s, LinkOne(s, t).state);
  }

  /** When the linking loop ends, the slab without its first block is a row that ends in the list. */
  lemma SlabIsRow(s: State, t: Tid, last: Off, rest: set<Off>)
    requires ThreadOk(s, t) && Enabled(s, SpliceSlab(t)) && |s.chain.heads| == 2 * CLASSES
    requires last == PcOf(s, t).end - ClassLen(PcOf(s, t).k) && rest == PcOf(s, t).slab - {PcOf(s, t).start}
    ensures var p := PcOf(s, t);
      && var len := ClassLen(p.k);
      && last == p.node && last in s.mem && p.start + len in rest
      && Chains.Row(rest, p.start + len, last, len, Links(s.mem[last := s.mem[last].(first := s.chain.heads[p.k])]))
  {
    var p := PcOf(s, t);
    var len := ClassLen(p.k);
    assert NextIn(p.slab, p.end, len, p.start) && SlabBlock(s, t, p, last);
    var link := Links(s.mem[last := s.mem[last].(first := s.chain.heads[p.k])]);
    forall o | o in rest ensures p.start + len <= o <= last && Steps(rest, last, len, link, o) {
      assert SlabBlock(s, t, p, o) && NextIn(p.slab, p.end, len, o);
    }
  }

  /** The list machinery of the splice, on a slab whose blocks are in no list. */
  lemma SpliceChain(s: State, mem': map<Off, Block>, k: nat, rest: set<Off>, first: Off, last: Off, len: nat,
                    bound: nat)
    requires ListsOk(s) && k < CLASSES && last in s.mem
    requires mem' == s.mem[last := s.mem[last].(first := s.chain.heads[k])]
    requires Chains.Row(rest, first, last, len, Links(mem')) && last <= bound
    requires forall o :: o in rest ==> o in s.owner && s.owner[o] != Listed
    ensures Ok(Splice(s.chain, k, rest, first, last, s.clock), Links(mem'), s.clock + bound + 1)
  {
    LinkFrame(s.chain, Links(s.mem), Links(mem'), s.clock);
    SpliceOk(s.chain, Links(mem'), k, rest, first, last, len, s.clock);
    ClockFrame(Splice(s.chain, k, rest, first, last, s.clock), Links(mem'), s.clock + (last - first) + 1,
      s.clock + bound + 1);
  }

  /** A slab ready to be spliced, as plain facts about the state. */
  ghost predicate Ready(s: State, t: Tid, k: nat, start: Off, last: Off, end: nat, slab: set<Off>) {
    && k < CLASSES && |s.chain.heads| == 2 * CLASSES && PcOf(s, t).Linking? && last in s.mem
    && last + ClassLen(k) == end
    && PcOf(s, t).k == k && PcOf(s, t).start == start && PcOf(s, t).end == end && PcOf(s, t).slab == slab
    && start in slab
    && (forall o :: o in slab ==> o in s.owner && s.owner[o] == Slab(t) && o in s.kind && s.kind[o] == k)
  }

  lemma SpliceResult(s: State, t: Tid, k: nat, start: Off, last: Off, end: nat, slab: set<Off>)
    requires Ready(s, t, k, start, last, end, slab)
    ensures SpliceIn(s, t).Done?
    ensures var s' := SpliceIn(s, t).state;
      && s'.chain == Splice(s.chain, k, slab - {start}, start + ClassLen(k), last, s.clock)
      && s'.clock == s.clock + end + 1 && s'.kind == s.kind
      && s'.mem == s.mem[last := s.mem[last].(first := s.chain.heads[k])]
      && s'.owner == (s.owner + (map o | o in slab - {start} :: Listed))[start := Out]
  {
  }

  lemma SpliceFinish(s: State, t: Tid, k: nat, start: Off, last: Off, end: nat, slab: set<Off>)
    requires Ready(s, t, k, start, last, end, slab)
    requires Ok(Splice(s.chain, k, slab - {start}, start + ClassLen(k), last, s.clock),
                Links(s.mem[last := s.mem[last].(first := s.chain.heads[k])]), s.clock + end + 1)
    requires forall o :: o in s.chain.member <==> o in s.owner && s.owner[o] == Listed
    requires forall o :: o in s.chain.member ==> o in s.kind && s.kind[o] == ClassOf(s.chain.member[o])
    ensures SpliceIn(s, t).Done? && ListsOk(SpliceIn(s, t).state)
  {
    var s' := SpliceIn(s, t).state;
    var c' := Splice(s.chain, k, slab - {start}, start + ClassLen(k), last, s.clock);
    SpliceResult(s, t, k, start, last, end, slab);
    SpliceMembers(s, s', t, k, slab - {start}, start);
    ListsAssembled(s', c', Links(s'.mem), s'.clock);
  }

  lemma ListsAssembled(s: State, c: Chain, link: map<Off, Off>, clock: nat)
    requires s.chain == c && Links(s.mem) == link && s.clock == clock && Ok(c, link, clock) && |c.heads| == 2 * CLASSES
    requires forall o :: o in c.member <==> o in s.owner && s.owner[o] == Listed
    requires forall o :: o in c.member ==> o in s.kind && s.kind[o] == ClassOf(c.member[o])
    ensures ListsOk(s)
  {
  }

  /** Members and owners after a splice. */
  lemma SpliceMembers(s: State, s': State, t: Tid, k: nat, rest: set<Off>, start: Off)
    requires k < CLASSES && start !in rest && start in s.owner && s.owner[start] == Slab(t)
    requires forall o :: o in rest ==> o in s.owner && s.owner[o] == Slab(t) && o in s.kind && s.kind[o] == k
    requires forall o :: o in s.chain.member <==> o in s.owner && s.owner[o] == Listed
    requires forall o :: o in s.chain.member ==> o in s.kind && s.kind[o] == ClassOf(s.chain.member[o])
    requires s'.chain.member == s.chain.member + (map o | o in rest :: k) && s'.kind == s.kind
    requires s'.owner == (s.owner + (map o | o in rest :: Listed))[start := Out]
    ensures forall o :: o in s'.chain.member <==> o in s'.owner && s'.owner[o] == Listed
    ensures forall o :: o in s'.chain.member ==> o in s'.kind && s'.kind[o] == ClassOf(s'.chain.member[o])
  {
  }

  lemma SpliceLists(s: State, t: Tid, k: nat, start: Off, last: Off, end: nat, slab: set<Off>)
    requires ListsOk(s) && Ready(s, t, k, start, last, end, slab)
    requires Chains.Row(slab - {start}, start + ClassLen(k), last, ClassLen(k),
        Links(s.mem[last := s.mem[last].(first := s.chain.heads[k])]))
    ensures SpliceIn(s, t).Done? && ListsOk(SpliceIn(s, t).state)
  {
    SpliceChain(s, s.mem[last := s.mem[last].(first := s.chain.heads[k])], k, slab - {start}, start + ClassLen(k),
      last, ClassLen(k), end);
    SpliceFinish(s, t, k, start, last, end, slab);
  }

  /** A splice leaves alone what belongs to other threads. */
  lemma SpliceOthers(s: State, t: Tid, o: Off)
    requires |s.chain.heads| == 2 * CLASSES && Enabled(s, SpliceSlab(t)) && SpliceIn(s, t).Done?
    requires o in s.owner && o !in PcOf(s, t).slab && PcOf(s, t).start in PcOf(s, t).slab
    requires PcOf(s, t).end - ClassLen(PcOf(s, t).k) in PcOf(s, t).slab
    ensures var s' := SpliceIn(s, t).state;
      && o in s'.owner && s'.owner[o] == s.owner[o] && s'.kind == s.kind
      && (o in s.mem ==> o in s'.mem && s'.mem[o] == s.mem[o])
  {
  }

  lemma SpliceThreads(s: State, t: Tid)
    requires ThreadsOk(s) && |s.chain.heads| == 2 * CLASSES && Enabled(s, SpliceSlab(t)) && SpliceIn(s, t).Done?
    requires forall o :: o in PcOf(s, t).slab ==> o in s.owner && s.owner[o] == Slab(t)
    requires PcOf(s, t).start in PcOf(s, t).slab && ClassLen(PcOf(s, t).k) <= PcOf(s, t).end
    requires PcOf(s, t).end - ClassLen(PcOf(s, t).k) in PcOf(s, t).slab
    ensures ThreadsOk(SpliceIn(s, t).state)
  {
    var s' := SpliceIn(s, t).state;
    assert s'.kind == s.kind && s'.pc == s.pc[t := Idle];
    forall o | o in s.owner && s.owner[o] != Out && s.owner[o] != Listed && s.owner[o].t != t
      ensures o in s'.owner && s'.owner[o] == s.owner[o] && (o in s.mem ==> o in s'.mem && s'.mem[o] == s.mem[o])
    {
      SpliceOthers(s, t, o);
    }
    OthersFrame(s, s', t);
    ThreadsFrame(s', t);
  }

  lemma SlabFacts(s: State, t: Tid)
    requires ThreadOk(s, t) && Enabled(s, SpliceSlab(t))
    ensures var p := PcOf(s, t);
      && (forall o :: o in p.slab ==> o in s.owner && s.owner[o] == Slab(t) && o in s.kind && s.kind[o] == p.k)
      && p.start in p.slab && p.start in s.mem && s.mem[p.start] == CLEAN && p.want <= ClassLen(p.k)
      && p.start > 0 && ClassLen(p.k) <= p.end && p.end - ClassLen(p.k) in p.slab && p.end - ClassLen(p.k) != p.start
  {
    var p := PcOf(s, t);
    forall o | o in p.slab
      ensures o in s.owner && s.owner[o] == Slab(t) && o in s.kind && s.kind[o] == p.k
    {
      assert SlabBlock(s, t, p, o);
    }
    assert p.node == p.end - ClassLen(p.k);
  }

  lemma SpliceListsKeep(s: State, t: Tid)
    requires Inv(s) && Enabled(s, SpliceSlab(t))
    ensures SpliceIn(s, t).Done? && ListsOk(SpliceIn(s, t).state)
  {
    assert ThreadOk(s, t);
    SlabFacts(s, t);
    var p := PcOf(s, t);
    SlabIsRow(s, t, p.end - ClassLen(p.k), p.slab - {p.start});
    SpliceLists(s, t, p.k, p.start, p.end - ClassLen(p.k), p.end, p.slab);
  }

  /** The fields that a splice leaves alone, and the block it returns. */
  lemma SpliceFields(s: State, t: Tid)
    requires PcOf(s, t).Linking? && PcOf(s, t).k < CLASSES && |s.chain.heads| == 2 * CLASSES && SpliceIn(s, t).Done?
    requires var p := PcOf(s, t);
      && p.start in p.slab && p.slab <= s.owner.Keys && p.start in s.mem
      && p.end - ClassLen(p.k) != p.start
    ensures var s', p := SpliceIn(s, t).state, PcOf(s, t);
      && SpliceIn(s, t).ret == p.start && s'.kind == s.kind && s'.pos == s.pos && s'.base == s.base
      && s'.mem.Keys == s.mem.Keys && s'.owner.Keys == s.owner.Keys
      && s'.owner[p.start] == Out && s'.mem[p.start] == s.mem[p.start]
  {
    var s', p := SpliceIn(s, t).state, PcOf(s, t);
    var rest := p.slab - {p.start};
    assert s'.owner == (s.owner + (map o | o in rest :: Listed))[p.start := Out];
  }

  lemma SpliceGeometry(s: State, s': State, start: Off, want: nat)
    requires GeometryOk(s) && s'.kind == s.kind && s'.pos == s.pos && s'.base == s.base
    requires s'.mem.Keys == s.mem.Keys && s'.owner.Keys == s.owner.Keys
    requires Outstanding(s', start) && s'.mem[start] == CLEAN && !Outstanding(s, start)
    requires want <= ClassLen(s'.kind[start])
    ensures GeometryOk(s') && GoodReturn(s, s', start, want)
  {
    GeometryFrame(s, s');
    ReturnIsGood(s, s', start, want);
  }

  lemma SpliceKeeps(s: State, t: Tid)
    requires Inv(s) && Enabled(s, SpliceSlab(t))
    ensures var r := SpliceIn(s, t);
      && r.Done? && Inv(r.state) && r.ret != 0
      && GoodReturn(s, r.state, r.ret, PcOf(s, t).want)
  {
    SpliceListsKeep(s, t);
    assert ThreadOk(s, t);
    SlabFacts(s, t);
    SpliceFields(s, t);
    SpliceGeometry(s, SpliceIn(s, t).state, PcOf(s, t).start, PcOf(s, t).want);
    SpliceThreads(s, t);
  }

  // ---- alloc_free ----

  lemma FreeBeginThreads(s: State, t: Tid, off: Off, k: nat)
    requires ThreadsOk(s) && PcOf(s, t).Idle? && Outstanding(s, off) && s.kind[off] == k < CLASSES && off in s.mem
    ensures ThreadsOk(FreeBegin(s, t, off, k).state)
  {
    OthersFrame(s, FreeBegin(s, t, off, k).state, t);
    ThreadsFrame(FreeBegin(s, t, off, k).state, t);
  }

  lemma FreeBeginKeeps(s: State, t: Tid, off: Off, k: nat)
    requires Inv(s) && PcOf(s, t).Idle? && Outstanding(s, off) && s.kind[off] == k
    ensures FreeBegin(s, t, off, k).Done? && Inv(FreeBegin(s, t, off, k).state) && FreeBegin(s, t, off, k).ret == 0
  {
    GeometryFrame(s, FreeBegin(s, t, off, k).state);
    ListsFrame(s, FreeBegin(s, t, off, k).state);
    FreeBeginThreads(s, t, off, k);
  }

  lemma FreeStoreThreads(s: State, t: Tid)
    requires ThreadsOk(s) && PcOf(s, t).Loaded?
    ensures FreeStoreLink(s, t).Done? && ThreadsOk(FreeStoreLink(s, t).state)
    ensures HoldsBlock(s, t, PcOf(s, t).off, PcOf(s, t).k)
  {
    assert ThreadOk(s, t);
    OthersFrame(s, FreeStoreLink(s, t).state, t);
    ThreadsFrame(FreeStoreLink(s, t).state, t);
  }

  lemma FreeStoreKeeps(s: State, t: Tid)
    requires Inv(s) && PcOf(s, t).Loaded?
    ensures FreeStoreLink(s, t).Done? && Inv(FreeStoreLink(s, t).state) && FreeStoreLink(s, t).ret == 0
  {
    FreeStoreThreads(s, t);
    GeometryFrame(s, FreeStoreLink(s, t).state);
    ListsFrame(s, FreeStoreLink(s, t).state);
  }

  lemma FreePushLists(s: State, t: Tid)
    requires ListsOk(s) && s.mem.Keys == s.owner.Keys && 0 !in s.mem && ThreadOk(s, t) && PcOf(s, t).Stored?
    ensures FreePush(s, t, false).Done? && ListsOk(FreePush(s, t, false).state)
  {
    var p := PcOf(s, t);
    if s.chain.heads[FreeList(p.k)] == p.top { PushOk(s.chain, Links(s.mem), FreeList(p.k), p.off, s.clock); }
  }

  lemma FreePushThreads(s: State, t: Tid, spurious: bool)
    requires ThreadsOk(s) && |s.chain.heads| == 2 * CLASSES && PcOf(s, t).Stored?
    ensures HoldsBlock(s, t, PcOf(s, t).off, PcOf(s, t).k)
    ensures FreePush(s, t, spurious).Done? && ThreadsOk(FreePush(s, t, spurious).state)
  {
    assert ThreadOk(s, t);
    OthersFrame(s, FreePush(s, t, spurious).state, t);
    ThreadsFrame(FreePush(s, t, spurious).state, t);
  }

  lemma FreePushKeeps(s: State, t: Tid, spurious: bool)
    requires Inv(s) && PcOf(s, t).Stored?
    ensures FreeList(PcOf(s, t).k) < |s.chain.heads|
    ensures FreePush(s, t, spurious).Done? && Inv(FreePush(s, t, spurious).state) && FreePush(s, t, spurious).ret == 0
  {
    assert ThreadOk(s, t);
    FreePushThreads(s, t, spurious);
    var s' := FreePush(s, t, spurious).state;
    GeometryFrame(s, s');
    if s'.chain == s.chain { ListsFrame(s, s'); } else { FreePushLists(s, t); }
  }

  lemma ClientWriteKeeps(s: State, off: Off, block: Block)
    requires Inv(s) && Outstanding(s, off)
    ensures Inv(s.(mem := s.mem[off := block]))
  {
    var s' := s.(mem := s.mem[off := block]);
    GeometryFrame(s, s');
    ListsFrame(s, s');
    forall u ensures ThreadOk(s', u) {
      assert ThreadOk(s, u);
      ClientWriteThread(s, off, block, u);
    }
  }

  lemma ClientWriteThread(s: State, off: Off, block: Block, u: Tid)
    requires ThreadOk(s, u) && Outstanding(s, off)
    ensures ThreadOk(s.(mem := s.mem[off := block]), u)
  {
    var s' := s.(mem := s.mem[off := block]);
    var p := PcOf(s, u);
    if p.Linking? {
      assert SlabBlock(s, u, p, p.start);
      forall o | o in p.slab ensures SlabBlock(s', u, p, o) { assert SlabBlock(s, u, p, o); }
    }
  }

  lemma LocalStepKeeps(s: State, t: Tid, p: Pc)
    requires Inv(s) && ThreadOk(s.(pc := s.pc[t := p]), t)
    ensures Inv(s.(pc := s.pc[t := p]))
  {
    var s' := s.(pc := s.pc[t := p]);
    GeometryFrame(s, s');
    ListsFrame(s, s');
    OthersFrame(s, s', t);
    ThreadsFrame(s', t);
  }
}
