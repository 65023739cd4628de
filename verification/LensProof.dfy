/** Every step of the lens state machine keeps its invariant and cannot crash. */
module LensProof {
  import opened LensList

  // ---- stamps ----

  lemma StampsAfterPush(stamp: map<Off, nat>, off: Off, clock: nat)
    requires UniqueStamps(stamp) && forall o :: o in stamp ==> stamp[o] < clock
    ensures UniqueStamps(stamp[off := clock])
  {
    var stamp' := stamp[off := clock];
    forall a, b | SameAge(stamp', a, b) ensures a == b {
      assert a != off && b != off ==> SameAge(stamp, a, b);
    }
  }

  lemma StampsAfterFree(stamp: map<Off, nat>, off: Off)
    requires UniqueStamps(stamp)
    ensures UniqueStamps(stamp - {off})
  {
    var stamp' := stamp - {off};
    forall a, b | SameAge(stamp', a, b) ensures a == b { assert SameAge(stamp, a, b); }
  }

  // ---- list order ----

  lemma ListFrame(s: State, s': State)
    requires ListOk(s) && s'.head == s.head && s'.listed == s.listed && s'.listed <= s.stamp.Keys
    requires forall o :: o in s.listed ==>
      o in s.mem && o in s'.mem && s'.mem[o].next == s.mem[o].next && o in s'.stamp && s'.stamp[o] == s.stamp[o]
    ensures ListOk(s')
  {
    forall o | o in s'.listed ensures NextLink(s', o) { assert NextLink(s, o); }
  }

  lemma StoreHeadList(s: State, t: Tid)
    requires HeapOk(s) && ListOk(s) && ThreadOk(s, t) && PcOf(s, t).PushHead?
    ensures ListOk(StoreHead(s, t))
  {
    var s' := StoreHead(s, t);
    forall o | o in s'.listed ensures NextLink(s', o) {
      if o in s.listed { assert NextLink(s, o); }
    }
  }

  lemma NextIsInjective(s: State, a: Off, b: Off)
    requires HeapOk(s) && ListOk(s) && a in s.listed && b in s.listed && a in s.mem && b in s.mem
    requires s.mem[a].next == s.mem[b].next != 0
    ensures a == b
  {
    assert NextLink(s, a) && NextLink(s, b);
    assert SameAge(s.stamp, a, b) ==> a == b;
  }

  /** Taking a lens out of the list by redirecting the next link that led to it. */
  lemma UnlinkInner(s: State, s': State, off: Off, q: Off)
    requires HeapOk(s) && ListOk(s) && off in s.listed && off in s.mem && off != s.head
    requires q in s.listed && q in s.mem && s.mem[q].next == off
    requires s'.listed == s.listed - {off} && s'.stamp == s.stamp && s'.head == s.head
    requires s'.mem == s.mem[q := s.mem[q].(next := s.mem[off].next)]
    ensures ListOk(s')
  {
    assert NextLink(s, off) && NextLink(s, q);
    forall o | o in s'.listed ensures NextLink(s', o) {
      assert NextLink(s, o);
      if s.mem[o].next == off { NextIsInjective(s, o, q); }
      forall l | l in s'.listed && s.stamp[l] <= s.stamp[off] ensures s.stamp[l] < s.stamp[off] {
        assert SameAge(s.stamp, l, off) ==> l == off;
      }
    }
  }

  lemma UnlinkHead(s: State, s': State, off: Off)
    requires HeapOk(s) && ListOk(s) && off in s.listed && off in s.mem && off == s.head
    requires s'.listed == s.listed - {off} && s'.stamp == s.stamp && s'.mem == s.mem
    requires s'.head == s.mem[off].next
    ensures ListOk(s')
  {
    assert NextLink(s, off);
    forall l | l in s'.listed ensures s.stamp[l] < s.stamp[off] { assert SameAge(s.stamp, l, off) ==> l == off; }
    forall o | o in s'.listed ensures NextLink(s', o) { assert NextLink(s, o); }
  }

  // ---- prev links ----

  ghost predicate Skewed(p: Pc) {
    p.PushHead? || p.KillPrev? || p.KillHead?
  }

  lemma PrevFrame(s: State, s': State)
    requires PrevOk(s) && s'.head == s.head && s'.listed == s.listed && 0 !in s.listed
    requires forall o :: o in s.listed ==>
      o in s.mem && o in s'.mem && s'.mem[o].next == s.mem[o].next && s'.mem[o].prev == s.mem[o].prev
    requires HolderPc(s') == HolderPc(s)
        || (!Skewed(HolderPc(s)) && (Skewed(HolderPc(s')) ==> HolderPc(s').PushHead? && HolderPc(s').top == 0))
    ensures PrevOk(s')
  {
    forall o | o in s'.listed ensures PrevLink(s', o) { assert PrevLink(s, o); }
  }

  /** No next link leads to the head, so its prev link is empty. */
  lemma HeadHasNoPrev(s: State)
    requires HeapOk(s) && ListOk(s) && s.head != 0 && PrevLink(s, s.head)
    requires !HolderPc(s).PushHead? && (Skewed(HolderPc(s)) ==> s.head != HolderPc(s).nxt)
    ensures s.mem[s.head].prev == 0
  {
    var q := s.mem[s.head].prev;
    assert q in s.listed ==> NextLink(s, q);
  }

  lemma StorePrevPrev(s: State, t: Tid)
    requires HeapOk(s) && ListOk(s) && PrevOk(s) && ThreadOk(s, t) && PcOf(s, t).PushPrev?
    ensures StorePrev(s, t).Ok? && PrevOk(StorePrev(s, t).state)
  {
    var p := PcOf(s, t);
    assert PrevLink(s, p.top);
    HeadHasNoPrev(s);
    var s' := StorePrev(s, t).state;
    forall o | o in s'.listed ensures PrevLink(s', o) { assert PrevLink(s, o); }
  }

  lemma StoreHeadPrev(s: State, t: Tid)
    requires HeapOk(s) && ListOk(s) && PrevOk(s) && ThreadOk(s, t) && PcOf(s, t).PushHead?
    ensures PrevOk(StoreHead(s, t))
  {
    var s' := StoreHead(s, t);
    forall o | o in s'.listed ensures PrevLink(s', o) {
      if o in s.listed { assert PrevLink(s, o); }
    }
  }

  lemma KillNextPrevPrev(s: State, t: Tid)
    requires HeapOk(s) && ListOk(s) && PrevOk(s) && ThreadOk(s, t) && PcOf(s, t).KillNext?
    ensures KillNextPrev(s, t).Ok? && PrevOk(KillNextPrev(s, t).state)
  {
    var p := PcOf(s, t);
    assert NextLink(s, p.off);
    if p.nxt != 0 {
      assert PrevLink(s, p.nxt);
      if s.mem[p.nxt].prev != 0 { NextIsInjective(s, p.off, s.mem[p.nxt].prev); }
    }
    var s' := KillNextPrev(s, t).state;
    forall o | o in s'.listed ensures PrevLink(s', o) {
      assert PrevLink(s, o) && NextLink(s, o);
    }
  }

  lemma KillPrevNextPrev(s: State, t: Tid)
    requires HeapOk(s) && ListOk(s) && PrevOk(s) && ThreadOk(s, t) && PcOf(s, t).KillPrev?
    ensures KillPrevNext(s, t).Ok? && PrevOk(KillPrevNext(s, t).state)
  {
    var p := PcOf(s, t);
    assert NextLink(s, p.off) && PrevLink(s, p.off);
    var s' := KillPrevNext(s, t).state;
    forall o | o in s'.listed ensures PrevLink(s', o) {
      assert PrevLink(s, o) && NextLink(s, o);
    }
  }

  lemma KillHeadStorePrev(s: State, t: Tid)
    requires HeapOk(s) && ListOk(s) && PrevOk(s) && ThreadOk(s, t) && PcOf(s, t).KillHead?
    ensures PrevOk(KillHeadStore(s, t))
  {
    var p := PcOf(s, t);
    var s' := KillHeadStore(s, t);
    if p.off in s.listed {
      assert NextLink(s, p.off) && PrevLink(s, p.off);
      HeadHasNoPrev(s);
    }
    forall o | o in s'.listed ensures PrevLink(s', o) {
      assert PrevLink(s, o);
    }
  }

  // ---- name table ----

  ghost predicate SameWork(p: Pc, p': Pc) {
    || p' == p
    || ((p.PushNext? || p.PushPrev?) && (p'.PushPrev? || p'.PushHead?) && p'.off == p.off)
    || (p.KillNext? && p'.KillPrev? && p'.off == p.off)
    || (p.KillPrev? && p'.KillHead? && p'.off == p.off)
  }

  lemma KeysFrame(s: State, s': State)
    requires KeysOk(s) && s'.keys == s.keys && SameWork(HolderPc(s), HolderPc(s'))
    requires s'.listed <= s.listed && forall n :: n in s.keys && s.keys[n] in s.listed ==> s.keys[n] in s'.listed
    requires forall o :: o in s.listed && o in s.mem ==> o in s'.mem && s'.mem[o].name == s.mem[o].name
    requires forall n :: n in s.keys && s.keys[n] in s.mem ==>
        s.keys[n] in s'.mem && s'.mem[s.keys[n]].name == s.mem[s.keys[n]].name
    ensures KeysOk(s')
  {
    forall n | n in s'.keys ensures KeyOk(s', n) { assert KeyOk(s, n); }
    forall o | o in s'.listed ensures NameOk(s', o) { assert NameOk(s, o); }
  }

  lemma RegisterKeys(s: State, t: Tid)
    requires KeysOk(s) && ThreadOk(s, t) && PcOf(s, t).Fresh? && !s.lock
    ensures Register(s, t).Ok? && KeysOk(Register(s, t).state)
  {
    var s' := Register(s, t).state;
    forall n | n in s'.keys ensures KeyOk(s', n) { assert n in s.keys ==> KeyOk(s, n); }
    forall o | o in s'.listed ensures NameOk(s', o) { assert NameOk(s, o); }
  }

  lemma StoreHeadKeys(s: State, t: Tid)
    requires KeysOk(s) && ThreadOk(s, t) && PcOf(s, t).PushHead?
    ensures KeysOk(StoreHead(s, t))
  {
    var s' := StoreHead(s, t);
    forall n | n in s'.keys ensures KeyOk(s', n) { assert KeyOk(s, n); }
    forall o | o in s'.listed ensures NameOk(s', o) { assert o in s.listed ==> NameOk(s, o); }
  }

  lemma UnregisterKeys(s: State, t: Tid, off: Off)
    requires KeysOk(s) && !s.lock && LiveHandle(s, off)
    ensures KeysOk(Unregister(s, t, off).state)
  {
    var s' := Unregister(s, t, off).state;
    forall n | n in s'.keys ensures KeyOk(s', n) { assert KeyOk(s, n); }
    forall o | o in s'.listed ensures NameOk(s', o) { assert NameOk(s, o); }
  }

  lemma KillHeadStoreKeys(s: State, t: Tid)
    requires KeysOk(s) && ThreadOk(s, t) && PcOf(s, t).KillHead? && s.owner.Keys == s.mem.Keys
    ensures KeysOk(KillHeadStore(s, t))
  {
    var s' := KillHeadStore(s, t);
    forall n | n in s'.keys ensures KeyOk(s', n) { assert KeyOk(s, n); }
    forall o | o in s'.listed ensures NameOk(s', o) { assert NameOk(s, o); }
  }

  // ---- traversal ----

  /** What the traversal relies on: nothing of its snapshot is freed or relinked, and only lenses
      newer than everything stamped so far join the list. */
  lemma TraversalFrame(s: State, s': State)
    requires HeapOk(s) && TraversalOk(s)
    requires s'.cursor == s.cursor && s'.snapshot == s.snapshot && s'.visited == s.visited
    requires !s.cursor.Away? ==> forall n :: n in s.snapshot && n in s.stamp ==>
      n in s.mem && n in s'.mem && s'.mem[n].next == s.mem[n].next && n in s'.stamp && s'.stamp[n] == s.stamp[n]
    requires forall l :: l in s'.listed && l !in s.listed ==> l !in s.stamp && l in s'.stamp && s'.stamp[l] == s.clock
    requires forall l :: l in s'.listed && l in s.listed ==> l in s.stamp && l in s'.stamp && s'.stamp[l] == s.stamp[l]
    ensures TraversalOk(s')
  {
    if !s'.cursor.Away? {
      assert s.cursor.cur != 0 ==> SnapshotOk(s, s.cursor.cur);
      forall n | n in s'.snapshot ensures SnapshotOk(s', n) {
        assert SnapshotOk(s, n);
        assert s.mem[n].next in s.snapshot ==> SnapshotOk(s, s.mem[n].next);
      }
      forall v | v in s'.visited ensures !Ahead(s', v) { assert SnapshotOk(s, v) && !Ahead(s, v); }
      forall l | l in s'.listed && l in s'.snapshot ensures l in s'.visited || Ahead(s', l) {
        assert SnapshotOk(s, l) && (l in s.visited || Ahead(s, l));
      }
    }
  }

  lemma KillPrevNextSnapshot(s: State, t: Tid, n: Off)
    requires HeapOk(s) && SnapshotsOk(s) && ThreadOk(s, t) && PcOf(s, t).KillPrev? && KillPrevNext(s, t).Ok?
    requires n in s.snapshot
    ensures SnapshotOk(KillPrevNext(s, t).state, n)
  {
    assert SnapshotOk(s, n);
    assert s.mem[n].next in s.snapshot ==> SnapshotOk(s, s.mem[n].next);
    var off := PcOf(s, t).off;
    forall l | l in s.listed - {off} && s.stamp[l] <= s.stamp[off] ensures s.stamp[l] < s.stamp[off] {
      assert SameAge(s.stamp, l, off) ==> l == off;
    }
  }

  lemma KillPrevNextTraversal(s: State, t: Tid)
    requires HeapOk(s) && TraversalOk(s) && ThreadOk(s, t) && PcOf(s, t).KillPrev? && KillPrevNext(s, t).Ok?
    ensures TraversalOk(KillPrevNext(s, t).state)
  {
    var s' := KillPrevNext(s, t).state;
    if !s'.cursor.Away? {
      forall n | n in s'.snapshot ensures SnapshotOk(s', n) { KillPrevNextSnapshot(s, t, n); }
      forall l | l in s'.listed && l in s'.snapshot ensures l in s'.visited || Ahead(s', l) {
        assert l in s.visited || Ahead(s, l);
      }
      forall v | v in s'.visited ensures !Ahead(s', v) { assert !Ahead(s, v); }
    }
  }

  lemma ReadHeadTraversal(s: State, view: nat)
    requires HeapOk(s) && ListOk(s)
    ensures TraversalOk(ReadHead(s, view))
  {
    var s' := ReadHead(s, view);
    forall n | n in s'.snapshot ensures SnapshotOk(s', n) { assert NextLink(s, n); }
    forall l | l in s'.listed ensures Ahead(s', l) {}
  }

  lemma LookVisited(s: State)
    requires SnapshotsOk(s) && VisitedOk(s) && s.cursor.At? && s.cursor.cur != 0 && Look(s).Ok?
    ensures Look(s).state.cursor.Seen? ==> VisitedOk(Look(s).state)
  {
    var s' := Look(s).state;
    assert SnapshotOk(s, s.cursor.cur);
    forall v | s'.cursor.Seen? && v in s'.visited ensures v in s.snapshot && v in s.stamp && !Ahead(s', v) {
      assert v in s.visited ==> !Ahead(s, v);
    }
    forall i | 0 <= i < |s.visited| ensures s.visited[i] in s.stamp && s.stamp[s.cursor.cur] < s.stamp[s.visited[i]] {
      assert s.visited[i] in s.visited && !Ahead(s, s.visited[i]);
    }
  }

  lemma LookReaches(s: State)
    requires HeapOk(s) && ReachesAll(s) && s.cursor.At? && s.cursor.cur != 0 && Look(s).Ok?
    ensures Look(s).state.cursor.Seen? ==> ReachesAll(Look(s).state)
  {
    var s' := Look(s).state;
    forall l | s'.cursor.Seen? && l in s'.listed && l in s'.snapshot ensures l in s'.visited || Ahead(s', l) {
      assert l in s.visited || Ahead(s, l);
      assert SameAge(s.stamp, l, s.cursor.cur) ==> l == s.cursor.cur;
    }
  }

  lemma LookTraversal(s: State)
    requires HeapOk(s) && TraversalOk(s) && s.cursor.At? && s.cursor.cur != 0
    ensures Look(s).Ok? && TraversalOk(Look(s).state)
  {
    assert SnapshotOk(s, s.cursor.cur);
    LookVisited(s);
    LookReaches(s);
    var s' := Look(s).state;
    forall n | !s'.cursor.Away? && n in s'.snapshot ensures SnapshotOk(s', n) { assert SnapshotOk(s, n); }
  }

  lemma AdvanceTraversal(s: State)
    requires TraversalOk(s) && s.cursor.Seen?
    ensures Advance(s).Ok? && TraversalOk(Advance(s).state)
  {
    assert SnapshotOk(s, s.cursor.cur);
    var s' := Advance(s).state;
    forall n | n in s'.snapshot ensures SnapshotOk(s', n) { assert SnapshotOk(s, n); }
    forall l | l in s'.listed && l in s'.snapshot ensures l in s'.visited || Ahead(s', l) {
      assert SnapshotOk(s, l) && (l in s.visited || Ahead(s, l));
    }
    forall v | v in s'.visited ensures !Ahead(s', v) { assert SnapshotOk(s, v) && !Ahead(s, v); }
  }

  // ---- threads ----

  /** A step of thread `t` leaves alone what the other threads rely on. */
  lemma OthersFrame(s: State, s': State, t: Tid)
    requires HeapOk(s) && ThreadsOk(s)
    requires forall u :: u != t ==> PcOf(s', u) == PcOf(s, u)
    requires forall o :: o in s.mem && o in s.owner && s.owner[o] != Held(t) && s.owner[o].Held? && o !in s.stamp ==>
      o in s'.mem && o in s'.owner && s'.mem[o] == s.mem[o] && s'.owner[o] == s.owner[o] && o !in s'.stamp
    requires s.lock && s.holder != t ==>
      && s'.lock && s'.holder == s.holder && s'.head == s.head && s'.keys == s.keys && s'.listed == s.listed
      && forall o :: o in s.mem && o in s.stamp && o in s.owner && s.owner[o] != Unlinked ==>
           o in s'.mem && s'.mem[o] == s.mem[o] && o in s'.stamp && o in s'.owner && s'.owner[o] == s.owner[o]
    requires s.lock && s.holder == t && s'.lock ==> s'.holder == t
    requires !s.lock && s'.lock ==> s'.holder == t
    ensures forall u :: u != t ==> ThreadOk(s', u)
  {
    forall u | u != t ensures ThreadOk(s', u) { assert ThreadOk(s, u); }
  }

  lemma ThreadsFrame(s: State, s': State, t: Tid)
    requires ThreadOk(s', t) && forall u :: u != t ==> ThreadOk(s', u)
    requires s'.lock ==> HoldsLock(PcOf(s', s'.holder))
    ensures ThreadsOk(s')
  {
    forall u ensures ThreadOk(s', u) { assert u != t ==> ThreadOk(s', u); }
  }

  // ---- steps ----

  /** Neither the list nor its links change. */
  lemma LinksFrame(s: State, s': State)
    requires HeapOk(s) && ListOk(s) && PrevOk(s) && s'.head == s.head && s'.listed == s.listed
    requires forall o :: o in s.listed ==>
      && o in s'.mem && s'.mem[o].next == s.mem[o].next && s'.mem[o].prev == s.mem[o].prev
      && o in s'.stamp && s'.stamp[o] == s.stamp[o]
    requires HolderPc(s') == HolderPc(s)
        || (!Skewed(HolderPc(s)) && (Skewed(HolderPc(s')) ==> HolderPc(s').PushHead? && HolderPc(s').top == 0))
    ensures ListOk(s') && PrevOk(s')
  {
    ListFrame(s, s');
    PrevFrame(s, s');
  }

  lemma CreateThreads(s: State, t: Tid, off: Off, name: Name, len: nat)
    requires HeapOk(s) && ThreadsOk(s) && PcOf(s, t).Idle? && off !in s.mem
    ensures ThreadsOk(Create(s, t, off, name, len))
  {
    assert ThreadOk(s, t);
    OthersFrame(s, Create(s, t, off, name, len), t);
    ThreadsFrame(s, Create(s, t, off, name, len), t);
  }

  lemma CreateStructure(s: State, t: Tid, off: Off, name: Name, len: nat)
    requires HeapOk(s) && ListOk(s) && PrevOk(s) && KeysOk(s) && ThreadOk(s, t) && PcOf(s, t).Idle? && off > 0
    requires off !in s.mem
    ensures var s' := Create(s, t, off, name, len); HeapOk(s') && ListOk(s') && PrevOk(s') && KeysOk(s')
  {
    var s' := Create(s, t, off, name, len);
    assert HolderPc(s') == HolderPc(s);
    LinksFrame(s, s');
    KeysFrame(s, s');
  }

  lemma CreateKeeps(s: State, t: Tid, off: Off, name: Name, len: nat)
    requires Inv(s) && PcOf(s, t).Idle? && off > 0 && off !in s.mem
    ensures Inv(Create(s, t, off, name, len))
  {
    assert ThreadOk(s, t);
    CreateStructure(s, t, off, name, len);
    TraversalFrame(s, Create(s, t, off, name, len));
    CreateThreads(s, t, off, name, len);
  }

  lemma RegisterKeeps(s: State, t: Tid)
    requires Inv(s) && PcOf(s, t).Fresh? && !s.lock
    ensures Register(s, t).Ok? && Inv(Register(s, t).state)
  {
    assert ThreadOk(s, t);
    RegisterKeys(s, t);
    var s' := Register(s, t).state;
    LinksFrame(s, s');
    TraversalFrame(s, s');
    OthersFrame(s, s', t);
    ThreadsFrame(s, s', t);
  }

  /** Freeing a lens that is neither listed nor named. */
  lemma ForgetStructure(s: State, s': State, off: Off)
    requires HeapOk(s) && ListOk(s) && PrevOk(s) && KeysOk(s)
    requires off !in s.listed && (forall n :: n in s.keys ==> s.keys[n] != off)
    requires s'.mem == s.mem - {off} && s'.owner == s.owner - {off} && s'.stamp == s.stamp - {off}
    requires s'.head == s.head && s'.listed == s.listed && s'.keys == s.keys && s'.clock == s.clock
    requires HolderPc(s') == HolderPc(s)
    ensures HeapOk(s') && ListOk(s') && PrevOk(s') && KeysOk(s')
  {
    StampsAfterFree(s.stamp, off);
    LinksFrame(s, s');
    KeysFrame(s, s');
  }

  lemma DropFreshThreads(s: State, t: Tid)
    requires HeapOk(s) && ThreadsOk(s) && PcOf(s, t).Refused?
    ensures DropFresh(s, t).Ok? && ThreadsOk(DropFresh(s, t).state)
  {
    assert ThreadOk(s, t);
    OthersFrame(s, DropFresh(s, t).state, t);
    ThreadsFrame(s, DropFresh(s, t).state, t);
  }

  lemma DropFreshKeeps(s: State, t: Tid)
    requires Inv(s) && PcOf(s, t).Refused?
    ensures DropFresh(s, t).Ok? && Inv(DropFresh(s, t).state)
  {
    assert ThreadOk(s, t) && ThreadOk(s, s.holder);
    var s' := DropFresh(s, t).state;
    forall n | n in s.keys ensures s.keys[n] != PcOf(s, t).off { assert KeyOk(s, n); }
    ForgetStructure(s, s', PcOf(s, t).off);
    TraversalFrame(s, s');
    DropFreshThreads(s, t);
  }

  lemma StoreNextThreads(s: State, t: Tid)
    requires HeapOk(s) && ThreadsOk(s) && PcOf(s, t).PushNext?
    ensures StoreNext(s, t).Ok? && ThreadsOk(StoreNext(s, t).state)
  {
    assert ThreadOk(s, t);
    OthersFrame(s, StoreNext(s, t).state, t);
    ThreadsFrame(s, StoreNext(s, t).state, t);
  }

  lemma StoreNextKeeps(s: State, t: Tid)
    requires Inv(s) && PcOf(s, t).PushNext?
    ensures StoreNext(s, t).Ok? && Inv(StoreNext(s, t).state)
  {
    assert ThreadOk(s, t);
    var s' := StoreNext(s, t).state;
    LinksFrame(s, s');
    KeysFrame(s, s');
    TraversalFrame(s, s');
    StoreNextThreads(s, t);
  }

  lemma StorePrevKeeps(s: State, t: Tid)
    requires Inv(s) && PcOf(s, t).PushPrev?
    ensures StorePrev(s, t).Ok? && Inv(StorePrev(s, t).state)
  {
    assert ThreadOk(s, t);
    StorePrevPrev(s, t);
    var s' := StorePrev(s, t).state;
    ListFrame(s, s');
    KeysFrame(s, s');
    TraversalFrame(s, s');
    OthersFrame(s, s', t);
    ThreadsFrame(s, s', t);
  }

  lemma StoreHeadThreads(s: State, t: Tid)
    requires HeapOk(s) && ThreadsOk(s) && PcOf(s, t).PushHead?
    ensures ThreadsOk(StoreHead(s, t))
  {
    assert ThreadOk(s, t);
    OthersFrame(s, StoreHead(s, t), t);
    ThreadsFrame(s, StoreHead(s, t), t);
  }

  lemma StoreHeadKeeps(s: State, t: Tid)
    requires Inv(s) && PcOf(s, t).PushHead?
    ensures Inv(StoreHead(s, t))
  {
    assert ThreadOk(s, t);
    var s' := StoreHead(s, t);
    StampsAfterPush(s.stamp, PcOf(s, t).off, s.clock);
    StoreHeadList(s, t);
    StoreHeadPrev(s, t);
    StoreHeadKeys(s, t);
    TraversalFrame(s, s');
    StoreHeadThreads(s, t);
  }

  lemma UnregisterKeeps(s: State, t: Tid, off: Off)
    requires Inv(s) && PcOf(s, t).Idle? && !s.lock && LiveHandle(s, off)
    ensures Unregister(s, t, off).Ok? && Inv(Unregister(s, t, off).state)
  {
    assert ThreadOk(s, t) && KeyOk(s, s.mem[off].name);
    var s' := Unregister(s, t, off).state;
    LinksFrame(s, s');
    UnregisterKeys(s, t, off);
    TraversalFrame(s, s');
    OthersFrame(s, s', t);
    ThreadsFrame(s, s', t);
  }

  lemma KillNextPrevThreads(s: State, t: Tid)
    requires HeapOk(s) && ListOk(s) && ThreadsOk(s) && PcOf(s, t).KillNext? && KillNextPrev(s, t).Ok?
    ensures ThreadsOk(KillNextPrev(s, t).state)
  {
    assert ThreadOk(s, t) && NextLink(s, PcOf(s, t).off);
    OthersFrame(s, KillNextPrev(s, t).state, t);
    ThreadsFrame(s, KillNextPrev(s, t).state, t);
  }

  lemma KillNextPrevKeeps(s: State, t: Tid)
    requires Inv(s) && PcOf(s, t).KillNext?
    ensures KillNextPrev(s, t).Ok? && Inv(KillNextPrev(s, t).state)
  {
    assert ThreadOk(s, t) && NextLink(s, PcOf(s, t).off);
    KillNextPrevPrev(s, t);
    var s' := KillNextPrev(s, t).state;
    ListFrame(s, s');
    KeysFrame(s, s');
    TraversalFrame(s, s');
    KillNextPrevThreads(s, t);
  }

  lemma KillPrevNextStructure(s: State, t: Tid)
    requires HeapOk(s) && ListOk(s) && PrevOk(s) && KeysOk(s) && ThreadOk(s, t) && PcOf(s, t).KillPrev?
    ensures KillPrevNext(s, t).Ok?
    ensures var s' := KillPrevNext(s, t).state; HeapOk(s') && ListOk(s') && PrevOk(s') && KeysOk(s')
  {
    var p := PcOf(s, t);
    assert NextLink(s, p.off) && PrevLink(s, p.off);
    KillPrevNextPrev(s, t);
    var s' := KillPrevNext(s, t).state;
    if s.mem[p.off].prev == 0 {
      ListFrame(s, s');
    } else {
      assert NextLink(s, s.mem[p.off].prev);
      UnlinkInner(s, s', p.off, s.mem[p.off].prev);
    }
    forall n | n in s.keys ensures s.keys[n] != p.off { assert KeyOk(s, n); }
    KeysFrame(s, s');
  }

  lemma KillPrevNextThreads(s: State, t: Tid)
    requires HeapOk(s) && ListOk(s) && ThreadsOk(s) && PcOf(s, t).KillPrev? && KillPrevNext(s, t).Ok?
    requires PrevLink(s, PcOf(s, t).off)
    ensures ThreadsOk(KillPrevNext(s, t).state)
  {
    assert ThreadOk(s, t) && NextLink(s, PcOf(s, t).off);
    var prev := s.mem[PcOf(s, t).off].prev;
    assert prev in s.listed ==> NextLink(s, prev);
    OthersFrame(s, KillPrevNext(s, t).state, t);
    ThreadsFrame(s, KillPrevNext(s, t).state, t);
  }

  lemma KillPrevNextKeeps(s: State, t: Tid)
    requires Inv(s) && PcOf(s, t).KillPrev?
    ensures KillPrevNext(s, t).Ok? && Inv(KillPrevNext(s, t).state)
  {
    assert ThreadOk(s, t) && NextLink(s, PcOf(s, t).off) && PrevLink(s, PcOf(s, t).off);
    KillPrevNextStructure(s, t);
    KillPrevNextTraversal(s, t);
    KillPrevNextThreads(s, t);
  }

  lemma KillHeadStoreList(s: State, t: Tid)
    requires HeapOk(s) && ListOk(s) && ThreadOk(s, t) && PcOf(s, t).KillHead?
    ensures HeapOk(KillHeadStore(s, t)) && ListOk(KillHeadStore(s, t))
  {
    var off, s' := PcOf(s, t).off, KillHeadStore(s, t);
    if off in s.listed { UnlinkHead(s, s', off); } else { ListFrame(s, s'); }
  }

  lemma KillHeadStoreThreads(s: State, t: Tid)
    requires HeapOk(s) && ThreadsOk(s) && PcOf(s, t).KillHead?
    ensures ThreadsOk(KillHeadStore(s, t))
  {
    assert ThreadOk(s, t);
    OthersFrame(s, KillHeadStore(s, t), t);
    ThreadsFrame(s, KillHeadStore(s, t), t);
  }

  lemma KillHeadStoreKeeps(s: State, t: Tid)
    requires Inv(s) && PcOf(s, t).KillHead?
    ensures Inv(KillHeadStore(s, t))
  {
    assert ThreadOk(s, t);
    KillHeadStoreList(s, t);
    KillHeadStorePrev(s, t);
    KillHeadStoreKeys(s, t);
    TraversalFrame(s, KillHeadStore(s, t));
    KillHeadStoreThreads(s, t);
  }

  /** What the deferred free has to guarantee before it hands a lens back to the allocator. */
  ghost predicate Reclaimable(s: State, off: Off, len: nat) {
    s.cursor.Away? && off in s.mem && off in s.owner && s.owner[off] == Unlinked && s.mem[off].len == len
  }

  lemma ReclaimKeeps(s: State, off: Off, len: nat)
    requires Inv(s) && Reclaimable(s, off, len)
    ensures Reclaim(s, off, len).Ok? && Inv(Reclaim(s, off, len).state)
  {
    assert ThreadOk(s, s.holder);
    var s' := Reclaim(s, off, len).state;
    forall n | n in s.keys ensures s.keys[n] != off { assert KeyOk(s, n); }
    ForgetStructure(s, s', off);
    forall u ensures ThreadOk(s', u) { assert ThreadOk(s, u); }
  }

  /** The traversal writes nothing. */
  lemma CursorFrame(s: State, s': State)
    requires HeapOk(s) && ListOk(s) && PrevOk(s) && KeysOk(s) && ThreadsOk(s)
    requires s' == s.(cursor := s'.cursor, snapshot := s'.snapshot, visited := s'.visited, view := s'.view)
    ensures HeapOk(s') && ListOk(s') && PrevOk(s') && KeysOk(s') && ThreadsOk(s')
  {
    LinksFrame(s, s');
    KeysFrame(s, s');
    forall u ensures ThreadOk(s', u) { assert ThreadOk(s, u); }
  }

  lemma ReadHeadKeeps(s: State, view: nat)
    requires Inv(s)
    ensures Inv(ReadHead(s, view))
  {
    ReadHeadTraversal(s, view);
    CursorFrame(s, ReadHead(s, view));
  }

  lemma LookKeeps(s: State)
    requires Inv(s) && s.cursor.At? && s.cursor.cur != 0
    ensures Look(s).Ok? && Inv(Look(s).state)
  {
    LookTraversal(s);
    CursorFrame(s, Look(s).state);
  }

  lemma AdvanceKeeps(s: State)
    requires Inv(s) && s.cursor.Seen?
    ensures Advance(s).Ok? && Inv(Advance(s).state)
  {
    AdvanceTraversal(s);
    CursorFrame(s, Advance(s).state);
  }
}
