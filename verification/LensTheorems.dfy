/** What holds of every run of one optics region: any interleaving of clients and poller. */
module LensTheorems {
  import L = LensList
  import LP = LensProof
  import D = Deferral
  import opened LensSystem

  function Init(): State {
    State(L.Init(), D.Init())
  }

  predicate Takes(s: State, step: Step, s': State) {
    Enabled(s, step) && Apply(s, step) == Ok(s')
  }

  /** A run: the states before and after each of its steps. */
  predicate Run(ss: seq<State>, steps: seq<Step>) {
    && |ss| == |steps| + 1
    && ss[0] == Init()
    && forall i {:trigger StepAt(ss, steps, i)} :: 0 <= i < |steps| ==> StepAt(ss, steps, i)
  }

  predicate StepAt(ss: seq<State>, steps: seq<Step>, i: nat) {
    i < |steps| && i + 1 < |ss| && Takes(ss[i], steps[i], ss[i + 1])
  }

  lemma InitInv()
    ensures Inv(Init())
  {
    var s := Init();
    forall t ensures L.ThreadOk(s.l, t) {}
    forall t ensures D.ThreadOk(s.d, t) {}
  }

  lemma {:induction false} RunInv(ss: seq<State>, steps: seq<Step>, i: nat)
    requires Run(ss, steps) && i < |ss|
    ensures Inv(ss[i])
    decreases i
  {
    if i == 0 {
      InitInv();
    } else {
      RunInv(ss, steps, i - 1);
      assert StepAt(ss, steps, i - 1);
      StepKeeps(ss[i - 1], steps[i - 1]);
    }
  }

  /** No run can be continued into a crash: no freed block is dereferenced, every alloc_free is
      for an outstanding block with its own length, and no list assertion fires. */
  lemma NeverCrashes(ss: seq<State>, steps: seq<Step>, next: Step)
    requires Run(ss, steps) && Enabled(ss[|ss| - 1], next)
    ensures Apply(ss[|ss| - 1], next).Ok?
  {
    RunInv(ss, steps, |ss| - 1);
    StepKeeps(ss[|ss| - 1], next);
  }

  // ---- traversal ----

  /** The lens under the traversal has not been given back, linked or not. */
  lemma CursorIsAllocated(ss: seq<State>, steps: seq<Step>, i: nat)
    requires Run(ss, steps) && i < |ss| && !ss[i].l.cursor.Away? && ss[i].l.cursor.cur != 0
    ensures ss[i].l.cursor.cur in ss[i].l.mem
    ensures ss[i].l.mem[ss[i].l.cursor.cur].next != 0 ==> ss[i].l.mem[ss[i].l.cursor.cur].next in ss[i].l.mem
  {
    RunInv(ss, steps, i);
    var l := ss[i].l;
    assert L.SnapshotOk(l, l.cursor.cur);
    assert l.mem[l.cursor.cur].next in l.snapshot ==> L.SnapshotOk(l, l.mem[l.cursor.cur].next);
  }

  lemma DistinctFitsSet(xs: seq<Off>, all: set<Off>)
    requires forall x :: x in xs ==> x in all
    requires forall i, j :: 0 <= i < j < |xs| ==> xs[i] != xs[j]
    ensures |xs| <= |all|
  {
    if xs != [] {
      var n := |xs| - 1;
      DistinctFitsSet(xs[..n], all - {xs[n]});
    }
  }

  /** Visits go from newer to older lenses, so no lens is visited twice and the number of visits
      is bounded by the length of the list when its head was read. */
  lemma TraversalDescends(ss: seq<State>, steps: seq<Step>, i: nat)
    requires Run(ss, steps) && i < |ss| && !ss[i].l.cursor.Away?
    ensures forall j, k :: 0 <= j < k < |ss[i].l.visited| ==>
      ss[i].l.visited[j] in ss[i].l.stamp && ss[i].l.visited[k] in ss[i].l.stamp &&
      ss[i].l.stamp[ss[i].l.visited[k]] < ss[i].l.stamp[ss[i].l.visited[j]]
    ensures |ss[i].l.visited| <= |ss[i].l.snapshot|
  {
    RunInv(ss, steps, i);
    DistinctFitsSet(ss[i].l.visited, ss[i].l.snapshot);
  }

  /** The steps from i up to j belong to one traversal, whose head load is step i. */
  predicate OneTraversal(steps: seq<Step>, i: nat, j: nat) {
    && i < j <= |steps| && steps[i].ReadHead?
    && forall k :: i < k < j ==> !steps[k].ReadHead?
  }

  predicate OnListOnly(step: Step) {
    || step.Create? || step.Register? || step.DropFresh? || step.StoreNext? || step.StorePrev? || step.StoreHead?
    || step.Unregister? || step.KillNextPrev? || step.KillPrevNext? || step.ReadHead? || step.Look? || step.Advance?
    || step.Finish?
  }

  predicate OnBoth(step: Step) {
    step.KillHeadStore? || step.FreeLens?
  }

  lemma StepIsLocal(s: State, step: Step, s': State)
    requires Takes(s, step, s') && !OnBoth(step)
    ensures OnListOnly(step) ==> s'.d == s.d
    ensures !OnListOnly(step) ==> s'.l == s.l
  {
  }

  lemma OtherStepsKeepLenses(s: State, step: Step, s': State, o: Off)
    requires Takes(s, step, s') && o in s.l.mem && !step.DropFresh? && !step.FreeLens?
    ensures o in s'.l.mem && s'.l.mem[o].len == s.l.mem[o].len
  {
    if EditsLinks(step) {
      EditsKeepLenses(s.l, step, s'.l, o);
    } else if !OnListOnly(step) && !OnBoth(step) {
      StepIsLocal(s, step, s');
    }
  }

  predicate EditsLinks(step: Step) {
    step.StoreNext? || step.StorePrev? || step.KillNextPrev? || step.KillPrevNext?
  }

  lemma EditsKeepLenses(l: L.State, step: Step, l': L.State, o: Off)
    requires EditsLinks(step) && o in l.mem
    requires match step
             case StoreNext(t) => L.PcOf(l, t).PushNext? && L.StoreNext(l, t) == L.Ok(l')
             case StorePrev(t) => L.PcOf(l, t).PushPrev? && L.StorePrev(l, t) == L.Ok(l')
             case KillNextPrev(t) => L.PcOf(l, t).KillNext? && L.KillNextPrev(l, t) == L.Ok(l')
             case KillPrevNext(t) => L.PcOf(l, t).KillPrev? && L.KillPrevNext(l, t) == L.Ok(l')
    ensures o in l'.mem && l'.mem[o].len == l.mem[o].len
  {
  }

  lemma SnapshotStep(s: State, step: Step, s': State)
    requires Takes(s, step, s') && !step.ReadHead?
    ensures s'.l.snapshot == s.l.snapshot
  {
    if OnListOnly(step) {
      match step { case Register(_) => case KillPrevNext(_) => case Look => case _ => }
    } else if !OnBoth(step) {
      StepIsLocal(s, step, s');
    }
  }

  lemma {:induction false} SnapshotIsFixed(ss: seq<State>, steps: seq<Step>, i: nat, j: nat)
    requires Run(ss, steps) && OneTraversal(steps, i, j)
    ensures ss[j].l.snapshot == ss[i].l.listed
    decreases j
  {
    assert StepAt(ss, steps, j - 1);
    if j > i + 1 {
      SnapshotIsFixed(ss, steps, i, j - 1);
      SnapshotStep(ss[j - 1], steps[j - 1], ss[j]);
    }
  }

  /** A traversal that reaches the end of the list has visited every lens that was in the list
      from the head load to the end, and nothing that was not in the list at the head load. */
  lemma TraversalIsComplete(ss: seq<State>, steps: seq<Step>, i: nat, j: nat)
    requires Run(ss, steps) && OneTraversal(steps, i, j)
    requires ss[j].l.cursor == L.At(0)
    ensures forall o :: o in ss[i].l.listed && o in ss[j].l.listed ==> o in ss[j].l.visited
    ensures forall v :: v in ss[j].l.visited ==> v in ss[i].l.listed
  {
    RunInv(ss, steps, j);
    SnapshotIsFixed(ss, steps, i, j);
    var l := ss[j].l;
    forall o | o in ss[i].l.listed && o in l.listed ensures o in l.visited { assert o in l.visited || L.Ahead(l, o); }
  }

  // ---- name table and links ----

  /** The name table and the list hold the same lenses, and prev and next undo each other. */
  ghost predicate Agreement(l: L.State) {
    && (forall n, o :: n in l.keys && l.keys[n] == o <==>
      o in l.listed && o in l.mem && l.mem[o].name == n && n in l.keys)
    && (forall o :: o in l.listed ==> L.LiveHandle(l, o))
    && (forall o :: o in l.listed && l.mem[o].prev != 0 ==>
          l.mem[o].prev in l.listed && l.mem[o].prev in l.mem && l.mem[l.mem[o].prev].next == o)
    && (forall o, m :: o in l.listed && o in l.mem && m in l.listed && l.mem[o].next == m ==> l.mem[m].prev == o)
  }

  lemma AgreementWhenUnlocked(l: L.State)
    requires L.Inv(l) && !l.lock
    ensures Agreement(l)
  {
    forall n, o
      ensures n in l.keys && l.keys[n] == o <==> o in l.listed && o in l.mem && l.mem[o].name == n && n in l.keys
    {
      if n in l.keys { assert L.KeyOk(l, n); }
      if o in l.listed { assert L.NameOk(l, o); }
    }
    forall o | o in l.listed ensures L.LiveHandle(l, o) { assert L.NameOk(l, o); }
    forall o | o in l.listed && l.mem[o].prev != 0
      ensures l.mem[o].prev in l.listed && l.mem[o].prev in l.mem && l.mem[l.mem[o].prev].next == o
    {
      assert L.PrevLink(l, o);
    }
    forall o, m | o in l.listed && o in l.mem && m in l.listed && l.mem[o].next == m ensures l.mem[m].prev == o {
      assert L.NextLink(l, o) && L.PrevLink(l, m);
      if l.mem[m].prev != 0 { LP.NextIsInjective(l, o, l.mem[m].prev); }
    }
  }

  lemma TableAndListAgree(ss: seq<State>, steps: seq<Step>, i: nat)
    requires Run(ss, steps) && i < |ss| && !ss[i].l.lock
    ensures Agreement(ss[i].l)
  {
    RunInv(ss, steps, i);
    AgreementWhenUnlocked(ss[i].l);
  }

  // ---- deferred free ----

  /** A deferral waits for at most two exchanges, and the increment that drains it leaves an epoch later than the
      one its thread read, being one of the first two whose exchange follows the push. */
  ghost predicate Timely(d: D.State, id: nat) {
    && id in d.fate
    && match d.fate[id]
       case Waiting(n) =>
         && n in d.nodes && n in d.ticket && d.ticket[n].id == id && d.exchanges <= d.ticket[n].pushedAt + 2
         && (d.exchanges == d.ticket[n].pushedAt + 2 ==> !d.poller.Resting? && !d.poller.Bump?)
       case Drained(k, c, _, _) => k.id == id && k.read + 1 <= c && k.pushedAt <= c <= k.pushedAt + 1
       case Dropped => true
  }

  lemma FateIsTimely(d: D.State, id: nat)
    requires D.Inv(d) && id < d.issued
    ensures Timely(d, id)
  {
    assert D.FateOk(d, id);
    if d.fate[id].Waiting? {
      var n := d.fate[id].node;
      assert D.Queued(d.place, n, d.place[n].q) && D.QueuedOk(d, d.place[n].q, n);
    }
  }

  lemma DeferralTiming(ss: seq<State>, steps: seq<Step>, i: nat, id: nat)
    requires Run(ss, steps) && i < |ss| && id < ss[i].d.issued
    ensures Timely(ss[i].d, id)
  {
    RunInv(ss, steps, i);
    FateIsTimely(ss[i].d, id);
  }

  lemma FreeNodeFate(d: D.State, id: nat)
    requires D.Inv(d) && d.poller.DrainNode? && id in d.fate && !d.fate[id].Waiting?
    ensures D.FreeNode(d).Ok? && id in D.FreeNode(d).state.fate && D.FreeNode(d).state.fate[id] == d.fate[id]
  {
    assert D.QueuedOk(d, 2, d.poller.node);
  }

  lemma FreeLensFate(d: D.State, id: nat)
    requires D.Inv(d) && d.poller.Drain? && D.FreeLens(d).Ok? && id in d.fate && !d.fate[id].Waiting?
    ensures id in D.FreeLens(d).state.fate && D.FreeLens(d).state.fate[id] == d.fate[id]
  {
  }

  lemma CasDefersFate(d: D.State, t: Tid, spurious: bool, id: nat)
    requires D.Inv(d) && D.PcOf(d, t).Linked? && id in d.fate
    ensures id in D.CasDefers(d, t, spurious).fate && D.CasDefers(d, t, spurious).fate[id] == d.fate[id]
  {
  }

  lemma OtherStepsKeepFate(s: State, step: Step, s': State)
    requires Takes(s, step, s') && !step.FreeNode? && !step.FreeLens? && !step.CasDefers?
    ensures s'.d.fate == s.d.fate
  {
    if OnListOnly(step) { StepIsLocal(s, step, s'); }
  }

  lemma FateStep(s: State, step: Step, s': State, id: nat)
    requires Inv(s) && Takes(s, step, s') && id in s.d.fate && !s.d.fate[id].Waiting?
    ensures id in s'.d.fate && s'.d.fate[id] == s.d.fate[id]
  {
    if step.FreeNode? {
      FreeNodeFate(s.d, id);
    } else if step.FreeLens? {
      FreeLensFate(s.d, id);
    } else if step.CasDefers? {
      CasDefersFate(s.d, step.t, step.spurious, id);
    } else {
      OtherStepsKeepFate(s, step, s');
    }
  }

  lemma FateHop(ss: seq<State>, steps: seq<Step>, j: nat, id: nat)
    requires Run(ss, steps) && j + 1 < |ss| && id in ss[j].d.fate && !ss[j].d.fate[id].Waiting?
    ensures id in ss[j + 1].d.fate && ss[j + 1].d.fate[id] == ss[j].d.fate[id]
  {
    RunInv(ss, steps, j);
    assert StepAt(ss, steps, j);
    FateStep(ss[j], steps[j], ss[j + 1], id);
  }

  /** A deferral is settled once: a fate other than waiting never changes again. */
  lemma {:induction false} FateIsFinal(ss: seq<State>, steps: seq<Step>, i: nat, j: nat, id: nat)
    requires Run(ss, steps) && i <= j < |ss| && id in ss[i].d.fate && !ss[i].d.fate[id].Waiting?
    ensures id in ss[j].d.fate && ss[j].d.fate[id] == ss[i].d.fate[id]
    decreases j
  {
    if i < j {
      FateIsFinal(ss, steps, i, j - 1, id);
      FateHop(ss, steps, j - 1, id);
    }
  }

  /** A lens block goes back to the allocator in two ways only: its maker drops it, and then it was
      never in the list; or the poller drains it while not traversing, and then it was unlinked
      and its thread had read an earlier epoch than the one being left. */
  lemma LensLeavesTwoWays(s: State, step: Step, s': State, o: Off)
    requires Inv(s) && Takes(s, step, s') && o in s.l.mem && o !in s'.l.mem
    ensures step.DropFresh? || step.FreeLens?
    ensures step.DropFresh? ==> o !in s.l.stamp && o !in s.l.listed
    ensures step.FreeLens? ==>
      && s.l.cursor.Away? && o in s.l.owner && s.l.owner[o] == L.Unlinked
      && s.d.poller.Drain? && s.d.poller.node in s.d.nodes && s.d.nodes[s.d.poller.node].off == o
      && s.d.poller.node in s.d.ticket && s.d.ticket[s.d.poller.node].read + 1 <= s.d.epoch
  {
    if step.DropFresh? {
      assert L.ThreadOk(s.l, step.t);
    } else if step.FreeLens? {
      assert D.QueuedOk(s.d, 2, s.d.poller.node);
      ReleaseIsLegal(s);
    } else {
      OtherStepsKeepLenses(s, step, s', o);
    }
  }

  // ---- stale handles ----

  /** optics_lens_free through a handle for the lens at `off`, up to the release of the lock. */
  function FreeThroughHandle(l: L.State, t: Tid, off: Off): L.Outcome {
    var a := L.Unregister(l, t, off);
    if a.Crash? then L.Crash
    else if l.mem[off].name !in l.keys then L.Ok(l)
    else
      var b := L.KillNextPrev(a.state, t);
      if b.Crash? then L.Crash
      else
        var c := L.KillPrevNext(b.state, t);
        if c.Crash? then L.Crash else L.Ok(L.KillHeadStore(c.state, t))
  }

  lemma LiveKill(l: L.State, t: Tid, off: Off)
    requires L.Inv(l) && !l.lock && L.PcOf(l, t).Idle? && L.LiveHandle(l, off)
    ensures L.Unregister(l, t, off).Ok?
    ensures var b := L.KillNextPrev(L.Unregister(l, t, off).state, t); b.Ok? && L.Inv(b.state)
  {
    LP.UnregisterKeeps(l, t, off);
    LP.KillNextPrevKeeps(L.Unregister(l, t, off).state, t);
  }

  lemma HeadStoreAgrees(c: L.State, t: Tid)
    requires L.Inv(c) && L.PcOf(c, t).KillHead?
    ensures Agreement(L.KillHeadStore(c, t))
  {
    LP.KillHeadStoreKeeps(c, t);
    AgreementWhenUnlocked(L.KillHeadStore(c, t));
  }

  lemma FinishKillAgrees(b: L.State, t: Tid)
    requires L.Inv(b) && L.PcOf(b, t).KillPrev?
    ensures L.KillPrevNext(b, t).Ok? && Agreement(L.KillHeadStore(L.KillPrevNext(b, t).state, t))
  {
    LP.KillPrevNextKeeps(b, t);
    HeadStoreAgrees(L.KillPrevNext(b, t).state, t);
  }

  lemma LiveFreeAgrees(l: L.State, t: Tid, off: Off)
    requires L.Inv(l) && !l.lock && L.PcOf(l, t).Idle? && L.LiveHandle(l, off)
    ensures FreeThroughHandle(l, t, off).Ok? && Agreement(FreeThroughHandle(l, t, off).state)
  {
    LiveKill(l, t, off);
    FinishKillAgrees(L.KillNextPrev(L.Unregister(l, t, off).state, t).state, t);
  }

  /** A listed lens that the name table does not know. */
  predicate Orphan(l: L.State, o: Off) {
    o in l.mem && o in l.listed && l.mem[o].name !in l.keys
  }

  lemma KillKeepsOrphan(l: L.State, t: Tid, o: Off)
    requires L.PcOf(l, t).KillNext? && o != L.PcOf(l, t).off && Orphan(l, o) && L.KillNextPrev(l, t).Ok?
    ensures var l' := L.KillNextPrev(l, t).state; Orphan(l', o) && L.PcOf(l', t).KillPrev? && o != L.PcOf(l', t).off
  {
  }

  lemma KillPrevKeepsOrphan(l: L.State, t: Tid, o: Off)
    requires L.PcOf(l, t).KillPrev? && o != L.PcOf(l, t).off && Orphan(l, o) && L.KillPrevNext(l, t).Ok?
    ensures var l' := L.KillPrevNext(l, t).state;
      && L.PcOf(l', t).KillHead? && Orphan(l', o)
      && Orphan(L.KillHeadStore(l', t), o)
  {
  }

  /** The lens that now owns the name stays listed but loses its table entry. */
  lemma StaleFreeKeepsOther(l: L.State, t: Tid, off: Off, other: Off)
    requires off in l.mem && other in l.mem && other in l.listed && other != off
    requires l.mem[other].name == l.mem[off].name && FreeThroughHandle(l, t, off).Ok?
    ensures Orphan(FreeThroughHandle(l, t, off).state, other)
  {
    if l.mem[off].name in l.keys {
      var a := L.Unregister(l, t, off).state;
      KillKeepsOrphan(a, t, other);
      KillPrevKeepsOrphan(L.KillNextPrev(a, t).state, t, other);
    }
  }

  /** optics_lens_free leaves the table and the list in agreement if and only if the table maps the name of the
      handle's lens to that lens, or to none, and then the call fails and changes nothing. */
  lemma HandleMustBeSafe(l: L.State, t: Tid, off: Off)
    requires L.Inv(l) && !l.lock && L.PcOf(l, t).Idle? && off in l.mem
    ensures (FreeThroughHandle(l, t, off).Ok? && Agreement(FreeThroughHandle(l, t, off).state)) <==>
        L.SafeHandle(l, off)
    ensures l.mem[off].name !in l.keys ==> FreeThroughHandle(l, t, off) == L.Ok(l)
  {
    if l.mem[off].name !in l.keys {
      AgreementWhenUnlocked(l);
    } else if L.LiveHandle(l, off) {
      LiveFreeAgrees(l, t, off);
    } else if FreeThroughHandle(l, t, off).Ok? {
      assert L.KeyOk(l, l.mem[off].name);
      StaleFreeKeepsOther(l, t, off, l.keys[l.mem[off].name]);
    }
  }

  // ---- a stale handle in a real run ----

  lemma Extend(ss: seq<State>, steps: seq<Step>, step: Step, s': State)
    requires Run(ss, steps) && Takes(ss[|ss| - 1], step, s')
    ensures Run(ss + [s'], steps + [step])
  {
    var ss', steps' := ss + [s'], steps + [step];
    forall i | 0 <= i < |steps'| ensures StepAt(ss', steps', i) {
      if i < |steps| { assert StepAt(ss, steps, i); }
    }
  }

  /** A lens is created and pushed on an empty list. */
  lemma PushAlone(ss: seq<State>, steps: seq<Step>, t: Tid, off: Off, name: L.Name, len: nat)
    returns (ss': seq<State>, steps': seq<Step>)
    requires Run(ss, steps)
    requires var s := ss[|ss| - 1];
      && ClientIdle(s, t) && off > 0 && !Outstanding(s, off) && !s.l.lock
      && s.l.head == 0 && name !in s.l.keys
    ensures Run(ss', steps')
    ensures var s, s' := ss[|ss| - 1], ss'[|ss'| - 1];
      && s'.d == s.d && !s'.l.lock && s'.l.head == off && s'.l.keys == s.l.keys[name := off]
      && s'.l.pc == s.l.pc[t := L.Idle] && s'.l.mem == s.l.mem[off := L.Lens(name, len, 0, 0)]
      && s'.l.listed == s.l.listed + {off} && s'.l.cursor == s.l.cursor
  {
    var s := ss[|ss| - 1];
    var s1 := Apply(s, Create(t, off, name, len)).state;
    Extend(ss, steps, Create(t, off, name, len), s1);
    var s2 := Apply(s1, Register(t)).state;
    Extend(ss + [s1], steps + [Create(t, off, name, len)], Register(t), s2);
    var ss2, steps2 := ss + [s1] + [s2], steps + [Create(t, off, name, len)] + [Register(t)];
    var s3 := Apply(s2, StoreNext(t)).state;
    Extend(ss2, steps2, StoreNext(t), s3);
    var s4 := Apply(s3, StoreHead(t)).state;
    Extend(ss2 + [s3], steps2 + [StoreNext(t)], StoreHead(t), s4);
    ss', steps' := ss2 + [s3] + [s4], steps2 + [StoreNext(t)] + [StoreHead(t)];
  }

  /** The only lens of the list is removed and waits for its deferred free. */
  lemma RemoveAlone(ss: seq<State>, steps: seq<Step>, t: Tid, off: Off)
    returns (ss': seq<State>, steps': seq<Step>)
    requires Run(ss, steps)
    requires var s := ss[|ss| - 1];
      && ClientIdle(s, t) && off > 0 && !s.l.lock && L.LiveHandle(s.l, off) && s.l.head == off
      && s.l.mem[off].next == 0 && s.l.mem[off].prev == 0
    ensures Run(ss', steps')
    ensures var s, s' := ss[|ss| - 1], ss'[|ss'| - 1];
      && s'.d == D.Begin(s.d, t, off, s.l.mem[off].len) && !s'.l.lock && s'.l.head == 0 && s'.l.cursor == s.l.cursor
      && s'.l.keys == s.l.keys - {s.l.mem[off].name} && s'.l.pc == s.l.pc[t := L.Idle] && s'.l.mem == s.l.mem
  {
    var s := ss[|ss| - 1];
    var s1 := Apply(s, Unregister(t, off)).state;
    Extend(ss, steps, Unregister(t, off), s1);
    var s2 := Apply(s1, KillNextPrev(t)).state;
    Extend(ss + [s1], steps + [Unregister(t, off)], KillNextPrev(t), s2);
    var ss2, steps2 := ss + [s1] + [s2], steps + [Unregister(t, off)] + [KillNextPrev(t)];
    var s3 := Apply(s2, KillPrevNext(t)).state;
    Extend(ss2, steps2, KillPrevNext(t), s3);
    var s4 := Apply(s3, KillHeadStore(t)).state;
    Extend(ss2 + [s3], steps2 + [KillPrevNext(t)], KillHeadStore(t), s4);
    ss', steps' := ss2 + [s3] + [s4], steps2 + [KillPrevNext(t)] + [KillHeadStore(t)];
  }

  lemma NameTwice() returns (ss: seq<State>, steps: seq<Step>)
    ensures Run(ss, steps) && Inv(ss[|ss| - 1])
    ensures var l := ss[|ss| - 1].l;
      && 0x4000 in l.mem && !l.lock && L.PcOf(l, 3).Idle? && l.mem[0x4000].name in l.keys
      && l.keys[l.mem[0x4000].name] == 0x4080
      && l.mem[0x4000].next == 0 && l.mem[0x4000].prev == 0
  {
    var name: L.Name :| true;
    var ss1, steps1 := PushAlone([Init()], [], 1, 0x4000, name, 64);
    var ss2, steps2 := RemoveAlone(ss1, steps1, 1, 0x4000);
    ss, steps := PushAlone(ss2, steps2, 2, 0x4080, name, 64);
    RunInv(ss, steps, |ss| - 1);
  }

  lemma BreaksOnStale(s: State, t: Tid, off: Off)
    requires Inv(s) && !s.l.lock && L.PcOf(s.l, t).Idle? && off in s.l.mem && !L.SafeHandle(s.l, off)
    ensures FreeThroughHandle(s.l, t, off).Crash? || !Agreement(FreeThroughHandle(s.l, t, off).state)
  {
    HandleMustBeSafe(s.l, t, off);
  }

  /** One client frees a lens and another registers the name anew: the first handle, used a second time
      before the lens is reclaimed, takes the new lens out of the name table but not out of the list. */
  lemma StaleHandleBreaksAgreement() returns (ss: seq<State>, steps: seq<Step>)
    ensures Run(ss, steps)
    ensures var l := ss[|ss| - 1].l;
      && 0x4000 in l.mem && !l.lock && L.PcOf(l, 3).Idle? && l.mem[0x4000].name in l.keys && !L.SafeHandle(l, 0x4000)
      && FreeThroughHandle(l, 3, 0x4000).Ok? && !Agreement(FreeThroughHandle(l, 3, 0x4000).state)
  {
    ss, steps := NameTwice();
    BreaksOnStale(ss[|ss| - 1], 3, 0x4000);
  }
}
