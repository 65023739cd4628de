/**
 What a traversal meets when the poller has mapped only part of the region. The first lens on its way that does not lie
 in the mapping ends it, and hides every older lens.
 */
module TraversalTheorems {
  import Region
  import L = LensList
  import opened LensSystem
  import opened LensTheorems

  /** Both bounds checks of lens_ptr pass. */
  predicate Shown(l: L.State, view: nat, o: Off) {
    o in l.mem && Region.InView(view, o, L.LENS_HEADER) && Region.InView(view, o, l.mem[o].len)
  }

  ghost predicate AllShown(l: L.State, view: nat) {
    forall o :: o in l.listed ==> Shown(l, view, o)
  }

  /** A traversal in progress whose head was loaded in state `l0`. */
  ghost predicate Underway(l0: L.State, view: nat, l: L.State) {
    && !l.cursor.Away? && l.view == view && l.snapshot == l0.listed
    && (forall o :: o in l0.listed ==> o in l0.mem && o in l.mem && l.mem[o].len == l0.mem[o].len)
    && (forall v :: v in l.visited ==> Shown(l0, view, v))
  }

  lemma HeadLoadBegins(l0: L.State, view: nat)
    requires L.Inv(l0)
    ensures Underway(l0, view, L.ReadHead(l0, view))
  {
  }

  // ---- one step of a traversal ----

  /** While a traversal is under way, no lens of its snapshot is given back. */
  lemma SnapshotStays(s: State, step: Step, s': State, o: Off)
    requires Inv(s) && Takes(s, step, s') && !s.l.cursor.Away? && o in s.l.snapshot
    ensures o in s.l.mem && o in s'.l.mem && s'.l.mem[o].len == s.l.mem[o].len
  {
    assert L.SnapshotOk(s.l, o);
    if step.DropFresh? {
      DropLeavesStamped(s.l, step.t, o);
    } else {
      OtherStepsKeepLenses(s, step, s', o);
    }
  }

  lemma DropLeavesStamped(l: L.State, t: Tid, o: Off)
    requires L.ThreadsOk(l) && L.PcOf(l, t).Refused? && o in l.mem && o in l.stamp && L.DropFresh(l, t).Ok?
    ensures o in L.DropFresh(l, t).state.mem && L.DropFresh(l, t).state.mem[o] == l.mem[o]
  {
    assert L.ThreadOk(l, t);
  }

  /** Only the traversal itself moves its cursor, and once it is over it stays over. */
  lemma CursorStep(s: State, step: Step, s': State)
    requires Takes(s, step, s') && !step.ReadHead? && !step.Look? && !step.Advance? && !step.Finish?
    ensures s'.l.cursor == s.l.cursor && s'.l.view == s.l.view && s'.l.visited == s.l.visited
  {
    if !OnListOnly(step) && !OnBoth(step) { StepIsLocal(s, step, s'); }
  }

  lemma OverStaysOver(s: State, step: Step, s': State)
    requires Takes(s, step, s') && !step.ReadHead? && s.l.cursor.Away?
    ensures s'.l.cursor.Away?
  {
    if !step.Look? && !step.Advance? && !step.Finish? { CursorStep(s, step, s'); }
  }

  lemma VisitStep(l0: L.State, view: nat, s: State, step: Step, s': State)
    requires Takes(s, step, s') && !step.ReadHead? && Underway(l0, view, s.l) && !s'.l.cursor.Away?
    requires forall o :: o in s.l.snapshot ==> o in s.l.mem && o in s'.l.mem && s'.l.mem[o].len == s.l.mem[o].len
    requires step.Look? ==> s.l.cursor.cur in s.l.snapshot
    ensures s'.l.view == view && forall v :: v in s'.l.visited ==> Shown(l0, view, v)
  {
    if !step.Look? && !step.Advance? && !step.Finish? { CursorStep(s, step, s'); }
  }

  lemma UnderwayStep(l0: L.State, view: nat, s: State, step: Step, s': State)
    requires Inv(s) && Takes(s, step, s') && !step.ReadHead? && Underway(l0, view, s.l) && !s'.l.cursor.Away?
    ensures Underway(l0, view, s'.l)
  {
    forall o | o in s.l.snapshot ensures o in s.l.mem && o in s'.l.mem && s'.l.mem[o].len == s.l.mem[o].len {
      SnapshotStays(s, step, s', o);
    }
    VisitStep(l0, view, s, step, s');
    SnapshotStep(s, step, s');
  }

  /** A traversal ends behind the last lens, or at a lens that the poller has not mapped. */
  lemma LastStep(l0: L.State, view: nat, s: State, step: Step, s': State)
    requires Inv(s) && Takes(s, step, s') && !step.ReadHead? && Underway(l0, view, s.l) && s'.l.cursor.Away?
    ensures s'.l.visited == s.l.visited && s'.l.listed == s.l.listed
    ensures (step.Finish? && s.l.cursor == L.At(0)) || !AllShown(l0, view)
  {
    if step.Look? {
      CursorInSnapshot(s);
      LookEnds(l0, view, s.l);
    } else if !step.Advance? && !step.Finish? {
      CursorStep(s, step, s');
    }
  }

  lemma CursorInSnapshot(s: State)
    requires Inv(s) && s.l.cursor.At? && s.l.cursor.cur != 0
    ensures s.l.cursor.cur in s.l.snapshot
  {
  }

  lemma LookEnds(l0: L.State, view: nat, l: L.State)
    requires Underway(l0, view, l) && l.cursor.At? && l.cursor.cur in l.snapshot && L.Look(l).Ok?
    requires L.Look(l).state.cursor.Away?
    ensures l.cursor.cur in l0.listed && !Shown(l0, view, l.cursor.cur)
    ensures L.Look(l).state.visited == l.visited && L.Look(l).state.listed == l.listed
  {
  }

  // ---- every run ----

  ghost predicate UnderwayAt(ss: seq<State>, steps: seq<Step>, i: nat, j: nat) {
    i < |steps| && i < |ss| && j < |ss| && steps[i].ReadHead? && Underway(ss[i].l, steps[i].view, ss[j].l)
  }

  lemma TraversalBegins(ss: seq<State>, steps: seq<Step>, i: nat)
    requires Run(ss, steps) && i < |steps| && steps[i].ReadHead?
    ensures UnderwayAt(ss, steps, i, i + 1)
  {
    RunInv(ss, steps, i);
    assert StepAt(ss, steps, i);
    HeadLoadBegins(ss[i].l, steps[i].view);
  }

  lemma TraversalHop(ss: seq<State>, steps: seq<Step>, i: nat, j: nat)
    requires Run(ss, steps) && OneTraversal(steps, i, j + 1) && i < j && UnderwayAt(ss, steps, i, j)
    requires !ss[j + 1].l.cursor.Away?
    ensures UnderwayAt(ss, steps, i, j + 1)
  {
    RunInv(ss, steps, j);
    assert StepAt(ss, steps, j);
    UnderwayStep(ss[i].l, steps[i].view, ss[j], steps[j], ss[j + 1]);
  }

  lemma {:induction false} TraversalRun(ss: seq<State>, steps: seq<Step>, i: nat, j: nat)
    requires Run(ss, steps) && OneTraversal(steps, i, j) && !ss[j].l.cursor.Away?
    ensures UnderwayAt(ss, steps, i, j)
    decreases j
  {
    if j == i + 1 {
      TraversalBegins(ss, steps, i);
    } else {
      assert StepAt(ss, steps, j - 1);
      if ss[j - 1].l.cursor.Away? { OverStaysOver(ss[j - 1], steps[j - 1], ss[j]); }
      TraversalRun(ss, steps, i, j - 1);
      TraversalHop(ss, steps, i, j - 1);
    }
  }

  /** The traversal whose head load is step i ends with the step before state j. */
  predicate Ends(ss: seq<State>, steps: seq<Step>, i: nat, j: nat) {
    |ss| == |steps| + 1 && i + 1 < j && OneTraversal(steps, i, j) && !ss[j - 1].l.cursor.Away? && ss[j].l.cursor.Away?
  }

  /** The last step of a traversal, seen from its head load. */
  lemma LastStepOfRun(ss: seq<State>, steps: seq<Step>, i: nat, j: nat)
    requires Run(ss, steps) && Ends(ss, steps, i, j)
    ensures ss[j].l.visited == ss[j - 1].l.visited && ss[j].l.listed == ss[j - 1].l.listed
    ensures forall v :: v in ss[j].l.visited ==> Shown(ss[i].l, steps[i].view, v)
    ensures AllShown(ss[i].l, steps[i].view) ==> steps[j - 1].Finish? && ss[j - 1].l.cursor == L.At(0)
  {
    TraversalRun(ss, steps, i, j - 1);
    LastHop(ss, steps, i, j - 1);
  }

  lemma LastHop(ss: seq<State>, steps: seq<Step>, i: nat, k: nat)
    requires Run(ss, steps) && k + 1 < |ss| && UnderwayAt(ss, steps, i, k) && !steps[k].ReadHead?
    requires ss[k + 1].l.cursor.Away?
    ensures ss[k + 1].l.visited == ss[k].l.visited && ss[k + 1].l.listed == ss[k].l.listed
    ensures (steps[k].Finish? && ss[k].l.cursor == L.At(0)) || !AllShown(ss[i].l, steps[i].view)
  {
    RunInv(ss, steps, k);
    assert StepAt(ss, steps, k);
    LastStep(ss[i].l, steps[i].view, ss[k], steps[k], ss[k + 1]);
  }

  /** If every lens listed at the head load lies in the mapping of the poller, the traversal goes to the end of the list
      and misses no lens that stays listed. A listed lens that does not lie in it is never visited. So, as long as no
      lens is removed meanwhile, a traversal visits all lenses if and only if all lie in the mapping. */
  lemma TraversalIsExact(ss: seq<State>, steps: seq<Step>, i: nat, j: nat)
    requires Run(ss, steps) && Ends(ss, steps, i, j)
    ensures AllShown(ss[i].l, steps[i].view) ==>
      && steps[j - 1].Finish?
      && forall o :: o in ss[i].l.listed && o in ss[j].l.listed ==> o in ss[j].l.visited
    ensures forall o :: o in ss[i].l.listed && !Shown(ss[i].l, steps[i].view, o) ==> o !in ss[j].l.visited
    ensures ss[i].l.listed <= ss[j].l.listed ==>
      (AllShown(ss[i].l, steps[i].view) <==> forall o :: o in ss[i].l.listed ==> o in ss[j].l.visited)
  {
    LastStepOfRun(ss, steps, i, j);
    if AllShown(ss[i].l, steps[i].view) {
      TraversalIsComplete(ss, steps, i, j - 1);
    }
  }

  // ---- a newer lens out of view hides an older one ----

  /** A lens is pushed in front of another one. */
  lemma PushInFront(ss: seq<State>, steps: seq<Step>, t: Tid, off: Off, name: L.Name, len: nat)
    returns (ss': seq<State>, steps': seq<Step>)
    requires Run(ss, steps)
    requires var s := ss[|ss| - 1];
      && ClientIdle(s, t) && off > 0 && !Outstanding(s, off) && !s.l.lock && name !in s.l.keys
      && s.l.head != 0 && s.l.head in s.l.mem && s.l.mem[s.l.head].prev == 0
    ensures Run(ss', steps')
    ensures var s, s' := ss[|ss| - 1], ss'[|ss'| - 1];
      && s'.d == s.d && !s'.l.lock && s'.l.head == off && s'.l.listed == s.l.listed + {off} && s'.l.cursor == s.l.cursor
      && s'.l.mem == s.l.mem[off := L.Lens(name, len, s.l.head, 0)][s.l.head := s.l.mem[s.l.head].(prev := off)]
  {
    var s := ss[|ss| - 1];
    var s1 := Apply(s, Create(t, off, name, len)).state;
    Extend(ss, steps, Create(t, off, name, len), s1);
    var s2 := Apply(s1, Register(t)).state;
    Extend(ss + [s1], steps + [Create(t, off, name, len)], Register(t), s2);
    var ss2, steps2 := ss + [s1] + [s2], steps + [Create(t, off, name, len)] + [Register(t)];
    var s3 := Apply(s2, StoreNext(t)).state;
    Extend(ss2, steps2, StoreNext(t), s3);
    ss', steps' := PublishBehind(ss2 + [s3], steps2 + [StoreNext(t)], t);
  }

  /** The back link of the old head and the head itself are stored. */
  lemma PublishBehind(ss: seq<State>, steps: seq<Step>, t: Tid) returns (ss': seq<State>, steps': seq<Step>)
    requires Run(ss, steps)
    requires var l := ss[|ss| - 1].l;
      && L.PcOf(l, t).PushPrev? && L.PcOf(l, t).top in l.mem
      && l.mem[L.PcOf(l, t).top].prev == 0
    ensures Run(ss', steps')
    ensures var s, s', p := ss[|ss| - 1], ss'[|ss'| - 1], L.PcOf(ss[|ss| - 1].l, t);
      && s'.d == s.d && !s'.l.lock && s'.l.head == p.off && s'.l.listed == s.l.listed + {p.off}
      && s'.l.cursor == s.l.cursor
      && s'.l.mem == s.l.mem[p.top := s.l.mem[p.top].(prev := p.off)]
  {
    var s1 := Apply(ss[|ss| - 1], StorePrev(t)).state;
    Extend(ss, steps, StorePrev(t), s1);
    var s2 := Apply(s1, StoreHead(t)).state;
    Extend(ss + [s1], steps + [StorePrev(t)], StoreHead(t), s2);
    ss', steps' := ss + [s1] + [s2], steps + [StorePrev(t)] + [StoreHead(t)];
  }

  const OLD_LENS: nat := 0x8000
  const NEW_LENS: nat := 0x10_0000

  /** The list of a region that has outgrown its first mapping of 1 MiB: an old lens inside, a new one behind it. */
  lemma OldAndNew() returns (ss: seq<State>, steps: seq<Step>)
    ensures Run(ss, steps)
    ensures var s := ss[|ss| - 1];
      && PollerIdle(s) && s.l.head == NEW_LENS && OLD_LENS in s.l.listed && OLD_LENS in s.l.mem
      && s.l.mem[OLD_LENS].len == 128
  {
    var ss1, steps1 := PushAlone([Init()], [], 1, OLD_LENS, "old", 128);
    ss, steps := PushInFront(ss1, steps1, 1, NEW_LENS, "new", 128);
  }

  /** A poller that has mapped the first MiB does not meet the old lens, although that one lies in its mapping and
      stays in the list: the newer lens in front of it ends the traversal. */
  lemma NewLensHidesOld() returns (ss: seq<State>, steps: seq<Step>, i: nat, j: nat)
    ensures Run(ss, steps) && Ends(ss, steps, i, j) && steps[i].view == 0x10_0000
    ensures OLD_LENS in ss[i].l.listed && OLD_LENS in ss[j].l.listed && Shown(ss[i].l, steps[i].view, OLD_LENS)
    ensures OLD_LENS !in ss[j].l.visited
  {
    var ss1, steps1 := OldAndNew();
    var s1 := ss1[|ss1| - 1];
    var s2 := Apply(s1, ReadHead(0x10_0000)).state;
    Extend(ss1, steps1, ReadHead(0x10_0000), s2);
    var s3 := Apply(s2, Look).state;
    Extend(ss1 + [s2], steps1 + [ReadHead(0x10_0000)], Look, s3);
    ss, steps := ss1 + [s2] + [s3], steps1 + [ReadHead(0x10_0000)] + [Look];
    i, j := |steps1|, |steps1| + 2;
  }
}
