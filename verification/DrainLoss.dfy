/**
 A run in which an epoch increment loses a deferral whose blocks its poller has mapped: a newer node of the same list
 lies beyond the mapping and stops the drain.
 */
module DrainLoss {
  import D = Deferral
  import opened LensSystem
  import opened LensTheorems
  import opened DrainTheorems

  lemma Append(ss: seq<State>, steps: seq<Step>, step: Step) returns (ss': seq<State>, steps': seq<Step>)
    requires Run(ss, steps) && Enabled(ss[|ss| - 1], step) && Apply(ss[|ss| - 1], step).Ok?
    ensures Run(ss', steps') && ss' == ss + [Apply(ss[|ss| - 1], step).state] && steps' == steps + [step]
  {
    ss', steps' := ss + [Apply(ss[|ss| - 1], step).state], steps + [step];
    Extend(ss, steps, step, ss'[|ss'| - 1]);
  }

  /** A deferral as it is pushed without interference. */
  function Pushed(d: D.State, t: Tid, off: Off, len: nat, node: Off): D.State
    requires |d.defers| == 2
  {
    var q := d.epoch % 2;
    d.(pc := d.pc[t := D.Idle],
       nodes := d.nodes[node := D.Node(off, len, d.defers[q])],
       defers := d.defers[q := node],
       place := d.place[node := D.Queue(q)],
       carried := d.carried[off := D.OnNode(node)],
       ticket := d.ticket[node := D.Ticket(d.issued, d.epoch, d.exchanges)],
       fate := d.fate[d.issued := D.Waiting(node)],
       issued := d.issued + 1)
  }

  /** The node is written, and the head of its list loaded. */
  function Prepared(d: D.State, t: Tid, off: Off, len: nat, node: Off): D.State
    requires |d.defers| == 2
  {
    d.(pc := d.pc[t := D.Loaded(off, node, d.epoch, d.defers[d.epoch % 2])],
       nodes := d.nodes[node := D.Node(off, len, 0)],
       place := d.place[node := D.Held(t)])
  }

  lemma PrepareAlone(ss: seq<State>, steps: seq<Step>, t: Tid, off: Off, len: nat, node: Off)
    returns (ss': seq<State>, steps': seq<Step>)
    requires Run(ss, steps)
    requires var s := ss[|ss| - 1];
      D.PcOf(s.d, t) == D.Removed(off, len) && node > 0 && !Outstanding(s, node) && |s.d.defers| == 2
    ensures Run(ss', steps')
    ensures var s, s' := ss[|ss| - 1], ss'[|ss'| - 1]; s'.l == s.l && s'.d == Prepared(s.d, t, off, len, node)
  {
    ss', steps' := Append(ss, steps, AllocNode(t, node));
    ss', steps' := Append(ss', steps', LoadEpoch(t));
    ss', steps' := Append(ss', steps', LoadDefers(t));
  }

  /** The link of the node is written. */
  function Joined(d: D.State, t: Tid, off: Off, len: nat, node: Off): D.State
    requires |d.defers| == 2
  {
    var top := d.defers[d.epoch % 2];
    d.(pc := d.pc[t := D.Linked(off, node, d.epoch, top)],
       nodes := d.nodes[node := D.Node(off, len, top)],
       place := d.place[node := D.Held(t)])
  }

  lemma LinkAlone(d: D.State, t: Tid, off: Off, len: nat, node: Off)
    requires |d.defers| == 2
    ensures D.LinkNode(Prepared(d, t, off, len, node), t) == D.Ok(Joined(d, t, off, len, node))
  {
    var d', j := D.LinkNode(Prepared(d, t, off, len, node), t).state, Joined(d, t, off, len, node);
    assert d'.nodes == j.nodes && d'.pc == j.pc;
  }

  lemma PushAfter(d: D.State, t: Tid, off: Off, len: nat, node: Off)
    requires |d.defers| == 2
    ensures D.PcOf(Joined(d, t, off, len, node), t).Linked?
    ensures D.CasDefers(Joined(d, t, off, len, node), t, false) == Pushed(d, t, off, len, node)
  {
    var d', p := D.CasDefers(Joined(d, t, off, len, node), t, false), Pushed(d, t, off, len, node);
    assert d'.place == p.place && d'.pc == p.pc;
  }

  lemma DeferAlone(ss: seq<State>, steps: seq<Step>, t: Tid, off: Off, len: nat, node: Off)
    returns (ss': seq<State>, steps': seq<Step>)
    requires Run(ss, steps)
    requires var s := ss[|ss| - 1];
      D.PcOf(s.d, t) == D.Removed(off, len) && node > 0 && !Outstanding(s, node) && |s.d.defers| == 2
    ensures Run(ss', steps')
    ensures var s, s' := ss[|ss| - 1], ss'[|ss'| - 1]; s'.l == s.l && s'.d == Pushed(s.d, t, off, len, node)
  {
    LinkAlone(ss[|ss| - 1].d, t, off, len, node);
    PushAfter(ss[|ss| - 1].d, t, off, len, node);
    ss', steps' := PrepareAlone(ss, steps, t, off, len, node);
    ss', steps' := Append(ss', steps', LinkNode(t));
    ss', steps' := Append(ss', steps', CasDefers(t, false));
  }

  const OLD_NODE: nat := 0x4000
  const OLD_LENS: nat := 0x8000
  const NEW_NODE: nat := 0x10_0000
  const NEW_LENS: nat := 0x8100

  /** No lens is listed, nobody is at work, and epoch 0 has not been left. */
  ghost predicate Rested(s: State, issued: nat) {
    && !s.l.lock && s.l.head == 0 && s.l.keys == map[] && s.l.cursor.Away? && ClientIdle(s, 1)
    && s.d.poller.Resting? && s.d.epoch == 0 && s.d.issued == issued && |s.d.defers| == 2 && s.d.defers[1] == 0
  }

  /** A lens is created, freed and deferred, with nothing else going on. */
  lemma MakeAndDefer(ss: seq<State>, steps: seq<Step>, off: Off, node: Off) returns (ss': seq<State>, steps': seq<Step>)
    requires Run(ss, steps) && Rested(ss[|ss| - 1], ss[|ss| - 1].d.issued)
    requires off > 0 && node > 0 && off != node && !Outstanding(ss[|ss| - 1], off) && !Outstanding(ss[|ss| - 1], node)
    ensures Run(ss', steps') && Rested(ss'[|ss'| - 1], ss[|ss| - 1].d.issued + 1)
    ensures var s, s' := ss[|ss| - 1], ss'[|ss'| - 1];
      s'.l.mem.Keys == s.l.mem.Keys + {off} && s'.d == Pushed(D.Begin(s.d, 1, off, 128), 1, off, 128, node)
  {
    ss', steps' := PushAlone(ss, steps, 1, off, "lens", 128);
    ss', steps' := RemoveAlone(ss', steps', 1, off);
    ss', steps' := DeferAlone(ss', steps', 1, off, 128, node);
  }

  /** Two deferrals that the increment after the next one will take. */
  ghost predicate BothQueued(d: D.State) {
    && |d.defers| == 2 && d.defers[0] == NEW_NODE && D.Queued(d.place, OLD_NODE, 0) && D.Queued(d.place, NEW_NODE, 0)
    && d.nodes == map[OLD_NODE := D.Node(OLD_LENS, 128, 0), NEW_NODE := D.Node(NEW_LENS, 128, OLD_NODE)]
    && d.ticket == map[OLD_NODE := D.Ticket(0, 0, 0), NEW_NODE := D.Ticket(1, 0, 0)]
  }

  lemma DeferBoth() returns (ss: seq<State>, steps: seq<Step>)
    ensures Run(ss, steps) && Rested(ss[|ss| - 1], 2) && BothQueued(ss[|ss| - 1].d)
  {
    ss, steps := MakeAndDefer([Init()], [], OLD_LENS, OLD_NODE);
    ss, steps := MakeAndDefer(ss, steps, NEW_LENS, NEW_NODE);
  }

  /** The increment that leaves epoch 0 takes list 1, which is empty. */
  lemma LeaveEpoch(ss: seq<State>, steps: seq<Step>) returns (ss': seq<State>, steps': seq<Step>)
    requires Run(ss, steps) && Rested(ss[|ss| - 1], 2) && BothQueued(ss[|ss| - 1].d)
    ensures Run(ss', steps') && PollerIdle(ss'[|ss'| - 1]) && ss'[|ss'| - 1].d.epoch == 1
    ensures BothQueued(ss'[|ss'| - 1].d)
  {
    ss', steps' := Append(ss, steps, Exchange(0x10_0000));
    ss', steps' := Append(ss', steps', FreeLens);
    ss', steps' := Append(ss', steps', BumpEpoch);
  }

  /** The drain of both with a mapping that the newer node lies outside of. */
  lemma OldIsDropped(ss: seq<State>, steps: seq<Step>, i: nat, j: nat)
    requires Run(ss, steps) && OneDrain(ss, steps, i, j) && ss[j].d.poller.Bump? && steps[i].view == 0x10_0000
    requires BothQueued(ss[i].d) && ss[i].d.epoch == 1
    ensures 0 in ss[j].d.fate && ss[j].d.fate[0] == D.Dropped
  {
    var d := ss[i].d;
    assert InBatch(d, NEW_NODE) && InBatch(d, OLD_NODE);
    assert !Reached(d, 0x10_0000, OLD_NODE);
    DrainIsExact(ss, steps, i, j);
  }

  /** A poller that kept its mapping of the first MiB while the region grew: the drain takes both deferrals and drops
      the older one, whose lens and node lie in the mapping, because the node of the newer one does not. */
  lemma NewNodeLosesOld() returns (ss: seq<State>, steps: seq<Step>, i: nat, j: nat)
    ensures Run(ss, steps) && OneDrain(ss, steps, i, j) && ss[j].d.poller.Bump? && steps[i].view == 0x10_0000
    ensures var d, view := ss[i].d, steps[i].view;
      && InBatch(d, OLD_NODE) && OLD_NODE in d.nodes && OLD_NODE in d.ticket && d.ticket[OLD_NODE].id in ss[j].d.fate
      && D.Fits(view, OLD_NODE, D.DEFER_LEN) && D.Fits(view, d.nodes[OLD_NODE].off, d.nodes[OLD_NODE].len)
      && ss[j].d.fate[d.ticket[OLD_NODE].id] == D.Dropped
  {
    var ss1, steps1 := DeferBoth();
    var ss2, steps2 := LeaveEpoch(ss1, steps1);
    var ss3, steps3 := Append(ss2, steps2, Exchange(0x10_0000));
    ss, steps := Append(ss3, steps3, FreeLens);
    i, j := |steps2|, |steps2| + 2;
    assert ss[i] == ss2[i] && ss[i + 1] == ss3[i + 1] && steps[i] == Exchange(0x10_0000);
    OldIsDropped(ss, steps, i, j);
  }
}
