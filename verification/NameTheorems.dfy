/**
 The name table and the list in terms of the calls alone. From the steps of a run one can say which names are
 registered and for which lens: a registration takes effect unless the name is taken, a free unless it is unknown.
 */
module NameTheorems {
  import L = LensList
  import opened LensSystem
  import opened LensTheorems

  /** The names of the lenses created so far, the lens each thread last created, and the registered names. */
  datatype Directory = Directory(names: map<Off, L.Name>, made: map<Tid, Off>, keys: map<L.Name, Off>)

  function Next(dir: Directory, step: Step): Directory {
    match step
    case Create(t, off, name, _) => dir.(names := dir.names[off := name], made := dir.made[t := off])
    case Register(t) =>
      if t in dir.made && dir.made[t] in dir.names && dir.names[dir.made[t]] !in dir.keys
      then dir.(keys := dir.keys[dir.names[dir.made[t]] := dir.made[t]])
      else dir
    case Unregister(_, off) => if off in dir.names then dir.(keys := dir.keys - {dir.names[off]}) else dir
    case _ => dir
  }

  function After(steps: seq<Step>): Directory {
    if steps == [] then Directory(map[], map[], map[]) else Next(After(steps[..|steps| - 1]), steps[|steps| - 1])
  }

  // ---- the region agrees with its calls ----

  ghost predicate NameAgrees(l: L.State, dir: Directory, o: Off) {
    o in l.mem ==> o in dir.names && dir.names[o] == l.mem[o].name
  }

  ghost predicate MakerAgrees(l: L.State, dir: Directory, t: Tid) {
    L.PcOf(l, t).Fresh? ==> t in dir.made && dir.made[t] == L.PcOf(l, t).off
  }

  ghost predicate Agrees(l: L.State, dir: Directory) {
    && (forall o {:trigger NameAgrees(l, dir, o)} :: NameAgrees(l, dir, o))
    && (forall t {:trigger MakerAgrees(l, dir, t)} :: MakerAgrees(l, dir, t))
    && l.keys == dir.keys
  }

  /** A step that registers and renames nothing. */
  lemma QuietAgrees(l: L.State, l': L.State, dir: Directory)
    requires Agrees(l, dir) && l'.keys == l.keys
    requires forall o :: o in l'.mem ==> o in l.mem && l'.mem[o].name == l.mem[o].name
    requires forall t {:trigger L.PcOf(l', t)} :: L.PcOf(l', t).Fresh? ==> L.PcOf(l, t) == L.PcOf(l', t)
    ensures Agrees(l', dir)
  {
    forall o ensures NameAgrees(l', dir, o) { assert NameAgrees(l, dir, o); }
    forall t ensures MakerAgrees(l', dir, t) { assert MakerAgrees(l, dir, t); }
  }

  lemma CreateAgrees(l: L.State, t: Tid, off: Off, name: L.Name, len: nat, dir: Directory)
    requires Agrees(l, dir)
    ensures Agrees(L.Create(l, t, off, name, len), Next(dir, Create(t, off, name, len)))
  {
    var l', dir' := L.Create(l, t, off, name, len), Next(dir, Create(t, off, name, len));
    forall o ensures NameAgrees(l', dir', o) { assert NameAgrees(l, dir, o); }
    forall u ensures MakerAgrees(l', dir', u) { assert MakerAgrees(l, dir, u); }
  }

  lemma RegisterAgrees(l: L.State, t: Tid, dir: Directory)
    requires Agrees(l, dir) && L.PcOf(l, t).Fresh? && L.Register(l, t).Ok?
    ensures Agrees(L.Register(l, t).state, Next(dir, Register(t)))
  {
    var l', dir' := L.Register(l, t).state, Next(dir, Register(t));
    assert MakerAgrees(l, dir, t) && NameAgrees(l, dir, L.PcOf(l, t).off);
    forall o ensures NameAgrees(l', dir', o) { assert NameAgrees(l, dir, o); }
    forall u ensures MakerAgrees(l', dir', u) { assert MakerAgrees(l, dir, u); }
  }

  lemma UnregisterAgrees(l: L.State, t: Tid, off: Off, dir: Directory)
    requires Agrees(l, dir) && L.Unregister(l, t, off).Ok?
    ensures Agrees(L.Unregister(l, t, off).state, Next(dir, Unregister(t, off)))
  {
    var l', dir' := L.Unregister(l, t, off).state, Next(dir, Unregister(t, off));
    assert NameAgrees(l, dir, off);
    forall o ensures NameAgrees(l', dir', o) { assert NameAgrees(l, dir, o); }
    forall u ensures MakerAgrees(l', dir', u) { assert MakerAgrees(l, dir, u); }
  }

  lemma EditAgrees(s: State, step: Step, s': State, dir: Directory)
    requires Agrees(s.l, dir) && Takes(s, step, s') && EditsLinks(step)
    ensures Agrees(s'.l, dir)
  {
    if step.StoreNext? || step.StorePrev? {
      PushAgrees(s, step, s', dir);
    } else {
      KillAgrees(s, step, s', dir);
    }
  }

  lemma PushAgrees(s: State, step: Step, s': State, dir: Directory)
    requires Agrees(s.l, dir) && Takes(s, step, s') && (step.StoreNext? || step.StorePrev?)
    ensures Agrees(s'.l, dir)
  {
    QuietAgrees(s.l, s'.l, dir);
  }

  lemma KillAgrees(s: State, step: Step, s': State, dir: Directory)
    requires Agrees(s.l, dir) && Takes(s, step, s') && (step.KillNextPrev? || step.KillPrevNext?)
    ensures Agrees(s'.l, dir)
  {
    QuietAgrees(s.l, s'.l, dir);
  }

  lemma OtherAgrees(s: State, step: Step, s': State, dir: Directory)
    requires Inv(s) && Agrees(s.l, dir) && Takes(s, step, s') && !EditsLinks(step)
    requires !step.Create? && !step.Register? && !step.Unregister?
    ensures Agrees(s'.l, dir)
  {
    if step.FreeLens? {
      FreeAgrees(s, s', dir);
    } else if step.DropFresh? || step.StoreHead? || step.KillHeadStore? {
      EndAgrees(s, step, s', dir);
    } else if OnListOnly(step) {
      LookAgrees(s, step, s', dir);
    } else {
      StepIsLocal(s, step, s');
    }
  }

  lemma FreeAgrees(s: State, s': State, dir: Directory)
    requires Agrees(s.l, dir) && Takes(s, FreeLens, s')
    ensures Agrees(s'.l, dir)
  {
    QuietAgrees(s.l, s'.l, dir);
  }

  lemma EndAgrees(s: State, step: Step, s': State, dir: Directory)
    requires Agrees(s.l, dir) && Takes(s, step, s') && (step.DropFresh? || step.StoreHead? || step.KillHeadStore?)
    ensures Agrees(s'.l, dir)
  {
    QuietAgrees(s.l, s'.l, dir);
  }

  lemma LookAgrees(s: State, step: Step, s': State, dir: Directory)
    requires Agrees(s.l, dir) && Takes(s, step, s')
    requires step.ReadHead? || step.Look? || step.Advance? || step.Finish?
    ensures Agrees(s'.l, dir)
  {
    QuietAgrees(s.l, s'.l, dir);
  }

  lemma AgreesStep(s: State, step: Step, s': State, dir: Directory)
    requires Inv(s) && Agrees(s.l, dir) && Takes(s, step, s')
    ensures Agrees(s'.l, Next(dir, step))
  {
    if step.Create? {
      CreateAgrees(s.l, step.t, step.off, step.name, step.len, dir);
    } else if step.Register? {
      RegisterAgrees(s.l, step.t, dir);
    } else if step.Unregister? {
      UnregisterAgrees(s.l, step.t, step.off, dir);
    } else if EditsLinks(step) {
      EditAgrees(s, step, s', dir);
    } else {
      OtherAgrees(s, step, s', dir);
    }
  }

  lemma {:induction false} RunAgrees(ss: seq<State>, steps: seq<Step>, i: nat)
    requires Run(ss, steps) && i < |ss|
    ensures Agrees(ss[i].l, After(steps[..i]))
    decreases i
  {
    if i > 0 {
      RunAgrees(ss, steps, i - 1);
      RunInv(ss, steps, i - 1);
      assert StepAt(ss, steps, i - 1);
      AgreesStep(ss[i - 1], steps[i - 1], ss[i], After(steps[..i - 1]));
      assert steps[..i][..i - 1] == steps[..i - 1];
    } else {
      forall o ensures NameAgrees(ss[0].l, After([]), o) {}
      forall t ensures MakerAgrees(ss[0].l, After([]), t) {}
    }
  }

  /** In every state of every run the name table is what the calls make of it, and whenever the lock is free the list
      holds exactly the lenses that are registered. */
  lemma ListIsAsCalled(ss: seq<State>, steps: seq<Step>, i: nat)
    requires Run(ss, steps) && i < |ss|
    ensures ss[i].l.keys == After(steps[..i]).keys
    ensures !ss[i].l.lock ==>
      forall o :: o in ss[i].l.listed <==> exists n :: n in After(steps[..i]).keys && After(steps[..i]).keys[n] == o
  {
    RunAgrees(ss, steps, i);
    if !ss[i].l.lock {
      TableAndListAgree(ss, steps, i);
      var l := ss[i].l;
      forall o ensures o in l.listed <==> exists n :: n in l.keys && l.keys[n] == o {
        if o in l.listed { assert l.keys[l.mem[o].name] == o; }
      }
    }
  }

  /** What a lens is called is what its creator called it. */
  lemma NamesAreAsCalled(ss: seq<State>, steps: seq<Step>, i: nat, o: Off)
    requires Run(ss, steps) && i < |ss| && o in ss[i].l.mem
    ensures o in After(steps[..i]).names && After(steps[..i]).names[o] == ss[i].l.mem[o].name
  {
    RunAgrees(ss, steps, i);
    assert NameAgrees(ss[i].l, After(steps[..i]), o);
  }
}
