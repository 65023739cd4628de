/**
 The histogram lens. An epoch's cells are stored in the order below, above, counts[0..8]; a recorder
 loads the epoch, finds the cell of its value and later adds one to it, while the poller empties
 the cells of the epoch it left one exchange at a time.
 */
module Histo {
  import opened Wrappers

  type Tid = nat

  const BUCKETS_MAX: nat := 8
  const CELLS: nat := BUCKETS_MAX + 2

  // ---- accepted bounds and the cell of a value ----

  ghost predicate Accepted(bounds: seq<nat>) {
    && 2 <= |bounds| <= BUCKETS_MAX + 1
    && forall i, j :: 0 <= i < j < |bounds| ==> bounds[i] < bounds[j]
  }

  /** The validation of lens_histo_alloc. */
  method Validate(bounds: seq<nat>) returns (ok: bool)
    ensures ok <==> Accepted(bounds)
  {
    if |bounds| < 2 || |bounds| > BUCKETS_MAX + 1 { return false; }
    var i := 0;
    while i < |bounds| - 1
      invariant 0 <= i <= |bounds| - 1
      invariant forall j, k :: 0 <= j < k <= i ==> bounds[j] < bounds[k]
    {
      if bounds[i] >= bounds[i + 1] { return false; }
      i := i + 1;
    }
    return true;
  }

  /** How many bounds are at most the value. */
  function AtMost(bounds: seq<nat>, value: real): nat {
    if bounds == [] then 0
    else AtMost(bounds[..|bounds| - 1], value) + if bounds[|bounds| - 1] as real <= value then 1 else 0
  }

  /** The cell of a value: below, above, or the bucket between two neighbouring bounds. */
  function CellOf(bounds: seq<nat>, value: real): nat {
    var k := AtMost(bounds, value);
    if k == 0 then 0 else if k == |bounds| then 1 else k + 1
  }

  lemma {:induction false} AtMostSplits(bounds: seq<nat>, value: real, k: nat)
    requires k <= |bounds|
    requires forall i :: 0 <= i < k ==> bounds[i] as real <= value
    requires forall i :: k <= i < |bounds| ==> value < bounds[i] as real
    ensures AtMost(bounds, value) == k
  {
    if |bounds| > 0 {
      var n := |bounds| - 1;
      AtMostSplits(bounds[..n], value, if k == |bounds| then n else k);
    }
  }

  /** The lookup of lens_histo_inc. */
  method FindCell(bounds: seq<nat>, value: real) returns (cell: nat)
    requires Accepted(bounds)
    ensures cell == CellOf(bounds, value) && cell <= |bounds|
    ensures cell == 0 <==> value < bounds[0] as real
    ensures cell == 1 <==> bounds[|bounds| - 1] as real <= value
    ensures cell >= 2 ==> bounds[cell - 2] as real <= value < bounds[cell - 1] as real
  {
    if value < bounds[0] as real {
      AtMostSplits(bounds, value, 0);
      return 0;
    }
    if value >= bounds[|bounds| - 1] as real {
      AtMostSplits(bounds, value, |bounds|);
      return 1;
    }
    var i := 1;
    while !(value < bounds[i] as real)
      invariant 1 <= i < |bounds| && bounds[i - 1] as real <= value
      decreases |bounds| - i
    {
      i := i + 1;
    }
    AtMostSplits(bounds, value, i);
    return i + 1;
  }

  // ---- recorders and poller ----

  datatype Pc = Idle | Loaded(e: nat, cell: nat)

  /** A read in progress: the slot, the next cell, and the caller's record. */
  datatype Poller = Resting | Reading(q: nat, i: nat, record: seq<nat>)

  datatype State = State(bounds: seq<nat>, cells: seq<seq<nat>>, epoch: nat, pc: map<Tid, Pc>, poller: Poller)

  datatype Step =
    | LoadEpoch(t: Tid, value: real)
    | Inc(t: Tid)
    | Bump
    | BeginRead(bounds: seq<nat>, record: seq<nat>)
    | DrainCell
    | EndRead

  function PcOf(s: State, t: Tid): Pc {
    if t in s.pc then s.pc[t] else Idle
  }

  function Zeros(): seq<nat> {
    seq(CELLS, _ => 0)
  }

  predicate Init(s: State) {
    s.cells == [Zeros(), Zeros()] && s.epoch == 0 && s.pc == map[] && s.poller.Resting?
  }

  predicate Shaped(s: State) {
    && |s.bounds| + 1 <= CELLS && |s.cells| == 2 && |s.cells[0]| == |s.cells[1]| == CELLS
    && (s.poller.Reading? ==> s.poller.q < 2 && |s.poller.record| == CELLS)
  }

  predicate Enabled(s: State, step: Step) {
    match step
    case LoadEpoch(t, _) => PcOf(s, t).Idle?
    case Inc(t) => PcOf(s, t).Loaded? && PcOf(s, t).cell < CELLS
    case Bump => s.poller.Resting?
    case BeginRead(_, record) => s.poller.Resting? && s.epoch > 0 && |record| == CELLS
    case DrainCell => s.poller.Reading? && s.poller.i <= |s.bounds|
    case EndRead => s.poller.Reading? && s.poller.i == |s.bounds| + 1
  }

  /** A record that already has other bounds rejects the read before anything is drained. */
  function Apply(s: State, step: Step): State
    requires Shaped(s) && Enabled(s, step)
  {
    match step
    case LoadEpoch(t, value) => s.(pc := s.pc[t := Loaded(s.epoch, CellOf(s.bounds, value))])
    case Inc(t) =>
      var p := PcOf(s, t);
      var q := p.e % 2;
      s.(pc := s.pc[t := Idle], cells := s.cells[q := s.cells[q][p.cell := s.cells[q][p.cell] + 1]])
    case Bump => s.(epoch := s.epoch + 1)
    case BeginRead(bounds, record) =>
      if bounds != [] && bounds != s.bounds then s else s.(poller := Reading((s.epoch - 1) % 2, 0, record))
    case DrainCell =>
      var p := s.poller;
      s.(cells := s.cells[p.q := s.cells[p.q][p.i := 0]],
         poller := p.(i := p.i + 1, record := p.record[p.i := p.record[p.i] + s.cells[p.q][p.i]]))
    case EndRead => s.(poller := Resting)
  }

  predicate Run(ss: seq<State>, steps: seq<Step>) {
    && |ss| == |steps| + 1 && Init(ss[0])
    && forall i {:trigger StepAt(ss, steps, i)} :: 0 <= i < |steps| ==> StepAt(ss, steps, i)
  }

  predicate StepAt(ss: seq<State>, steps: seq<Step>, i: nat) {
    && i < |steps| && i + 1 < |ss|
    && Shaped(ss[i]) && Enabled(ss[i], steps[i]) && ss[i + 1] == Apply(ss[i], steps[i])
  }

  // ---- what the steps say ----

  function Bumps(steps: seq<Step>): nat {
    if steps == [] then 0 else Bumps(steps[..|steps| - 1]) + if steps[|steps| - 1].Bump? then 1 else 0
  }

  /** The last call of thread `t`: the number of bumps before its load of the epoch, and its value. */
  datatype Call = Call(read: nat, value: real)

  function LastCall(steps: seq<Step>, t: Tid): Option<Call> {
    if steps == [] then None
    else
      var before, last := steps[..|steps| - 1], steps[|steps| - 1];
      if last.LoadEpoch? && last.t == t then Some(Call(Bumps(before), last.value)) else LastCall(before, t)
  }

  /** How many completed calls with a value of cell `c` loaded an epoch of parity `q`. */
  function Incs(bounds: seq<nat>, steps: seq<Step>, q: nat, c: nat): nat {
    if steps == [] then 0
    else
      var before, last := steps[..|steps| - 1], steps[|steps| - 1];
      Incs(bounds, before, q, c) +
      if last.Inc? && LastCall(before, last.t).Some? && LastCall(before, last.t).value.read % 2 == q
         && CellOf(bounds, LastCall(before, last.t).value.value) == c then 1 else 0
  }

  /** The record that the last read was begun with. */
  function LastRecord(steps: seq<Step>): seq<nat> {
    if steps == [] then Zeros()
    else if steps[|steps| - 1].BeginRead? then steps[|steps| - 1].record
    else LastRecord(steps[..|steps| - 1])
  }

  /** What the read in progress has added to cell `c` of its record, if it leaves an epoch of parity `q`. */
  function Gain(s: State, steps: seq<Step>, q: nat, c: nat): int {
    if s.poller.Reading? && (Bumps(steps) - 1) % 2 == q && c < |s.poller.record| && c < |LastRecord(steps)|
    then s.poller.record[c] as int - LastRecord(steps)[c] as int
    else 0
  }

  /** What all reads that were completed in the first `i` steps have added. */
  function Gains(ss: seq<State>, steps: seq<Step>, i: nat, q: nat, c: nat): int
    requires i <= |steps| < |ss|
  {
    if i == 0 then 0
    else Gains(ss, steps, i - 1, q, c) + if steps[i - 1].EndRead? then Gain(ss[i - 1], steps[..i - 1], q, c) else 0
  }

  // ---- invariant ----

  ghost predicate CallOk(s: State, steps: seq<Step>, t: Tid) {
    PcOf(s, t).Loaded? ==>
      && LastCall(steps, t).Some? && LastCall(steps, t).value.read == PcOf(s, t).e
      && PcOf(s, t).cell == CellOf(s.bounds, LastCall(steps, t).value.value) < CELLS
  }

  ghost predicate Told(s: State, steps: seq<Step>) {
    && s.epoch == Bumps(steps) && |LastRecord(steps)| == CELLS
    && (s.poller.Reading? ==> s.epoch > 0 && s.poller.q == (s.epoch - 1) % 2 && s.poller.i <= |s.bounds| + 1)
    && forall t {:trigger CallOk(s, steps, t)} :: CallOk(s, steps, t)
  }

  lemma {:induction false} AtMostIsBounded(bounds: seq<nat>, value: real)
    ensures AtMost(bounds, value) <= |bounds|
  {
    if bounds != [] { AtMostIsBounded(bounds[..|bounds| - 1], value); }
  }

  lemma ToldStep(s: State, steps: seq<Step>, step: Step)
    requires Told(s, steps) && Shaped(s) && Accepted(s.bounds) && Enabled(s, step)
    ensures Told(Apply(s, step), steps + [step])
    ensures Shaped(Apply(s, step)) && Apply(s, step).bounds == s.bounds
  {
    var s', steps' := Apply(s, step), steps + [step];
    assert steps'[..|steps|] == steps;
    if step.LoadEpoch? { AtMostIsBounded(s.bounds, step.value); }
    forall t ensures CallOk(s', steps', t) { assert CallOk(s, steps, t); }
  }

  lemma {:induction false} RunIsTold(ss: seq<State>, steps: seq<Step>, i: nat)
    requires Run(ss, steps) && i < |ss| && Accepted(ss[0].bounds)
    ensures Told(ss[i], steps[..i]) && Shaped(ss[i]) && ss[i].bounds == ss[0].bounds
    decreases i
  {
    if i > 0 {
      RunIsTold(ss, steps, i - 1);
      assert StepAt(ss, steps, i - 1);
      assert steps[..i] == steps[..i - 1] + [steps[i - 1]];
      ToldStep(ss[i - 1], steps[..i - 1], steps[i - 1]);
    } else {
      forall t ensures CallOk(ss[0], [], t) {}
    }
  }

  // ---- conservation ----

  /** What one step does to the balance of a cell. */
  lemma BalanceStep(s: State, steps: seq<Step>, step: Step, q: nat, c: nat)
    requires Told(s, steps) && Shaped(s) && Accepted(s.bounds) && Enabled(s, step) && q < 2 && c < CELLS
    ensures Shaped(Apply(s, step))
    ensures var s', steps' := Apply(s, step), steps + [step];
      Incs(s.bounds, steps', q, c) - Incs(s.bounds, steps, q, c) ==
      s'.cells[q][c] - s.cells[q][c] + Gain(s', steps', q, c) - Gain(s, steps, q, c)
      + if step.EndRead? then Gain(s, steps, q, c) else 0
  {
    var s', steps' := Apply(s, step), steps + [step];
    ToldStep(s, steps, step);
    assert steps'[..|steps|] == steps;
    if step.Inc? { assert CallOk(s, steps, step.t); }
  }

  /** In every state of every run, for each cell and each parity: the completed calls whose value belongs to the cell
      and whose epoch had that parity are in the cell still, or were added to the records of the reads that left an
      epoch of that parity, the one in progress included. */
  lemma {:induction false} Conservation(ss: seq<State>, steps: seq<Step>, i: nat, q: nat, c: nat)
    requires Run(ss, steps) && i < |ss| && Accepted(ss[0].bounds) && q < 2 && c < CELLS
    ensures Shaped(ss[i])
    ensures Incs(ss[0].bounds, steps[..i], q, c) ==
            ss[i].cells[q][c] + Gains(ss, steps, i, q, c) + Gain(ss[i], steps[..i], q, c)
    decreases i
  {
    RunIsTold(ss, steps, i);
    if i > 0 {
      Conservation(ss, steps, i - 1, q, c);
      RunIsTold(ss, steps, i - 1);
      assert StepAt(ss, steps, i - 1);
      assert steps[..i] == steps[..i - 1] + [steps[i - 1]];
      BalanceStep(ss[i - 1], steps[..i - 1], steps[i - 1], q, c);
    }
  }

  lemma {:induction false} NoReadEnds(ss: seq<State>, steps: seq<Step>, b: nat, e: nat, q: nat, c: nat)
    requires b <= e <= |steps| < |ss| && forall k :: b <= k < e ==> !steps[k].EndRead?
    ensures Gains(ss, steps, e, q, c) == Gains(ss, steps, b, q, c)
    decreases e
  {
    if b < e { NoReadEnds(ss, steps, b, e - 1, q, c); }
  }

  /** Steps `b` and `e` are the begin and the end of one read. */
  predicate OneRead(steps: seq<Step>, b: nat, e: nat) {
    && b < e < |steps| && steps[b].BeginRead? && steps[e].EndRead?
    && forall k :: b < k < e ==> !steps[k].BeginRead? && !steps[k].EndRead?
  }

  lemma {:induction false} RecordOfRead(steps: seq<Step>, b: nat, e: nat)
    requires b < e <= |steps| && steps[b].BeginRead? && forall k :: b < k < e ==> !steps[k].BeginRead?
    ensures LastRecord(steps[..e]) == steps[b].record
    decreases e
  {
    if e > b + 1 {
      RecordOfRead(steps, b, e - 1);
      assert steps[..e][..e - 1] == steps[..e - 1];
    }
  }

  lemma {:induction false} IncsGrow(bounds: seq<nat>, steps: seq<Step>, b: nat, e: nat, q: nat, c: nat)
    requires b <= e <= |steps|
    ensures Incs(bounds, steps[..b], q, c) <= Incs(bounds, steps[..e], q, c)
    decreases e
  {
    if b < e {
      IncsGrow(bounds, steps, b, e - 1, q, c);
      assert steps[..e][..e - 1] == steps[..e - 1];
    }
  }

  /** The steps from `b` up to `m` are part of one read, which was not rejected. */
  predicate During(ss: seq<State>, steps: seq<Step>, b: nat, m: nat) {
    && b < m < |ss| == |steps| + 1 && steps[b].BeginRead? && ss[b + 1].poller.Reading?
    && forall k :: b < k < m ==> !steps[k].BeginRead? && !steps[k].EndRead?
  }

  /** One step of a read: the slot stays, and a cell that has been drained holds only what is added from now on. */
  lemma ReadStep(s: State, steps: seq<Step>, step: Step, c: nat, was: nat)
    requires Told(s, steps) && Shaped(s) && Accepted(s.bounds) && Enabled(s, step) && c < CELLS
    requires s.poller.Reading? && !step.EndRead? && was <= Incs(s.bounds, steps, s.poller.q, c)
    requires c < s.poller.i ==> s.cells[s.poller.q][c] + was <= Incs(s.bounds, steps, s.poller.q, c)
    ensures var s', steps' := Apply(s, step), steps + [step];
      && s'.poller.Reading? && s'.poller.q == s.poller.q && Shaped(s')
      && (c < s'.poller.i ==> s'.cells[s.poller.q][c] + was <= Incs(s.bounds, steps', s.poller.q, c))
  {
    BalanceStep(s, steps, step, s.poller.q, c);
    assert (steps + [step])[..|steps|] == steps;
  }

  lemma {:induction false} DrainedCells(ss: seq<State>, steps: seq<Step>, b: nat, m: nat, c: nat)
    requires Run(ss, steps) && Accepted(ss[0].bounds) && During(ss, steps, b, m) && c < CELLS
    ensures Shaped(ss[m]) && ss[m].poller.Reading? && ss[m].poller.q == ss[b + 1].poller.q
    ensures var q := ss[m].poller.q;
      c < ss[m].poller.i ==>
        ss[m].cells[q][c] + Incs(ss[0].bounds, steps[..b], q, c) <= Incs(ss[0].bounds, steps[..m], q, c)
    decreases m
  {
    RunIsTold(ss, steps, m);
    if m > b + 1 {
      DrainedCells(ss, steps, b, m - 1, c);
      RunIsTold(ss, steps, m - 1);
      assert StepAt(ss, steps, m - 1);
      assert steps[..m] == steps[..m - 1] + [steps[m - 1]];
      var q := ss[m - 1].poller.q;
      IncsGrow(ss[0].bounds, steps, b, m - 1, q, c);
      ReadStep(ss[m - 1], steps[..m - 1], steps[m - 1], c, Incs(ss[0].bounds, steps[..b], q, c));
    } else {
      assert StepAt(ss, steps, b);
    }
  }

  /** A read adds to the record it was given, in the cells of the epoch left, what was in the cell at the begin and what
      was added since, less what is in the cell at the end; and that was all added since. */
  lemma ReadAddsWhatItTakes(ss: seq<State>, steps: seq<Step>, b: nat, e: nat, c: nat)
    requires Run(ss, steps) && Accepted(ss[0].bounds) && OneRead(steps, b, e) && c < CELLS
    ensures Shaped(ss[b]) && Shaped(ss[e]) && ss[e].poller.Reading? && |steps[b].record| == CELLS && ss[e].epoch > 0
    ensures var q := (ss[e].epoch - 1) % 2;
      ss[e].poller.record[c] + ss[e].cells[q][c] + Incs(ss[0].bounds, steps[..b], q, c) ==
      steps[b].record[c] + ss[b].cells[q][c] + Incs(ss[0].bounds, steps[..e], q, c)
    ensures var q := (ss[e].epoch - 1) % 2;
      c <= |ss[0].bounds| ==>
        ss[e].cells[q][c] <= Incs(ss[0].bounds, steps[..e], q, c) - Incs(ss[0].bounds, steps[..b], q, c)
  {
    RunIsTold(ss, steps, b);
    RunIsTold(ss, steps, e);
    assert StepAt(ss, steps, b) && StepAt(ss, steps, e);
    var q := (ss[e].epoch - 1) % 2;
    Conservation(ss, steps, b, q, c);
    Conservation(ss, steps, e, q, c);
    NoReadEnds(ss, steps, b, e, q, c);
    RecordOfRead(steps, b, e);
    ReadIsUnderway(ss, steps, b, e);
    DrainedCells(ss, steps, b, e, c);
  }

  /** A read that ends was not rejected. */
  lemma ReadIsUnderway(ss: seq<State>, steps: seq<Step>, b: nat, e: nat)
    requires Run(ss, steps) && OneRead(steps, b, e)
    ensures During(ss, steps, b, e)
  {
    assert StepAt(ss, steps, e);
    if ss[b + 1].poller.Resting? { StaysResting(ss, steps, b + 1, e); }
  }

  lemma {:induction false} StaysResting(ss: seq<State>, steps: seq<Step>, b: nat, e: nat)
    requires Run(ss, steps) && b <= e < |ss| && ss[b].poller.Resting? && forall k :: b <= k < e ==> !steps[k].BeginRead?
    ensures ss[e].poller.Resting?
    decreases e
  {
    if b < e {
      StaysResting(ss, steps, b, e - 1);
      assert StepAt(ss, steps, e - 1);
    }
  }

  /** How many cells were emptied in the steps from `b` up to `m`. */
  function Drains(steps: seq<Step>, b: nat, m: nat): nat
    requires b <= m <= |steps|
  {
    if b == m then 0 else Drains(steps, b, m - 1) + if steps[m - 1].DrainCell? then 1 else 0
  }

  /** A read always has a step to take, and empties one cell after the other until it has emptied all. */
  lemma {:induction false} ReadsEnd(ss: seq<State>, steps: seq<Step>, b: nat, m: nat)
    requires Run(ss, steps) && Accepted(ss[0].bounds) && During(ss, steps, b, m)
    ensures ss[m].poller.Reading? && ss[m].poller.i == Drains(steps, b + 1, m) <= |ss[0].bounds| + 1
    ensures if Drains(steps, b + 1, m) <= |ss[0].bounds| then Enabled(ss[m], DrainCell) else Enabled(ss[m], EndRead)
    decreases m
  {
    RunIsTold(ss, steps, m);
    if m > b + 1 {
      ReadsEnd(ss, steps, b, m - 1);
      assert StepAt(ss, steps, m - 1);
    } else {
      assert StepAt(ss, steps, b);
      RunIsTold(ss, steps, b);
    }
  }

  /** A read into a record with other bounds changes nothing. */
  lemma OtherBoundsAreRejected(ss: seq<State>, steps: seq<Step>, i: nat)
    requires Run(ss, steps) && Accepted(ss[0].bounds) && i < |steps| && steps[i].BeginRead?
    ensures steps[i].bounds != [] && steps[i].bounds != ss[0].bounds <==> ss[i + 1] == ss[i]
  {
    RunIsTold(ss, steps, i);
    assert StepAt(ss, steps, i);
  }
}
