/**
 The two-slot counter. A recorder loads the epoch and later adds to the slot of that parity; the
 poller bumps the epoch and then exchanges the slot of the epoch it left. Both sides interleave
 freely, so a recorder may add to a slot long after its epoch has passed.
 */
module Counter {
  import opened Bits
  import opened Wrappers

  type Tid = nat

  /** The value of a 64-bit two's complement cell holding `x`. */
  function Wrap(x: int): int {
    (x + TWO_63) % TWO_64 - TWO_63
  }

  /** It is the number in the signed 64-bit range that differs from `x` by a multiple of 2^64. */
  lemma WrapIsTheResidue(x: int, y: int)
    ensures Wrap(x) == y <==> 0 <= y + TWO_63 < TWO_64 && (x - y) % TWO_64 == 0
  {
    var k := (x + TWO_63) / TWO_64;
    assert x - Wrap(x) == k * TWO_64;
    if 0 <= y + TWO_63 < TWO_64 && (x - y) % TWO_64 == 0 {
      var j := (x - y) / TWO_64;
      assert (j - k) * TWO_64 == Wrap(x) - y;
    }
  }

  /** History of one completed increment: the full epoch counter its thread loaded, the amount, the
      counter's value at the add, and how many reads of this lens preceded the add. */
  datatype Event = Event(read: nat, amount: int, at: nat, before: nat)

  datatype Pc = Idle | Loaded(e: nat, amount: int)

  datatype State = State(
    slot: seq<int>,
    epoch: nat,
    pc: map<Tid, Pc>,
    // history: completed increments, and for every read the epoch its poll left and the value
    events: seq<Event>,
    polls: seq<nat>,
    values: seq<int>)

  datatype Step = LoadEpoch(t: Tid, amount: int) | Add(t: Tid) | Bump | Read

  function PcOf(s: State, t: Tid): Pc {
    if t in s.pc then s.pc[t] else Idle
  }

  function Init(): State {
    State([0, 0], 0, map[], [], [], [])
  }

  /** A poll reads only after its own bump. */
  predicate Enabled(s: State, step: Step) {
    match step
    case LoadEpoch(t, _) => PcOf(s, t).Idle?
    case Add(t) => PcOf(s, t).Loaded?
    case Bump => true
    case Read => s.epoch > 0
  }

  function Apply(s: State, step: Step): State
    requires |s.slot| == 2 && Enabled(s, step)
  {
    match step
    case LoadEpoch(t, amount) => s.(pc := s.pc[t := Loaded(s.epoch, amount)])
    case Add(t) =>
      var p := PcOf(s, t);
      var q := p.e % 2;
      s.(pc := s.pc[t := Idle],
         slot := s.slot[q := Wrap(s.slot[q] + p.amount)],
         events := s.events + [Event(p.e, p.amount, s.epoch, |s.polls|)])
    case Bump => s.(epoch := s.epoch + 1)
    case Read =>
      var q := (s.epoch - 1) % 2;
      s.(slot := s.slot[q := 0],
         polls := s.polls + [s.epoch - 1],
         values := s.values + [s.slot[q]])
  }

  // ---- where an increment ends up ----

  /** An increment is still in a slot, or has been reported by one read. */
  datatype Home = Slot(q: nat) | ReadBy(r: nat)

  /** The first read from index `i` on that takes the slot of parity `q`. */
  function HomeFrom(polls: seq<nat>, i: nat, q: nat): Home
    decreases |polls| - i
  {
    if i >= |polls| then Slot(q) else if polls[i] % 2 == q then ReadBy(i) else HomeFrom(polls, i + 1, q)
  }

  function HomeOf(polls: seq<nat>, ev: Event): Home {
    HomeFrom(polls, ev.before, ev.read % 2)
  }

  /** The sum of the amounts of all increments with a given home. */
  function Share(events: seq<Event>, polls: seq<nat>, h: Home): int {
    if events == [] then 0
    else
      var n := |events| - 1;
      Share(events[..n], polls, h) + if HomeOf(polls, events[n]) == h then events[n].amount else 0
  }

  function Total(events: seq<Event>): int {
    if events == [] then 0 else Total(events[..|events| - 1]) + events[|events| - 1].amount
  }

  /** The shares of all reads with index below `n`. */
  function Reported(events: seq<Event>, polls: seq<nat>, n: nat): int {
    if n == 0 then 0 else Reported(events, polls, n - 1) + Share(events, polls, ReadBy(n - 1))
  }

  function Sum(xs: seq<int>): int {
    if xs == [] then 0 else Sum(xs[..|xs| - 1]) + xs[|xs| - 1]
  }

  // ---- invariant ----

  predicate EventOk(s: State, ev: Event) {
    && ev.read <= ev.at <= s.epoch && ev.before <= |s.polls|
    && (forall r :: 0 <= r < ev.before ==> s.polls[r] + 1 <= ev.at)
    && (forall r :: ev.before <= r < |s.polls| ==> ev.at <= s.polls[r] + 1)
  }

  ghost predicate Inv(s: State) {
    && |s.slot| == 2 && |s.values| == |s.polls|
    && s.slot[0] == Wrap(Share(s.events, s.polls, Slot(0)))
    && s.slot[1] == Wrap(Share(s.events, s.polls, Slot(1)))
    && (forall r :: 0 <= r < |s.polls| ==> s.values[r] == Wrap(Share(s.events, s.polls, ReadBy(r))))
    && (forall i :: 0 <= i < |s.events| ==> EventOk(s, s.events[i]))
    && (forall r :: 0 <= r < |s.polls| ==> s.polls[r] + 1 <= s.epoch)
    && (forall i, j :: 0 <= i < j < |s.polls| ==> s.polls[i] <= s.polls[j])
    && (forall t {:trigger PcOf(s, t)} :: PcOf(s, t).Loaded? ==> PcOf(s, t).e <= s.epoch)
  }

  lemma WrapAdd(a: int, b: int)
    ensures Wrap(Wrap(a) + b) == Wrap(a + b)
  {
    var k := (a + TWO_63) / TWO_64;
    assert Wrap(a) == a - k * TWO_64;
    assert (a + b + TWO_63 - k * TWO_64) % TWO_64 == (a + b + TWO_63) % TWO_64;
  }

  lemma {:induction false} HomeFromGrows(polls: seq<nat>, c: nat, i: nat, q: nat)
    requires i <= |polls| && q < 2
    ensures HomeFrom(polls + [c], i, q) ==
      if HomeFrom(polls, i, q) == Slot(q) && c % 2 == q then ReadBy(|polls|) else HomeFrom(polls, i, q)
    ensures HomeFrom(polls, i, q) == Slot(q)
        || (HomeFrom(polls, i, q).ReadBy? && i <= HomeFrom(polls, i, q).r < |polls|)
    decreases |polls| - i
  {
    if i < |polls| {
      if polls[i] % 2 != q { HomeFromGrows(polls, c, i + 1, q); }
    } else {
      assert c % 2 != q ==> HomeFrom(polls + [c], i + 1, q) == Slot(q);
    }
  }

  /** A read moves exactly the increments of the slot it exchanges, and all of them. */
  lemma {:induction false} ReadMovesShare(events: seq<Event>, polls: seq<nat>, c: nat, h: Home)
    requires forall i :: 0 <= i < |events| ==> events[i].before <= |polls|
    ensures Share(events, polls + [c], h) ==
      if h == Slot(c % 2) then 0
      else if h == ReadBy(|polls|) then Share(events, polls, Slot(c % 2))
      else Share(events, polls, h)
  {
    if events != [] {
      var n := |events| - 1;
      ReadMovesShare(events[..n], polls, c, h);
      HomeFromGrows(polls, c, events[n].before, events[n].read % 2);
    }
  }

  lemma AddShare(events: seq<Event>, polls: seq<nat>, ev: Event, h: Home)
    requires ev.before == |polls|
    ensures Share(events + [ev], polls, h) ==
      Share(events, polls, h) + if h == Slot(ev.read % 2) then ev.amount else 0
  {
    assert (events + [ev])[..|events|] == events;
  }

  lemma ReadShares(s: State, c: nat, q: nat)
    requires Inv(s) && c + 1 == s.epoch && q == c % 2
    ensures var polls' := s.polls + [c];
      && Share(s.events, polls', Slot(q)) == 0
      && Share(s.events, polls', Slot(1 - q)) == Share(s.events, s.polls, Slot(1 - q))
      && Share(s.events, polls', ReadBy(|s.polls|)) == Share(s.events, s.polls, Slot(q))
      && forall r :: 0 <= r < |s.polls| ==> Share(s.events, polls', ReadBy(r)) == Share(s.events, s.polls, ReadBy(r))
  {
    assert forall i :: 0 <= i < |s.events| ==> EventOk(s, s.events[i]) && s.events[i].before <= |s.polls|;
    forall h { ReadMovesShare(s.events, s.polls, c, h); }
  }

  lemma ReadSlots(s: State)
    requires Inv(s) && Enabled(s, Read)
    ensures var s' := Apply(s, Read);
      && s'.slot[0] == Wrap(Share(s'.events, s'.polls, Slot(0)))
      && s'.slot[1] == Wrap(Share(s'.events, s'.polls, Slot(1)))
  {
    ReadShares(s, s.epoch - 1, (s.epoch - 1) % 2);
  }

  lemma ReadValue(s: State, r: nat)
    requires Inv(s) && Enabled(s, Read) && r <= |s.polls|
    ensures var s' := Apply(s, Read); s'.values[r] == Wrap(Share(s'.events, s'.polls, ReadBy(r)))
  {
    ReadShares(s, s.epoch - 1, (s.epoch - 1) % 2);
  }

  lemma ReadKeeps(s: State)
    requires Inv(s) && Enabled(s, Read)
    ensures Inv(Apply(s, Read))
  {
    var s' := Apply(s, Read);
    ReadSlots(s);
    forall r | 0 <= r < |s'.polls| ensures s'.values[r] == Wrap(Share(s'.events, s'.polls, ReadBy(r))) {
      ReadValue(s, r);
    }
    forall i | 0 <= i < |s.events| ensures EventOk(s', s.events[i]) { assert EventOk(s, s.events[i]); }
    forall u ensures PcOf(s', u) == PcOf(s, u) {}
  }

  lemma AddSlot(s: State, t: Tid, q: nat)
    requires Inv(s) && Enabled(s, Add(t)) && q < 2
    ensures var s' := Apply(s, Add(t)); s'.slot[q] == Wrap(Share(s'.events, s'.polls, Slot(q)))
  {
    var p := PcOf(s, t);
    AddShare(s.events, s.polls, Event(p.e, p.amount, s.epoch, |s.polls|), Slot(q));
    WrapAdd(Share(s.events, s.polls, Slot(q)), p.amount);
  }

  lemma AddValue(s: State, t: Tid, r: nat)
    requires Inv(s) && Enabled(s, Add(t)) && r < |s.polls|
    ensures var s' := Apply(s, Add(t)); s'.values[r] == Wrap(Share(s'.events, s'.polls, ReadBy(r)))
  {
    var p := PcOf(s, t);
    AddShare(s.events, s.polls, Event(p.e, p.amount, s.epoch, |s.polls|), ReadBy(r));
  }

  lemma AddKeeps(s: State, t: Tid)
    requires Inv(s) && Enabled(s, Add(t))
    ensures Inv(Apply(s, Add(t)))
  {
    var s' := Apply(s, Add(t));
    AddSlot(s, t, 0);
    AddSlot(s, t, 1);
    forall r | 0 <= r < |s.polls| ensures s'.values[r] == Wrap(Share(s'.events, s'.polls, ReadBy(r))) {
      AddValue(s, t, r);
    }
    forall i | 0 <= i < |s'.events|
      ensures EventOk(s', s'.events[i])
    {
      assert i < |s.events| ==> EventOk(s, s.events[i]);
    }
    forall u
      ensures PcOf(s', u).Loaded? ==> PcOf(s', u).e <= s'.epoch
    {
      assert PcOf(s, u).Loaded? ==> PcOf(s, u).e <= s.epoch;
    }
  }

  lemma StepKeeps(s: State, step: Step)
    requires Inv(s) && Enabled(s, step)
    ensures Inv(Apply(s, step))
  {
    match step
    case Read => ReadKeeps(s);
    case Add(t) => AddKeeps(s, t);
    case _ =>
      var s' := Apply(s, step);
      forall i | 0 <= i < |s.events| ensures EventOk(s', s.events[i]) { assert EventOk(s, s.events[i]); }
      forall u
        ensures PcOf(s', u).Loaded? ==> PcOf(s', u).e <= s'.epoch
      {
        assert PcOf(s, u).Loaded? ==> PcOf(s, u).e <= s.epoch;
      }
  }

  /** The state after a sequence of steps, each taken only if enabled. */
  predicate Run(ss: seq<State>, steps: seq<Step>) {
    && |ss| == |steps| + 1 && ss[0] == Init()
    && forall i {:trigger StepAt(ss, steps, i)} :: 0 <= i < |steps| ==> StepAt(ss, steps, i)
  }

  predicate StepAt(ss: seq<State>, steps: seq<Step>, i: nat) {
    && i < |steps| && i + 1 < |ss|
    && |ss[i].slot| == 2 && Enabled(ss[i], steps[i]) && ss[i + 1] == Apply(ss[i], steps[i])
  }

  lemma {:induction false} RunInv(ss: seq<State>, steps: seq<Step>, i: nat)
    requires Run(ss, steps) && i < |ss|
    ensures Inv(ss[i])
    decreases i
  {
    if i > 0 {
      RunInv(ss, steps, i - 1);
      assert StepAt(ss, steps, i - 1);
      StepKeeps(ss[i - 1], steps[i - 1]);
    }
  }

  // ---- the history is that of the calls ----

  function Bumps(steps: seq<Step>): nat {
    if steps == [] then 0 else Bumps(steps[..|steps| - 1]) + if steps[|steps| - 1].Bump? then 1 else 0
  }

  function Reads(steps: seq<Step>): nat {
    if steps == [] then 0 else Reads(steps[..|steps| - 1]) + if steps[|steps| - 1].Read? then 1 else 0
  }

  /** The last call of thread `t`: the number of bumps before its load of the epoch, and its amount. */
  datatype Call = Call(read: nat, amount: int)

  function LastCall(steps: seq<Step>, t: Tid): Option<Call> {
    if steps == [] then None
    else
      var before, last := steps[..|steps| - 1], steps[|steps| - 1];
      if last.LoadEpoch? && last.t == t then Some(Call(Bumps(before), last.amount)) else LastCall(before, t)
  }

  /** What the steps say about the increments they complete: each add belongs to the last call of its thread. */
  function Completed(steps: seq<Step>): seq<Event> {
    if steps == [] then []
    else
      var before, last := steps[..|steps| - 1], steps[|steps| - 1];
      if last.Add? && LastCall(before, last.t).Some? then
        var c := LastCall(before, last.t).value;
        Completed(before) + [Event(c.read, c.amount, Bumps(before), Reads(before))]
      else Completed(before)
  }

  /** The epoch that each read's poll has left. */
  function PollsOf(steps: seq<Step>): seq<int> {
    if steps == [] then []
    else
      var before, last := steps[..|steps| - 1], steps[|steps| - 1];
      if last.Read? then PollsOf(before) + [Bumps(before) - 1] else PollsOf(before)
  }

  /** The amounts of all completed calls. */
  function Amounts(steps: seq<Step>): int {
    if steps == [] then 0
    else
      var before, last := steps[..|steps| - 1], steps[|steps| - 1];
      Amounts(before) + if last.Add? && LastCall(before, last.t).Some? then LastCall(before, last.t).value.amount else 0
  }

  ghost predicate CallOk(s: State, steps: seq<Step>, t: Tid) {
    PcOf(s, t).Loaded? ==> LastCall(steps, t) == Some(Call(PcOf(s, t).e, PcOf(s, t).amount))
  }

  ghost predicate Told(s: State, steps: seq<Step>) {
    && s.epoch == Bumps(steps) && |s.polls| == Reads(steps)
    && s.events == Completed(steps) && s.polls == PollsOf(steps)
    && forall t {:trigger CallOk(s, steps, t)} :: CallOk(s, steps, t)
  }

  lemma ToldStep(s: State, steps: seq<Step>, step: Step)
    requires Told(s, steps) && |s.slot| == 2 && Enabled(s, step)
    ensures Told(Apply(s, step), steps + [step])
  {
    var s', steps' := Apply(s, step), steps + [step];
    assert steps'[..|steps|] == steps;
    if step.Add? { assert CallOk(s, steps, step.t); }
    forall t ensures CallOk(s', steps', t) { assert CallOk(s, steps, t); }
  }

  lemma {:induction false} RunIsTold(ss: seq<State>, steps: seq<Step>, i: nat)
    requires Run(ss, steps) && i < |ss|
    ensures Told(ss[i], steps[..i])
    decreases i
  {
    if i > 0 {
      RunIsTold(ss, steps, i - 1);
      assert StepAt(ss, steps, i - 1);
      assert steps[..i] == steps[..i - 1] + [steps[i - 1]];
      ToldStep(ss[i - 1], steps[..i - 1], steps[i - 1]);
    } else {
      forall t ensures CallOk(ss[0], [], t) {}
    }
  }

  lemma {:induction false} TotalIsAmounts(steps: seq<Step>)
    ensures Total(Completed(steps)) == Amounts(steps)
  {
    if steps != [] {
      var before := steps[..|steps| - 1];
      TotalIsAmounts(before);
      if Completed(steps) != Completed(before) {
        assert Completed(steps)[..|Completed(before)|] == Completed(before);
      }
    }
  }

  /** Step `a` is the load and step `b` the add of one call of thread `t`. */
  predicate IsCall(steps: seq<Step>, a: nat, b: nat, t: Tid, amount: int) {
    && a < b < |steps| && steps[a] == LoadEpoch(t, amount) && steps[b] == Add(t)
    && forall k :: a < k < b ==> !(steps[k].LoadEpoch? && steps[k].t == t)
  }

  lemma {:induction false} LastCallIsALoad(steps: seq<Step>, t: Tid) returns (a: nat)
    requires LastCall(steps, t).Some?
    ensures a < |steps| && steps[a] == LoadEpoch(t, LastCall(steps, t).value.amount)
    ensures LastCall(steps, t).value.read == Bumps(steps[..a])
    ensures forall k :: a < k < |steps| ==> !(steps[k].LoadEpoch? && steps[k].t == t)
  {
    var n := |steps| - 1;
    if steps[n].LoadEpoch? && steps[n].t == t {
      a := n;
    } else {
      a := LastCallIsALoad(steps[..n], t);
      assert steps[..n][..a] == steps[..a];
    }
  }

  /** Every completed increment is one call: the amount is the one given to it, and the epochs are counted by the bumps
      before its load and before its add. */
  lemma {:induction false} EventIsACall(steps: seq<Step>, k: nat) returns (a: nat, b: nat, t: Tid)
    requires k < |Completed(steps)|
    ensures IsCall(steps, a, b, t, Completed(steps)[k].amount)
    ensures Completed(steps)[k] ==
      Event(Bumps(steps[..a]), Completed(steps)[k].amount, Bumps(steps[..b]), Reads(steps[..b]))
  {
    var n := |steps| - 1;
    var before := steps[..n];
    if k < |Completed(before)| {
      a, b, t := EventIsACall(before, k);
      assert before[..a] == steps[..a] && before[..b] == steps[..b];
    } else {
      t := steps[n].t;
      a := LastCallIsALoad(before, t);
      b := n;
      assert before[..a] == steps[..a];
    }
  }

  // ---- conservation ----

  lemma {:induction false} SharesPartitionTotal(events: seq<Event>, polls: seq<nat>)
    requires forall i :: 0 <= i < |events| ==> events[i].before <= |polls|
    ensures Total(events) ==
      Share(events, polls, Slot(0)) + Share(events, polls, Slot(1)) + Reported(events, polls, |polls|)
  {
    if events == [] {
      ReportedNothing(polls, |polls|);
    } else {
      var n := |events| - 1;
      SharesPartitionTotal(events[..n], polls);
      HomeFromGrows(polls, 0, events[n].before, events[n].read % 2);
      ReportedOneMore(events, polls, |polls|);
    }
  }

  lemma {:induction false} ReportedNothing(polls: seq<nat>, n: nat)
    ensures Reported([], polls, n) == 0
  {
    if n > 0 { ReportedNothing(polls, n - 1); }
  }

  lemma {:induction false} ReportedOneMore(events: seq<Event>, polls: seq<nat>, n: nat)
    requires events != []
    ensures var k := |events| - 1; var h := HomeOf(polls, events[k]);
      Reported(events, polls, n) == Reported(events[..k], polls, n) +
        if h.ReadBy? && h.r < n then events[k].amount else 0
  {
    if n > 0 { ReportedOneMore(events, polls, n - 1); }
  }

  lemma {:induction false} WrapSum(s: State, n: nat)
    requires Inv(s) && n <= |s.values|
    ensures Wrap(Sum(s.values[..n])) == Wrap(Reported(s.events, s.polls, n))
  {
    if n > 0 {
      WrapSum(s, n - 1);
      assert s.values[..n][..n - 1] == s.values[..n - 1];
      var a, b := Sum(s.values[..n - 1]), Share(s.events, s.polls, ReadBy(n - 1));
      WrapAdd(b, a);
      WrapAdd(a, b);
      WrapAdd(Reported(s.events, s.polls, n - 1), b);
    }
  }

  lemma WrapThree(v: int, a: int, x: int, y: int)
    requires Wrap(v) == Wrap(a)
    ensures Wrap(v + Wrap(x) + Wrap(y)) == Wrap(a + x + y)
  {
    WrapAdd(v, Wrap(x) + Wrap(y));
    WrapAdd(a, Wrap(x) + Wrap(y));
    WrapAdd(x, a + Wrap(y));
    WrapAdd(y, a + x);
  }

  /** In every state of every run, the amounts of all completed calls add up to everything the polls read
      plus what both slots still hold, in 64-bit arithmetic. */
  lemma Conservation(ss: seq<State>, steps: seq<Step>, i: nat)
    requires Run(ss, steps) && i < |ss|
    ensures |ss[i].slot| == 2
    ensures Wrap(Amounts(steps[..i])) == Wrap(Sum(ss[i].values) + ss[i].slot[0] + ss[i].slot[1])
  {
    RunInv(ss, steps, i);
    RunIsTold(ss, steps, i);
    TotalIsAmounts(steps[..i]);
    StateConserves(ss[i]);
  }

  lemma StateConserves(s: State)
    requires Inv(s)
    ensures Wrap(Total(s.events)) == Wrap(Sum(s.values) + s.slot[0] + s.slot[1])
  {
    assert forall k :: 0 <= k < |s.events| ==> EventOk(s, s.events[k]) && s.events[k].before <= |s.polls|;
    SharesPartitionTotal(s.events, s.polls);
    WrapSum(s, |s.values|);
    assert s.values[..|s.values|] == s.values;
    var x, y := Share(s.events, s.polls, Slot(0)), Share(s.events, s.polls, Slot(1));
    WrapThree(Sum(s.values), Reported(s.events, s.polls, |s.polls|), x, y);
  }

  // ---- which poll reports an increment ----

  /** All increments but one. */
  function Without(events: seq<Event>, k: nat): seq<Event>
    requires k < |events|
  {
    events[..k] + events[k + 1..]
  }

  predicate Reports(s: State, r: nat, k: nat)
    requires k < |s.events|
  {
    HomeOf(s.polls, s.events[k]) == ReadBy(r)
  }

  /** What increment `k` is of the value of read `r`. */
  function Part(s: State, k: nat, r: nat): int
    requires k < |s.events|
  {
    if Reports(s, r, k) then s.events[k].amount else 0
  }

  /** Increment `k` is part of the value of the reads that report it, and of no other value. */
  ghost predicate Counted(s: State, k: nat) {
    && k < |s.events| && |s.values| == |s.polls|
    && forall r :: 0 <= r < |s.values| ==>
         s.values[r] == Wrap(Share(Without(s.events, k), s.polls, ReadBy(r)) + Part(s, k, r))
  }

  lemma {:induction false} ShareWithout(events: seq<Event>, polls: seq<nat>, k: nat, h: Home)
    requires k < |events|
    ensures Share(events, polls, h) == Share(Without(events, k), polls, h) +
      if HomeOf(polls, events[k]) == h then events[k].amount else 0
  {
    var n := |events| - 1;
    if k == n {
      assert Without(events, k) == events[..n];
    } else {
      ShareWithout(events[..n], polls, k, h);
      assert Without(events, k)[..n - 1] == Without(events[..n], k);
    }
  }

  lemma ValueCounts(s: State, k: nat, r: nat)
    requires k < |s.events| && r < |s.values| && s.values[r] == Wrap(Share(s.events, s.polls, ReadBy(r)))
    ensures s.values[r] == Wrap(Share(Without(s.events, k), s.polls, ReadBy(r)) + Part(s, k, r))
  {
    ShareWithout(s.events, s.polls, k, ReadBy(r));
  }

  /** In every state of every run, the values read are those that the completed calls make up, each in one place. */
  lemma EachIsCountedOnce(ss: seq<State>, steps: seq<Step>, i: nat, k: nat)
    requires Run(ss, steps) && i < |ss| && k < |ss[i].events|
    ensures ss[i].events == Completed(steps[..i]) && ss[i].polls == PollsOf(steps[..i])
    ensures Counted(ss[i], k)
  {
    RunInv(ss, steps, i);
    RunIsTold(ss, steps, i);
    CountedInState(ss[i], k);
  }

  lemma CountedInState(s: State, k: nat)
    requires Inv(s) && k < |s.events|
    ensures Counted(s, k)
  {
    forall r | 0 <= r < |s.values|
      ensures s.values[r] == Wrap(Share(Without(s.events, k), s.polls, ReadBy(r)) + Part(s, k, r))
    {
      ValueCounts(s, k, r);
    }
  }

  lemma {:induction false} HomeIsFirst(polls: seq<nat>, i: nat, q: nat, r: nat)
    requires i <= r < |polls| && polls[r] % 2 == q
    ensures HomeFrom(polls, i, q).ReadBy? && i <= HomeFrom(polls, i, q).r <= r
    decreases r - i
  {
    if polls[i] % 2 != q { HomeIsFirst(polls, i + 1, q, r); }
  }

  lemma {:induction false} HomeHasParity(polls: seq<nat>, i: nat, q: nat)
    ensures HomeFrom(polls, i, q).ReadBy? ==>
      i <= HomeFrom(polls, i, q).r < |polls| && polls[HomeFrom(polls, i, q).r] % 2 == q
    decreases |polls| - i
  {
    if i < |polls| && polls[i] % 2 != q { HomeHasParity(polls, i + 1, q); }
  }

  /** An increment that completed in the epoch which a poll then left is in the value of that poll if and only if the
      epoch its thread had loaded has the same parity. */
  lemma OnTimeIffParity(ss: seq<State>, steps: seq<Step>, i: nat, k: nat, r: nat)
    requires Run(ss, steps) && i < |ss| && k < |ss[i].events| && r < |ss[i].polls|
    requires ss[i].events[k].at == ss[i].polls[r]
    ensures ss[i].events == Completed(steps[..i]) && ss[i].polls == PollsOf(steps[..i])
    ensures Counted(ss[i], k)
    ensures ss[i].events[k].read % 2 == ss[i].events[k].at % 2 <==>
      exists h: nat :: h < |ss[i].polls| && ss[i].polls[h] == ss[i].polls[r] && Reports(ss[i], h, k)
  {
    EachIsCountedOnce(ss, steps, i, k);
    RunInv(ss, steps, i);
    ReportedIffParity(ss[i], k, r);
  }

  lemma ReportedIffParity(s: State, k: nat, r: nat)
    requires Inv(s) && k < |s.events| && r < |s.polls| && s.events[k].at == s.polls[r]
    ensures s.events[k].read % 2 == s.events[k].at % 2 <==>
      exists h: nat :: h < |s.polls| && s.polls[h] == s.polls[r] && Reports(s, h, k)
  {
    var ev := s.events[k];
    assert EventOk(s, ev);
    HomeHasParity(s.polls, ev.before, ev.read % 2);
    if ev.read % 2 == ev.at % 2 {
      HomeIsFirst(s.polls, ev.before, ev.read % 2, r);
      var h := HomeOf(s.polls, ev).r;
      assert Reports(s, h, k) && s.polls[h] <= s.polls[r];
    }
  }

  /** A straggler is in the value of one later poll of its parity, at the latest of the second of two polls that
      follow its add and leave epochs of different parity. */
  lemma StragglerIsReportedLater(ss: seq<State>, steps: seq<Step>, i: nat, k: nat, r: nat)
    requires Run(ss, steps) && i < |ss| && k < |ss[i].events| && r + 1 < |ss[i].polls|
    requires ss[i].events[k].before <= r && ss[i].polls[r] % 2 != ss[i].polls[r + 1] % 2
    ensures ss[i].events == Completed(steps[..i]) && ss[i].polls == PollsOf(steps[..i])
    ensures Counted(ss[i], k)
    ensures exists h: nat ::
      && ss[i].events[k].before <= h <= r + 1 && Reports(ss[i], h, k)
      && ss[i].events[k].at <= ss[i].polls[h] + 1 && ss[i].polls[h] % 2 == ss[i].events[k].read % 2
  {
    EachIsCountedOnce(ss, steps, i, k);
    RunInv(ss, steps, i);
    var s := ss[i];
    var ev := s.events[k];
    var q := ev.read % 2;
    assert EventOk(s, ev);
    HomeHasParity(s.polls, ev.before, q);
    HomeIsFirst(s.polls, ev.before, q, if s.polls[r] % 2 == q then r else r + 1);
    assert Reports(s, HomeOf(s.polls, ev).r, k);
  }

  lemma Extend(ss: seq<State>, steps: seq<Step>, step: Step, s': State) returns (ss': seq<State>, steps': seq<Step>)
    requires Run(ss, steps) && |ss[|ss| - 1].slot| == 2 && Enabled(ss[|ss| - 1], step)
    requires Apply(ss[|ss| - 1], step) == s'
    ensures Run(ss', steps') && steps' == steps + [step] && ss' == ss + [s']
  {
    ss', steps' := ss + [s'], steps + [step];
    forall i | 0 <= i < |steps'| ensures StepAt(ss', steps', i) {
      if i < |steps| { assert StepAt(ss, steps, i); }
    }
  }

  lemma LateLoad() returns (ss: seq<State>, steps: seq<Step>)
    ensures Run(ss, steps) && steps == [LoadEpoch(7, 5), Bump, Read]
    ensures ss[|ss| - 1] == State([0, 0], 1, map[7 := Loaded(0, 5)], [], [0], [0])
  {
    ss, steps := Extend([Init()], [], LoadEpoch(7, 5), State([0, 0], 0, map[7 := Loaded(0, 5)], [], [], []));
    ss, steps := Extend(ss, steps, Bump, State([0, 0], 1, map[7 := Loaded(0, 5)], [], [], []));
    ss, steps := Extend(ss, steps, Read, State([0, 0], 1, map[7 := Loaded(0, 5)], [], [0], [0]));
  }

  /** A thread loads epoch 0 and adds 5 in epoch 1, after the first poll has read. The increment is over before the
      second poll bumps, but neither poll has it in its value, and the 5 stay in the slot that the third will read. */
  lemma LateAddIsNotInItsPoll() returns (ss: seq<State>, steps: seq<Step>)
    ensures Run(ss, steps) && steps == [LoadEpoch(7, 5), Bump, Read, Add(7), Bump, Read]
    ensures var s := ss[|ss| - 1];
      && s.events == [Event(0, 5, 1, 1)] && s.polls == [0, 1] && s.values == [0, 0] && s.slot == [5, 0]
  {
    ss, steps := LateLoad();
    var added := [Event(0, 5, 1, 1)];
    ss, steps := Extend(ss, steps, Add(7), State([5, 0], 1, map[7 := Idle], added, [0], [0]));
    ss, steps := Extend(ss, steps, Bump, State([5, 0], 2, map[7 := Idle], added, [0], [0]));
    ss, steps := Extend(ss, steps, Read, State([5, 0], 2, map[7 := Idle], added, [0, 1], [0, 0]));
  }
}
