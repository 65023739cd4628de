/**
 The shared-memory region: a file that grows by being mapped again, while readers turn offsets into
 addresses without a lock. A grow stores the mapping first and the position second; a reader loads
 the mapping first and the position second. A mapping is a length; it is never undone.
 */
module Region {
  import opened Bits

  type Tid = nat

  // ---- the size of a new mapping ----

  function Doubled(len: nat, k: nat): nat {
    if k == 0 then len else 2 * Doubled(len, k - 1)
  }

  /** The doubling loop of region_grow: the first doubling of the length that exceeds the position. */
  method NewLength(len: nat, newPos: nat) returns (newLen: nat, ghost k: nat)
    requires len > 0
    ensures newLen == Doubled(len, k) && newPos < newLen
    ensures k > 0 ==> Doubled(len, k - 1) <= newPos
  {
    newLen, k := len, 0;
    while newLen <= newPos
      invariant newLen == Doubled(len, k) && newLen > 0
      invariant k > 0 ==> Doubled(len, k - 1) <= newPos
      decreases newPos - newLen
    {
      newLen := newLen * 2;
      k := k + 1;
    }
  }

  lemma {:induction false} DoubledGrows(len: nat, j: nat, k: nat)
    requires len > 0 && j < k
    ensures Doubled(len, j) < Doubled(len, k)
    decreases k
  {
    DoubledIsPositive(len, k - 1);
    if j < k - 1 { DoubledGrows(len, j, k - 1); }
  }

  lemma {:induction false} DoubledIsPositive(len: nat, k: nat)
    requires len > 0
    ensures Doubled(len, k) > 0
  {
    if k > 0 { DoubledIsPositive(len, k - 1); }
  }

  /** There is only one such doubling, so NewLength is determined by its contract. */
  lemma NewLengthIsUnique(len: nat, newPos: nat, j: nat, k: nat)
    requires len > 0 && newPos < Doubled(len, j) && newPos < Doubled(len, k)
    requires j > 0 ==> Doubled(len, j - 1) <= newPos
    requires k > 0 ==> Doubled(len, k - 1) <= newPos
    ensures j == k
  {
    if j < k {
      if j < k - 1 { DoubledGrows(len, j, k - 1); }
    } else if k < j {
      if k < j - 1 { DoubledGrows(len, k, j - 1); }
    }
  }

  // ---- the bounds check of region_ptr_unsafe ----

  /** The range lies in the first `view` bytes. */
  predicate InView(view: nat, off: nat, len: nat) {
    off + len <= view
  }

  /** The check as compiled, with 64-bit addition. */
  predicate Accepts(off: nat, len: nat, maxLen: nat) {
    !(off > maxLen || (off + len) % TWO_64 > maxLen)
  }

  /** The two comparisons mean "inside the region" exactly unless the addition wraps around. */
  lemma CheckIsExactUnlessItWraps(off: nat, len: nat, maxLen: nat)
    requires off < TWO_64 && len < TWO_64 && maxLen < TWO_64
    ensures (Accepts(off, len, maxLen) <==> InView(maxLen, off, len)) <==>
            !(off <= maxLen && TWO_64 <= off + len <= TWO_64 + maxLen)
  {
    if off + len >= TWO_64 { assert (off + len) % TWO_64 == off + len - TWO_64; }
  }

  /** In a region of 1 MiB a range of almost 2^64 bytes passes the check, because its end wraps to 0x80. */
  lemma WrappedLengthIsAccepted()
    ensures var off, len, maxLen := 0x1080, 0xFFFF_FFFF_FFFF_F000, 0x10_0000;
      off < TWO_64 && len < TWO_64 && Accepts(off, len, maxLen) && !InView(maxLen, off, len)
  {
    assert (0x1080 + 0xFFFF_FFFF_FFFF_F000) % TWO_64 == 0x80;
  }

  // ---- growing and reading concurrently ----

  datatype Grower =
    | Resting
    | Mapped(oldPos: nat, newPos: nat)
    | PtrStored(oldPos: nat, newPos: nat)

  /** A reader between its two loads; `seenPos` is history, the position at the load of the mapping. */
  datatype Reader = Idle | HasPtr(off: nat, len: nat, map_: nat, seenPos: nat)

  /** A range handed out by a grow, and the mapping that was current when the grow finished. */
  datatype Grant = Grant(off: nat, len: nat, map_: nat)

  datatype State = State(
    maps: seq<nat>,
    ptr: nat,
    pos: nat,
    grower: Grower,
    readers: map<Tid, Reader>,
    // history
    base: nat,
    grants: seq<Grant>)

  /** What region_ptr_unsafe returns: nothing, or a range inside some mapping. */
  datatype Address = Null | Range(map_: nat, off: nat, len: nat)

  datatype Step =
    | GrowInPlace(len: nat)
    | Remap(len: nat, newLen: nat)
    | StorePtr
    | StorePos
    | LoadPtr(t: Tid, off: nat, len: nat)
    | LoadPos(t: Tid)

  function ReaderOf(s: State, t: Tid): Reader {
    if t in s.readers then s.readers[t] else Idle
  }

  predicate Init(s: State) {
    && |s.maps| == 1 && s.ptr == 0 && s.grower.Resting? && s.readers == map[] && s.grants == []
    && 0 < s.base == s.pos <= s.maps[0]
  }

  predicate Enabled(s: State, step: Step) {
    match step
    case GrowInPlace(len) => s.grower.Resting? && s.ptr < |s.maps| && s.pos + len <= s.maps[s.ptr]
    case Remap(len, newLen) =>
      s.grower.Resting? && s.ptr < |s.maps| && s.pos + len > s.maps[s.ptr] && newLen > s.pos + len
    case StorePtr => s.grower.Mapped?
    case StorePos => s.grower.PtrStored?
    case LoadPtr(t, _, _) => ReaderOf(s, t).Idle?
    case LoadPos(t) => ReaderOf(s, t).HasPtr?
  }

  function Apply(s: State, step: Step): State
    requires Enabled(s, step)
  {
    match step
    case GrowInPlace(len) => s.(pos := s.pos + len, grants := s.grants + [Grant(s.pos, len, s.ptr)])
    case Remap(len, newLen) => s.(maps := s.maps + [newLen], grower := Mapped(s.pos, s.pos + len))
    case StorePtr =>
      s.(ptr := if |s.maps| > 0 then |s.maps| - 1 else 0,
         grower := PtrStored(s.grower.oldPos, s.grower.newPos))
    case StorePos =>
      var g := s.grower;
      s.(pos := g.newPos, grower := Resting,
         grants := s.grants + [Grant(g.oldPos, if g.newPos >= g.oldPos then g.newPos - g.oldPos else 0, s.ptr)])
    case LoadPtr(t, off, len) => s.(readers := s.readers[t := HasPtr(off, len, s.ptr, s.pos)])
    case LoadPos(t) => s.(readers := s.readers[t := Idle])
  }

  /** The address a reader forms when it loads the position. */
  function Result(s: State, t: Tid): Address
    requires ReaderOf(s, t).HasPtr?
  {
    var r := ReaderOf(s, t);
    if Accepts(r.off, r.len, s.pos) then Range(r.map_, r.off, r.len) else Null
  }

  predicate InsideItsMapping(s: State, a: Address) {
    a.Range? ==> a.map_ < |s.maps| && a.off + a.len <= s.maps[a.map_]
  }

  ghost predicate ReaderOk(s: State, t: Tid) {
    var r := ReaderOf(s, t);
    r.HasPtr? ==> r.map_ < |s.maps| && r.seenPos <= s.maps[r.map_] && r.seenPos <= s.pos
  }

  /** A granted range ends inside its mapping and beyond the end of every earlier one. */
  ghost predicate GrantOk(s: State, g: Grant) {
    && g.map_ < |s.maps| && g.off + g.len <= s.maps[g.map_]
    && forall m :: 0 <= m < g.map_ ==> s.maps[m] < g.off + g.len
  }

  /** Mappings get longer, the newest is the current one up to a store in flight, and the position stays inside. */
  ghost predicate MapsOk(s: State) {
    && s.ptr < |s.maps| && 0 < s.base <= s.pos <= s.maps[s.ptr]
    && (match s.grower
        case Resting => s.ptr == |s.maps| - 1
        case Mapped(o, n) => s.ptr == |s.maps| - 2 && o == s.pos && s.maps[s.ptr] < n < s.maps[|s.maps| - 1]
        case PtrStored(o, n) => s.ptr == |s.maps| - 1 && o == s.pos && s.pos <= n < s.maps[s.ptr])
    && (forall i, j :: 0 <= i < j < |s.maps| ==> s.maps[i] < s.maps[j])
    && (s.ptr > 0 ==> s.maps[s.ptr - 1] < if s.grower.PtrStored? then s.grower.newPos else s.pos)
  }

  /** Grants lie between the header and the position and follow one another. */
  ghost predicate GrantsOk(s: State) {
    && (forall i :: 0 <= i < |s.grants| ==> GrantOk(s, s.grants[i]))
    && (forall i :: 0 <= i < |s.grants| ==> s.base <= s.grants[i].off && s.grants[i].off + s.grants[i].len <= s.pos)
    && (forall i, j :: 0 <= i < j < |s.grants| ==> s.grants[i].off + s.grants[i].len <= s.grants[j].off)
  }

  ghost predicate Inv(s: State) {
    && MapsOk(s) && GrantsOk(s)
    && (forall t {:trigger ReaderOk(s, t)} :: ReaderOk(s, t))
  }

  lemma MapsKeep(s: State, step: Step)
    requires MapsOk(s) && Enabled(s, step)
    ensures MapsOk(Apply(s, step)) && s.maps <= Apply(s, step).maps && s.pos <= Apply(s, step).pos
  {
  }

  /** A new grant ends at the new position. */
  lemma NewGrant(s: State, g: Grant)
    requires MapsOk(s) && !s.grower.PtrStored? && g.map_ == s.ptr && g.off + g.len == s.pos
    ensures GrantOk(s, g)
  {
  }

  lemma OldGrant(s: State, s': State, g: Grant)
    requires GrantOk(s, g) && s.maps <= s'.maps
    ensures GrantOk(s', g)
  {
    assert forall m :: 0 <= m < |s.maps| ==> s'.maps[m] == s.maps[m];
  }

  lemma SameGrants(s: State, s': State)
    requires GrantsOk(s) && s.maps <= s'.maps && s'.grants == s.grants && s'.pos == s.pos && s'.base == s.base
    ensures GrantsOk(s')
  {
    forall i | 0 <= i < |s'.grants| ensures GrantOk(s', s'.grants[i]) { OldGrant(s, s', s.grants[i]); }
  }

  lemma OneMoreGrant(s: State, s': State, g: Grant)
    requires GrantsOk(s) && s.maps <= s'.maps && s'.grants == s.grants + [g] && s'.base == s.base
    requires GrantOk(s', g) && s.base <= s.pos == g.off && g.off + g.len == s'.pos
    ensures GrantsOk(s')
  {
    forall i | 0 <= i < |s'.grants| ensures GrantOk(s', s'.grants[i]) {
      if i < |s.grants| { OldGrant(s, s', s.grants[i]); }
    }
  }

  lemma GrantsKeep(s: State, step: Step)
    requires MapsOk(s) && GrantsOk(s) && Enabled(s, step)
    ensures GrantsOk(Apply(s, step))
  {
    var s' := Apply(s, step);
    MapsKeep(s, step);
    if step.GrowInPlace? || step.StorePos? {
      var g := s'.grants[|s.grants|];
      NewGrant(s', g);
      OneMoreGrant(s, s', g);
    } else {
      SameGrants(s, s');
    }
  }

  lemma StepKeeps(s: State, step: Step)
    requires Inv(s) && Enabled(s, step)
    ensures Inv(Apply(s, step))
  {
    var s' := Apply(s, step);
    MapsKeep(s, step);
    GrantsKeep(s, step);
    forall t ensures ReaderOk(s', t) { assert ReaderOk(s, t); }
  }

  /** region_grow without interference: whether or not it has to map anew, it ends at rest, the position has gone up by
      the length asked for, and the range granted is the one in between. */
  lemma GrowsComplete(s: State, len: nat, newLen: nat)
    requires Inv(s) && s.grower.Resting? && newLen > s.pos + len
    ensures s.pos + len <= s.maps[s.ptr] ==> Enabled(s, GrowInPlace(len)) && Grown(s, Apply(s, GrowInPlace(len)), len)
    ensures s.pos + len > s.maps[s.ptr] ==>
      && Enabled(s, Remap(len, newLen)) && Enabled(Apply(s, Remap(len, newLen)), StorePtr)
      && Enabled(Apply(Apply(s, Remap(len, newLen)), StorePtr), StorePos)
      && var s' := Apply(Apply(Apply(s, Remap(len, newLen)), StorePtr), StorePos);
         Grown(s, s', len) && s'.maps == s.maps + [newLen] && s'.ptr == |s.maps|
  {
  }

  predicate Grown(s: State, s': State, len: nat) {
    && s'.grower.Resting? && s'.pos == s.pos + len && s'.grants == s.grants + [Grant(s.pos, len, s'.ptr)]
    && s'.readers == s.readers && s.maps <= s'.maps
  }

  predicate Run(ss: seq<State>, steps: seq<Step>) {
    && |ss| == |steps| + 1 && Init(ss[0])
    && forall i :: 0 <= i < |steps| ==> Enabled(ss[i], steps[i]) && ss[i + 1] == Apply(ss[i], steps[i])
  }

  lemma {:induction false} RunInv(ss: seq<State>, steps: seq<Step>, i: nat)
    requires Run(ss, steps) && i < |ss|
    ensures Inv(ss[i])
    decreases i
  {
    if i > 0 {
      RunInv(ss, steps, i - 1);
      StepKeeps(ss[i - 1], steps[i - 1]);
    } else {
      forall t ensures ReaderOk(ss[0], t) {}
    }
  }

  /** The position never exceeds the mapped length, grants lie above the header, below the position
      and apart from each other, and mappings only ever get longer and stay as they are. */
  lemma GrantsAreDisjoint(ss: seq<State>, steps: seq<Step>, i: nat, a: nat, b: nat)
    requires Run(ss, steps) && i < |ss| && a < b < |ss[i].grants|
    ensures ss[i].ptr < |ss[i].maps| && ss[i].pos <= ss[i].maps[ss[i].ptr]
    ensures var x, y := ss[i].grants[a], ss[i].grants[b];
      ss[i].base <= x.off && x.off + x.len <= y.off && y.off + y.len <= ss[i].pos
  {
    RunInv(ss, steps, i);
  }

  lemma {:induction false} MappingsStay(ss: seq<State>, steps: seq<Step>, i: nat, j: nat, m: nat)
    requires Run(ss, steps) && i <= j < |ss| && m < |ss[i].maps|
    ensures m < |ss[j].maps| && ss[j].maps[m] == ss[i].maps[m]
    decreases j
  {
    if i < j { MappingsStay(ss, steps, i, j - 1, m); }
  }

  /** A reader whose range lies inside a grant that was complete when it loaded the mapping gets an
      address inside that mapping, whatever grows happen between its two loads. */
  lemma GrantedRangesAreSafe(ss: seq<State>, steps: seq<Step>, i: nat, j: nat, t: Tid, g: nat)
    requires Run(ss, steps) && i < j < |steps| && steps[i].LoadPtr? && steps[i].t == t
    requires forall k :: i < k < j ==> steps[k] != LoadPos(t)
    requires g < |ss[i].grants|
    requires ss[i].grants[g].off <= steps[i].off
    requires steps[i].off + steps[i].len <= ss[i].grants[g].off + ss[i].grants[g].len
    requires steps[j] == LoadPos(t)
    ensures InsideItsMapping(ss[j], Result(ss[j], t))
    ensures steps[i].off + steps[i].len < TWO_64 ==> Result(ss[j], t).Range?
  {
    RunInv(ss, steps, i);
    RunInv(ss, steps, j);
    ReaderWaits(ss, steps, i, j, t);
    SafeBelowSeenPosition(ss[j], t);
  }

  /** In any state: a reader whose range ended below the position when it loaded the mapping is safe. */
  lemma SafeBelowSeenPosition(s: State, t: Tid)
    requires Inv(s) && ReaderOf(s, t).HasPtr? && InView(ReaderOf(s, t).seenPos, ReaderOf(s, t).off, ReaderOf(s, t).len)
    ensures InsideItsMapping(s, Result(s, t))
    ensures ReaderOf(s, t).off + ReaderOf(s, t).len < TWO_64 ==> Result(s, t).Range?
  {
    assert ReaderOk(s, t);
    var r := ReaderOf(s, t);
    if r.off + r.len < TWO_64 { assert (r.off + r.len) % TWO_64 == r.off + r.len; }
  }

  lemma {:induction false} ReaderWaits(ss: seq<State>, steps: seq<Step>, i: nat, j: nat, t: Tid)
    requires Run(ss, steps) && i < j <= |steps| && steps[i].LoadPtr? && steps[i].t == t
    requires forall k :: i < k < j ==> steps[k] != LoadPos(t)
    ensures ReaderOf(ss[j], t) == HasPtr(steps[i].off, steps[i].len, ss[i].ptr, ss[i].pos)
    decreases j
  {
    if j > i + 1 {
      ReaderWaits(ss, steps, i, j - 1, t);
      assert Enabled(ss[j - 1], steps[j - 1]) && ss[j] == Apply(ss[j - 1], steps[j - 1]);
    }
  }

  /** Without that hypothesis: a reader of a granted range gets an address inside the mapping it loaded if
      and only if the mapping the grant was made in, or a later one, had been stored by then. A newer
      position admits the offset all the same. */
  lemma SafeIffMappedByThen(ss: seq<State>, steps: seq<Step>, i: nat, t: Tid, g: nat)
    requires Run(ss, steps) && i < |ss| && ReaderOf(ss[i], t).HasPtr? && g < |ss[i].grants|
    requires var r, x := ReaderOf(ss[i], t), ss[i].grants[g]; r.off == x.off && r.len == x.len && x.off + x.len < TWO_64
    ensures Result(ss[i], t).Range?
    ensures InsideItsMapping(ss[i], Result(ss[i], t)) <==> ss[i].grants[g].map_ <= ReaderOf(ss[i], t).map_
  {
    RunInv(ss, steps, i);
    var s := ss[i];
    assert ReaderOk(s, t) && GrantOk(s, s.grants[g]);
    var r, x := ReaderOf(s, t), s.grants[g];
    assert (r.off + r.len) % TWO_64 == r.off + r.len;
  }

  /** A concrete run in which a reader is handed an address beyond the mapping it loaded. */
  lemma StaleMappingEscapes()
    ensures exists ss: seq<State>, steps: seq<Step> ::
      Run(ss, steps) && ReaderOf(ss[|ss| - 1], 1).HasPtr? && !InsideItsMapping(ss[|ss| - 1], Result(ss[|ss| - 1], 1))
  {
    var s0 := State([0x10_0000], 0, 4096, Resting, map[], 4096, []);
    var steps := [LoadPtr(1, 0x10_0000, 64), Remap(0x10_0000, 0x20_0000), StorePtr, StorePos];
    var s1 := Apply(s0, steps[0]);
    var s2 := Apply(s1, steps[1]);
    var s3 := Apply(s2, steps[2]);
    var s4 := Apply(s3, steps[3]);
    var ss := [s0, s1, s2, s3, s4];
    assert Run(ss, steps);
    assert Result(ss[|ss| - 1], 1) == Range(0, 0x10_0000, 64);
  }
}
