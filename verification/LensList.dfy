/**
 The lens list and the name table of one optics region, as a state machine over the atomic
 steps of any number of client threads and of the poller's lock-free traversal.

 A step that dereferences a block that is no lens any more, frees a lens with the wrong
 length, or trips one of the source's assertions has the outcome `Crash`. Whether a step is
 enabled depends on program counters and the lock alone, never on the contents of memory,
 so that the absence of crashes is something to prove.
 */
module LensList {
  import Region

  type Off = nat
  type Tid = nat
  type Name = string

  const LENS_HEADER: nat := 64

  datatype Lens = Lens(name: Name, len: nat, next: Off, prev: Off)

  /** Where a client thread stands inside lens creation or removal. */
  datatype Pc =
    | Idle
    | Fresh(off: Off)
    | Refused(off: Off)
    | PushNext(off: Off, top: Off)
    | PushPrev(off: Off, top: Off)
    | PushHead(off: Off, top: Off)
    | KillNext(off: Off, nxt: Off)
    | KillPrev(off: Off, nxt: Off)
    | KillHead(off: Off, nxt: Off)

  /** Where the traversal stands: about to look at a lens, or done with its callback. */
  datatype Cursor = Away | At(cur: Off) | Seen(cur: Off)

  /** History: who is responsible for a lens block. */
  datatype Owner = InList | Held(t: Tid) | Unlinked

  datatype State = State(
    mem: map<Off, Lens>,
    head: Off,
    keys: map<Name, Off>,
    lock: bool,
    holder: Tid,
    pc: map<Tid, Pc>,
    cursor: Cursor,
    view: nat,
    // history: the lenses in the list, insertion stamps, owners, and the current traversal
    listed: set<Off>,
    stamp: map<Off, nat>,
    clock: nat,
    owner: map<Off, Owner>,
    snapshot: set<Off>,
    visited: seq<Off>)

  datatype Outcome = Ok(state: State) | Crash

  function PcOf(s: State, t: Tid): Pc {
    if t in s.pc then s.pc[t] else Idle
  }

  predicate HoldsLock(p: Pc) {
    p.PushNext? || p.PushPrev? || p.PushHead? || p.KillNext? || p.KillPrev? || p.KillHead?
  }

  /** The name table still maps the name of the handle's lens to that lens. */
  predicate LiveHandle(s: State, off: Off) {
    off in s.mem && s.mem[off].name in s.keys && s.keys[s.mem[off].name] == off
  }

  /** The name lookup of optics_lens_free finds the handle's own lens, or nothing. */
  predicate SafeHandle(s: State, off: Off) {
    off in s.mem && (s.mem[off].name in s.keys ==> s.keys[s.mem[off].name] == off)
  }

  function Init(): State {
    State(map[], 0, map[], false, 0, map[], Away, 0, {}, map[], 0, map[], {}, [])
  }

  // ---- lens creation (lens_alloc, optics_lens_alloc, optics_push_lens, lens_set_next) ----

  function Create(s: State, t: Tid, off: Off, name: Name, len: nat): State {
    s.(pc := s.pc[t := Fresh(off)],
       mem := s.mem[off := Lens(name, len, 0, 0)],
       owner := s.owner[off := Held(t)])
  }

  /** Takes the lock and calls htable_put; on a taken name the lock is given back at once. */
  function Register(s: State, t: Tid): Outcome
    requires PcOf(s, t).Fresh?
  {
    var off := PcOf(s, t).off;
    if off !in s.mem then Crash
    else if s.mem[off].name in s.keys then Ok(s.(pc := s.pc[t := Refused(off)]))
    else Ok(s.(pc := s.pc[t := PushNext(off, s.head)],
               keys := s.keys[s.mem[off].name := off], lock := true, holder := t))
  }

  function DropFresh(s: State, t: Tid): Outcome
    requires PcOf(s, t).Refused?
  {
    var off := PcOf(s, t).off;
    if off !in s.mem then Crash
    else Reclaim(s.(pc := s.pc[t := Idle]), off, s.mem[off].len)
  }

  function StoreNext(s: State, t: Tid): Outcome
    requires PcOf(s, t).PushNext?
  {
    var p := PcOf(s, t);
    if p.off !in s.mem then Crash
    else Ok(s.(pc := s.pc[t := if p.top == 0 then PushHead(p.off, p.top) else PushPrev(p.off, p.top)],
               mem := s.mem[p.off := s.mem[p.off].(next := p.top)]))
  }

  function StorePrev(s: State, t: Tid): Outcome
    requires PcOf(s, t).PushPrev?
  {
    var p := PcOf(s, t);
    if p.top !in s.mem || s.mem[p.top].prev != 0 then Crash
    else Ok(s.(pc := s.pc[t := PushHead(p.off, p.top)],
               mem := s.mem[p.top := s.mem[p.top].(prev := p.off)]))
  }

  function StoreHead(s: State, t: Tid): State
    requires PcOf(s, t).PushHead?
  {
    var off := PcOf(s, t).off;
    s.(pc := s.pc[t := Idle], lock := false, head := off,
       listed := s.listed + {off}, stamp := s.stamp[off := s.clock], clock := s.clock + 1,
       owner := s.owner[off := InList])
  }

  // ---- lens removal (optics_lens_free, lens_kill, optics_remove_lens) ----

  /** Takes the lock, deletes the name and loads the next link; on an unknown name the call fails at once. */
  function Unregister(s: State, t: Tid, off: Off): Outcome {
    if off !in s.mem then Crash
    else if s.mem[off].name !in s.keys then Ok(s)
    else Ok(s.(pc := s.pc[t := KillNext(off, s.mem[off].next)],
               keys := s.keys - {s.mem[off].name}, lock := true, holder := t))
  }

  function KillNextPrev(s: State, t: Tid): Outcome
    requires PcOf(s, t).KillNext?
  {
    var p := PcOf(s, t);
    if p.off !in s.mem then Crash
    else if p.nxt == 0 then Ok(s.(pc := s.pc[t := KillPrev(p.off, p.nxt)]))
    else if p.nxt !in s.mem || s.mem[p.nxt].prev != p.off then Crash
    else Ok(s.(pc := s.pc[t := KillPrev(p.off, p.nxt)],
               mem := s.mem[p.nxt := s.mem[p.nxt].(prev := s.mem[p.off].prev)]))
  }

  function KillPrevNext(s: State, t: Tid): Outcome
    requires PcOf(s, t).KillPrev?
  {
    var p := PcOf(s, t);
    if p.off !in s.mem then Crash
    else
      var prev := s.mem[p.off].prev;
      if prev == 0 then Ok(s.(pc := s.pc[t := KillHead(p.off, p.nxt)]))
      else if prev !in s.mem || s.mem[prev].next != p.off then Crash
      else Ok(s.(pc := s.pc[t := KillHead(p.off, p.nxt)],
                 mem := s.mem[prev := s.mem[prev].(next := p.nxt)],
                 listed := s.listed - {p.off},
                 owner := s.owner[p.off := Held(t)]))
  }

  /** The last step under the lock; the lens is then left to the deferred free. */
  function KillHeadStore(s: State, t: Tid): State
    requires PcOf(s, t).KillHead?
  {
    var p := PcOf(s, t);
    var r := s.(pc := s.pc[t := Idle], lock := false, owner := s.owner[p.off := Unlinked]);
    if s.head == p.off then r.(head := p.nxt, listed := s.listed - {p.off}) else r
  }

  // ---- release of a lens block (alloc_free) ----

  function Reclaim(s: State, off: Off, len: nat): Outcome {
    if off in s.mem && s.mem[off].len == len then
      Ok(s.(mem := s.mem - {off}, owner := s.owner - {off}, stamp := s.stamp - {off}))
    else Crash
  }

  // ---- traversal (optics_foreach_lens) ----

  /** `view` is the length of the region the poller has mapped. */
  function ReadHead(s: State, view: nat): State {
    s.(cursor := At(s.head), view := view, snapshot := s.listed, visited := [])
  }

  /** lens_ptr reads the lens header to learn its length before the second bounds check; a
      lens outside the poller's view ends the traversal early. */
  function Look(s: State): Outcome
    requires s.cursor.At?
  {
    var cur := s.cursor.cur;
    if !Region.InView(s.view, cur, LENS_HEADER) then Ok(s.(cursor := Away))
    else if cur !in s.mem then Crash
    else if !Region.InView(s.view, cur, s.mem[cur].len) then Ok(s.(cursor := Away))
    else Ok(s.(cursor := Seen(cur), visited := s.visited + [cur]))
  }

  function Advance(s: State): Outcome
    requires s.cursor.Seen?
  {
    var cur := s.cursor.cur;
    if cur !in s.mem then Crash
    else Ok(s.(cursor := At(s.mem[cur].next)))
  }

  // ---- invariant ----

  ghost predicate SameAge(stamp: map<Off, nat>, a: Off, b: Off) {
    a in stamp && b in stamp && stamp[a] == stamp[b]
  }

  ghost predicate UniqueStamps(stamp: map<Off, nat>) {
    forall a, b {:trigger SameAge(stamp, a, b)} :: SameAge(stamp, a, b) ==> a == b
  }

  ghost predicate HeapOk(s: State) {
    && s.mem.Keys == s.owner.Keys
    && s.listed <= s.stamp.Keys <= s.mem.Keys
    && 0 !in s.mem
    && (forall o :: o in s.listed <==> o in s.owner && s.owner[o] == InList)
    && (forall o :: o in s.stamp ==> s.stamp[o] < s.clock)
    && UniqueStamps(s.stamp)
  }

  /** `m` is the newest listed lens older than `n`, or 0 if there is none. */
  ghost predicate Follows(s: State, n: Off, m: Off) {
    && n in s.stamp
    && (m != 0 ==> m in s.stamp && s.stamp[m] < s.stamp[n])
    && (forall l :: l in s.listed && l in s.stamp && s.stamp[l] < s.stamp[n] ==>
          m != 0 && m in s.stamp && s.stamp[l] <= s.stamp[m])
  }

  ghost predicate NextLink(s: State, o: Off) {
    && o in s.mem
    && (s.mem[o].next != 0 ==> s.mem[o].next in s.listed)
    && Follows(s, o, s.mem[o].next)
  }

  /** The head is the newest listed lens and the next links lead from each lens to the next older one. */
  ghost predicate ListOk(s: State) {
    && (if s.head == 0 then s.listed == {} else
          && s.head in s.listed
          && forall l :: l in s.listed ==> l in s.stamp && s.head in s.stamp && s.stamp[l] <= s.stamp[s.head])
    && (forall o {:trigger NextLink(s, o)} :: o in s.listed ==> NextLink(s, o))
  }

  ghost function HolderPc(s: State): Pc {
    if s.lock then PcOf(s, s.holder) else Idle
  }

  /** The prev link of a listed lens undoes a next link, except where the lock holder is at work. */
  ghost predicate PrevLink(s: State, o: Off) {
    var p := HolderPc(s);
    && o in s.mem
    && var q := s.mem[o].prev;
       if p.PushHead? && o == p.top then q == p.off && o == s.head
       else if (p.KillPrev? || p.KillHead?) && p.off in s.listed && o == p.nxt then
         p.off in s.mem && q == s.mem[p.off].prev
       else if q == 0 then o == s.head
       else q in s.listed && q in s.mem && s.mem[q].next == o
  }

  ghost predicate PrevOk(s: State) {
    forall o {:trigger PrevLink(s, o)} :: o in s.listed ==> PrevLink(s, o)
  }

  ghost predicate KeyOk(s: State, n: Name)
    requires n in s.keys
  {
    var p := HolderPc(s);
    && s.keys[n] in s.mem && s.mem[s.keys[n]].name == n
    && (s.keys[n] in s.listed || ((p.PushNext? || p.PushPrev? || p.PushHead?) && s.keys[n] == p.off))
  }

  ghost predicate NameOk(s: State, o: Off) {
    var p := HolderPc(s);
    LiveHandle(s, o) || ((p.KillNext? || p.KillPrev? || p.KillHead?) && o == p.off)
  }

  /** The name table and the list agree, except for the lens the lock holder works on. */
  ghost predicate KeysOk(s: State) {
    && (forall n {:trigger KeyOk(s, n)} :: n in s.keys ==> KeyOk(s, n))
    && (forall o {:trigger NameOk(s, o)} :: o in s.listed ==> NameOk(s, o))
  }

  /** A lens a thread made and nobody else can reach. */
  ghost predicate Private(s: State, t: Tid, o: Off) {
    o in s.owner && s.owner[o] == Held(t) && o in s.mem && o !in s.stamp
  }

  ghost predicate Pushing(s: State, t: Tid, off: Off, top: Off) {
    Private(s, t, off) && s.mem[off].prev == 0 && top == s.head && LiveHandle(s, off)
  }

  ghost predicate Killing(s: State, off: Off, nxt: Off) {
    off in s.mem && s.mem[off].next == nxt && off in s.stamp && s.mem[off].name !in s.keys
  }

  ghost predicate ThreadOk(s: State, t: Tid) {
    var p := PcOf(s, t);
    && (HoldsLock(p) <==> s.lock && s.holder == t)
    && match p
       case Idle => true
       case Fresh(off) => Private(s, t, off) && s.mem[off].prev == 0
       case Refused(off) => Private(s, t, off)
       case PushNext(off, top) => Pushing(s, t, off, top)
       case PushPrev(off, top) => Pushing(s, t, off, top) && s.mem[off].next == top != 0
       case PushHead(off, top) => Pushing(s, t, off, top) && s.mem[off].next == top
       case KillNext(off, nxt) => Killing(s, off, nxt) && off in s.listed
       case KillPrev(off, nxt) => Killing(s, off, nxt) && off in s.listed
       case KillHead(off, nxt) =>
         && Killing(s, off, nxt) && off in s.owner
         && (if off in s.listed then s.head == off else s.owner[off] == Held(t) && s.head != off)
  }

  ghost predicate ThreadsOk(s: State) {
    && (forall t {:trigger ThreadOk(s, t)} :: ThreadOk(s, t))
    && (s.lock ==> HoldsLock(PcOf(s, s.holder)))
  }

  /** A lens of the snapshot: still allocated; its next link stays inside the snapshot, goes to
      an older lens and skips no lens that is still listed. */
  ghost predicate SnapshotOk(s: State, n: Off) {
    && n in s.mem
    && (s.mem[n].next != 0 ==> s.mem[n].next in s.snapshot)
    && Follows(s, n, s.mem[n].next)
  }

  /** A lens at or beyond the cursor. */
  ghost predicate Ahead(s: State, l: Off) {
    && !s.cursor.Away?
    && s.cursor.cur != 0 && s.cursor.cur in s.stamp && l in s.stamp
    && if s.cursor.At? then s.stamp[l] <= s.stamp[s.cursor.cur] else s.stamp[l] < s.stamp[s.cursor.cur]
  }

  ghost predicate SnapshotsOk(s: State) {
    && (forall n {:trigger SnapshotOk(s, n)} :: n in s.snapshot ==> SnapshotOk(s, n))
    && (!s.cursor.Away? && s.cursor.cur != 0 ==> s.cursor.cur in s.snapshot)
  }

  /** Lenses are visited in strictly decreasing insertion order, all newer than the cursor. */
  ghost predicate VisitedOk(s: State) {
    && (s.cursor.Seen? ==> s.cursor.cur in s.visited && s.cursor.cur != 0)
    && (forall v :: v in s.visited ==> v in s.snapshot && v in s.stamp && !Ahead(s, v))
    && (forall i, j :: 0 <= i < j < |s.visited| ==>
          s.visited[i] in s.stamp && s.visited[j] in s.stamp && s.stamp[s.visited[j]] < s.stamp[s.visited[i]])
  }

  /** What was listed at the start and still is has been visited or lies ahead. */
  ghost predicate ReachesAll(s: State) {
    forall l {:trigger Ahead(s, l)} :: l in s.listed && l in s.snapshot ==> l in s.visited || Ahead(s, l)
  }

  ghost predicate TraversalOk(s: State) {
    !s.cursor.Away? ==> SnapshotsOk(s) && VisitedOk(s) && ReachesAll(s)
  }

  ghost predicate Inv(s: State) {
    HeapOk(s) && ListOk(s) && PrevOk(s) && KeysOk(s) && ThreadsOk(s) && TraversalOk(s)
  }
}
