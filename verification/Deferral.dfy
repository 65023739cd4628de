/**
 The epoch counter and the two deferred-free lists of one optics region, as a state machine
 over the atomic steps of the threads that defer and of the poller that drains.

 A lens enters the machine when its removal is complete and leaves it when the poller hands
 it to the allocator. Dereferencing a block that is no defer node any more is a `Crash`.
 */
module Deferral {
  import SizeClass
  import Region

  type Off = nat
  type Tid = nat

  const DEFER_LEN: nat := 24

  datatype Node = Node(off: Off, len: nat, next: Off)

  /** Where a client thread stands inside optics_defer_free. */
  datatype Pc =
    | Idle
    | Removed(off: Off, len: nat)
    | Noded(off: Off, node: Off)
    | Epoched(off: Off, node: Off, e: nat)
    | Loaded(off: Off, node: Off, e: nat, top: Off)
    | Linked(off: Off, node: Off, e: nat, top: Off)

  /** Where the poller stands inside optics_epoch_inc. */
  datatype PollerPc = Resting | Drain(node: Off) | DrainNode(node: Off, lensFreed: bool) | Bump

  /** History: a defer node belongs to a thread, to list 0 or 1, to the drain (2), or is lost. */
  datatype Place = Held(t: Tid) | Queue(q: nat) | Stray

  /** History: a lens given to this machine is carried by a thread or by a defer node. */
  datatype Carrier = Thread(t: Tid) | OnNode(n: Off)

  /** History of one deferral: its number, the full epoch counter its thread loaded, and how
      many list exchanges the poller had made when it was pushed. */
  datatype Ticket = Ticket(id: nat, read: nat, pushedAt: nat)

  /** History: a deferral waits on its node; or the drain came to it, and its lens and its node were each freed
      or leaked; or the drain stopped before it. */
  datatype Fate =
    | Waiting(node: Off)
    | Drained(ticket: Ticket, leaving: nat, lensFreed: bool, nodeFreed: bool)
    | Dropped

  datatype State = State(
    nodes: map<Off, Node>,
    epoch: nat,
    defers: seq<Off>,
    pc: map<Tid, Pc>,
    poller: PollerPc,
    view: nat,
    // history
    place: map<Off, Place>,
    carried: map<Off, Carrier>,
    lensLen: map<Off, nat>,
    ticket: map<Off, Ticket>,
    exchanges: nat,
    issued: nat,
    fate: map<nat, Fate>)

  datatype Outcome = Ok(state: State) | Crash

  function Init(): State {
    State(map[], 0, [0, 0], map[], Resting, 0, map[], map[], map[], map[], 0, 0, map[])
  }

  function PcOf(s: State, t: Tid): Pc {
    if t in s.pc then s.pc[t] else Idle
  }

  /** alloc_free rounds a length to its class before it asks for the block. */
  function Rounded(len: nat): (r: nat)
    ensures len <= r
    ensures len <= SizeClass.MAX_LEN ==>
      && (exists k: nat :: k < SizeClass.CLASSES && r == SizeClass.ClassLen(k))
      && (forall k: nat :: k < SizeClass.CLASSES && len <= SizeClass.ClassLen(k) ==> r <= SizeClass.ClassLen(k))
  {
    if len <= SizeClass.MAX_LEN then
      SizeClass.AllocClassIsLeast(len);
      SizeClass.AllocClass(len).len
    else len
  }

  /** Can the poller free a block? One that its mapping does not hold is leaked. */
  predicate Fits(view: nat, off: Off, len: nat) {
    Region.InView(view, off, Rounded(len))
  }

  // ---- optics_defer_free ----

  function Begin(s: State, t: Tid, off: Off, len: nat): State {
    s.(pc := s.pc[t := Removed(off, len)],
       carried := s.carried[off := Thread(t)],
       lensLen := s.lensLen[off := len])
  }

  function AllocNode(s: State, t: Tid, node: Off): State
    requires PcOf(s, t).Removed?
  {
    var p := PcOf(s, t);
    s.(pc := s.pc[t := Noded(p.off, node)],
       nodes := s.nodes[node := Node(p.off, p.len, 0)],
       place := s.place[node := Held(t)])
  }

  /** optics_defer_free returns false: nothing will ever free the lens. */
  function AllocNodeFails(s: State, t: Tid): State
    requires PcOf(s, t).Removed?
  {
    s.(pc := s.pc[t := Idle], carried := s.carried - {PcOf(s, t).off})
  }

  function LoadEpoch(s: State, t: Tid): State
    requires PcOf(s, t).Noded?
  {
    var p := PcOf(s, t);
    s.(pc := s.pc[t := Epoched(p.off, p.node, s.epoch)])
  }

  function LoadDefers(s: State, t: Tid): State
    requires PcOf(s, t).Epoched? && |s.defers| == 2
  {
    var p := PcOf(s, t);
    s.(pc := s.pc[t := Loaded(p.off, p.node, p.e, s.defers[p.e % 2])])
  }

  function LinkNode(s: State, t: Tid): Outcome
    requires PcOf(s, t).Loaded?
  {
    var p := PcOf(s, t);
    if p.node !in s.nodes then Crash
    else Ok(s.(pc := s.pc[t := Linked(p.off, p.node, p.e, p.top)],
               nodes := s.nodes[p.node := s.nodes[p.node].(next := p.top)]))
  }

  /** A weak compare-and-exchange: it may fail although the values are equal. */
  function CasDefers(s: State, t: Tid, spurious: bool): State
    requires PcOf(s, t).Linked? && |s.defers| == 2
  {
    var p := PcOf(s, t);
    var q := p.e % 2;
    if spurious || s.defers[q] != p.top then
      s.(pc := s.pc[t := Loaded(p.off, p.node, p.e, s.defers[q])])
    else
      s.(pc := s.pc[t := Idle],
         defers := s.defers[q := p.node],
         place := s.place[p.node := Queue(q)],
         carried := s.carried[p.off := OnNode(p.node)],
         ticket := s.ticket[p.node := Ticket(s.issued, p.e, s.exchanges)],
         fate := s.fate[s.issued := Waiting(p.node)],
         issued := s.issued + 1)
  }

  // ---- optics_epoch_inc and optics_free_defered ----

  /** The poller is the only writer of the epoch, so its load of the epoch and the exchange of the
      list head are one step. `view` is the length of the region the poller has mapped. */
  function Exchange(s: State, view: nat): State
    requires |s.defers| == 2
  {
    var q := (s.epoch + 1) % 2;
    s.(poller := Drain(s.defers[q]),
       view := view,
       defers := s.defers[q := 0],
       place := map n | n in s.place :: if s.place[n] == Queue(q) then Queue(2) else s.place[n],
       exchanges := s.exchanges + 1)
  }

  /** The drain stops at a node outside the poller's view: everything still in hand is lost. */
  function Abandon(s: State): State {
    s.(poller := Bump,
       place := map n | n in s.place :: if s.place[n] == Queue(2) then Stray else s.place[n],
       fate := map id | id in s.fate ::
           if s.fate[id].Waiting? && s.fate[id].node in s.place && s.place[s.fate[id].node] == Queue(2)
           then Dropped else s.fate[id])
  }

  /** Looks at the next drained node; unless out of view, its lens is freed: see Release. */
  function FreeLens(s: State): Outcome
    requires s.poller.Drain?
  {
    var node := s.poller.node;
    if node == 0 then Ok(s.(poller := Bump))
    else if !Region.InView(s.view, node, DEFER_LEN) then Ok(Abandon(s))
    else if node !in s.nodes then Crash
    else
      var d := s.nodes[node];
      Ok(s.(poller := DrainNode(node, Fits(s.view, d.off, d.len)), carried := s.carried - {d.off}))
  }

  /** Does FreeLens call alloc_free on a lens the poller can reach? */
  predicate Releases(s: State) {
    && s.poller.Drain? && s.poller.node != 0 && Region.InView(s.view, s.poller.node, DEFER_LEN)
    && s.poller.node in s.nodes
    && Fits(s.view, s.nodes[s.poller.node].off, s.nodes[s.poller.node].len)
  }

  /** Frees the node itself, unless its block does not fit the view, and goes on to the next one. */
  function FreeNode(s: State): Outcome
    requires s.poller.DrainNode?
  {
    var node := s.poller.node;
    if node !in s.nodes || node !in s.ticket then Crash
    else
      var d := s.nodes[node];
      var k := s.ticket[node];
      var freed := Fits(s.view, node, DEFER_LEN);
      Ok(s.(poller := Drain(d.next),
            nodes := if freed then s.nodes - {node} else s.nodes,
            place := if freed then s.place - {node} else s.place[node := Stray],
            ticket := s.ticket - {node},
            fate := s.fate[k.id := Drained(k, s.epoch, s.poller.lensFreed, freed)]))
  }

  function BumpEpoch(s: State): State {
    s.(poller := Resting, epoch := s.epoch + 1)
  }

  // ---- invariant ----

  ghost predicate Queued(place: map<Off, Place>, n: Off, q: nat) {
    n in place && place[n] == Queue(q)
  }

  /** `m` is the member of list `q` pushed last before `n`, or 0 if there is none. */
  ghost predicate Follows(place: map<Off, Place>, ticket: map<Off, Ticket>, q: nat, n: Off, m: Off) {
    && n in ticket
    && (m != 0 ==> Queued(place, m, q) && m in ticket && ticket[m].id < ticket[n].id)
    && (forall l {:trigger Queued(place, l, q)} ::
          Queued(place, l, q) && l in ticket && ticket[l].id < ticket[n].id ==>
            m != 0 && m in ticket && ticket[l].id <= ticket[m].id)
  }

  ghost predicate NewestOf(place: map<Off, Place>, ticket: map<Off, Ticket>, q: nat, h: Off) {
    && (h != 0 ==> Queued(place, h, q) && h in ticket)
    && (forall l {:trigger Queued(place, l, q)} :: Queued(place, l, q) ==>
          h != 0 && h in ticket && l in ticket && ticket[l].id <= ticket[h].id)
  }

  ghost predicate BeforeBump(p: PollerPc) {
    !p.Resting?
  }

  /** When a queued node was pushed, relative to the exchanges that could have taken it. */
  ghost predicate Timely(s: State, q: nat, k: Ticket) {
    if q < 2 then
      && k.read % 2 == q && k.read <= s.epoch
      && k.pushedAt <= s.exchanges <= k.pushedAt + 1
      && (s.exchanges == k.pushedAt + 1 ==> (k.pushedAt + 1) % 2 != q)
    else
      k.read + 1 <= s.epoch && k.pushedAt <= s.epoch <= k.pushedAt + 1
  }

  /** A queued node: its link, its deferral number and the lens it carries. */
  ghost predicate QueuedOk(s: State, q: nat, n: Off) {
    && q < 3 && n in s.nodes && n in s.ticket
    && Follows(s.place, s.ticket, q, n, s.nodes[n].next)
    && Timely(s, q, s.ticket[n])
    && s.ticket[n].id in s.fate && s.fate[s.ticket[n].id] == Waiting(n)
  }

  ghost predicate Carries(s: State, n: Off) {
    && n in s.nodes
    && s.nodes[n].off in s.carried && s.carried[s.nodes[n].off] == OnNode(n)
    && s.nodes[n].off in s.lensLen && s.lensLen[s.nodes[n].off] == s.nodes[n].len
  }

  ghost predicate HeapOk(s: State) {
    && |s.defers| == 2 && 0 !in s.nodes
    && s.place.Keys == s.nodes.Keys && s.ticket.Keys <= s.nodes.Keys && s.carried.Keys <= s.lensLen.Keys
    && s.exchanges == (if BeforeBump(s.poller) then s.epoch + 1 else s.epoch)
  }

  ghost predicate QueuesOk(s: State) {
    forall q, n {:trigger QueuedOk(s, q, n)} :: Queued(s.place, n, q) ==> QueuedOk(s, q, n)
  }

  /** Every queued node carries its lens, except the one between its two frees. */
  ghost predicate CarriersOk(s: State) {
    forall n {:trigger Carries(s, n)} ::
      n in s.place && s.place[n].Queue? && !(s.poller.DrainNode? && s.poller.node == n) ==> Carries(s, n)
  }

  ghost predicate HeadsOk(s: State)
    requires |s.defers| == 2
  {
    && NewestOf(s.place, s.ticket, 0, s.defers[0])
    && NewestOf(s.place, s.ticket, 1, s.defers[1])
    && match s.poller
       case Drain(n) => NewestOf(s.place, s.ticket, 2, n)
       case DrainNode(n, ok) =>
         && n != 0 && NewestOf(s.place, s.ticket, 2, n) && n in s.nodes
         && ok == Fits(s.view, s.nodes[n].off, s.nodes[n].len)
       case _ => NewestOf(s.place, s.ticket, 2, 0)
  }

  ghost predicate FateOk(s: State, id: nat) {
    && id in s.fate
    && match s.fate[id]
       case Waiting(n) => n in s.place && s.place[n].Queue? && n in s.ticket && s.ticket[n].id == id
       case Drained(k, c, _, _) => k.id == id && k.read + 1 <= c && k.pushedAt <= c <= k.pushedAt + 1
       case Dropped => true
  }

  /** Every deferral ever pushed has exactly one fate. */
  ghost predicate FatesOk(s: State) {
    && (forall id {:trigger FateOk(s, id)} :: 0 <= id < s.issued ==> FateOk(s, id))
    && (forall id :: id in s.fate ==> 0 <= id < s.issued)
  }

  ghost predicate HoldsNode(s: State, t: Tid, off: Off, node: Off) {
    && node in s.nodes && node in s.place && s.place[node] == Held(t) && node !in s.ticket
    && s.nodes[node].off == off && off in s.carried && s.carried[off] == Thread(t)
    && off in s.lensLen && s.lensLen[off] == s.nodes[node].len
  }

  ghost predicate ThreadOk(s: State, t: Tid) {
    match PcOf(s, t)
    case Idle => true
    case Removed(off, len) =>
      off in s.carried && s.carried[off] == Thread(t) && off in s.lensLen && s.lensLen[off] == len
    case Noded(off, node) => HoldsNode(s, t, off, node)
    case Epoched(off, node, e) => HoldsNode(s, t, off, node) && e <= s.epoch
    case Loaded(off, node, e, top) => HoldsNode(s, t, off, node) && e <= s.epoch
    case Linked(off, node, e, top) => HoldsNode(s, t, off, node) && e <= s.epoch && s.nodes[node].next == top
  }

  ghost predicate ThreadsOk(s: State) {
    forall t {:trigger ThreadOk(s, t)} :: ThreadOk(s, t)
  }

  ghost predicate Inv(s: State) {
    HeapOk(s) && QueuesOk(s) && CarriersOk(s) && HeadsOk(s) && FatesOk(s) && ThreadsOk(s)
  }
}
