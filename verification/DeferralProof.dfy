/** Every step of the deferred-free state machine keeps its invariant and cannot crash. */
module DeferralProof {
  import Region
  import opened Deferral

  // ---- what does not change ----

  lemma QueuesFrame(s: State, s': State)
    requires QueuesOk(s)
    requires forall n, q {:trigger Queued(s'.place, n, q)} :: Queued(s'.place, n, q) <==> Queued(s.place, n, q)
    requires forall n :: n in s.place && s.place[n].Queue? && n in s.nodes && n in s.ticket ==>
      n in s'.nodes && s'.nodes[n] == s.nodes[n] && n in s'.ticket && s'.ticket[n] == s.ticket[n]
    requires s'.epoch == s.epoch && s'.exchanges == s.exchanges && s'.fate == s.fate
    ensures QueuesOk(s')
  {
    forall q, n | Queued(s'.place, n, q) ensures QueuedOk(s', q, n) {
      assert QueuedOk(s, q, n);
      var m := s.nodes[n].next;
      assert m != 0 ==> QueuedOk(s, q, m);
      forall l | Queued(s'.place, l, q) && l in s'.ticket && s'.ticket[l].id < s'.ticket[n].id
        ensures m != 0 && m in s'.ticket && s'.ticket[l].id <= s'.ticket[m].id
      {
        assert Queued(s.place, l, q) && QueuedOk(s, q, l);
      }
    }
  }

  lemma NewestFrame(s: State, s': State, q: nat, h: Off)
    requires QueuesOk(s) && NewestOf(s.place, s.ticket, q, h)
    requires forall n {:trigger Queued(s'.place, n, q)} :: Queued(s'.place, n, q) <==> Queued(s.place, n, q)
    requires forall n :: n in s.ticket && Queued(s.place, n, q) ==> n in s'.ticket && s'.ticket[n] == s.ticket[n]
    ensures NewestOf(s'.place, s'.ticket, q, h)
  {
    forall l | Queued(s'.place, l, q)
      ensures h != 0 && h in s'.ticket && l in s'.ticket && s'.ticket[l].id <= s'.ticket[h].id
    {
      assert Queued(s.place, l, q) && QueuedOk(s, q, l);
    }
  }

  lemma CarriersFrame(s: State, s': State)
    requires CarriersOk(s) && s'.poller == s.poller
    requires forall n :: n in s'.place && s'.place[n].Queue? ==> n in s.place && s.place[n].Queue?
    requires forall n :: n in s.place && s.place[n].Queue? && n in s.nodes ==>
        n in s'.nodes && s'.nodes[n] == s.nodes[n]
    requires forall o :: o in s.carried && s.carried[o].OnNode? ==> o in s'.carried && s'.carried[o] == s.carried[o]
    requires forall o :: o in s.carried && s.carried[o].OnNode? && o in s.lensLen ==>
        o in s'.lensLen && s'.lensLen[o] == s.lensLen[o]
    ensures CarriersOk(s')
  {
    forall n | n in s'.place && s'.place[n].Queue? && !(s'.poller.DrainNode? && s'.poller.node == n)
      ensures Carries(s', n)
    {
      assert Carries(s, n);
    }
  }

  lemma FatesFrame(s: State, s': State)
    requires FatesOk(s) && s'.fate == s.fate && s'.issued == s.issued
    requires forall n :: n in s.place && s.place[n].Queue? && n in s.ticket ==>
      n in s'.place && s'.place[n].Queue? && n in s'.ticket && s'.ticket[n] == s.ticket[n]
    ensures FatesOk(s')
  {
    forall id | 0 <= id < s'.issued ensures FateOk(s', id) { assert FateOk(s, id); }
  }

  lemma OthersFrame(s: State, s': State, t: Tid)
    requires ThreadsOk(s) && s.epoch <= s'.epoch
    requires forall u :: u != t ==> PcOf(s', u) == PcOf(s, u)
    requires forall n :: n in s.nodes && n in s.place && s.place[n].Held? && s.place[n] != Held(t) && n !in s.ticket ==>
      n in s'.nodes && s'.nodes[n] == s.nodes[n] && n in s'.place && s'.place[n] == s.place[n] && n !in s'.ticket
    requires forall o :: o in s.carried && s.carried[o].Thread? && s.carried[o] != Thread(t) ==>
      && o in s'.carried && s'.carried[o] == s.carried[o]
      && (o in s.lensLen ==> o in s'.lensLen && s'.lensLen[o] == s.lensLen[o])
    ensures forall u :: u != t ==> ThreadOk(s', u)
  {
    forall u | u != t ensures ThreadOk(s', u) { assert ThreadOk(s, u); }
  }

  lemma ThreadsFrame(s: State, t: Tid)
    requires ThreadOk(s, t) && forall u :: u != t ==> ThreadOk(s, u)
    ensures ThreadsOk(s)
  {
    forall u ensures ThreadOk(s, u) { assert u != t ==> ThreadOk(s, u); }
  }

  lemma ClientThreads(s: State, s': State, t: Tid)
    requires HeapOk(s) && ThreadsOk(s) && s'.epoch == s.epoch && s'.ticket == s.ticket && ThreadOk(s', t) && HeapOk(s')
    requires forall u :: u != t ==> PcOf(s', u) == PcOf(s, u)
    requires forall n :: n in s.nodes && s.place[n] != Held(t) ==>
        n in s'.nodes && s'.nodes[n] == s.nodes[n] && s'.place[n] == s.place[n]
    requires forall o :: o in s.carried && s.carried[o] != Thread(t) ==>
      o in s'.carried && s'.carried[o] == s.carried[o] && s'.lensLen[o] == s.lensLen[o]
    ensures ThreadsOk(s')
  {
    OthersFrame(s, s', t);
    ThreadsFrame(s', t);
  }

  /** What a client step leaves alone: the lists, and the nodes and lenses of everybody else. */
  ghost predicate LeavesOthers(s: State, s': State, t: Tid)
    requires HeapOk(s) && HeapOk(s')
  {
    && s'.epoch == s.epoch && s'.exchanges == s.exchanges && s'.fate == s.fate && s'.issued == s.issued
    && s'.poller == s.poller && s'.view == s.view && s'.defers == s.defers && s'.ticket == s.ticket
    && (forall n :: n in s.nodes && s.place[n] != Held(t) ==>
      n in s'.nodes && s'.nodes[n] == s.nodes[n] && s'.place[n] == s.place[n])
    && (forall n :: n in s'.place && s'.place[n].Queue? ==> n in s.place && s'.place[n] == s.place[n])
    && (forall o :: o in s.carried && s.carried[o] != Thread(t) ==>
          o in s'.carried && s'.carried[o] == s.carried[o] && s'.lensLen[o] == s.lensLen[o])
  }

  lemma ClientHeads(s: State, s': State, t: Tid)
    requires HeapOk(s) && HeapOk(s') && LeavesOthers(s, s', t) && QueuesOk(s) && HeadsOk(s)
    ensures HeadsOk(s')
  {
    NewestFrame(s, s', 0, s.defers[0]);
    NewestFrame(s, s', 1, s.defers[1]);
    NewestFrame(s, s', 2, if s.poller.Drain? || s.poller.DrainNode? then s.poller.node else 0);
  }

  lemma ClientLists(s: State, s': State, t: Tid)
    requires HeapOk(s) && HeapOk(s') && LeavesOthers(s, s', t) && QueuesOk(s) && CarriersOk(s) && FatesOk(s)
    ensures QueuesOk(s') && CarriersOk(s') && FatesOk(s')
  {
    QueuesFrame(s, s');
    CarriersFrame(s, s');
    FatesFrame(s, s');
  }

  /** A client step that touches neither the lists nor their nodes. */
  lemma ClientFrame(s: State, s': State, t: Tid)
    requires Inv(s) && HeapOk(s') && LeavesOthers(s, s', t) && ThreadOk(s', t)
    requires forall u :: u != t ==> PcOf(s', u) == PcOf(s, u)
    ensures Inv(s')
  {
    ClientHeads(s, s', t);
    ClientLists(s, s', t);
    ClientThreads(s, s', t);
  }

  // ---- optics_defer_free ----

  lemma BeginKeeps(s: State, t: Tid, off: Off, len: nat)
    requires Inv(s) && PcOf(s, t).Idle? && off !in s.carried
    ensures Inv(Begin(s, t, off, len))
  {
    ClientFrame(s, Begin(s, t, off, len), t);
  }

  lemma AllocNodeKeeps(s: State, t: Tid, node: Off)
    requires Inv(s) && PcOf(s, t).Removed? && node > 0 && node !in s.nodes
    ensures Inv(AllocNode(s, t, node))
  {
    assert ThreadOk(s, t);
    ClientFrame(s, AllocNode(s, t, node), t);
  }

  lemma AllocNodeFailsKeeps(s: State, t: Tid)
    requires Inv(s) && PcOf(s, t).Removed?
    ensures Inv(AllocNodeFails(s, t))
  {
    assert ThreadOk(s, t);
    ClientFrame(s, AllocNodeFails(s, t), t);
  }

  lemma LoadEpochKeeps(s: State, t: Tid)
    requires Inv(s) && PcOf(s, t).Noded?
    ensures Inv(LoadEpoch(s, t))
  {
    assert ThreadOk(s, t);
    ClientFrame(s, LoadEpoch(s, t), t);
  }

  lemma LoadDefersKeeps(s: State, t: Tid)
    requires Inv(s) && PcOf(s, t).Epoched?
    ensures Inv(LoadDefers(s, t))
  {
    assert ThreadOk(s, t);
    ClientFrame(s, LoadDefers(s, t), t);
  }

  lemma LinkNodeKeeps(s: State, t: Tid)
    requires Inv(s) && PcOf(s, t).Loaded?
    ensures LinkNode(s, t).Ok? && Inv(LinkNode(s, t).state)
  {
    assert ThreadOk(s, t);
    ClientFrame(s, LinkNode(s, t).state, t);
  }

  /** The compare-and-exchange succeeds. */
  ghost predicate Pushes(s: State, t: Tid)
    requires |s.defers| == 2
  {
    PcOf(s, t).Linked? && s.defers[PcOf(s, t).e % 2] == PcOf(s, t).top
  }

  lemma TicketsBelowIssued(s: State, q: nat, n: Off)
    requires QueuesOk(s) && FatesOk(s) && Queued(s.place, n, q)
    ensures n in s.ticket && s.ticket[n].id < s.issued
  {
    assert QueuedOk(s, q, n);
  }

  lemma PushQueues(s: State, t: Tid)
    requires Inv(s) && Pushes(s, t)
    ensures QueuesOk(CasDefers(s, t, false))
  {
    assert ThreadOk(s, t);
    var s' := CasDefers(s, t, false);
    var p := PcOf(s, t);
    forall q, n | Queued(s'.place, n, q) ensures QueuedOk(s', q, n) {
      if n == p.node {
        forall l | Queued(s'.place, l, q) && l in s'.ticket && s'.ticket[l].id < s'.ticket[n].id
          ensures p.top != 0 && p.top in s'.ticket && s'.ticket[l].id <= s'.ticket[p.top].id
        {
          assert Queued(s.place, l, q);
        }
        if p.top != 0 { TicketsBelowIssued(s, q, p.top); }
      } else {
        assert Queued(s.place, n, q) && QueuedOk(s, q, n);
        TicketsBelowIssued(s, q, n);
        var m := s.nodes[n].next;
        forall l | Queued(s'.place, l, q) && l in s'.ticket && s'.ticket[l].id < s'.ticket[n].id
          ensures m != 0 && m in s'.ticket && s'.ticket[l].id <= s'.ticket[m].id
        {
          assert Queued(s.place, l, q);
        }
      }
    }
  }

  lemma PushHeads(s: State, t: Tid)
    requires Inv(s) && Pushes(s, t)
    ensures HeadsOk(CasDefers(s, t, false))
  {
    assert ThreadOk(s, t);
    var s' := CasDefers(s, t, false);
    var q := PcOf(s, t).e % 2;
    NewestFrame(s, s', 1 - q, s.defers[1 - q]);
    NewestFrame(s, s', 2, if s.poller.Drain? || s.poller.DrainNode? then s.poller.node else 0);
    forall l | Queued(s'.place, l, q) ensures l in s'.ticket && s'.ticket[l].id <= s.issued {
      if l != PcOf(s, t).node { assert Queued(s.place, l, q); TicketsBelowIssued(s, q, l); }
    }
  }

  lemma PushThreads(s: State, t: Tid)
    requires Inv(s) && Pushes(s, t)
    ensures ThreadsOk(CasDefers(s, t, false))
  {
    assert ThreadOk(s, t);
    OthersFrame(s, CasDefers(s, t, false), t);
    ThreadsFrame(CasDefers(s, t, false), t);
  }

  lemma PushCarriers(s: State, t: Tid)
    requires Inv(s) && Pushes(s, t)
    ensures CarriersOk(CasDefers(s, t, false)) && FatesOk(CasDefers(s, t, false))
  {
    assert ThreadOk(s, t);
    var s' := CasDefers(s, t, false);
    forall n | n in s'.place && s'.place[n].Queue? && !(s'.poller.DrainNode? && s'.poller.node == n)
      ensures Carries(s', n)
    {
      assert n in s.place && s.place[n].Queue? ==> Carries(s, n);
    }
    forall id | 0 <= id < s'.issued ensures FateOk(s', id) { assert id < s.issued ==> FateOk(s, id); }
  }

  lemma RetryKeeps(s: State, t: Tid, spurious: bool)
    requires Inv(s) && PcOf(s, t).Linked? && (spurious || !Pushes(s, t))
    ensures Inv(CasDefers(s, t, spurious))
  {
    assert ThreadOk(s, t);
    ClientFrame(s, CasDefers(s, t, spurious), t);
  }

  lemma CasDefersKeeps(s: State, t: Tid, spurious: bool)
    requires Inv(s) && PcOf(s, t).Linked?
    ensures Inv(CasDefers(s, t, spurious))
  {
    if spurious || !Pushes(s, t) {
      RetryKeeps(s, t, spurious);
    } else {
      assert ThreadOk(s, t);
      PushQueues(s, t);
      PushHeads(s, t);
      PushCarriers(s, t);
      PushThreads(s, t);
    }
  }

  // ---- optics_epoch_inc ----

  lemma ExchangeMoves(s: State, view: nat, n: Off)
    requires Inv(s) && s.poller.Resting?
    ensures Queued(Exchange(s, view).place, n, 2) <==> Queued(s.place, n, (s.epoch + 1) % 2)
    ensures !Queued(Exchange(s, view).place, n, (s.epoch + 1) % 2)
    ensures Queued(Exchange(s, view).place, n, s.epoch % 2) <==> Queued(s.place, n, s.epoch % 2)
  {
    assert !Queued(s.place, n, 2);
  }

  lemma ExchangeQueues(s: State, view: nat)
    requires Inv(s) && s.poller.Resting?
    ensures QueuesOk(Exchange(s, view))
  {
    var s' := Exchange(s, view);
    forall q: nat, n: Off | Queued(s'.place, n, q) ensures QueuedOk(s', q, n) {
      var q1: nat := if q == 2 then (s.epoch + 1) % 2 else q;
      ExchangeMoves(s, view, n);
      assert Queued(s.place, n, q1) && QueuedOk(s, q1, n);
      var m := s.nodes[n].next;
      ExchangeMoves(s, view, m);
      assert m != 0 ==> Queued(s.place, m, q1);
      forall l | Queued(s'.place, l, q) && l in s'.ticket && s'.ticket[l].id < s'.ticket[n].id
        ensures m != 0 && m in s'.ticket && s'.ticket[l].id <= s'.ticket[m].id
      {
        ExchangeMoves(s, view, l);
        assert Queued(s.place, l, q1);
      }
    }
  }

  lemma ExchangeHeads(s: State, view: nat)
    requires Inv(s) && s.poller.Resting?
    ensures HeadsOk(Exchange(s, view))
  {
    var s' := Exchange(s, view);
    var q0, q1 := (s.epoch + 1) % 2, s.epoch % 2;
    forall n ensures Queued(s'.place, n, q1) <==> Queued(s.place, n, q1) { ExchangeMoves(s, view, n); }
    NewestFrame(s, s', q1, s.defers[q1]);
    var h := s.defers[q0];
    ExchangeMoves(s, view, h);
    forall l | Queued(s'.place, l, 2)
      ensures h != 0 && h in s.ticket && l in s.ticket && s.ticket[l].id <= s.ticket[h].id
    {
      ExchangeMoves(s, view, l);
      assert Queued(s.place, l, q0);
    }
    forall l ensures !Queued(s'.place, l, q0) { ExchangeMoves(s, view, l); }
  }

  lemma ExchangeKeeps(s: State, view: nat)
    requires Inv(s) && s.poller.Resting?
    ensures Inv(Exchange(s, view))
  {
    var s' := Exchange(s, view);
    ExchangeQueues(s, view);
    ExchangeHeads(s, view);
    forall n | n in s'.place && s'.place[n].Queue? ensures Carries(s', n) { assert Carries(s, n); }
    forall id | 0 <= id < s'.issued ensures FateOk(s', id) { assert FateOk(s, id); }
    forall u ensures ThreadOk(s', u) { assert ThreadOk(s, u); }
  }

  lemma AbandonQueues(s: State)
    requires Inv(s) && s.poller.Drain?
    ensures QueuesOk(Abandon(s)) && HeadsOk(Abandon(s))
  {
    var s' := Abandon(s);
    forall n, q {:trigger Queued(s'.place, n, q)} ensures Queued(s'.place, n, q) <==> q != 2 && Queued(s.place, n, q) {}
    forall q, n | Queued(s'.place, n, q) ensures QueuedOk(s', q, n) {
      assert Queued(s.place, n, q) && QueuedOk(s, q, n);
      var m := s.nodes[n].next;
      assert m != 0 ==> Queued(s.place, m, q);
      forall l | Queued(s'.place, l, q) && l in s'.ticket && s'.ticket[l].id < s'.ticket[n].id
        ensures m != 0 && m in s'.ticket && s'.ticket[l].id <= s'.ticket[m].id
      {
        assert Queued(s.place, l, q);
      }
    }
    NewestFrame(s, s', 0, s.defers[0]);
    NewestFrame(s, s', 1, s.defers[1]);
  }

  lemma AbandonKeeps(s: State)
    requires Inv(s) && s.poller.Drain?
    ensures Inv(Abandon(s))
  {
    var s' := Abandon(s);
    AbandonQueues(s);
    forall n | n in s'.place && s'.place[n].Queue? ensures Carries(s', n) { assert Carries(s, n); }
    forall id | 0 <= id < s'.issued ensures FateOk(s', id) { assert FateOk(s, id); }
    forall u ensures ThreadOk(s', u) { assert ThreadOk(s, u); }
  }

  /** A step of the poller that leaves the lists as they are. */
  lemma PollerFrame(s: State, s': State)
    requires Inv(s) && HeapOk(s') && s' == s.(poller := s'.poller, carried := s'.carried)
    ensures QueuesOk(s') && FatesOk(s')
    ensures NewestOf(s'.place, s'.ticket, 0, s'.defers[0]) && NewestOf(s'.place, s'.ticket, 1, s'.defers[1])
  {
    forall q, n | Queued(s'.place, n, q) ensures QueuedOk(s', q, n) { assert QueuedOk(s, q, n); }
    FatesFrame(s, s');
  }

  lemma FreeLensKeeps(s: State)
    requires Inv(s) && s.poller.Drain?
    ensures FreeLens(s).Ok? && Inv(FreeLens(s).state)
  {
    var node := s.poller.node;
    assert node != 0 ==> QueuedOk(s, 2, node) && Carries(s, node);
    if node != 0 && !Region.InView(s.view, node, DEFER_LEN) {
      AbandonKeeps(s);
    } else {
      var s' := FreeLens(s).state;
      PollerFrame(s, s');
      forall n | n in s'.place && s'.place[n].Queue? && !(s'.poller.DrainNode? && s'.poller.node == n)
        ensures Carries(s', n)
      {
        assert Carries(s, n);
      }
      forall u ensures ThreadOk(s', u) { assert ThreadOk(s, u); }
    }
  }

  /** Only what a waiting deferral carries is ever handed to the allocator. */
  lemma ReleasedIsCarried(s: State)
    requires Inv(s) && Releases(s)
    ensures var d := s.nodes[s.poller.node];
            d.off in s.carried && d.off in s.lensLen && s.lensLen[d.off] == d.len
            && FreeLens(s).Ok? && d.off !in FreeLens(s).state.carried
  {
    assert QueuedOk(s, 2, s.poller.node) && Carries(s, s.poller.node);
  }

  lemma FreeNodeQueues(s: State)
    requires Inv(s) && s.poller.DrainNode?
    ensures FreeNode(s).Ok? && QueuesOk(FreeNode(s).state)
  {
    var node := s.poller.node;
    assert QueuedOk(s, 2, node);
    var s' := FreeNode(s).state;
    forall n, q {:trigger Queued(s'.place, n, q)}
      ensures Queued(s'.place, n, q) <==> n != node && Queued(s.place, n, q)
    {}
    forall q, n | Queued(s'.place, n, q) ensures QueuedOk(s', q, n) {
      assert Queued(s.place, n, q) && QueuedOk(s, q, n);
      var m := s.nodes[n].next;
      assert m != 0 ==> Queued(s.place, m, q) && QueuedOk(s, q, m);
      forall l | Queued(s'.place, l, q) && l in s'.ticket && s'.ticket[l].id < s'.ticket[n].id
        ensures m != 0 && m in s'.ticket && s'.ticket[l].id <= s'.ticket[m].id
      {
        assert Queued(s.place, l, q);
      }
    }
  }

  lemma FreeNodeHeads(s: State)
    requires Inv(s) && s.poller.DrainNode?
    ensures FreeNode(s).Ok? && HeadsOk(FreeNode(s).state)
  {
    var node := s.poller.node;
    assert QueuedOk(s, 2, node);
    var s' := FreeNode(s).state;
    forall n, q {:trigger Queued(s'.place, n, q)}
      ensures Queued(s'.place, n, q) <==> n != node && Queued(s.place, n, q)
    {}
    NewestFrame(s, s', 0, s.defers[0]);
    NewestFrame(s, s', 1, s.defers[1]);
    var m := s.nodes[node].next;
    assert m != 0 ==> Queued(s.place, m, 2);
    forall l | Queued(s'.place, l, 2)
      ensures m != 0 && m in s'.ticket && l in s'.ticket && s'.ticket[l].id <= s'.ticket[m].id
    {
      assert Queued(s.place, l, 2) && QueuedOk(s, 2, l);
    }
  }

  lemma FreeNodeKeeps(s: State)
    requires Inv(s) && s.poller.DrainNode?
    ensures FreeNode(s).Ok? && Inv(FreeNode(s).state)
  {
    assert QueuedOk(s, 2, s.poller.node);
    FreeNodeQueues(s);
    FreeNodeHeads(s);
    var s' := FreeNode(s).state;
    forall n | n in s'.place && s'.place[n].Queue? ensures Carries(s', n) { assert Carries(s, n); }
    forall id | 0 <= id < s'.issued ensures FateOk(s', id) { assert FateOk(s, id); }
    forall u ensures ThreadOk(s', u) { assert ThreadOk(s, u); }
  }

  lemma BumpEpochKeeps(s: State)
    requires Inv(s) && s.poller.Bump?
    ensures Inv(BumpEpoch(s))
  {
    var s' := BumpEpoch(s);
    forall q, n | Queued(s'.place, n, q) ensures QueuedOk(s', q, n) {
      assert QueuedOk(s, q, n) && !Queued(s.place, n, 2);
    }
    forall n | n in s'.place && s'.place[n].Queue? ensures Carries(s', n) { assert Carries(s, n); }
    forall id | 0 <= id < s'.issued ensures FateOk(s', id) { assert FateOk(s, id); }
    forall u ensures ThreadOk(s', u) { assert ThreadOk(s, u); }
  }
}
