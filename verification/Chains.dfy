/**
 Singly linked lists threaded through memory, several at once, as sets of members with ranks:
 each link leads to the member of the same list with the next lower rank, or is 0.
 */
module Chains {

  type Off = nat

  /** `member` maps each listed block to its list, `rank` orders them, `heads` are the list heads. */
  datatype Chain = Chain(member: map<Off, nat>, rank: map<Off, nat>, heads: seq<Off>)

  predicate In(member: map<Off, nat>, o: Off, q: nat) {
    o in member && member[o] == q
  }

  ghost predicate Follows(member: map<Off, nat>, rank: map<Off, nat>, q: nat, n: Off, m: Off) {
    && n in rank
    && (m != 0 ==> In(member, m, q) && m in rank && rank[m] < rank[n])
    && (forall l {:trigger In(member, l, q)} :: In(member, l, q) && l in rank && rank[l] < rank[n] ==>
          m != 0 && m in rank && rank[l] <= rank[m])
  }

  ghost predicate Newest(member: map<Off, nat>, rank: map<Off, nat>, q: nat, h: Off) {
    && (h != 0 ==> In(member, h, q) && h in rank)
    && (forall l {:trigger In(member, l, q)} :: In(member, l, q) ==>
          h != 0 && h in rank && l in rank && rank[l] <= rank[h])
  }

  ghost predicate SameRank(rank: map<Off, nat>, a: Off, b: Off) {
    a in rank && b in rank && rank[a] == rank[b]
  }

  ghost predicate Ranked(c: Chain, clock: nat) {
    && c.rank.Keys == c.member.Keys && 0 !in c.member
    && (forall o :: o in c.rank ==> c.rank[o] < clock)
    && (forall a, b {:trigger SameRank(c.rank, a, b)} :: SameRank(c.rank, a, b) ==> a == b)
  }

  ghost predicate LinkOk(c: Chain, link: map<Off, Off>, o: Off) {
    o in c.member && o in link && c.member[o] < |c.heads| && Follows(c.member, c.rank, c.member[o], o, link[o])
  }

  ghost predicate Linked(c: Chain, link: map<Off, Off>) {
    forall o {:trigger LinkOk(c, link, o)} :: o in c.member ==> LinkOk(c, link, o)
  }

  ghost predicate HeadOk(c: Chain, q: nat)
    requires q < |c.heads|
  {
    Newest(c.member, c.rank, q, c.heads[q])
  }

  ghost predicate Headed(c: Chain) {
    forall q {:trigger HeadOk(c, q)} :: 0 <= q < |c.heads| ==> HeadOk(c, q)
  }

  ghost predicate Ok(c: Chain, link: map<Off, Off>, clock: nat) {
    Ranked(c, clock) && Linked(c, link) && Headed(c)
  }

  /** Only the links of members matter. */
  lemma LinkFrame(c: Chain, link: map<Off, Off>, link': map<Off, Off>, clock: nat)
    requires Ok(c, link, clock)
    requires forall o :: o in c.member && o in link ==> o in link' && link'[o] == link[o]
    ensures Ok(c, link', clock)
  {
    forall o | o in c.member ensures LinkOk(c, link', o) { assert LinkOk(c, link, o); }
  }

  lemma ClockFrame(c: Chain, link: map<Off, Off>, clock: nat, clock': nat)
    requires Ok(c, link, clock) && clock <= clock'
    ensures Ok(c, link, clock')
  {
  }

  // ---- push: a block whose link holds the head becomes the head ----

  function Push(c: Chain, q: nat, o: Off, clock: nat): Chain
    requires q < |c.heads|
  {
    Chain(c.member[o := q], c.rank[o := clock], c.heads[q := o])
  }

  lemma PushOk(c: Chain, link: map<Off, Off>, q: nat, o: Off, clock: nat)
    requires Ok(c, link, clock) && q < |c.heads| && o != 0 && o !in c.member && o in link && link[o] == c.heads[q]
    ensures Ok(Push(c, q, o, clock), link, clock + 1)
  {
    var c' := Push(c, q, o, clock);
    assert HeadOk(c, q);
    forall p, l {:trigger In(c'.member, l, p)} | In(c'.member, l, p) ensures (l == o && p == q) || In(c.member, l, p) {}
    forall a, b | SameRank(c'.rank, a, b) ensures a == b { assert a != o && b != o ==> SameRank(c.rank, a, b); }
    forall n | n in c'.member ensures LinkOk(c', link, n) {
      if n != o { assert LinkOk(c, link, n); }
      var m := link[n];
      assert m != 0 ==> In(c.member, m, c'.member[n]);
      forall l | In(c'.member, l, c'.member[n]) && c'.rank[l] < c'.rank[n]
        ensures m != 0 && m in c'.rank && c'.rank[l] <= c'.rank[m]
      {
        assert In(c.member, l, c'.member[n]);
      }
    }
    forall p | 0 <= p < |c'.heads| ensures HeadOk(c', p) {
      assert HeadOk(c, p);
      forall l | In(c'.member, l, p) ensures c'.heads[p] != 0 && c'.rank[l] <= c'.rank[c'.heads[p]] {
        assert l != o ==> In(c.member, l, p);
      }
    }
  }

  // ---- pop: the head leaves and its link becomes the head ----

  function Pop(c: Chain, link: map<Off, Off>, q: nat): Chain
    requires q < |c.heads| && c.heads[q] in link
  {
    var h := c.heads[q];
    Chain(c.member - {h}, c.rank - {h}, c.heads[q := link[h]])
  }

  lemma PopOk(c: Chain, link: map<Off, Off>, q: nat, clock: nat)
    requires Ok(c, link, clock) && q < |c.heads| && c.heads[q] != 0
    ensures In(c.member, c.heads[q], q) && c.heads[q] in link && link[c.heads[q]] != c.heads[q]
    ensures Ok(Pop(c, link, q), link, clock)
  {
    var h := c.heads[q];
    assert HeadOk(c, q) && LinkOk(c, link, h);
    var c' := Pop(c, link, q);
    forall p, l {:trigger In(c'.member, l, p)} | In(c'.member, l, p) ensures l != h && In(c.member, l, p) {}
    forall a, b | SameRank(c'.rank, a, b) ensures a == b { assert SameRank(c.rank, a, b); }
    forall n | n in c'.member ensures LinkOk(c', link, n) {
      assert LinkOk(c, link, n);
      var m := link[n];
      assert In(c.member, n, c.member[n]);
      assert m != 0 ==> In(c.member, m, c.member[n]);
      forall l | In(c'.member, l, c'.member[n]) && c'.rank[l] < c'.rank[n]
        ensures m != 0 && m in c'.rank && c'.rank[l] <= c'.rank[m]
      {
        assert In(c.member, l, c.member[n]);
      }
    }
    forall p | 0 <= p < |c'.heads| ensures HeadOk(c', p) {
      assert HeadOk(c, p);
      forall l | In(c'.member, l, p)
        ensures c'.heads[p] != 0 && c'.heads[p] in c'.rank && c'.rank[l] <= c'.rank[c'.heads[p]]
      {
        assert In(c.member, l, p) && (SameRank(c.rank, l, h) ==> l == h);
      }
    }
  }

  // ---- take: an empty list receives all of another ----

  function Take(c: Chain, from: nat, to: nat): Chain
    requires from < |c.heads| && to < |c.heads|
  {
    Chain(map o | o in c.member :: if c.member[o] == from then to else c.member[o],
          c.rank,
          c.heads[to := c.heads[from]][from := 0])
  }

  lemma TakeOk(c: Chain, link: map<Off, Off>, from: nat, to: nat, clock: nat)
    requires Ok(c, link, clock) && from < |c.heads| && to < |c.heads| && from != to && c.heads[to] == 0
    ensures Ok(Take(c, from, to), link, clock)
  {
    var c' := Take(c, from, to);
    assert HeadOk(c, to) && HeadOk(c, from);
    forall l ensures !In(c.member, l, to) { assert In(c.member, l, to) || !In(c.member, l, to); }
    forall p, l {:trigger In(c'.member, l, p)}
      ensures In(c'.member, l, p) <==> p != from && In(c.member, l, if p == to then from else p)
    {
      assert !In(c.member, l, to);
    }
    forall n | n in c'.member ensures LinkOk(c', link, n) {
      assert LinkOk(c, link, n) && !In(c.member, n, to);
      var m := link[n];
      assert m != 0 ==> In(c.member, m, c.member[n]);
      forall l | In(c'.member, l, c'.member[n]) && c'.rank[l] < c'.rank[n]
        ensures m != 0 && m in c'.rank && c'.rank[l] <= c'.rank[m]
      {
        assert In(c.member, l, c.member[n]);
      }
    }
    forall p | 0 <= p < |c'.heads| ensures HeadOk(c', p) {
      var p0 := if p == to then from else p;
      assert HeadOk(c, p0);
      forall l | In(c'.member, l, p) ensures c'.heads[p] != 0 && c'.rank[l] <= c'.rank[c'.heads[p]] {
        assert In(c.member, l, p0);
      }
    }
  }

  // ---- splice: a row of blocks, linked by address, goes in front of a list ----

  function Splice(c: Chain, q: nat, slab: set<Off>, first: Off, last: Off, clock: nat): Chain
    requires q < |c.heads|
  {
    Chain(c.member + (map o | o in slab :: q),
          c.rank + (map o | o in slab :: if o <= last then clock + (last - o) else clock),
          c.heads[q := first])
  }

  ghost predicate Steps(slab: set<Off>, last: Off, len: nat, link: map<Off, Off>, o: Off) {
    o in link && (o != last ==> link[o] == o + len && o + len in slab)
  }

  /** The blocks of a slab lie `len` apart and each is linked to the one behind it. */
  ghost predicate Row(slab: set<Off>, first: Off, last: Off, len: nat, link: map<Off, Off>) {
    && first in slab && last in slab && 0 < len && 0 < first
    && (forall o :: o in slab ==> first <= o <= last)
    && (forall o {:trigger Steps(slab, last, len, link, o)} :: o in slab ==> Steps(slab, last, len, link, o))
    && (forall a, b :: a in slab && b in slab && a < b ==> a + len <= b)
  }

  lemma SpliceRanks(c: Chain, q: nat, slab: set<Off>, first: Off, last: Off, clock: nat)
    requires Ranked(c, clock) && q < |c.heads| && slab !! c.member.Keys && 0 !in slab
    requires first <= last && forall o :: o in slab ==> first <= o <= last
    ensures Ranked(Splice(c, q, slab, first, last, clock), clock + (last - first) + 1)
  {
    var c' := Splice(c, q, slab, first, last, clock);
    forall a, b | SameRank(c'.rank, a, b) ensures a == b {
      assert a in c.member && b in c.member ==> SameRank(c.rank, a, b);
    }
  }

  /** A block that was listed keeps its link. */
  lemma SpliceOldLink(c: Chain, link: map<Off, Off>, q: nat, slab: set<Off>, first: Off, last: Off, clock: nat, n: Off)
    requires Ranked(c, clock) && LinkOk(c, link, n) && q < |c.heads| && slab !! c.member.Keys
    ensures LinkOk(Splice(c, q, slab, first, last, clock), link, n)
  {
    var c' := Splice(c, q, slab, first, last, clock);
    var m, p := link[n], c.member[n];
    assert m != 0 ==> In(c.member, m, p);
    assert forall o :: o in slab ==> c'.rank[o] >= clock;
    forall l | In(c'.member, l, p) && c'.rank[l] < c'.rank[n]
      ensures m != 0 && m in c'.rank && c'.rank[l] <= c'.rank[m]
    {
      assert In(c.member, l, p);
    }
  }

  /** What a splice leaves: the row in front, by address, and the old members as they were. */
  ghost predicate Spliced(c: Chain, c': Chain, q: nat, slab: set<Off>, last: Off, clock: nat) {
    && (forall o :: o in slab ==> o <= last && In(c'.member, o, q) && o in c'.rank && c'.rank[o] == clock + (last - o))
    && (forall o :: o in c.member ==>
      In(c'.member, o, c.member[o]) && o in c.rank && o in c'.rank && c'.rank[o] == c.rank[o] < clock)
    && (forall o :: o in c'.member ==> o in slab || o in c.member)
  }

  lemma SpliceIsSpliced(c: Chain, q: nat, slab: set<Off>, first: Off, last: Off, clock: nat)
    requires Ranked(c, clock) && q < |c.heads| && slab !! c.member.Keys && forall o :: o in slab ==> o <= last
    ensures Spliced(c, Splice(c, q, slab, first, last, clock), q, slab, last, clock)
  {
  }

  lemma LastFollows(c: Chain, c': Chain, q: nat, slab: set<Off>, last: Off, clock: nat)
    requires Spliced(c, c', q, slab, last, clock) && last in slab && q < |c.heads| && HeadOk(c, q)
    ensures Follows(c'.member, c'.rank, q, last, c.heads[q])
  {
    var m := c.heads[q];
    assert m != 0 ==> In(c.member, m, q);
    forall l | In(c'.member, l, q) && l in c'.rank && c'.rank[l] < clock
      ensures m != 0 && m in c'.rank && c'.rank[l] <= c'.rank[m]
    {
      assert l !in slab && In(c.member, l, q);
    }
  }

  lemma RowFollows(c: Chain, c': Chain, q: nat, slab: set<Off>, last: Off, len: nat, clock: nat, n: Off)
    requires Spliced(c, c', q, slab, last, clock) && n in slab && 0 < n + len && n + len in slab && 0 < len
    requires forall o :: o in slab && n < o ==> n + len <= o
    ensures Follows(c'.member, c'.rank, q, n, n + len)
  {
  }

  /** A block of the row is linked to the one behind it, the last one to the old head. */
  lemma SpliceNewLink(c: Chain, link: map<Off, Off>, q: nat, slab: set<Off>, first: Off, last: Off, len: nat,
                      clock: nat, n: Off)
    requires Ranked(c, clock) && q < |c.heads| && HeadOk(c, q) && slab !! c.member.Keys
    requires Row(slab, first, last, len, link) && last in link && link[last] == c.heads[q] && n in slab
    ensures LinkOk(Splice(c, q, slab, first, last, clock), link, n)
  {
    var c' := Splice(c, q, slab, first, last, clock);
    SpliceIsSpliced(c, q, slab, first, last, clock);
    NewLinkFollows(c, c', link, q, slab, first, last, len, clock, n);
  }

  lemma NewLinkFollows(c: Chain, c': Chain, link: map<Off, Off>, q: nat, slab: set<Off>, first: Off, last: Off,
                       len: nat, clock: nat, n: Off)
    requires Spliced(c, c', q, slab, last, clock) && q < |c.heads| && HeadOk(c, q)
    requires Row(slab, first, last, len, link) && last in link && link[last] == c.heads[q] && n in slab
    ensures n in link && n in c'.member && c'.member[n] == q && Follows(c'.member, c'.rank, q, n, link[n])
  {
    assert Steps(slab, last, len, link, n);
    if n == last {
      LastFollows(c, c', q, slab, last, clock);
    } else {
      RowFollows(c, c', q, slab, last, len, clock, n);
    }
  }

  lemma SpliceOk(c: Chain, link: map<Off, Off>, q: nat, slab: set<Off>, first: Off, last: Off, len: nat, clock: nat)
    requires Ok(c, link, clock) && q < |c.heads| && slab !! c.member.Keys && Row(slab, first, last, len, link)
    requires last in link && link[last] == c.heads[q]
    ensures Ok(Splice(c, q, slab, first, last, clock), link, clock + (last - first) + 1)
  {
    var c' := Splice(c, q, slab, first, last, clock);
    SpliceRanks(c, q, slab, first, last, clock);
    forall n | n in c'.member ensures LinkOk(c', link, n) {
      if n in slab {
        assert HeadOk(c, q);
        SpliceNewLink(c, link, q, slab, first, last, len, clock, n);
      } else {
        assert LinkOk(c, link, n);
        SpliceOldLink(c, link, q, slab, first, last, clock, n);
      }
    }
    forall p | 0 <= p < |c'.heads| ensures HeadOk(c', p) {
      assert HeadOk(c, p);
      forall l | In(c'.member, l, p)
        ensures c'.heads[p] != 0 && c'.heads[p] in c'.rank && c'.rank[l] <= c'.rank[c'.heads[p]]
      {
        assert l in c.member ==> In(c.member, l, p);
      }
    }
  }
}
