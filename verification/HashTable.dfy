/** The table object of htable.c and its operations, each proved against a plain map. */
module HashTable {
  import opened Bits
  import opened Buckets

  /** What a call does: return, or abort because a bucket array could not be had. */
  datatype Call = Returned(ret: Ret) | OutOfMemory

  datatype Op = Get(key: Key) | Put(key: Key, value: Value) | Xchg(key: Key, value: Value)
              | Del(key: Key) | Reserve(items: nat)

  // ---- the plain map the table refines ----

  function Answer(m: map<Key, Value>, op: Op): (r: Ret) {
    match op
    case Reserve(_) => Ret(true, 0)
    case Put(key, _) => if Cut(key) in m then Ret(false, m[Cut(key)]) else Ret(true, 0)
    case _ => if Cut(op.key) in m then Ret(true, m[Cut(op.key)]) else Ret(false, 0)
  }

  function After(m: map<Key, Value>, op: Op): (r: map<Key, Value>) {
    match op
    case Get(_) => m
    case Reserve(_) => m
    case Put(key, value) => if Cut(key) in m then m else m[Cut(key) := value]
    case Xchg(key, value) => if Cut(key) in m then m[Cut(key) := value] else m
    case Del(key) => Without(m, Cut(key))
  }

  lemma DelIsRemoval(m: map<Key, Value>, key: Key)
    ensures After(m, Op.Del(key)) == Without(m, Cut(key))
    ensures Answer(m, Op.Del(key)) == if Cut(key) in m then Ret(true, m[Cut(key)]) else Ret(false, 0)
  {
  }

  function AfterAll(m: map<Key, Value>, ops: seq<Op>): map<Key, Value> {
    if ops == [] then m else After(AfterAll(m, ops[..|ops| - 1]), ops[|ops| - 1])
  }

  function Answers(m: map<Key, Value>, ops: seq<Op>): (rets: seq<Ret>)
    ensures |rets| == |ops|
  {
    if ops == [] then []
    else Answers(m, ops[..|ops| - 1]) + [Answer(AfterAll(m, ops[..|ops| - 1]), ops[|ops| - 1])]
  }

  function KeysOf(op: Op): set<Key> {
    if op.Reserve? then {} else {Cut(op.key)}
  }

  /** All keys that a sequence of calls mentions. */
  function AllKeys(ops: seq<Op>): set<Key> {
    set i, k | 0 <= i < |ops| && k in KeysOf(ops[i]) :: k
  }

  /** The array that a call asks for whatever the table holds can be had. */
  predicate Affordable(op: Op, memory: nat) {
    op.Reserve? ==> Target(0, op.items * 4) <= memory
  }

  predicate AllAffordable(ops: seq<Op>, memory: nat) {
    forall i :: 0 <= i < |ops| ==> Affordable(ops[i], memory)
  }

  /** What `a` has and `b` has not, added to `r` without overwriting. */
  function Missing(a: map<Key, Value>, b: map<Key, Value>, r: map<Key, Value>): map<Key, Value> {
    (map k | k in a && k !in b :: a[k]) + r
  }

  ghost predicate NoneUsed(t: seq<Bucket>, i: nat, j: nat) {
    i <= j <= |t| && forall x :: i <= x < j ==> t[x].Empty?
  }

  /** Where an iteration stands: at a bucket, or past the last one. */
  function Position(it: int, cap: nat): nat { if it >= 0 then it else cap }

  lemma {:induction false} PrefixSkips(t: seq<Bucket>, i: nat, j: nat)
    requires NoneUsed(t, i, j)
    ensures Prefix(t, j) == Prefix(t, i)
    decreases j
  {
    if i < j {
      PrefixSkips(t, i, j - 1);
    }
  }

  lemma MissingNothing(t: seq<Bucket>, b: map<Key, Value>, r: map<Key, Value>, i: nat)
    requires NoneUsed(t, 0, i)
    ensures Missing(Prefix(t, i), b, r) == r
  {
    PrefixSkips(t, 0, i);
  }

  lemma MissingStep(p: map<Key, Value>, b: map<Key, Value>, r: map<Key, Value>, k: Key, v: Value)
    requires k !in p && |k| <= KEY_MAX_LEN
    ensures Missing(p[k := v], b, r) == if k in b then Missing(p, b, r) else After(Missing(p, b, r), Op.Put(k, v))
  {
    assert k in Missing(p, b, r) <==> k in r;
  }

  lemma PrefixStep(t: seq<Bucket>, a: map<Key, Value>, i: nat)
    requires Holds(t, a) && i < |t| && t[i].Used?
    ensures Prefix(t, i + 1) == Prefix(t, i)[t[i].key := t[i].value]
    ensures t[i].key !in Prefix(t, i) && t[i].key in a
  {
    PrefixMeans(t, a, i);
  }

  function Max(a: nat, b: nat): nat { if a < b then b else a }

  /** The doubling of a table of capacity `cap` that `htable_resize(least)` tries first. */
  function Target(cap: nat, least: nat): (r: nat)
    ensures r >= least && r >= cap && r > 0
  {
    FirstDoubling(if cap == 0 then 1 else cap, least)
  }

  ghost predicate Capacity(cap: nat) { cap == 0 || IsPow2(cap) }

  lemma OneIsPow2()
    ensures IsPow2(1)
  {
    assert 1 == Pow2(0);
  }

  lemma TargetIsPow2(cap: nat, least: nat)
    requires Capacity(cap)
    ensures IsPow2(Target(cap, least))
  {
    OneIsPow2();
    DoublingIsPow2(if cap == 0 then 1 else cap, least);
  }

  lemma TargetTwice(cap: nat, least: nat)
    ensures Target(cap, 2 * Target(cap, least)) == 2 * Target(cap, least)
  {
    DoublingTwice(if cap == 0 then 1 else cap, least);
  }

  lemma TargetOfDouble(cap: nat)
    requires cap > 0
    ensures Target(cap, cap * 2) == 2 * cap
  {
    TargetTwice(cap, cap);
  }

  lemma {:induction false} DoublingFromOne(i: nat, least: nat)
    requires i > 0 ==> Pow2(i - 1) < least
    ensures FirstDoubling(1, least) == FirstDoubling(Pow2(i), least)
  {
    if i > 0 {
      if i > 1 { assert Pow2(i - 2) < Pow2(i - 1); }
      DoublingFromOne(i - 1, least);
      assert Pow2(i) == 2 * Pow2(i - 1);
    }
  }

  /** What a resize tries first depends on the demand alone, unless the table is large enough. */
  lemma TargetFromNothing(cap: nat, least: nat)
    requires Capacity(cap) && cap < least
    ensures Target(cap, least) == Target(0, least)
  {
    if cap > 0 {
      var i: nat :| cap == Pow2(i);
      if i > 0 { assert Pow2(i) == 2 * Pow2(i - 1); }
      DoublingFromOne(i, least);
    }
  }

  lemma SmallTarget(cap: nat)
    requires Capacity(cap) && cap < PROBE_WINDOW
    ensures Target(cap, PROBE_WINDOW) == PROBE_WINDOW
  {
    if cap > 0 {
      var n: nat :| cap == Pow2(n);
      assert Pow2(3) == 8;
      Pow2IsOrdered(n, 3);
      assert n == 0 || n == 1 || n == 2;
      assert cap == 1 || cap == 2 || cap == 4;
    }
    assert FirstDoubling(1, 8) == FirstDoubling(2, 8) == FirstDoubling(4, 8) == FirstDoubling(8, 8) == 8;
  }

  /** The rehash step: the next bucket either moves, at home if it may, or its window is full. */
  lemma MoveKeeps(hash: Hash, t: seq<Bucket>, m: map<Key, Value>, n: seq<Bucket>, i: nat, c: nat)
    requires i < |t| && t[i].Used? && Holds(t, m) && |n| > 0 && IsPow2(|n|)
    requires Holds(n, Prefix(t, i)) && Placed(hash, n)
    requires Separated(hash, m.Keys, c) && c <= |n| ==> AtHome(hash, n)
    ensures var k, v := t[i].key, t[i].value;
            if FreeFrom(hash(k), n, 0) == PROBE_WINDOW then
              !(Separated(hash, m.Keys, c) && c <= |n|)
            else
              var n' := PutAt(hash, n, k, v);
              && Holds(n', Prefix(t, i + 1)) && Placed(hash, n')
              && (Separated(hash, m.Keys, c) && c <= |n| ==> AtHome(hash, n'))
  {
    var k, v := t[i].key, t[i].value;
    PrefixMeans(t, m, i);
    if Separated(hash, m.Keys, c) && c <= |n| {
      SeparatedAbove(hash, m.Keys, c, |n|);
      HomeIsFree(hash, n, Prefix(t, i), k, m.Keys);
    }
    if FreeFrom(hash(k), n, 0) < PROBE_WINDOW {
      PutAtKeeps(hash, n, Prefix(t, i), k, v);
    }
  }

  /** table_put: the first free slot of the key's window, or none. */
  method TablePut(hash: Hash, table: array<Bucket>, key: Key, value: Value) returns (done: bool)
    requires table.Length > 0
    modifies table
    ensures done <==> FreeFrom(hash(key), old(table[..]), 0) < PROBE_WINDOW
    ensures table[..] == if done then PutAt(hash, old(table[..]), key, value) else old(table[..])
  {
    var h := hash(key);
    for i := 0 to PROBE_WINDOW
      invariant table[..] == old(table[..])
      invariant FreeFrom(h, table[..], i) == FreeFrom(h, table[..], 0)
    {
      var slot := SlotOf(h, i, table.Length);
      if table[slot].Empty? {
        table[slot] := Used(key, value);
        return true;
      }
    }
    return false;
  }

  /** The bucket array `t` represents the map `m`. */
  ghost predicate Stores(hash: Hash, t: seq<Bucket>, m: map<Key, Value>) {
    && Holds(t, m)
    && Placed(hash, t)
    && (forall k :: k in m ==> |k| <= KEY_MAX_LEN)
  }

  /** The window probe answers for the map. */
  lemma ProbeDecides(hash: Hash, t: seq<Bucket>, m: map<Key, Value>, k: Key)
    requires |t| > 0 && Stores(hash, t, m)
    ensures var d := FoundFrom(hash(k), t, k, 0);
            if k in m then d < PROBE_WINDOW && t[SlotOf(hash(k), d, |t|)] == Used(k, m[k]) else d == PROBE_WINDOW
  {
    FoundIffStored(hash, t, m, k);
  }

  lemma InsertStores(hash: Hash, t: seq<Bucket>, m: map<Key, Value>, k: Key, v: Value)
    requires |t| > 0 && Stores(hash, t, m) && k !in m && |k| <= KEY_MAX_LEN
    requires FreeFrom(hash(k), t, 0) < PROBE_WINDOW
    ensures Stores(hash, PutAt(hash, t, k, v), m[k := v]) && |m[k := v]| == |m| + 1
  {
    PutAtKeeps(hash, t, m, k, v);
  }

  lemma UpdateStores(hash: Hash, t: seq<Bucket>, m: map<Key, Value>, i: nat, k: Key, v: Value)
    requires i < |t| && Stores(hash, t, m) && k in m && t[i] == Used(k, m[k])
    ensures Stores(hash, t[i := Used(k, v)], m[k := v]) && |m[k := v]| == |m|
  {
    HoldsAfterUpdate(t, m, i, v);
    PlacedAfterUpdate(hash, t, i, v);
    assert m[k := v].Keys == m.Keys;
    assert |m.Keys| == |m| && |m[k := v].Keys| == |m[k := v]|;
  }

  lemma DeleteStores(hash: Hash, t: seq<Bucket>, m: map<Key, Value>, i: nat, k: Key)
    requires i < |t| && Stores(hash, t, m) && k in m && t[i] == Used(k, m[k])
    ensures Stores(hash, t[i := Empty], Without(m, k)) && |Without(m, k)| == |m| - 1
  {
    HoldsAfterDelete(t, m, i);
    PlacedAfterDelete(hash, t, i);
    SizeWithout(m, k);
  }

  lemma EmptyIsHome(hash: Hash, t: seq<Bucket>)
    requires Holds(t, map[])
    ensures AtHome(hash, t)
  {
  }

  lemma HomeAfterUpdate(hash: Hash, t: seq<Bucket>, i: nat, b: Bucket)
    requires i < |t| && AtHome(hash, t) && (b.Empty? || (t[i].Used? && b.key == t[i].key))
    ensures AtHome(hash, t[i := b])
  {
  }

  lemma PlacedAfterUpdate(hash: Hash, t: seq<Bucket>, i: nat, v: Value)
    requires i < |t| && t[i].Used? && Placed(hash, t)
    ensures Placed(hash, t[i := Used(t[i].key, v)])
  {
    var t' := t[i := Used(t[i].key, v)];
    forall j | 0 <= j < |t'| && t'[j].Used? ensures InWindow(hash(t'[j].key), |t'|, j) {
      assert InWindow(hash(t[j].key), |t|, j);
    }
  }

  lemma PlacedAfterDelete(hash: Hash, t: seq<Bucket>, i: nat)
    requires i < |t| && Placed(hash, t)
    ensures Placed(hash, t[i := Empty])
  {
    var t' := t[i := Empty];
    forall j | 0 <= j < |t'| && t'[j].Used? ensures InWindow(hash(t'[j].key), |t'|, j) {
      assert InWindow(hash(t[j].key), |t|, j);
    }
  }

  lemma NothingToRemove(m: map<Key, Value>, k: Key)
    requires k !in m
    ensures Without(m, k) == m
  {
  }

  lemma SizeWithout(m: map<Key, Value>, k: Key)
    requires k in m
    ensures |Without(m, k)| == |m| - 1
  {
    assert Without(m, k).Keys == m.Keys - {k};
    assert |Without(m, k).Keys| == |Without(m, k)| && |m.Keys| == |m|;
  }

  lemma SeparatedBelow(hash: Hash, few: set<Key>, many: set<Key>, c: nat)
    requires few <= many
    ensures Separated(hash, many, c) ==> Separated(hash, few, c)
  {
  }

  /** A put that finds its window full has at least nine keys to deal with. */
  lemma PutMustGrow(hash: Hash, t: seq<Bucket>, m: map<Key, Value>, k: Key)
    requires |t| >= PROBE_WINDOW && Holds(t, m) && k !in m
    requires FreeFrom(hash(k), t, 0) == PROBE_WINDOW
    ensures |m.Keys + {k}| > PROBE_WINDOW && m != map[]
  {
    FreeMeans(hash(k), t, 0);
    FullWindowIsEightKeys(hash(k), t, m);
    assert |m.Keys| == |m|;
    assert |m.Keys + {k}| == |m.Keys| + 1;
  }

  /** With all keys at home and hashes apart, the new key's home is free. */
  lemma NoGrowthAtHome(hash: Hash, t: seq<Bucket>, m: map<Key, Value>, k: Key, c: nat)
    requires |t| > 0 && IsPow2(|t|) && Holds(t, m) && k !in m && AtHome(hash, t)
    requires Separated(hash, m.Keys + {k}, c) && c <= |t|
    ensures FreeFrom(hash(k), t, 0) == 0
  {
    SeparatedAbove(hash, m.Keys + {k}, c, |t|);
    HomeIsFree(hash, t, m, k, m.Keys + {k});
  }

  /** The probe loop shared by get, xchg and del. */
  method Probe(h: nat, table: array<Bucket>, k: Key) returns (d: nat)
    requires table.Length > 0
    ensures d == FoundFrom(h, table[..], k, 0)
  {
    for i := 0 to PROBE_WINDOW
      invariant FoundFrom(h, table[..], k, i) == FoundFrom(h, table[..], k, 0)
    {
      var b := table[SlotOf(h, i, table.Length)];
      if b.Used? && b.key == k {
        return i;
      }
    }
    return PROBE_WINDOW;
  }

  /** The probe loop of htable_put: the key itself, else the first free slot. */
  method ProbeForPut(h: nat, table: array<Bucket>, k: Key) returns (found: nat, free: nat)
    requires table.Length > 0
    ensures found == FoundFrom(h, table[..], k, 0)
    ensures found == PROBE_WINDOW ==> free == FreeFrom(h, table[..], 0)
  {
    free := PROBE_WINDOW;
    for i := 0 to PROBE_WINDOW
      invariant FoundFrom(h, table[..], k, i) == FoundFrom(h, table[..], k, 0)
      invariant free <= PROBE_WINDOW
      invariant FreeFrom(h, table[..], 0) == if free < PROBE_WINDOW then free else FreeFrom(h, table[..], i)
    {
      var b := table[SlotOf(h, i, table.Length)];
      if b.Used? {
        if b.key == k {
          return i, free;
        }
      } else if free == PROBE_WINDOW {
        free := i;
      }
    }
    return PROBE_WINDOW, free;
  }

  /** The copy loop of htable_resize. */
  method Rehash(hash: Hash, table: array<Bucket>, newCap: nat, ghost m: map<Key, Value>, ghost c: nat)
    returns (done: bool, t: array<Bucket>)
    requires Holds(table[..], m) && newCap > 0 && IsPow2(newCap)
    ensures fresh(t) && t.Length == newCap
    ensures done ==> Holds(t[..], m) && Placed(hash, t[..])
    ensures Separated(hash, m.Keys, c) && c <= newCap ==> done && AtHome(hash, t[..])
  {
    ghost var src := table[..];
    t := new Bucket[newCap](_ => Empty);
    NothingMoved(hash, t[..]);
    for i := 0 to table.Length
      invariant table[..] == src && t.Length == newCap
      invariant Moved(hash, t[..], src, i, m, c)
    {
      if table[i].Used? {
        MoveKeeps(hash, src, m, t[..], i, c);
        var moved := TablePut(hash, t, table[i].key, table[i].value);
        if !moved {
          return false, t;
        }
      }
    }
    PrefixIsAll(src, m);
    return true, t;
  }

  /** The first `i` buckets have been moved, all of them home if the hashes are apart. */
  ghost predicate Moved(hash: Hash, t: seq<Bucket>, src: seq<Bucket>, i: nat, m: map<Key, Value>, c: nat) {
    && i <= |src| && Holds(t, Prefix(src, i)) && Placed(hash, t)
    && (Separated(hash, m.Keys, c) && c <= |t| ==> AtHome(hash, t))
  }

  lemma NothingMoved(hash: Hash, t: seq<Bucket>)
    requires forall i :: 0 <= i < |t| ==> t[i].Empty?
    ensures Holds(t, map[]) && Placed(hash, t) && AtHome(hash, t)
  {
  }

  class Table {
    const hash: Hash
    /** The longest bucket array that calloc can provide. */
    const memory: nat
    var len: nat
    var cap: nat
    var table: array<Bucket>
    ghost var m: map<Key, Value>

    ghost predicate Valid()
      reads this, table
    {
      && table.Length == cap <= memory && Capacity(cap)
      && len == |m|
      && (cap < PROBE_WINDOW ==> m == map[])
      && Stores(hash, table[..], m)
    }

    /** The table can take in any keys whose hashes differ modulo `c` without outgrowing the memory: its keys lie at
        home, or it can still double, and then they will. */
    ghost predicate Roomy(c: nat)
      reads this, table
    {
      cap >= c ==> AtHome(hash, table[..]) || 2 * cap <= memory
    }

    constructor (hash: Hash, memory: nat)
      ensures Valid() && fresh(table) && m == map[] && cap == 0
      ensures this.hash == hash && this.memory == memory
    {
      this.hash, this.memory := hash, memory;
      len, cap := 0, 0;
      table := new Bucket[0];
      m := map[];
    }

    /** htable_resize with its retry. */
    method Resize(minCap: nat, ghost c: nat) returns (done: bool)
      requires Valid()
      modifies this
      ensures m == old(m) && len == old(len)
      ensures if done then Valid() && cap >= minCap && cap >= old(cap) else cap == old(cap) && table == old(table)
      ensures minCap <= old(cap) ==> done && cap == old(cap)
      ensures if cap == old(cap) then table == old(table) else fresh(table)
      ensures Separated(hash, m.Keys, c) && Max(c, Target(old(cap), minCap)) <= memory ==> done
      ensures Separated(hash, m.Keys, c) && minCap > old(cap) && done ==>
                && (cap == Target(old(cap), minCap) || cap <= c)
                && (cap >= c ==> AtHome(hash, table[..]))
      decreases memory - minCap
    {
      if minCap <= cap {
        return true;
      }
      var newCap := if cap == 0 then 1 else cap;
      while newCap < minCap
        invariant newCap > 0
        invariant FirstDoubling(newCap, minCap) == Target(cap, minCap)
      {
        newCap := newCap * 2;
      }
      assert newCap == Target(cap, minCap);
      TargetIsPow2(cap, minCap);
      if newCap > memory {
        return false;
      }
      var moved, t := Rehash(hash, table, newCap, m, c);
      if !moved {
        TargetTwice(cap, minCap);
        if Separated(hash, m.Keys, c) {
          DoubleBelow(newCap, c);
        }
        done := Resize(newCap * 2, c);
        return;
      }
      cap := newCap;
      table := t;
      return true;
    }

    method Reserve(items: nat, ghost c: nat) returns (r: Call)
      requires Valid()
      modifies this
      ensures m == old(m) && (r.Returned? ==> Valid() && r.ret == Answer(old(m), Op.Reserve(items)))
      ensures r.Returned? ==> cap >= items * 4 && cap >= old(cap)
      ensures if cap == old(cap) then table == old(table) else fresh(table)
      ensures Separated(hash, m.Keys, c) && Max(c, Target(old(cap), items * 4)) <= memory ==> r.Returned?
      ensures Separated(hash, m.Keys, c) && c <= memory && Target(0, items * 4) <= memory && old(Roomy(c)) ==>
          r.Returned? && Roomy(c)
    {
      if cap < items * 4 {
        TargetFromNothing(cap, items * 4);
      }
      var done := Resize(items * 4, c);
      return if done then Returned(Ret(true, 0)) else OutOfMemory;
    }

    /** The resize that starts every operation: only an empty table can be smaller than one window. */
    method EnsureWindow() returns (done: bool)
      requires Valid()
      modifies this
      ensures m == old(m) && len == old(len)
      ensures done <==> Max(old(cap), PROBE_WINDOW) <= memory
      ensures done ==> Valid() && cap == Max(old(cap), PROBE_WINDOW)
      ensures cap >= old(cap)
      ensures old(cap) >= PROBE_WINDOW ==> table == old(table) && table[..] == old(table[..])
      ensures done && old(cap) < PROBE_WINDOW ==> AtHome(hash, table[..])
      ensures if cap == old(cap) then table == old(table) else fresh(table)
    {
      OneIsPow2();
      if cap < PROBE_WINDOW {
        SmallTarget(cap);
        assert Separated(hash, m.Keys, 1);
      }
      done := Resize(PROBE_WINDOW, 1);
      if done && m == map[] {
        EmptyIsHome(hash, table[..]);
      }
    }

    /** The slot that holds a key; `cap` if the table does not have it. */
    method Find(k: Key) returns (slot: nat)
      requires Valid() && cap >= PROBE_WINDOW
      ensures if k in m then slot < cap && table[slot] == Used(k, m[k]) else slot == cap
    {
      var d := Probe(hash(k), table, k);
      ProbeDecides(hash, table[..], m, k);
      slot := if d < PROBE_WINDOW then SlotOf(hash(k), d, cap) else cap;
    }

    /** The slot that holds a key, else the slot it would be put in; `cap` stands for none. */
    method FindForPut(k: Key, v: Value, ghost c: nat) returns (slot: nat, free: nat)
      requires Valid() && cap >= PROBE_WINDOW && |k| <= KEY_MAX_LEN
      ensures if k in m then slot < cap && table[slot] == Used(k, m[k]) else slot == cap
      ensures k !in m && free < cap ==> Stores(hash, table[..][free := Used(k, v)], m[k := v]) && |m[k := v]| == |m| + 1
      ensures k !in m && free < cap && Separated(hash, m.Keys + {k}, c) && c <= cap && AtHome(hash, table[..]) ==>
                AtHome(hash, table[..][free := Used(k, v)])
      ensures k !in m && free >= cap ==> m != map[] && |m.Keys + {k}| > PROBE_WINDOW
      ensures k !in m && free >= cap && Separated(hash, m.Keys + {k}, c) && c <= cap ==> !AtHome(hash, table[..])
    {
      var d, e := ProbeForPut(hash(k), table, k);
      ProbeDecides(hash, table[..], m, k);
      if d < PROBE_WINDOW {
        return SlotOf(hash(k), d, cap), 0;
      }
      if Separated(hash, m.Keys + {k}, c) && c <= cap && AtHome(hash, table[..]) {
        NoGrowthAtHome(hash, table[..], m, k, c);
      }
      if e < PROBE_WINDOW {
        InsertStores(hash, table[..], m, k, v);
        return cap, SlotOf(hash(k), e, cap);
      }
      PutMustGrow(hash, table[..], m, k);
      return cap, cap;
    }

    /** One bucket overwritten, so that the array represents `m'`. */
    method Write(slot: nat, b: Bucket, newLen: nat, ghost m': map<Key, Value>)
      requires Valid() && PROBE_WINDOW <= cap && slot < cap && newLen == |m'|
      requires Stores(hash, table[..][slot := b], m')
      modifies this, table
      ensures Valid() && m == m' && cap == old(cap) && table == old(table) && table[..] == old(table[..])[slot := b]
    {
      ghost var t := table[..];
      table[slot] := b;
      assert table[..] == t[slot := b];
      len := newLen;
      m := m';
    }

    method Erase(slot: nat, k: Key)
      requires Valid() && PROBE_WINDOW <= cap && slot < cap && k in m && table[slot] == Used(k, m[k])
      modifies this, table
      ensures Valid() && m == Without(old(m), k) && cap == old(cap) && table == old(table)
      ensures old(AtHome(hash, table[..])) ==> AtHome(hash, table[..])
    {
      DeleteStores(hash, table[..], m, slot, k);
      if AtHome(hash, table[..]) {
        HomeAfterUpdate(hash, table[..], slot, Empty);
      }
      Write(slot, Empty, len - 1, Without(m, k));
    }

    method Get(key: Key) returns (r: Call)
      requires Valid()
      modifies this
      ensures m == old(m) && (r.Returned? ==> Valid() && r.ret == Answer(old(m), Op.Get(key)))
      ensures r.Returned? <==> Max(old(cap), PROBE_WINDOW) <= memory
      ensures r.Returned? ==> cap == Max(old(cap), PROBE_WINDOW)
      ensures r.Returned? && (old(cap) < PROBE_WINDOW || old(AtHome(hash, table[..]))) ==> AtHome(hash, table[..])
      ensures if cap == old(cap) then table == old(table) else fresh(table)
    {
      var done := EnsureWindow();
      if !done {
        return OutOfMemory;
      }
      var k := Cut(key);
      var slot := Find(k);
      return Returned(if slot < cap then Ret(true, table[slot].value) else Ret(false, 0));
    }

    method Xchg(key: Key, value: Value) returns (r: Call)
      requires Valid()
      modifies this, table
      ensures r.Returned? ==>
          Valid() && m == After(old(m), Op.Xchg(key, value)) && r.ret == Answer(old(m), Op.Xchg(key, value))
      ensures r.Returned? <==> Max(old(cap), PROBE_WINDOW) <= memory
      ensures r.Returned? ==> cap == Max(old(cap), PROBE_WINDOW)
      ensures r.Returned? && (old(cap) < PROBE_WINDOW || old(AtHome(hash, table[..]))) ==> AtHome(hash, table[..])
      ensures if cap == old(cap) then table == old(table) else fresh(table)
    {
      var done := EnsureWindow();
      if !done {
        return OutOfMemory;
      }
      var k := Cut(key);
      var slot := Find(k);
      if slot == cap {
        return Returned(Ret(false, 0));
      }
      var was := table[slot].value;
      UpdateStores(hash, table[..], m, slot, k, value);
      if AtHome(hash, table[..]) {
        HomeAfterUpdate(hash, table[..], slot, Used(k, value));
      }
      Write(slot, Used(k, value), len, m[k := value]);
      return Returned(Ret(true, was));
    }

    method Del(key: Key) returns (r: Call)
      requires Valid()
      modifies this, table
      ensures r.Returned? ==> Valid() && m == After(old(m), Op.Del(key)) && r.ret == Answer(old(m), Op.Del(key))
      ensures r.Returned? <==> Max(old(cap), PROBE_WINDOW) <= memory
      ensures r.Returned? ==> cap == Max(old(cap), PROBE_WINDOW)
      ensures r.Returned? && (old(cap) < PROBE_WINDOW || old(AtHome(hash, table[..]))) ==> AtHome(hash, table[..])
      ensures if cap == old(cap) then table == old(table) else fresh(table)
    {
      var done := EnsureWindow();
      if !done {
        return OutOfMemory;
      }
      DelIsRemoval(m, key);
      var ret := Remove(Cut(key));
      return Returned(ret);
    }

    method Remove(k: Key) returns (ret: Ret)
      requires Valid() && cap >= PROBE_WINDOW
      modifies this, table
      ensures Valid() && m == Without(old(m), k) && cap == old(cap) && table == old(table)
      ensures old(AtHome(hash, table[..])) ==> AtHome(hash, table[..])
      ensures ret == if k in old(m) then Ret(true, old(m)[k]) else Ret(false, 0)
    {
      var slot := Find(k);
      if slot == cap {
        NothingToRemove(m, k);
        return Ret(false, 0);
      }
      var was := table[slot].value;
      Erase(slot, k);
      return Ret(true, was);
    }

    /** A put into a table that has a window: it fails if the window of the key is full. */
    method PutHere(k: Key, value: Value, ghost c: nat) returns (done: bool, ret: Ret)
      requires Valid() && cap >= PROBE_WINDOW && |k| <= KEY_MAX_LEN
      modifies this, table
      ensures Valid() && cap == old(cap) && table == old(table)
      ensures done ==> m == After(old(m), Op.Put(k, value)) && ret == Answer(old(m), Op.Put(k, value))
      ensures done && Separated(hash, old(m.Keys) + {k}, c) && c <= cap && old(AtHome(hash, table[..])) ==>
          AtHome(hash, table[..])
      ensures !done ==> m == old(m) && m != map[] && |m.Keys + {k}| > PROBE_WINDOW
      ensures Separated(hash, old(m.Keys) + {k}, c) && c <= cap && old(AtHome(hash, table[..])) ==> done
    {
      var slot, free := FindForPut(k, value, c);
      if slot < cap {
        return true, Ret(false, table[slot].value);
      }
      if free < cap {
        Write(free, Used(k, value), len + 1, m[k := value]);
        return true, Ret(true, 0);
      }
      return false, Ret(false, 0);
    }

    /** The growth of a table in which a key finds no room. */
    method Grow(k: Key, ghost c: nat) returns (done: bool)
      requires Valid() && cap >= PROBE_WINDOW
      modifies this
      ensures m == old(m)
      ensures if done then Valid() && cap > old(cap) && fresh(table) else cap == old(cap) && table == old(table)
      ensures Separated(hash, m.Keys + {k}, c) && Max(c, 2 * old(cap)) <= memory ==> done
      ensures Separated(hash, m.Keys + {k}, c) && old(cap) < c <= memory ==> done
      ensures Separated(hash, m.Keys + {k}, c) && done ==> cap <= Max(c, 2 * old(cap)) && (old(cap) < c ==> cap <= c)
      ensures Separated(hash, m.Keys + {k}, c) && done ==> if cap >= c then AtHome(hash, table[..]) else 2 * cap <= c
    {
      assert Separated(hash, m.Keys + {k}, c) ==> Separated(hash, m.Keys, c);
      TargetOfDouble(cap);
      if Separated(hash, m.Keys, c) && cap < c {
        DoubleBelow(cap, c);
      }
      done := Resize(cap * 2, c);
      if Separated(hash, m.Keys, c) && done && cap < c {
        DoubleBelow(cap, c);
      }
    }

    method Put(key: Key, value: Value, ghost c: nat) returns (r: Call)
      requires Valid()
      modifies this, table
      ensures r.Returned? ==>
          Valid() && m == After(old(m), Op.Put(key, value)) && r.ret == Answer(old(m), Op.Put(key, value))
      ensures cap >= old(cap) && (r.Returned? ==> cap >= PROBE_WINDOW)
      ensures if cap == old(cap) then table == old(table) else fresh(table)
      ensures Separated(hash, old(m.Keys) + {Cut(key)}, c) && Max(c, Max(2 * old(cap), PROBE_WINDOW)) <= memory ==>
                r.Returned? && cap <= Max(c, Max(2 * old(cap), PROBE_WINDOW))
      ensures var keys := old(m.Keys) + {Cut(key)};
        Separated(hash, keys, c) && old(cap) >= Max(c, PROBE_WINDOW) && old(AtHome(hash, table[..])) ==>
          r.Returned? && cap == old(cap)
      ensures old(cap) >= PROBE_WINDOW && |old(m.Keys) + {Cut(key)}| <= PROBE_WINDOW ==> r.Returned? && cap == old(cap)
      ensures Separated(hash, old(m.Keys) + {Cut(key)}, c) && Max(c, PROBE_WINDOW) <= memory && old(Roomy(c)) ==>
          r.Returned? && Roomy(c)
      decreases memory - cap
    {
      var k := Cut(key);
      var done := EnsureWindow();
      if !done {
        return OutOfMemory;
      }
      var ret: Ret;
      done, ret := PutHere(k, value, c);
      if done {
        return Returned(ret);
      }
      done := Grow(k, c);
      if !done {
        return OutOfMemory;
      }
      r := Put(key, value, c);
    }

    method Apply(op: Op, ghost c: nat) returns (r: Call)
      requires Valid()
      modifies this, table
      ensures r.Returned? ==> Valid() && m == After(old(m), op) && r.ret == Answer(old(m), op)
      ensures table == old(table) || fresh(table)
      ensures var keys := old(m.Keys) + KeysOf(op);
        Separated(hash, keys, c) && Max(c, PROBE_WINDOW) <= memory && Affordable(op, memory) && old(Roomy(c)) ==>
          r.Returned? && Roomy(c)
    {
      SeparatedBelow(hash, m.Keys, m.Keys + KeysOf(op), c);
      match op {
        case Put(key, value) => r := Put(key, value, c);
        case Reserve(items) => r := Reserve(items, c);
        case _ => r := ApplyInPlace(op, c);
      }
    }

    /** The calls that make a table of one window at most. */
    method ApplyInPlace(op: Op, ghost c: nat) returns (r: Call)
      requires Valid() && !op.Put? && !op.Reserve?
      modifies this, table
      ensures r.Returned? ==> Valid() && m == After(old(m), op) && r.ret == Answer(old(m), op)
      ensures table == old(table) || fresh(table)
      ensures PROBE_WINDOW <= memory && old(Roomy(c)) ==> r.Returned? && Roomy(c)
    {
      match op {
        case Get(key) => r := Get(key);
        case Xchg(key, value) => r := Xchg(key, value);
        case Del(key) => r := Del(key);
      }
    }

    /** Any sequence of calls answers as the plain map does, up to the call that runs out of memory. None does if the
        hashes of all keys, stored or mentioned, differ modulo some `c`, and the memory has room for `c` buckets, for
        a window, for every reserve, and for twice the table unless its keys lie at home. */
    method Run(ops: seq<Op>, ghost c: nat) returns (rets: seq<Ret>)
      requires Valid()
      modifies this, table
      ensures table == old(table) || fresh(table)
      ensures rets <= Answers(old(m), ops)
      ensures |rets| == |ops| ==> Valid() && m == AfterAll(old(m), ops)
      ensures Ample(hash, memory, old(m.Keys) + AllKeys(ops), ops, c) && old(Roomy(c)) ==> |rets| == |ops| && Roomy(c)
    {
      if ops == [] {
        return [];
      }
      var first, op := ops[..|ops| - 1], ops[|ops| - 1];
      AmpleBefore(hash, memory, m, ops, c);
      rets := Run(first, c);
      AnswersGoOn(old(m), ops, rets);
      if |rets| < |first| {
        return;
      }
      var r := Apply(op, c);
      if r.Returned? {
        rets := rets + [r.ret];
      }
    }
  }

  lemma AnswersGoOn(m: map<Key, Value>, ops: seq<Op>, rets: seq<Ret>)
    requires ops != [] && rets <= Answers(m, ops[..|ops| - 1])
    ensures var first, op := ops[..|ops| - 1], ops[|ops| - 1];
      && rets <= Answers(m, ops) && AfterAll(m, ops) == After(AfterAll(m, first), op)
      && (|rets| == |first| ==> rets + [Answer(AfterAll(m, first), op)] == Answers(m, ops))
  {
  }

  lemma {:induction false} KeysAfterAll(m: map<Key, Value>, ops: seq<Op>)
    ensures AfterAll(m, ops).Keys <= m.Keys + AllKeys(ops)
  {
    if ops != [] {
      KeysAfterAll(m, ops[..|ops| - 1]);
      KeysGrow(ops);
    }
  }

  lemma KeysGrow(ops: seq<Op>)
    requires ops != []
    ensures AllKeys(ops) == AllKeys(ops[..|ops| - 1]) + KeysOf(ops[|ops| - 1])
  {
    var first := ops[..|ops| - 1];
    forall k | k in AllKeys(first) ensures k in AllKeys(ops) {
      var i :| 0 <= i < |first| && k in KeysOf(first[i]);
      assert k in KeysOf(ops[i]);
    }
    forall k | k in AllKeys(ops) ensures k in AllKeys(first) + KeysOf(ops[|ops| - 1]) {
      var i :| 0 <= i < |ops| && k in KeysOf(ops[i]);
      assert i < |first| ==> k in KeysOf(first[i]);
    }
  }

  /** Room for all calls is room for all but the last, and for the last one. */
  lemma AmpleBefore(hash: Hash, memory: nat, m: map<Key, Value>, ops: seq<Op>, c: nat)
    requires ops != []
    ensures var first, op := ops[..|ops| - 1], ops[|ops| - 1];
      Ample(hash, memory, m.Keys + AllKeys(ops), ops, c) ==>
        && Ample(hash, memory, m.Keys + AllKeys(first), first, c)
        && Separated(hash, AfterAll(m, first).Keys + KeysOf(op), c) && Affordable(op, memory)
  {
    var first, op := ops[..|ops| - 1], ops[|ops| - 1];
    KeysGrow(ops);
    KeysAfterAll(m, first);
    SeparatedBelow(hash, m.Keys + AllKeys(first), m.Keys + AllKeys(ops), c);
    SeparatedBelow(hash, AfterAll(m, first).Keys + KeysOf(op), m.Keys + AllKeys(ops), c);
  }

  /** The memory has room for calls on keys whose hashes differ modulo `c`. */
  ghost predicate Ample(hash: Hash, memory: nat, keys: set<Key>, ops: seq<Op>, c: nat) {
    Separated(hash, keys, c) && Max(c, PROBE_WINDOW) <= memory && AllAffordable(ops, memory)
  }

  /** htable_next: the first used bucket after bucket `i`; -1 before the first one and for none. */
  method Next(t: seq<Bucket>, i: int) returns (j: int)
    requires -1 <= i < |t|
    ensures j == -1 || i < j < |t|
    ensures j >= 0 ==> t[j].Used?
    ensures NoneUsed(t, i + 1, Position(j, |t|))
  {
    j := i + 1;
    while j < |t|
      invariant i < j <= |t|
      invariant NoneUsed(t, i + 1, j)
    {
      if t[j].Used? {
        return;
      }
      j := j + 1;
    }
    return -1;
  }

  /** The memory of a table has room for keys whose hashes differ modulo `c`. */
  ghost predicate Suffices(t: Table, keys: set<Key>, c: nat) {
    Separated(t.hash, keys, c) && Max(c, PROBE_WINDOW) <= t.memory
  }

  /** A put of one of the keys that the table has room for. */
  method PutOne(t: Table, key: Key, value: Value, ghost keys: set<Key>, ghost c: nat) returns (r: Call)
    requires t.Valid() && |key| <= KEY_MAX_LEN && t.m.Keys <= keys && key in keys
    modifies t, t.table
    ensures t.table == old(t.table) || fresh(t.table)
    ensures r.Returned? ==>
        t.Valid() && t.m == After(old(t.m), Op.Put(key, value)) && r.ret == Answer(old(t.m), Op.Put(key, value))
    ensures r.Returned? ==> t.m.Keys <= keys
    ensures Suffices(t, keys, c) && old(t.Roomy(c)) ==> r.Returned? && t.Roomy(c)
  {
    SeparatedBelow(t.hash, t.m.Keys + {key}, keys, c);
    r := t.Put(key, value, c);
  }

  /** A lookup leaves as much room as there was. */
  method GetOne(t: Table, key: Key, ghost c: nat) returns (r: Call)
    requires t.Valid() && |key| <= KEY_MAX_LEN
    modifies t
    ensures t.table == old(t.table) || fresh(t.table)
    ensures r.Returned? ==> t.Valid() && t.m == old(t.m) && r.ret == Answer(old(t.m), Op.Get(key))
    ensures PROBE_WINDOW <= t.memory ==> r.Returned? && (old(t.Roomy(c)) ==> t.Roomy(c))
  {
    r := t.Get(key);
  }

  method DiffOne(b: Table, result: Table, key: Key, value: Value, ghost keys: set<Key>, ghost c: nat)
    returns (done: bool)
    requires b.Valid() && result.Valid() && b != result && b.table != result.table && |key| <= KEY_MAX_LEN
    requires result.m.Keys <= keys && (key !in b.m ==> key in keys)
    modifies b, result, result.table
    ensures b.table == old(b.table) || fresh(b.table)
    ensures result.table == old(result.table) || fresh(result.table)
    ensures done ==> b.Valid() && b.m == old(b.m) && result.Valid() && b.table != result.table && result.m.Keys <= keys
    ensures done ==> result.m == if key in b.m then old(result.m) else After(old(result.m), Op.Put(key, value))
    ensures PROBE_WINDOW <= b.memory && Suffices(result, keys, c) && old(result.Roomy(c)) ==> done && result.Roomy(c)
  {
    var got := b.Get(key);
    if got.OutOfMemory? {
      return false;
    }
    if got.ret.ok {
      return true;
    }
    var put := PutOne(result, key, value, keys, c);
    return put.Returned?;
  }

  /** htable_diff: what `a` has and `b` has not goes to `result`, which keeps what it had. */
  method Diff(a: Table, b: Table, result: Table, ghost c: nat) returns (done: bool)
    requires a.Valid() && b.Valid() && result.Valid()
    requires a != result && b != result && a.table != result.table && b.table != result.table
    modifies b, result, result.table
    ensures done ==> b.Valid() && b.m == old(b.m) && result.Valid()
    ensures done ==> result.m == Missing(old(a.m), old(b.m), old(result.m))
    ensures var keys := old(result.m.Keys) + (old(a.m.Keys) - old(b.m.Keys));
      PROBE_WINDOW <= b.memory && Suffices(result, keys, c) && old(result.Roomy(c)) ==> done
  {
    var t := a.table[..];
    StoredKeysAreFresh(a.hash, t, a.m);
    PrefixIsAll(t, a.m);
    done := DiffBuckets(t, b, result, result.m.Keys + (a.m.Keys - b.m.Keys), c);
  }

  lemma StoredKeysAreFresh(hash: Hash, t: seq<Bucket>, m: map<Key, Value>)
    requires Stores(hash, t, m)
    ensures FreshKeys(t) && forall i :: 0 <= i < |t| && t[i].Used? ==> t[i].key in m
  {
    forall i | 0 <= i < |t| && t[i].Used?
      ensures Prefix(t, i + 1) == Prefix(t, i)[t[i].key := t[i].value]
      ensures t[i].key !in Prefix(t, i) && |t[i].key| <= KEY_MAX_LEN && t[i].key in m
    {
      PrefixStep(t, m, i);
    }
  }

  ghost predicate FreshKeys(t: seq<Bucket>) {
    forall i :: 0 <= i < |t| && t[i].Used? ==>
      && Prefix(t, i + 1) == Prefix(t, i)[t[i].key := t[i].value]
      && t[i].key !in Prefix(t, i) && |t[i].key| <= KEY_MAX_LEN
  }

  /** The keys that `b` lacks are among `keys`. */
  ghost predicate Wanted(t: seq<Bucket>, b: map<Key, Value>, keys: set<Key>) {
    forall i :: 0 <= i < |t| && t[i].Used? && t[i].key !in b ==> t[i].key in keys
  }

  /** One bucket further in the loop of htable_diff. */
  lemma MissingAdvance(t: seq<Bucket>, it: nat, next: int, b: map<Key, Value>, r0: map<Key, Value>, r: map<Key, Value>)
    requires FreshKeys(t) && it < |t| && t[it].Used? && (next == -1 || it < next < |t|)
    requires r == Missing(Prefix(t, it), b, r0) && NoneUsed(t, it + 1, Position(next, |t|))
    ensures (if t[it].key in b then r else After(r, Op.Put(t[it].key, t[it].value))) ==
        Missing(Prefix(t, Position(next, |t|)), b, r0)
  {
    MissingStep(Prefix(t, it), b, r0, t[it].key, t[it].value);
    PrefixSkips(t, it + 1, Position(next, |t|));
  }

  /** The loop of htable_diff over the buckets `t` of the first table, which does not change. */
  method DiffBuckets(t: seq<Bucket>, b: Table, result: Table, ghost keys: set<Key>, ghost c: nat) returns (done: bool)
    requires FreshKeys(t) && Wanted(t, b.m, keys)
    requires b.Valid() && result.Valid() && b != result && b.table != result.table && result.m.Keys <= keys
    modifies b, result, result.table
    ensures done ==> b.Valid() && b.m == old(b.m) && result.Valid()
    ensures done ==> result.m == Missing(Prefix(t, |t|), b.m, old(result.m))
    ensures PROBE_WINDOW <= b.memory && Suffices(result, keys, c) && old(result.Roomy(c)) ==> done
  {
    ghost var r0, m := result.m, b.m;
    ghost var ample := PROBE_WINDOW <= b.memory && Suffices(result, keys, c) && result.Roomy(c);
    var it := Next(t, -1);
    MissingNothing(t, m, r0, Position(it, |t|));
    while it >= 0
      invariant -1 <= it < |t| && (it >= 0 ==> t[it].Used?)
      invariant b.Valid() && b.m == m && result.Valid() && b.table != result.table
      invariant fresh(b.table) || b.table == old(b.table)
      invariant fresh(result.table) || result.table == old(result.table)
      invariant result.m == Missing(Prefix(t, Position(it, |t|)), m, r0)
      invariant result.m.Keys <= keys && (ample ==> result.Roomy(c))
      decreases |t| - Position(it, |t|)
    {
      done, it := DiffAt(t, it, b, result, r0, keys, c);
      if !done {
        return;
      }
    }
    return true;
  }

  /** One turn of that loop. */
  method DiffAt(t: seq<Bucket>, it: nat, b: Table, result: Table, ghost r0: map<Key, Value>, ghost keys: set<Key>,
                ghost c: nat)
    returns (done: bool, next: int)
    requires FreshKeys(t) && Wanted(t, b.m, keys) && it < |t| && t[it].Used?
    requires b.Valid() && result.Valid() && b != result && b.table != result.table && result.m.Keys <= keys
    requires result.m == Missing(Prefix(t, it), b.m, r0)
    modifies b, result, result.table
    ensures b.table == old(b.table) || fresh(b.table)
    ensures result.table == old(result.table) || fresh(result.table)
    ensures done ==> (next == -1 || it < next < |t|) && (next >= 0 ==> t[next].Used?)
    ensures done ==> b.Valid() && b.m == old(b.m) && result.Valid() && b.table != result.table && result.m.Keys <= keys
    ensures done ==> result.m == Missing(Prefix(t, Position(next, |t|)), b.m, r0)
    ensures PROBE_WINDOW <= b.memory && Suffices(result, keys, c) && old(result.Roomy(c)) ==> done && result.Roomy(c)
  {
    ghost var r, m := result.m, b.m;
    done := DiffOne(b, result, t[it].key, t[it].value, keys, c);
    if !done {
      return false, it;
    }
    next := DiffNext(t, it, m, r0, r);
  }

  method DiffNext(t: seq<Bucket>, it: nat, ghost b: map<Key, Value>, ghost r0: map<Key, Value>,
                  ghost r: map<Key, Value>)
    returns (next: int)
    requires FreshKeys(t) && it < |t| && t[it].Used? && r == Missing(Prefix(t, it), b, r0)
    ensures (next == -1 || it < next < |t|) && (next >= 0 ==> t[next].Used?)
    ensures (if t[it].key in b then r else After(r, Op.Put(t[it].key, t[it].value))) ==
        Missing(Prefix(t, Position(next, |t|)), b, r0)
  {
    next := Next(t, it);
    MissingAdvance(t, it, next, b, r0, r);
  }
}
