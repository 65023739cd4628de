/**
 The open-addressing hash table: a key may lie in any of the 8 slots from its hash on, deletes leave
 bare holes, and a table in which a key finds no room is rehashed into one at least twice as large,
 as often as it takes. The table refines a plain map from keys, cut at 1024 bytes, to values.
 */
module Buckets {
  import opened Bits

  type Key = string
  type Value = nat
  type Hash = Key -> nat

  const PROBE_WINDOW: nat := 8
  const KEY_MAX_LEN: nat := 1024

  datatype Bucket = Empty | Used(key: Key, value: Value)

  datatype Ret = Ret(ok: bool, value: Value)

  /** strndup and strncmp look at no more than the first 1024 bytes of a key. */
  function Cut(key: Key): (r: Key)
    ensures |r| <= KEY_MAX_LEN && r <= key
    ensures r != key ==> |r| == KEY_MAX_LEN < |key|
  {
    if |key| <= KEY_MAX_LEN then key else key[..KEY_MAX_LEN]
  }

  // ---- what a bucket array means ----

  function SlotOf(h: nat, d: nat, cap: nat): (i: nat)
    requires cap > 0
    ensures i < cap
  {
    (h + d) % cap
  }

  ghost predicate InWindow(h: nat, cap: nat, i: nat) {
    cap > 0 && exists d: nat :: d < PROBE_WINDOW && i == SlotOf(h, d, cap)
  }

  /** The buckets hold exactly the map, each key in one bucket. */
  ghost predicate Holds(t: seq<Bucket>, m: map<Key, Value>) {
    && (forall i :: 0 <= i < |t| && t[i].Used? ==> t[i].key in m && m[t[i].key] == t[i].value)
    && (forall k :: k in m ==> exists i :: 0 <= i < |t| && t[i] == Used(k, m[k]))
    && (forall i, j :: 0 <= i < j < |t| && t[i].Used? && t[j].Used? ==> t[i].key != t[j].key)
  }

  ghost predicate Placed(hash: Hash, t: seq<Bucket>) {
    forall i :: 0 <= i < |t| && t[i].Used? ==> InWindow(hash(t[i].key), |t|, i)
  }

  /** Every key lies in the very first slot of its window. */
  ghost predicate AtHome(hash: Hash, t: seq<Bucket>) {
    forall i :: 0 <= i < |t| && t[i].Used? ==> i == hash(t[i].key) % |t|
  }

  /** Keys whose hashes differ modulo a power of two. */
  ghost predicate Separated(hash: Hash, keys: set<Key>, c: nat) {
    && IsPow2(c) && c > 0
    && forall a, b :: a in keys && b in keys && a != b ==> hash(a) % c != hash(b) % c
  }

  // ---- changing one bucket ----

  function Without(m: map<Key, Value>, k: Key): map<Key, Value> {
    map x | x in m && x != k :: m[x]
  }

  lemma HoldsAfterPut(t: seq<Bucket>, m: map<Key, Value>, i: nat, k: Key, v: Value)
    requires Holds(t, m) && i < |t| && t[i].Empty? && k !in m
    ensures Holds(t[i := Used(k, v)], m[k := v])
  {
    var t', m' := t[i := Used(k, v)], m[k := v];
    forall x | x in m' ensures exists j :: 0 <= j < |t'| && t'[j] == Used(x, m'[x]) {
      if x == k {
        assert t'[i] == Used(x, m'[x]);
      } else {
        var j :| 0 <= j < |t| && t[j] == Used(x, m[x]);
        assert t'[j] == Used(x, m'[x]);
      }
    }
  }

  lemma HoldsAfterUpdate(t: seq<Bucket>, m: map<Key, Value>, i: nat, v: Value)
    requires Holds(t, m) && i < |t| && t[i].Used?
    ensures Holds(t[i := Used(t[i].key, v)], m[t[i].key := v])
  {
    var k := t[i].key;
    var t', m' := t[i := Used(k, v)], m[k := v];
    forall x | x in m' ensures exists j :: 0 <= j < |t'| && t'[j] == Used(x, m'[x]) {
      if x == k {
        assert t'[i] == Used(x, m'[x]);
      } else {
        var j :| 0 <= j < |t| && t[j] == Used(x, m[x]);
        assert t'[j] == Used(x, m'[x]);
      }
    }
  }

  lemma HoldsAfterDelete(t: seq<Bucket>, m: map<Key, Value>, i: nat)
    requires Holds(t, m) && i < |t| && t[i].Used?
    ensures Holds(t[i := Empty], Without(m, t[i].key))
  {
    var k := t[i].key;
    var t', m' := t[i := Empty], Without(m, k);
    forall x | x in m' ensures exists j :: 0 <= j < |t'| && t'[j] == Used(x, m'[x]) {
      var j :| 0 <= j < |t| && t[j] == Used(x, m[x]);
      assert t'[j] == Used(x, m'[x]);
    }
  }

  /** A stored key is found in its window. */
  lemma StoredInWindow(hash: Hash, t: seq<Bucket>, m: map<Key, Value>, k: Key) returns (d: nat)
    requires |t| > 0 && Holds(t, m) && Placed(hash, t) && k in m
    ensures d < PROBE_WINDOW && t[SlotOf(hash(k), d, |t|)] == Used(k, m[k])
  {
    var i :| 0 <= i < |t| && t[i] == Used(k, m[k]);
    assert InWindow(hash(t[i].key), |t|, i);
    d :| d < PROBE_WINDOW && i == SlotOf(hash(k), d, |t|);
  }

  // ---- capacities ----

  /** The doubling loop of htable_resize. */
  function FirstDoubling(c: nat, least: nat): (r: nat)
    requires c > 0
    ensures least <= r && c <= r
    decreases least - c
  {
    if c < least then FirstDoubling(2 * c, least) else c
  }

  lemma {:induction false} DoublingIsPow2(c: nat, least: nat)
    requires c > 0 && IsPow2(c)
    ensures IsPow2(FirstDoubling(c, least))
    decreases least - c
  {
    if c < least {
      var n: nat :| c == Pow2(n);
      assert 2 * c == Pow2(n + 1);
      DoublingIsPow2(2 * c, least);
    }
  }

  /** Doubling from `c` past a doubling of `c` lands on it. */
  lemma {:induction false} DoublingTwice(c: nat, least: nat)
    requires c > 0
    ensures FirstDoubling(c, 2 * FirstDoubling(c, least)) == 2 * FirstDoubling(c, least)
    decreases least - c
  {
    if c < least {
      DoublingTwice(2 * c, least);
      assert FirstDoubling(c, 2 * FirstDoubling(c, least)) == FirstDoubling(2 * c, 2 * FirstDoubling(2 * c, least));
    } else {
      assert FirstDoubling(c, 2 * c) == FirstDoubling(2 * c, 2 * c);
    }
  }

  lemma MultipleIsLarge(c: nat, n: nat)
    requires n > 0
    ensures c * n >= c
  {
    assert c * n == c * (n - 1) + c;
  }

  lemma ModIsUnique(c: nat, q: int, r: int, p: int, s: int)
    requires c * q + r == c * p + s && 0 <= r < c && 0 <= s < c
    ensures r == s
  {
    assert c * (q - p) == c * q - c * p && c * (p - q) == c * p - c * q;
    if q > p {
      MultipleIsLarge(c, q - p);
      assert false;
    }
    if p > q {
      MultipleIsLarge(c, p - q);
      assert false;
    }
  }

  lemma ModOfMultiple(a: nat, c: nat, k: nat)
    requires c > 0 && k > 0 && c * k > 0
    ensures (a % (c * k)) % c == a % c
  {
    var q, r := a / (c * k), a % (c * k);
    var p, s := r / c, r % c;
    assert (c * k) * q == c * (k * q);
    assert c * (k * q + p) == c * (k * q) + c * p;
    ModIsUnique(c, k * q + p, s, a / c, a % c);
  }

  /** Hashes that differ modulo a power of two differ modulo every larger one. */
  lemma SeparatedAbove(hash: Hash, keys: set<Key>, c: nat, cap: nat)
    requires Separated(hash, keys, c) && IsPow2(cap) && c <= cap
    ensures Separated(hash, keys, cap)
  {
    var i: nat :| c == Pow2(i);
    var j: nat :| cap == Pow2(j);
    Pow2IsOrdered(j, i);
    Pow2Adds(i, j - i);
    assert c * Pow2(j - i) == cap;
    forall a, b | a in keys && b in keys && a != b ensures hash(a) % cap != hash(b) % cap {
      ModOfMultiple(hash(a), c, Pow2(j - i));
      ModOfMultiple(hash(b), c, Pow2(j - i));
    }
  }

  lemma DoubleBelow(a: nat, c: nat)
    requires IsPow2(a) && IsPow2(c) && a < c
    ensures 2 * a <= c
  {
    var i: nat :| a == Pow2(i);
    var j: nat :| c == Pow2(j);
    Pow2IsOrdered(i, j);
    Pow2Monotone(i, j);
  }

  // ---- probing ----

  /** The first free slot of a window from distance `d` on; 8 if there is none. */
  function FreeFrom(h: nat, t: seq<Bucket>, d: nat): (e: nat)
    requires |t| > 0 && d <= PROBE_WINDOW
    ensures d <= e <= PROBE_WINDOW
    decreases PROBE_WINDOW - d
  {
    if d == PROBE_WINDOW || t[SlotOf(h, d, |t|)].Empty? then d else FreeFrom(h, t, d + 1)
  }

  lemma {:induction false} FreeMeans(h: nat, t: seq<Bucket>, d: nat)
    requires |t| > 0 && d <= PROBE_WINDOW
    ensures var e := FreeFrom(h, t, d);
            && (e < PROBE_WINDOW ==> t[SlotOf(h, e, |t|)].Empty?)
            && (forall x: nat :: d <= x < e ==> t[SlotOf(h, x, |t|)].Used?)
    decreases PROBE_WINDOW - d
  {
    if d < PROBE_WINDOW && t[SlotOf(h, d, |t|)].Used? {
      FreeMeans(h, t, d + 1);
    }
  }

  /** The first slot of a window, from distance `d` on, that holds key `k`; 8 if there is none. */
  function FoundFrom(h: nat, t: seq<Bucket>, k: Key, d: nat): (e: nat)
    requires |t| > 0 && d <= PROBE_WINDOW
    ensures d <= e <= PROBE_WINDOW
    decreases PROBE_WINDOW - d
  {
    if d == PROBE_WINDOW then d
    else
      var b := t[SlotOf(h, d, |t|)];
      if b.Used? && b.key == k then d else FoundFrom(h, t, k, d + 1)
  }

  lemma {:induction false} FoundMeans(h: nat, t: seq<Bucket>, k: Key, d: nat)
    requires |t| > 0 && d <= PROBE_WINDOW
    ensures var e := FoundFrom(h, t, k, d);
            && (e < PROBE_WINDOW ==> t[SlotOf(h, e, |t|)].Used? && t[SlotOf(h, e, |t|)].key == k)
            && (forall x: nat :: d <= x < e ==> t[SlotOf(h, x, |t|)].Empty? || t[SlotOf(h, x, |t|)].key != k)
    decreases PROBE_WINDOW - d
  {
    if d < PROBE_WINDOW && FoundFrom(h, t, k, d) != d {
      FoundMeans(h, t, k, d + 1);
    }
  }

  /** A window decides membership: the probe finds a key exactly when the map has it, with its value. */
  lemma FoundIffStored(hash: Hash, t: seq<Bucket>, m: map<Key, Value>, k: Key)
    requires |t| > 0 && Holds(t, m) && Placed(hash, t)
    ensures k in m <==> FoundFrom(hash(k), t, k, 0) < PROBE_WINDOW
    ensures k in m ==> t[SlotOf(hash(k), FoundFrom(hash(k), t, k, 0), |t|)] == Used(k, m[k])
  {
    FoundMeans(hash(k), t, k, 0);
    if k in m {
      var d := StoredInWindow(hash, t, m, k);
    }
  }

  lemma SlotsDiffer(h: nat, d: nat, e: nat, cap: nat)
    requires d < e < PROBE_WINDOW <= cap
    ensures SlotOf(h, d, cap) != SlotOf(h, e, cap)
  {
    if SlotOf(h, d, cap) == SlotOf(h, e, cap) {
      var q := (h + e) / cap - (h + d) / cap;
      assert cap * q == cap * ((h + e) / cap) - cap * ((h + d) / cap);
      ModIsUnique(cap, q, 0, 0, e - d);
      assert false;
    }
  }

  ghost predicate FullWindow(h: nat, t: seq<Bucket>) {
    |t| >= PROBE_WINDOW && forall d: nat :: d < PROBE_WINDOW ==> t[SlotOf(h, d, |t|)].Used?
  }

  function KeyAt(h: nat, t: seq<Bucket>, d: nat): (k: Key)
    requires |t| > 0
  {
    var b := t[SlotOf(h, d, |t|)];
    if b.Used? then b.key else ""
  }

  lemma KeysDiffer(h: nat, t: seq<Bucket>, m: map<Key, Value>, d: nat, e: nat)
    requires FullWindow(h, t) && Holds(t, m) && d < e < PROBE_WINDOW
    ensures KeyAt(h, t, d) != KeyAt(h, t, e)
  {
    SlotsDiffer(h, d, e, |t|);
    var i, j := SlotOf(h, d, |t|), SlotOf(h, e, |t|);
    assert t[i].Used? && t[j].Used?;
    assert if i < j then t[i].key != t[j].key else t[j].key != t[i].key;
  }

  lemma {:induction false} DistinctKeysCount(ks: seq<Key>, keys: set<Key>)
    requires forall i, j :: 0 <= i < j < |ks| ==> ks[i] != ks[j]
    requires forall i :: 0 <= i < |ks| ==> ks[i] in keys
    ensures |ks| <= |keys|
  {
    if ks != [] {
      var k := ks[|ks| - 1];
      DistinctKeysCount(ks[..|ks| - 1], keys - {k});
    }
  }

  /** A full window holds 8 different keys. */
  lemma FullWindowIsEightKeys(h: nat, t: seq<Bucket>, m: map<Key, Value>)
    requires FullWindow(h, t) && Holds(t, m)
    ensures |m| >= PROBE_WINDOW
  {
    var ks := seq(PROBE_WINDOW, (d: nat) => KeyAt(h, t, d));
    forall d, e | 0 <= d < e < |ks| ensures ks[d] != ks[e] {
      KeysDiffer(h, t, m, d, e);
    }
    forall d | 0 <= d < |ks| ensures ks[d] in m.Keys {
      assert t[SlotOf(h, d, |t|)].Used?;
    }
    DistinctKeysCount(ks, m.Keys);
    assert |m.Keys| == |m|;
  }

  ghost predicate ShareHash(hash: Hash, keys: set<Key>) {
    forall a, b :: a in keys && b in keys ==> hash(a) == hash(b)
  }

  /** More keys with one hash than a window has slots. */
  ghost predicate Crowded(hash: Hash, keys: set<Key>) {
    exists some {:trigger ShareHash(hash, some)} :: some <= keys && |some| > PROBE_WINDOW && ShareHash(hash, some)
  }

  /** The keys in the first `n` slots of a window. */
  function WindowKeys(h: nat, t: seq<Bucket>, n: nat): set<Key>
    requires |t| > 0
  {
    if n == 0 then {} else
      var b := t[SlotOf(h, n - 1, |t|)];
      WindowKeys(h, t, n - 1) + if b.Used? then {b.key} else {}
  }

  lemma {:induction false} WindowKeysFew(h: nat, t: seq<Bucket>, n: nat)
    requires |t| > 0
    ensures |WindowKeys(h, t, n)| <= n
    ensures forall d: nat :: d < n && t[SlotOf(h, d, |t|)].Used? ==> t[SlotOf(h, d, |t|)].key in WindowKeys(h, t, n)
  {
    if n > 0 { WindowKeysFew(h, t, n - 1); }
  }

  lemma {:induction false} SubsetIsSmaller<T>(a: set<T>, b: set<T>)
    requires a <= b
    ensures |a| <= |b|
  {
    if a != {} {
      var x :| x in a;
      SubsetIsSmaller(a - {x}, b - {x});
    }
  }

  /** However large it is, no table holds nine keys of one hash. */
  lemma CrowdDoesNotFit(hash: Hash, t: seq<Bucket>, m: map<Key, Value>)
    requires |t| > 0 && Holds(t, m) && Placed(hash, t)
    ensures !Crowded(hash, m.Keys)
  {
    forall some | some <= m.Keys && |some| > 0 && ShareHash(hash, some) ensures |some| <= PROBE_WINDOW {
      var a :| a in some;
      var h := hash(a);
      forall k | k in some ensures k in WindowKeys(h, t, PROBE_WINDOW) {
        var d := StoredInWindow(hash, t, m, k);
        WindowKeysFew(h, t, PROBE_WINDOW);
      }
      WindowKeysFew(h, t, PROBE_WINDOW);
      SubsetIsSmaller(some, WindowKeys(h, t, PROBE_WINDOW));
    }
  }

  /** With every stored key at home and hashes apart, a new key finds its own home free. */
  lemma HomeIsFree(hash: Hash, t: seq<Bucket>, m: map<Key, Value>, k: Key, keys: set<Key>)
    requires |t| > 0 && Holds(t, m) && AtHome(hash, t) && k !in m
    requires m.Keys <= keys && k in keys && Separated(hash, keys, |t|)
    ensures FreeFrom(hash(k), t, 0) == 0
  {
    var i := SlotOf(hash(k), 0, |t|);
    assert t[i].Used? ==> false;
  }

  /** One key put in the first free slot of its window. */
  function PutAt(hash: Hash, t: seq<Bucket>, k: Key, v: Value): seq<Bucket>
    requires |t| > 0 && FreeFrom(hash(k), t, 0) < PROBE_WINDOW
  {
    t[SlotOf(hash(k), FreeFrom(hash(k), t, 0), |t|) := Used(k, v)]
  }

  lemma PutAtKeeps(hash: Hash, t: seq<Bucket>, m: map<Key, Value>, k: Key, v: Value)
    requires |t| > 0 && FreeFrom(hash(k), t, 0) < PROBE_WINDOW
    requires Holds(t, m) && Placed(hash, t) && k !in m
    ensures Holds(PutAt(hash, t, k, v), m[k := v]) && Placed(hash, PutAt(hash, t, k, v))
    ensures AtHome(hash, t) && FreeFrom(hash(k), t, 0) == 0 ==> AtHome(hash, PutAt(hash, t, k, v))
  {
    FreeMeans(hash(k), t, 0);
    var d := FreeFrom(hash(k), t, 0);
    var i := SlotOf(hash(k), d, |t|);
    HoldsAfterPut(t, m, i, k, v);
    var t' := PutAt(hash, t, k, v);
    forall j | 0 <= j < |t'| && t'[j].Used? ensures InWindow(hash(t'[j].key), |t'|, j) {
      if j != i {
        assert t'[j] == t[j];
      }
    }
  }

  // ---- what a rehash has moved ----

  function Prefix(t: seq<Bucket>, n: nat): map<Key, Value>
    requires n <= |t|
  {
    if n == 0 then map[]
    else if t[n - 1].Used? then Prefix(t, n - 1)[t[n - 1].key := t[n - 1].value]
    else Prefix(t, n - 1)
  }

  lemma {:induction false} PrefixMeans(t: seq<Bucket>, m: map<Key, Value>, n: nat)
    requires n <= |t| && Holds(t, m)
    ensures forall i :: 0 <= i < n && t[i].Used? ==> t[i].key in Prefix(t, n)
    ensures forall k :: k in Prefix(t, n) ==> k in m && Prefix(t, n)[k] == m[k]
    ensures forall i :: n <= i < |t| && t[i].Used? ==> t[i].key !in Prefix(t, n)
  {
    if n > 0 {
      PrefixMeans(t, m, n - 1);
    }
  }

  lemma PrefixIsAll(t: seq<Bucket>, m: map<Key, Value>)
    requires Holds(t, m)
    ensures Prefix(t, |t|) == m
  {
    PrefixMeans(t, m, |t|);
    forall k | k in m ensures k in Prefix(t, |t|) {
      var i :| 0 <= i < |t| && t[i] == Used(k, m[k]);
    }
  }
}
