/**
 One poll over a list of regions. Lenses that share a key are gathered in one record, found through the
 value table; the records are then handed to the backends between a begin and a done mark.
 */
module Poller {
  import opened Wrappers
  import opened Counter
  import Buckets
  import HashTable

  type Key = string

  const NAME_MAX_LEN: nat := 256

  datatype Kind = CounterKind | GaugeKind | DistKind | HistoKind | QuantileKind

  /** A lens as the poller meets it. The slots are those of a counter. */
  datatype Lens = Lens(key: Key, kind: Kind, even: int, odd: int) {
    function Slot(epoch: bool): int { if epoch then odd else even }

    /** The slot left empty by a counter read. */
    function Drained(epoch: bool): Lens {
      if !kind.CounterKind? then this else if epoch then this.(odd := 0) else this.(even := 0)
    }
  }

  /** A region after its epoch bump: the epoch it left, the time of the poll before, and the lenses its
      traversal meets. */
  datatype Region = Region(epoch: bool, lastPoll: nat, ids: seq<nat>)

  datatype Visit = Visit(id: nat, epoch: bool, elapsed: nat)

  /** A poll record. `fed` lists the visits that were read into its value. */
  datatype Record = Record(key: Key, kind: Kind, ts: nat, elapsed: nat, counter: int, fed: seq<Visit>)

  datatype Event = Begin | Metric(record: Record) | Done

  /** The time since the last poll; 1 if the clock has not moved forward. */
  function Elapsed(ts: nat, last: nat): (e: nat)
    ensures e > 0
    ensures if last < ts then last + e == ts else e == 1
  {
    if ts > last then ts - last else 1
  }

  function VisitsOf(r: Region, ts: nat): (vs: seq<Visit>)
    ensures |vs| == |r.ids|
    ensures forall i :: 0 <= i < |vs| ==> vs[i] == Visit(r.ids[i], r.epoch, Elapsed(ts, r.lastPoll))
  {
    seq(|r.ids|, i requires 0 <= i < |r.ids| => Visit(r.ids[i], r.epoch, Elapsed(ts, r.lastPoll)))
  }

  function Visits(rs: seq<Region>, ts: nat): seq<Visit> {
    if rs == [] then [] else Visits(rs[..|rs| - 1], ts) + VisitsOf(rs[|rs| - 1], ts)
  }

  // ---- what a poll should report ----

  ghost predicate InRange(ls: seq<Lens>, vs: seq<Visit>) {
    forall i :: 0 <= i < |vs| ==> vs[i].id < |ls|
  }

  /** The kind of the first lens met under a key. */
  function FirstKind(ls: seq<Lens>, vs: seq<Visit>, k: Key): Option<Kind>
    requires InRange(ls, vs)
  {
    if vs == [] then None
    else
      var before, last := FirstKind(ls, vs[..|vs| - 1], k), ls[vs[|vs| - 1].id];
      if before.Some? then before else if last.key == k then Some(last.kind) else None
  }

  /** The visits whose lens has the key and the kind of the first lens met under it. */
  function Fed(ls: seq<Lens>, vs: seq<Visit>, k: Key): seq<Visit>
    requires InRange(ls, vs)
  {
    if vs == [] then []
    else
      var before, last := Fed(ls, vs[..|vs| - 1], k), vs[|vs| - 1];
      if ls[last.id].key == k && FirstKind(ls, vs, k) == Some(ls[last.id].kind) then before + [last] else before
  }

  function Sum(ls: seq<Lens>, vs: seq<Visit>): int
    requires InRange(ls, vs)
  {
    if vs == [] then 0
    else var last := vs[|vs| - 1]; Sum(ls, vs[..|vs| - 1]) + ls[last.id].Slot(last.epoch)
  }

  function MaxElapsed(ls: seq<Lens>, vs: seq<Visit>, k: Key): nat
    requires InRange(ls, vs)
  {
    if vs == [] then 0
    else
      var before, last := MaxElapsed(ls, vs[..|vs| - 1], k), vs[|vs| - 1];
      if ls[last.id].key == k && last.elapsed > before then last.elapsed else before
  }

  lemma {:induction false} FedInRange(ls: seq<Lens>, vs: seq<Visit>, k: Key)
    requires InRange(ls, vs)
    ensures InRange(ls, Fed(ls, vs, k))
  {
    if vs != [] {
      FedInRange(ls, vs[..|vs| - 1], k);
    }
  }

  ghost function Report(ls: seq<Lens>, vs: seq<Visit>, k: Key, ts: nat): (r: Record)
    requires InRange(ls, vs) && FirstKind(ls, vs, k).Some?
  {
    FedInRange(ls, vs, k);
    var kind, fed := FirstKind(ls, vs, k).value, Fed(ls, vs, k);
    Record(k, kind, ts, MaxElapsed(ls, vs, k), Tally(ls, kind, fed), fed)
  }

  /** A lens after the visits: drained if it was read. */
  function LensAfter(ls: seq<Lens>, vs: seq<Visit>, id: nat): Lens
    requires InRange(ls, vs) && id < |ls|
  {
    if vs == [] then ls[id]
    else
      var last := vs[|vs| - 1];
      if last.id == id && FirstKind(ls, vs, ls[id].key) == Some(ls[id].kind) then ls[id].Drained(last.epoch)
      else LensAfter(ls, vs[..|vs| - 1], id)
  }

  // ---- what those definitions say ----

  lemma {:induction false} FirstKindIsOfTheFirst(ls: seq<Lens>, vs: seq<Visit>, k: Key)
    requires InRange(ls, vs)
    ensures match FirstKind(ls, vs, k)
            case None => forall i :: 0 <= i < |vs| ==> ls[vs[i].id].key != k
            case Some(kind) => exists i :: 0 <= i < |vs| && ls[vs[i].id].key == k && ls[vs[i].id].kind == kind
                                           && forall j :: 0 <= j < i ==> ls[vs[j].id].key != k
  {
    if vs != [] {
      FirstKindIsOfTheFirst(ls, vs[..|vs| - 1], k);
      var n := |vs| - 1;
      if FirstKind(ls, vs[..n], k).Some? {
        var i :| 0 <= i < n && ls[vs[..n][i].id].key == k && ls[vs[..n][i].id].kind == FirstKind(ls, vs, k).value
                 && forall j :: 0 <= j < i ==> ls[vs[..n][j].id].key != k;
        assert forall j :: 0 <= j < i ==> vs[j] == vs[..n][j];
        assert vs[i] == vs[..n][i];
      } else {
        assert forall j :: 0 <= j < n ==> vs[j] == vs[..n][j];
      }
    }
  }

  lemma {:induction false} MaxElapsedIsTheMaximum(ls: seq<Lens>, vs: seq<Visit>, k: Key)
    requires InRange(ls, vs)
    ensures forall v :: v in vs && ls[v.id].key == k ==> v.elapsed <= MaxElapsed(ls, vs, k)
    ensures MaxElapsed(ls, vs, k) == 0 || exists v :: v in vs && ls[v.id].key == k && v.elapsed == MaxElapsed(ls, vs, k)
  {
    if vs != [] {
      var n := |vs| - 1;
      MaxElapsedIsTheMaximum(ls, vs[..n], k);
      assert vs == vs[..n] + [vs[n]];
    }
  }

  lemma {:induction false} FedAreTheMatching(ls: seq<Lens>, vs: seq<Visit>, k: Key, v: Visit)
    requires InRange(ls, vs)
    ensures v in Fed(ls, vs, k) <==> v in vs && ls[v.id].key == k && FirstKind(ls, vs, k) == Some(ls[v.id].kind)
  {
    if vs != [] {
      var n := |vs| - 1;
      assert vs == vs[..n] + [vs[n]];
      FedAreTheMatching(ls, vs[..n], k, v);
      FirstKindIsOfTheFirst(ls, vs[..n], k);
    }
  }

  /** A lens that no visit read, in particular one of another kind than the first of its key, keeps its slots. */
  lemma {:induction false} UnreadLensIsUntouched(ls: seq<Lens>, vs: seq<Visit>, id: nat)
    requires InRange(ls, vs) && id < |ls|
    requires forall v :: v in vs && v.id == id ==> v !in Fed(ls, vs, ls[id].key)
    ensures LensAfter(ls, vs, id) == ls[id]
  {
    if vs != [] {
      var n := |vs| - 1;
      assert vs == vs[..n] + [vs[n]];
      forall v | v in vs[..n] && v.id == id ensures v !in Fed(ls, vs[..n], ls[id].key) {
        assert v in vs;
        FedAreTheMatching(ls, vs, ls[id].key, v);
        FedAreTheMatching(ls, vs[..n], ls[id].key, v);
      }
      FedAreTheMatching(ls, vs, ls[id].key, vs[n]);
      UnreadLensIsUntouched(ls, vs[..n], id);
    }
  }

  lemma {:induction false} UnmetLensIsUntouched(ls: seq<Lens>, vs: seq<Visit>, id: nat)
    requires InRange(ls, vs) && id < |ls| && forall i :: 0 <= i < |vs| ==> vs[i].id != id
    ensures LensAfter(ls, vs, id) == ls[id]
  {
    if vs != [] {
      UnmetLensIsUntouched(ls, vs[..|vs| - 1], id);
    }
  }

  // ---- one visit ----

  /** poller_get_value: the record of the key, its elapsed time raised, or a new one. */
  function Opened(r: Option<Record>, l: Lens, v: Visit, ts: nat): Record {
    match r
    case Some(r) => if v.elapsed > r.elapsed then r.(elapsed := v.elapsed) else r
    case None => Record(l.key, l.kind, ts, v.elapsed, 0, [])
  }

  /** The read of a lens into a record: refused if the kinds differ. */
  function Read(r: Record, l: Lens, v: Visit): Record {
    if r.kind != l.kind then r
    else r.(counter := if r.kind.CounterKind? then Wrap(r.counter + l.Slot(v.epoch)) else r.counter, fed := r.fed + [v])
  }

  ghost function ReportIfSeen(ls: seq<Lens>, vs: seq<Visit>, k: Key, ts: nat): Option<Record>
    requires InRange(ls, vs)
  {
    if FirstKind(ls, vs, k).Some? then Some(Report(ls, vs, k, ts)) else None
  }

  lemma {:induction false} UnseenKey(ls: seq<Lens>, vs: seq<Visit>, k: Key)
    requires InRange(ls, vs) && FirstKind(ls, vs, k).None?
    ensures Fed(ls, vs, k) == [] && MaxElapsed(ls, vs, k) == 0
  {
    if vs != [] {
      UnseenKey(ls, vs[..|vs| - 1], k);
    }
  }

  lemma SumAppends(ls: seq<Lens>, vs: seq<Visit>, v: Visit)
    requires InRange(ls, vs) && v.id < |ls|
    ensures Sum(ls, vs + [v]) == Sum(ls, vs) + ls[v.id].Slot(v.epoch)
  {
    assert (vs + [v])[..|vs|] == vs;
  }

  lemma ReportOfOtherKey(ls: seq<Lens>, vs: seq<Visit>, v: Visit, k: Key, ts: nat)
    requires InRange(ls, vs) && v.id < |ls| && ls[v.id].key != k
    ensures InRange(ls, vs + [v]) && ReportIfSeen(ls, vs + [v], k, ts) == ReportIfSeen(ls, vs, k, ts)
  {
    assert (vs + [v])[..|vs|] == vs;
  }

  /** The parts of a report after one more visit under its key. */
  lemma PartsOfThisKey(ls: seq<Lens>, vs: seq<Visit>, v: Visit)
    requires InRange(ls, vs) && v.id < |ls|
    ensures var l, vs' := ls[v.id], vs + [v];
            var kind := if FirstKind(ls, vs, l.key).Some? then FirstKind(ls, vs, l.key).value else l.kind;
            && InRange(ls, vs') && InRange(ls, Fed(ls, vs, l.key))
            && FirstKind(ls, vs', l.key) == Some(kind)
            && Fed(ls, vs', l.key) == (if kind == l.kind then Fed(ls, vs, l.key) + [v] else Fed(ls, vs, l.key))
            && MaxElapsed(ls, vs', l.key) == HashTable.Max(MaxElapsed(ls, vs, l.key), v.elapsed)
  {
    assert (vs + [v])[..|vs|] == vs;
    FedInRange(ls, vs, ls[v.id].key);
  }

  /** The counter of a record: the wrapped sum of what was fed to it. */
  ghost function Tally(ls: seq<Lens>, kind: Kind, fed: seq<Visit>): int
    requires InRange(ls, fed)
  {
    if kind.CounterKind? then Wrap(Sum(ls, fed)) else 0
  }

  lemma TallyAppends(ls: seq<Lens>, kind: Kind, fed: seq<Visit>, v: Visit)
    requires InRange(ls, fed) && v.id < |ls|
    ensures InRange(ls, fed + [v])
    ensures Tally(ls, kind, fed + [v]) ==
            if kind.CounterKind? then Wrap(Tally(ls, kind, fed) + ls[v.id].Slot(v.epoch)) else Tally(ls, kind, fed)
  {
    SumAppends(ls, fed, v);
    WrapAdd(Sum(ls, fed), ls[v.id].Slot(v.epoch));
  }

  /** One visit more: what the read makes of a record, from the parts of the record. */
  lemma ReadAppends(ls: seq<Lens>, kind: Kind, fed: seq<Visit>, elapsed: nat, v: Visit, ts: nat)
    requires InRange(ls, fed) && v.id < |ls|
    ensures InRange(ls, fed + [v])
    ensures var l := ls[v.id];
            var more := if kind == l.kind then fed + [v] else fed;
            Read(Record(l.key, kind, ts, elapsed, Tally(ls, kind, fed), fed), l, v) ==
            Record(l.key, kind, ts, elapsed, Tally(ls, kind, more), more)
  {
    TallyAppends(ls, kind, fed, v);
  }

  lemma ReportOfThisKey(ls: seq<Lens>, vs: seq<Visit>, v: Visit, ts: nat)
    requires InRange(ls, vs) && v.id < |ls| && v.elapsed > 0
    ensures InRange(ls, vs + [v])
    ensures var l := ls[v.id];
            ReportIfSeen(ls, vs + [v], l.key, ts) == Some(Read(Opened(ReportIfSeen(ls, vs, l.key, ts), l, v, ts), l, v))
  {
    var l := ls[v.id];
    PartsOfThisKey(ls, vs, v);
    var kind, fed := FirstKind(ls, vs + [v], l.key).value, Fed(ls, vs, l.key);
    ReadAppends(ls, kind, fed, MaxElapsed(ls, vs + [v], l.key), v, ts);
    if FirstKind(ls, vs, l.key).None? {
      UnseenKey(ls, vs, l.key);
      assert Tally(ls, l.kind, []) == 0;
    }
  }

  // ---- the records of a run of visits, found through an index ----

  ghost predicate Gathered(ls: seq<Lens>, vs: seq<Visit>, ts: nat, rs: seq<Record>, index: map<Key, nat>) {
    && InRange(ls, vs)
    && (forall i :: 0 <= i < |rs| ==> rs[i].key in index && index[rs[i].key] == i)
    && (forall k :: k in index ==> index[k] < |rs| && ReportIfSeen(ls, vs, k, ts) == Some(rs[index[k]]))
    && (forall k :: k !in index ==> ReportIfSeen(ls, vs, k, ts) == None)
  }

  lemma GatherKnown(ls: seq<Lens>, vs: seq<Visit>, ts: nat, rs: seq<Record>, index: map<Key, nat>, v: Visit)
    requires Gathered(ls, vs, ts, rs, index) && v.id < |ls| && v.elapsed > 0 && ls[v.id].key in index
    ensures var l := ls[v.id];
            var i := index[l.key];
            Gathered(ls, vs + [v], ts, rs[i := Read(Opened(Some(rs[i]), l, v, ts), l, v)], index)
  {
    ReportOfThisKey(ls, vs, v, ts);
    forall k | k != ls[v.id].key ensures ReportIfSeen(ls, vs + [v], k, ts) == ReportIfSeen(ls, vs, k, ts) {
      ReportOfOtherKey(ls, vs, v, k, ts);
    }
  }

  lemma GatherNew(ls: seq<Lens>, vs: seq<Visit>, ts: nat, rs: seq<Record>, index: map<Key, nat>, v: Visit)
    requires Gathered(ls, vs, ts, rs, index) && v.id < |ls| && v.elapsed > 0 && ls[v.id].key !in index
    ensures var l := ls[v.id];
            Gathered(ls, vs + [v], ts, rs + [Read(Opened(None, l, v, ts), l, v)], index[l.key := |rs|])
  {
    ReportOfThisKey(ls, vs, v, ts);
    forall k | k != ls[v.id].key ensures ReportIfSeen(ls, vs + [v], k, ts) == ReportIfSeen(ls, vs, k, ts) {
      ReportOfOtherKey(ls, vs, v, k, ts);
    }
  }

  /** The lenses as the visits leave them. */
  ghost predicate Cells(now: seq<Lens>, ls: seq<Lens>, vs: seq<Visit>) {
    && |now| == |ls| && InRange(ls, vs)
    && forall id :: 0 <= id < |ls| ==> now[id] == LensAfter(ls, vs, id)
  }

  lemma CellsStep(now: seq<Lens>, ls: seq<Lens>, vs: seq<Visit>, v: Visit)
    requires Cells(now, ls, vs) && v.id < |ls|
    ensures var l := ls[v.id];
            var after := if FirstKind(ls, vs + [v], l.key) ==
                Some(l.kind) then now[v.id := l.Drained(v.epoch)] else now;
            Cells(after, ls, vs + [v])
  {
    assert (vs + [v])[..|vs|] == vs;
  }

  /** The kind of the record that a visit opens is that of the first lens of its key. */
  lemma OpenedKind(ls: seq<Lens>, vs: seq<Visit>, v: Visit, ts: nat)
    requires InRange(ls, vs) && v.id < |ls|
    ensures var l := ls[v.id];
            FirstKind(ls, vs + [v], l.key) == Some(Opened(ReportIfSeen(ls, vs, l.key, ts), l, v, ts).kind)
  {
    assert (vs + [v])[..|vs|] == vs;
  }

  ghost predicate ShortKeys(ls: seq<Lens>) {
    forall i :: 0 <= i < |ls| ==> |ls[i].key| < NAME_MAX_LEN
  }

  /** The keys of the lenses visited. */
  ghost function KeysMet(ls: seq<Lens>, vs: seq<Visit>): set<Key>
    requires InRange(ls, vs)
  {
    set i | 0 <= i < |vs| :: ls[vs[i].id].key
  }

  /** poller_get_value: the place of the record of a key among the records. It is had whenever the memory has room for
      the keys to be met. */
  method GetValue(values: HashTable.Table, rs: seq<Record>, l: Lens, v: Visit, ts: nat, ghost keys: set<Key>,
                  ghost c: nat)
    returns (done: bool, at: nat, out: seq<Record>)
    requires values.Valid() && |l.key| < NAME_MAX_LEN && values.m.Keys <= keys && l.key in keys
    requires forall k :: k in values.m ==> values.m[k] < |rs|
    modifies values, values.table
    ensures values.table == old(values.table) || fresh(values.table)
    ensures done ==> values.Valid()
    ensures done && l.key in old(values.m) ==>
              && values.m == old(values.m) && at == values.m[l.key] < |rs| == |out|
              && out == rs[at := Opened(Some(rs[at]), l, v, ts)]
    ensures done && l.key !in old(values.m) ==>
              && values.m == old(values.m)[l.key := |rs|] && at == |rs|
              && out == rs + [Opened(None, l, v, ts)]
    ensures HashTable.Suffices(values, keys, c) && old(values.Roomy(c)) ==> done && values.Roomy(c)
  {
    var got := HashTable.GetOne(values, l.key, c);
    if got.OutOfMemory? {
      return false, 0, rs;
    }
    if got.ret.ok {
      at := got.ret.value;
      return true, at, rs[at := Opened(Some(rs[at]), l, v, ts)];
    }
    var put := HashTable.PutOne(values, l.key, |rs|, keys, c);
    if put.OutOfMemory? {
      return false, 0, rs;
    }
    assert put.ret.ok;
    return true, |rs|, rs + [Opened(None, l, v, ts)];
  }

  lemma UpdateTwice(rs: seq<Record>, i: nat, a: Record, b: Record)
    requires i <= |rs|
    ensures i < |rs| ==> rs[i := a][i := b] == rs[i := b]
    ensures (rs + [a])[|rs| := b] == rs + [b]
  {
  }

  /** The record side of poller_poll_lens. */
  method Gather(values: HashTable.Table, rs: seq<Record>, l: Lens, v: Visit, ts: nat, ghost ls: seq<Lens>,
                ghost vs: seq<Visit>, ghost keys: set<Key>, ghost c: nat)
    returns (done: bool, next: seq<Record>, kind: Kind)
    requires values.Valid() && Gathered(ls, vs, ts, rs, values.m)
    requires v.id < |ls| && l == ls[v.id] && |l.key| < NAME_MAX_LEN && v.elapsed > 0 && values.m.Keys <= keys
    requires l.key in keys
    modifies values, values.table
    ensures values.table == old(values.table) || fresh(values.table)
    ensures done ==> values.Valid() && Gathered(ls, vs + [v], ts, next, values.m)
    ensures done ==> FirstKind(ls, vs + [v], l.key) == Some(kind) && values.m.Keys <= keys
    ensures HashTable.Suffices(values, keys, c) && old(values.Roomy(c)) ==> done && values.Roomy(c)
  {
    ghost var m := values.m;
    if l.key in m {
      GatherKnown(ls, vs, ts, rs, m, v);
    } else {
      GatherNew(ls, vs, ts, rs, m, v);
    }
    OpenedKind(ls, vs, v, ts);
    var at: nat;
    done, at, next := GetValue(values, rs, l, v, ts, keys, c);
    if !done {
      return false, rs, l.kind;
    }
    var record := next[at];
    kind := record.kind;
    UpdateTwice(rs, at, record, Read(record, l, v));
    next := next[at := Read(record, l, v)];
  }

  /** poller_poll_lens. */
  method PollLens(lenses: array<Lens>, values: HashTable.Table, rs: seq<Record>, v: Visit, ts: nat,
                  ghost ls: seq<Lens>, ghost vs: seq<Visit>, ghost keys: set<Key>, ghost c: nat)
    returns (done: bool, next: seq<Record>)
    requires values.Valid() && Gathered(ls, vs, ts, rs, values.m)
    requires Cells(lenses[..], ls, vs) && ShortKeys(ls)
    requires v.id < |ls| && v.elapsed > 0 && forall i :: 0 <= i < |vs| ==> vs[i].id != v.id
    requires values.m.Keys <= keys && ls[v.id].key in keys
    modifies lenses, values, values.table
    ensures values.table == old(values.table) || fresh(values.table)
    ensures done ==> values.Valid() && Gathered(ls, vs + [v], ts, next, values.m)
    ensures done ==> Cells(lenses[..], ls, vs + [v]) && values.m.Keys <= keys
    ensures HashTable.Suffices(values, keys, c) && old(values.Roomy(c)) ==> done && values.Roomy(c)
  {
    UnmetLensIsUntouched(ls, vs, v.id);
    ghost var cells := lenses[..];
    var l := lenses[v.id];
    CellsStep(cells, ls, vs, v);
    var kind: Kind;
    done, next, kind := Gather(values, rs, l, v, ts, ls, vs, keys, c);
    if done {
      Drain(lenses, v, l, kind);
    }
  }

  method Drain(lenses: array<Lens>, v: Visit, l: Lens, kind: Kind)
    requires v.id < lenses.Length
    modifies lenses
    ensures lenses[..] == if kind == l.kind then old(lenses[..])[v.id := l.Drained(v.epoch)] else old(lenses[..])
  {
    if kind == l.kind {
      lenses[v.id] := l.Drained(v.epoch);
    }
  }

  ghost predicate OncePerLens(vs: seq<Visit>) {
    forall i, j :: 0 <= i < j < |vs| ==> vs[i].id != vs[j].id
  }

  lemma VisitIsNew(ls: seq<Lens>, all: seq<Visit>, n: nat, seen: seq<Visit>, v: Visit, keys: set<Key>)
    requires n < |all| && InRange(ls, all) && OncePerLens(all) && seen == all[..n] && v == all[n]
    requires KeysMet(ls, all) <= keys
    ensures v.id < |ls| && all[..n + 1] == seen + [v] && ls[v.id].key in keys
    ensures forall i :: 0 <= i < |seen| ==> seen[i].id != v.id
  {
    assert ls[all[n].id].key in KeysMet(ls, all);
  }

  /** The callback on the next lens, which `all` has after those seen. */
  method PollNext(lenses: array<Lens>, values: HashTable.Table, rs: seq<Record>, v: Visit, ts: nat, ghost ls: seq<Lens>,
                  ghost all: seq<Visit>, ghost seen: seq<Visit>, ghost keys: set<Key>, ghost c: nat)
    returns (done: bool, next: seq<Record>)
    requires seen + [v] <= all && v.elapsed > 0 && InRange(ls, all) && OncePerLens(all)
    requires values.Valid() && Gathered(ls, seen, ts, rs, values.m)
    requires Cells(lenses[..], ls, seen) && ShortKeys(ls)
    requires values.m.Keys <= keys && KeysMet(ls, all) <= keys
    modifies lenses, values, values.table
    ensures values.table == old(values.table) || fresh(values.table)
    ensures done ==> values.Valid() && Gathered(ls, seen + [v], ts, next, values.m)
    ensures done ==> Cells(lenses[..], ls, seen + [v]) && values.m.Keys <= keys
    ensures HashTable.Suffices(values, keys, c) && old(values.Roomy(c)) ==> done && values.Roomy(c)
  {
    assert all[|seen|] == (seen + [v])[|seen|];
    VisitIsNew(ls, all, |seen|, seen, v, keys);
    done, next := PollLens(lenses, values, rs, v, ts, ls, seen, keys, c);
  }

  lemma NextVisit(region: Region, i: nat, ts: nat, vs: seq<Visit>, seen: seq<Visit>, v: Visit)
    requires i < |region.ids| && v == Visit(region.ids[i], region.epoch, Elapsed(ts, region.lastPoll))
    requires seen <= vs + VisitsOf(region, ts) && |seen| == |vs| + i
    ensures seen + [v] <= vs + VisitsOf(region, ts)
  {
    assert (vs + VisitsOf(region, ts))[|seen|] == v;
  }

  /** poller_poll_optics. */
  method PollOptics(lenses: array<Lens>, values: HashTable.Table, rs: seq<Record>, region: Region, ts: nat,
                    ghost ls: seq<Lens>, ghost vs: seq<Visit>, ghost keys: set<Key>, ghost c: nat)
    returns (done: bool, next: seq<Record>)
    requires values.Valid() && Gathered(ls, vs, ts, rs, values.m)
    requires Cells(lenses[..], ls, vs) && ShortKeys(ls)
    requires InRange(ls, vs + VisitsOf(region, ts)) && OncePerLens(vs + VisitsOf(region, ts))
    requires values.m.Keys <= keys && KeysMet(ls, vs + VisitsOf(region, ts)) <= keys
    modifies lenses, values, values.table
    ensures values.table == old(values.table) || fresh(values.table)
    ensures done ==> values.Valid() && Gathered(ls, vs + VisitsOf(region, ts), ts, next, values.m)
    ensures done ==> Cells(lenses[..], ls, vs + VisitsOf(region, ts)) && values.m.Keys <= keys
    ensures HashTable.Suffices(values, keys, c) && old(values.Roomy(c)) ==> done && values.Roomy(c)
  {
    ghost var ample := HashTable.Suffices(values, keys, c) && values.Roomy(c);
    ghost var all, seen := vs + VisitsOf(region, ts), vs;
    done, next := true, rs;
    for i := 0 to |region.ids|
      invariant values.table == old(values.table) || fresh(values.table)
      invariant done && |seen| == |vs| + i && seen <= all
      invariant values.Valid() && Gathered(ls, seen, ts, next, values.m)
      invariant Cells(lenses[..], ls, seen)
      invariant values.m.Keys <= keys && (ample ==> values.Roomy(c))
    {
      var v := Visit(region.ids[i], region.epoch, Elapsed(ts, region.lastPoll));
      NextVisit(region, i, ts, vs, seen, v);
      done, next := PollNext(lenses, values, next, v, ts, ls, all, seen, keys, c);
      if !done {
        return;
      }
      seen := seen + [v];
    }
    assert seen == all;
  }

  // ---- emission ----

  /** One metric per key, each the report of its key. */
  ghost predicate Emitted(metrics: seq<Record>, keys: map<Key, nat>, rs: seq<Record>) {
    && (forall i :: 0 <= i < |metrics| ==>
          metrics[i].key in keys && keys[metrics[i].key] < |rs| && metrics[i] == rs[keys[metrics[i].key]])
    && (forall i, j :: 0 <= i < j < |metrics| ==> metrics[i].key != metrics[j].key)
    && (forall k :: k in keys ==> exists i :: 0 <= i < |metrics| && metrics[i].key == k)
  }

  lemma EmitStep(metrics: seq<Record>, keys: map<Key, nat>, rs: seq<Record>, k: Key, at: nat)
    requires Emitted(metrics, keys, rs) && k !in keys && at < |rs| && rs[at].key == k
    ensures Emitted(metrics + [rs[at]], keys[k := at], rs)
  {
    var more, known := metrics + [rs[at]], keys[k := at];
    forall x | x in known ensures exists i :: 0 <= i < |more| && more[i].key == x {
      if x == k {
        assert more[|metrics|].key == x;
      } else {
        var i :| 0 <= i < |metrics| && metrics[i].key == x;
        assert more[i].key == x;
      }
    }
  }

  /** The record of one bucket goes to the backends. */
  method EmitOne(t: seq<Buckets.Bucket>, it: nat, rs: seq<Record>, ghost index: map<Key, nat>, metrics: seq<Record>)
    returns (next: int, more: seq<Record>)
    requires Buckets.Holds(t, index) && it < |t| && t[it].Used? && Emitted(metrics, Buckets.Prefix(t, it), rs)
    requires forall k :: k in index ==> index[k] < |rs| && rs[index[k]].key == k
    ensures (next == -1 || it < next < |t|) && (next >= 0 ==> t[next].Used?)
    ensures Emitted(more, Buckets.Prefix(t, HashTable.Position(next, |t|)), rs)
  {
    BucketPoints(t, index, rs, it);
    EmitStep(metrics, Buckets.Prefix(t, it), rs, t[it].key, t[it].value);
    more := metrics + [rs[t[it].value]];
    next := HashTable.Next(t, it);
    HashTable.PrefixSkips(t, it + 1, HashTable.Position(next, |t|));
  }

  /** The loop over the value table. */
  method Emit(t: seq<Buckets.Bucket>, rs: seq<Record>, ghost index: map<Key, nat>) returns (metrics: seq<Record>)
    requires Buckets.Holds(t, index)
    requires forall k :: k in index ==> index[k] < |rs| && rs[index[k]].key == k
    ensures Emitted(metrics, index, rs)
  {
    metrics := [];
    var it := HashTable.Next(t, -1);
    HashTable.PrefixSkips(t, 0, HashTable.Position(it, |t|));
    while it >= 0
      invariant -1 <= it < |t| && (it >= 0 ==> t[it].Used?)
      invariant Emitted(metrics, Buckets.Prefix(t, HashTable.Position(it, |t|)), rs)
      decreases |t| - HashTable.Position(it, |t|)
    {
      it, metrics := EmitOne(t, it, rs, index, metrics);
    }
    Buckets.PrefixIsAll(t, index);
  }

  lemma BucketPoints(t: seq<Buckets.Bucket>, index: map<Key, nat>, rs: seq<Record>, i: nat)
    requires Buckets.Holds(t, index) && i < |t| && t[i].Used?
    requires forall k :: k in index ==> index[k] < |rs| && rs[index[k]].key == k
    ensures t[i].value < |rs| && rs[t[i].value].key == t[i].key && t[i].key !in Buckets.Prefix(t, i)
    ensures Buckets.Prefix(t, i + 1) == Buckets.Prefix(t, i)[t[i].key := t[i].value]
  {
    HashTable.PrefixStep(t, index, i);
  }

  function Events(metrics: seq<Record>): seq<Event> {
    [Begin] + seq(|metrics|, i requires 0 <= i < |metrics| => Metric(metrics[i])) + [Done]
  }

  /** The backends are told of the begin, of each metric, and of the end, in this order. */
  ghost predicate Sent(events: seq<Event>, metrics: seq<Record>) {
    && |events| == |metrics| + 2 && events[0] == Begin && events[|events| - 1] == Done
    && forall i :: 0 <= i < |metrics| ==> events[i + 1] == Metric(metrics[i])
  }

  ghost predicate IsMetricOf(events: seq<Event>, i: nat, k: Key) {
    i < |events| && events[i].Metric? && events[i].record.key == k
  }

  /** Exactly the keys met have a metric, and each has one. */
  ghost predicate OneMetricEach(events: seq<Event>, keys: set<Key>) {
    && (forall k :: k in keys ==> exists i :: IsMetricOf(events, i, k))
    && (forall i, k :: IsMetricOf(events, i, k) ==> k in keys)
    && (forall i, j, k :: IsMetricOf(events, i, k) && IsMetricOf(events, j, k) ==> i == j)
  }

  lemma EachKeyIsSentOnce(ls: seq<Lens>, vs: seq<Visit>, ts: nat, metrics: seq<Record>, events: seq<Event>)
    requires Reported(ls, vs, ts, metrics) && Sent(events, metrics)
    ensures OneMetricEach(events, KeysMet(ls, vs))
  {
    forall k | k in KeysMet(ls, vs) ensures exists i :: IsMetricOf(events, i, k) {
      FirstKindIsOfTheFirst(ls, vs, k);
      var i :| 0 <= i < |metrics| && metrics[i].key == k;
      assert IsMetricOf(events, i + 1, k);
    }
    forall i: nat, k | IsMetricOf(events, i, k) ensures k in KeysMet(ls, vs) {
      assert events[i] == Metric(metrics[i - 1]);
      FirstKindIsOfTheFirst(ls, vs, k);
    }
    forall i: nat, j: nat, k | IsMetricOf(events, i, k) && IsMetricOf(events, j, k) ensures i == j {
      assert events[i] == Metric(metrics[i - 1]) && events[j] == Metric(metrics[j - 1]);
    }
  }

  /** The metrics of one poll: one for each key that was met, and each the report of all visits. */
  ghost predicate Reported(ls: seq<Lens>, vs: seq<Visit>, ts: nat, metrics: seq<Record>) {
    && InRange(ls, vs)
    && (forall i :: 0 <= i < |metrics| ==> ReportIfSeen(ls, vs, metrics[i].key, ts) == Some(metrics[i]))
    && (forall i, j :: 0 <= i < j < |metrics| ==> metrics[i].key != metrics[j].key)
    && (forall k :: FirstKind(ls, vs, k).Some? ==> exists i :: 0 <= i < |metrics| && metrics[i].key == k)
  }

  lemma EmittedIsReported(ls: seq<Lens>, vs: seq<Visit>, ts: nat, rs: seq<Record>, index: map<Key, nat>,
                          metrics: seq<Record>)
    requires Gathered(ls, vs, ts, rs, index) && Emitted(metrics, index, rs)
    ensures Reported(ls, vs, ts, metrics)
  {
    forall k | FirstKind(ls, vs, k).Some? ensures exists i :: 0 <= i < |metrics| && metrics[i].key == k {
      assert ReportIfSeen(ls, vs, k, ts).Some?;
      assert k in index;
    }
  }

  method EmitReports(t: seq<Buckets.Bucket>, rs: seq<Record>, ghost index: map<Key, nat>, ghost ls: seq<Lens>,
                     ghost vs: seq<Visit>, ghost ts: nat)
    returns (metrics: seq<Record>)
    requires Buckets.Holds(t, index) && Gathered(ls, vs, ts, rs, index)
    ensures Reported(ls, vs, ts, metrics)
  {
    metrics := Emit(t, rs, index);
    EmittedIsReported(ls, vs, ts, rs, index, metrics);
  }

  /** optics_poller_poll_at, over the regions that could be opened and whose epochs have been bumped. The poll is done
      unless calloc fails it, which it does not if the hashes of the keys met differ modulo some `c` and an array of
      `c` buckets, and of one window, can be had. It does, whatever the memory, if nine keys met have the same hash. */
  method PollAt(regions: seq<Region>, lenses: array<Lens>, ts: nat, hash: Buckets.Hash, memory: nat, ghost c: nat)
    returns (done: bool, metrics: seq<Record>, events: seq<Event>)
    requires ShortKeys(lenses[..])
    requires InRange(lenses[..], Visits(regions, ts)) && OncePerLens(Visits(regions, ts))
    modifies lenses
    ensures done && regions == [] ==> events == []
    ensures done && regions != [] ==> Sent(events, metrics)
    ensures done && regions != [] ==> Reported(old(lenses[..]), Visits(regions, ts), ts, metrics)
    ensures done && regions != [] ==> OneMetricEach(events, KeysMet(old(lenses[..]), Visits(regions, ts)))
    ensures done ==> Cells(lenses[..], old(lenses[..]), Visits(regions, ts))
    ensures var keys := KeysMet(old(lenses[..]), Visits(regions, ts));
      Buckets.Separated(hash, keys, c) && HashTable.Max(c, Buckets.PROBE_WINDOW) <= memory ==> done
    ensures regions == [] ==> done
    ensures regions != [] && Buckets.Crowded(hash, KeysMet(old(lenses[..]), Visits(regions, ts))) ==> !done
  {
    if regions == [] {
      return true, [], [];
    }
    var values := new HashTable.Table(hash, memory);
    ghost var ls := lenses[..];
    var rs: seq<Record>;
    done, rs := PollAll(regions, lenses, values, ts, c);
    if !done {
      return false, [], [];
    }
    metrics := EmitReports(values.table[..], rs, values.m, ls, Visits(regions, ts), ts);
    events := Events(metrics);
    EachKeyIsSentOnce(ls, Visits(regions, ts), ts, metrics, events);
  }

  /** The keys met are those of the table, which holds no crowd. */
  lemma MetKeysFit(values: HashTable.Table, ls: seq<Lens>, vs: seq<Visit>, ts: nat, rs: seq<Record>)
    requires values.Valid() && Gathered(ls, vs, ts, rs, values.m)
    ensures !Buckets.Crowded(values.hash, KeysMet(ls, vs))
  {
    forall i | 0 <= i < |vs| ensures ls[vs[i].id].key in values.m {
      FirstKindIsOfTheFirst(ls, vs, ls[vs[i].id].key);
      assert ReportIfSeen(ls, vs, ls[vs[i].id].key, ts).Some?;
    }
    if values.cap > 0 {
      Buckets.CrowdDoesNotFit(values.hash, values.table[..], values.m);
      assert KeysMet(ls, vs) <= values.m.Keys;
    } else {
      assert KeysMet(ls, vs) == {};
    }
  }

  /** One region: its lenses are met after those of the regions before. */
  method PollRegion(regions: seq<Region>, i: nat, lenses: array<Lens>, values: HashTable.Table, rs: seq<Record>,
                    ts: nat, ghost ls: seq<Lens>, ghost keys: set<Key>, ghost c: nat)
    returns (done: bool, next: seq<Record>)
    requires i < |regions| && InRange(ls, Visits(regions, ts)) && OncePerLens(Visits(regions, ts))
    requires values.Valid() && InRange(ls, Visits(regions[..i], ts))
    requires Gathered(ls, Visits(regions[..i], ts), ts, rs, values.m)
    requires Cells(lenses[..], ls, Visits(regions[..i], ts)) && ShortKeys(ls)
    requires values.m.Keys <= keys && KeysMet(ls, Visits(regions, ts)) <= keys
    modifies lenses, values, values.table
    ensures values.table == old(values.table) || fresh(values.table)
    ensures done ==> values.Valid() && Gathered(ls, Visits(regions[..i + 1], ts), ts, next, values.m)
    ensures done ==> Cells(lenses[..], ls, Visits(regions[..i + 1], ts)) && values.m.Keys <= keys
    ensures HashTable.Suffices(values, keys, c) && old(values.Roomy(c)) ==> done && values.Roomy(c)
  {
    NextRegion(regions, i, ts, ls, Visits(regions[..i], ts), keys);
    done, next := PollOptics(lenses, values, rs, regions[i], ts, ls, Visits(regions[..i], ts), keys, c);
  }

  /** The loop over the regions. */
  method PollAll(regions: seq<Region>, lenses: array<Lens>, values: HashTable.Table, ts: nat, ghost c: nat)
    returns (done: bool, rs: seq<Record>)
    requires values.Valid() && values.m == map[] && ShortKeys(lenses[..]) && values.Roomy(c)
    requires InRange(lenses[..], Visits(regions, ts)) && OncePerLens(Visits(regions, ts))
    modifies lenses, values, values.table
    ensures values.table == old(values.table) || fresh(values.table)
    ensures done ==> values.Valid() && Gathered(old(lenses[..]), Visits(regions, ts), ts, rs, values.m)
    ensures done ==> Cells(lenses[..], old(lenses[..]), Visits(regions, ts))
    ensures HashTable.Suffices(values, KeysMet(old(lenses[..]), Visits(regions, ts)), c) ==> done
    ensures done ==> !Buckets.Crowded(values.hash, KeysMet(old(lenses[..]), Visits(regions, ts)))
  {
    ghost var ls, keys := lenses[..], KeysMet(lenses[..], Visits(regions, ts));
    ghost var ample := HashTable.Suffices(values, keys, c);
    assert Visits(regions[..0], ts) == [];
    done, rs := true, [];
    for i := 0 to |regions|
      invariant values.table == old(values.table) || fresh(values.table)
      invariant done && values.Valid() && Gathered(ls, Visits(regions[..i], ts), ts, rs, values.m)
      invariant Cells(lenses[..], ls, Visits(regions[..i], ts))
      invariant values.m.Keys <= keys && (ample ==> values.Roomy(c))
    {
      done, rs := PollRegion(regions, i, lenses, values, rs, ts, ls, keys, c);
      if !done {
        return;
      }
    }
    assert regions[..|regions|] == regions;
    MetKeysFit(values, ls, Visits(regions, ts), ts, rs);
  }

  lemma NextRegion(regions: seq<Region>, i: nat, ts: nat, ls: seq<Lens>, seen: seq<Visit>, keys: set<Key>)
    requires i < |regions| && seen == Visits(regions[..i], ts) && InRange(ls, Visits(regions, ts))
    requires OncePerLens(Visits(regions, ts))
    requires KeysMet(ls, Visits(regions, ts)) <= keys
    ensures var next := seen + VisitsOf(regions[i], ts);
            next == Visits(regions[..i + 1], ts) && InRange(ls, next) && OncePerLens(next) && KeysMet(ls, next) <= keys
  {
    VisitsGrow(regions, i, ts);
    PrefixOnce(seen + VisitsOf(regions[i], ts), Visits(regions, ts), ls);
  }

  lemma {:induction false} VisitsGrow(regions: seq<Region>, i: nat, ts: nat)
    requires i < |regions|
    ensures Visits(regions[..i + 1], ts) == Visits(regions[..i], ts) + VisitsOf(regions[i], ts)
    ensures Visits(regions[..i + 1], ts) <= Visits(regions, ts)
    decreases |regions|
  {
    assert regions[..i + 1][..i] == regions[..i];
    if i + 1 == |regions| {
      assert regions[..i + 1] == regions;
    } else {
      var rest := regions[..|regions| - 1];
      VisitsGrow(rest, i, ts);
      assert rest[..i + 1] == regions[..i + 1];
    }
  }

  lemma PrefixOnce(vs: seq<Visit>, all: seq<Visit>, ls: seq<Lens>)
    requires vs <= all && InRange(ls, all) && OncePerLens(all)
    ensures InRange(ls, vs) && OncePerLens(vs) && KeysMet(ls, vs) <= KeysMet(ls, all)
  {
    assert forall i :: 0 <= i < |vs| ==> vs[i] == all[i];
  }

  // ---- what one poll reports ----

  lemma {:induction false} ElapsedIsPositive(regions: seq<Region>, ts: nat)
    ensures forall v :: v in Visits(regions, ts) ==> v.elapsed > 0
  {
    if regions != [] {
      ElapsedIsPositive(regions[..|regions| - 1], ts);
    }
  }

  /** Reading a counter that the poller meets is reading its cells: the slot of the epoch left is the one reported and
      emptied. */
  lemma LensIsItsCounter(s: Counter.State, l: Lens)
    requires |s.slot| == 2 && s.epoch > 0 && l.kind.CounterKind? && l.even == s.slot[0] && l.odd == s.slot[1]
    ensures var left, s' := (s.epoch - 1) % 2 == 1, Counter.Apply(s, Counter.Step.Read);
      && s'.values == s.values + [l.Slot(left)]
      && s'.slot == [l.Drained(left).even, l.Drained(left).odd]
  {
  }

  /** A read lens is left with its vacated slot empty. */
  lemma {:induction false} ReadLensIsDrained(ls: seq<Lens>, vs: seq<Visit>, v: Visit)
    requires InRange(ls, vs) && OncePerLens(vs) && v in vs && v in Fed(ls, vs, ls[v.id].key)
    ensures LensAfter(ls, vs, v.id) == ls[v.id].Drained(v.epoch)
    ensures var before, after := ls[v.id], LensAfter(ls, vs, v.id);
            && after.key == before.key && after.kind == before.kind && after.Slot(!v.epoch) == before.Slot(!v.epoch)
            && (before.kind.CounterKind? ==> after.Slot(v.epoch) == 0)
  {
    var n := |vs| - 1;
    assert vs == vs[..n] + [vs[n]];
    var k := ls[v.id].key;
    FedAreTheMatching(ls, vs, k, v);
    if vs[n] != v {
      FirstKindIsOfTheFirst(ls, vs[..n], k);
      FedAreTheMatching(ls, vs[..n], k, v);
      var i :| 0 <= i < n && vs[i] == v;
      ReadLensIsDrained(ls, vs[..n], v);
    }
  }

  /** No lens is read twice into a record. */
  lemma {:induction false} FedOnce(ls: seq<Lens>, vs: seq<Visit>, k: Key)
    requires InRange(ls, vs) && OncePerLens(vs)
    ensures OncePerLens(Fed(ls, vs, k))
  {
    if vs != [] {
      var n := |vs| - 1;
      FedOnce(ls, vs[..n], k);
      forall v | v in Fed(ls, vs[..n], k) ensures v.id != vs[n].id {
        FedAreTheMatching(ls, vs[..n], k, v);
        var i :| 0 <= i < n && vs[..n][i] == v;
        assert vs[i].id != vs[n].id;
      }
    }
  }

  /** A counter metric is the sum of the vacated slots of all counters met under its key, each counted once; its
      elapsed time is the largest among the lenses met under the key, and positive. */
  lemma MetricMeans(ls: seq<Lens>, regions: seq<Region>, ts: nat, metrics: seq<Record>, i: nat)
    requires Reported(ls, Visits(regions, ts), ts, metrics) && i < |metrics|
    ensures var r, vs := metrics[i], Visits(regions, ts);
            && (forall v :: v in r.fed <==> v in vs && ls[v.id].key == r.key && ls[v.id].kind == r.kind)
            && InRange(ls, r.fed) && r.ts == ts
            && (r.kind.CounterKind? ==> r.counter == Wrap(Sum(ls, r.fed)))
            && r.elapsed > 0
            && (forall v :: v in vs && ls[v.id].key == r.key ==> v.elapsed <= r.elapsed)
            && (exists v :: v in vs && ls[v.id].key == r.key && v.elapsed == r.elapsed)
            && (OncePerLens(vs) ==> OncePerLens(r.fed))
  {
    var r, vs := metrics[i], Visits(regions, ts);
    assert ReportIfSeen(ls, vs, r.key, ts) == Some(r);
    forall v ensures v in r.fed <==> v in vs && ls[v.id].key == r.key && ls[v.id].kind == r.kind {
      FedAreTheMatching(ls, vs, r.key, v);
    }
    FedInRange(ls, vs, r.key);
    if OncePerLens(vs) {
      FedOnce(ls, vs, r.key);
    }
    MaxElapsedIsTheMaximum(ls, vs, r.key);
    FirstKindIsOfTheFirst(ls, vs, r.key);
    ElapsedIsPositive(regions, ts);
    var j :| 0 <= j < |vs| && ls[vs[j].id].key == r.key;
    assert vs[j] in vs && vs[j].elapsed > 0;
  }
}
