/**
 Distribution lenses: each epoch slot keeps a reservoir of at most 200 samples, and a read merges the
 vacated slot into the polled value. Random draws are arbitrary choices; doubles are exact reals.
 */
module Dist {

  const RESERVOIR: nat := 200
  const INT_LIMIT: real := 2147483648.0

  function Filled(n: nat): nat { if n > RESERVOIR then RESERVOIR else n }

  // ---- what a reservoir may hold ----

  /** `s` is a choice of samples among those recorded, all of them as long as they fit. */
  ghost predicate Sampled(s: seq<real>, recorded: multiset<real>) {
    && |s| == Filled(|recorded|)
    && multiset(s) <= recorded
    && (|recorded| <= RESERVOIR ==> multiset(s) == recorded)
  }

  /** Every sample recorded is at most `max`, which is 0 or one of them. */
  ghost predicate MaxOf(max: real, recorded: multiset<real>) {
    && max >= 0.0
    && (forall x :: x in recorded ==> x <= max)
    && (max == 0.0 || max in recorded)
  }

  lemma ReplaceKeeps(s: seq<real>, i: nat, v: real, rest: multiset<real>, all: multiset<real>)
    requires i < |s| && multiset(s) + (rest + multiset{v}) <= all
    ensures multiset(s[i := v]) + rest <= all
  {
    assert multiset(s[i := v]) + multiset{s[i]} == multiset(s) + multiset{v};
  }

  lemma HeadOff(s: seq<real>, v: real, rest: seq<real>)
    requires s == [v] + rest
    ensures multiset(s) == multiset(rest) + multiset{v}
  {
  }

  lemma SplitAt(s: seq<real>, a: seq<real>, b: seq<real>)
    requires s == a + b
    ensures multiset(s) == multiset(a) + multiset(b)
  {
  }

  lemma Appended(s: seq<real>, v: real, recorded: multiset<real>)
    requires Sampled(s, recorded) && |recorded| < RESERVOIR
    ensures Sampled(s + [v], recorded + multiset{v})
  {
  }

  lemma Replaced(s: seq<real>, i: nat, v: real, recorded: multiset<real>)
    requires Sampled(s, recorded) && |recorded| >= RESERVOIR && i < |s|
    ensures Sampled(s[i := v], recorded + multiset{v})
  {
    ReplaceKeeps(s, i, v, multiset{}, recorded + multiset{v});
  }

  lemma Skipped(s: seq<real>, v: real, recorded: multiset<real>)
    requires Sampled(s, recorded) && |recorded| >= RESERVOIR
    ensures Sampled(s, recorded + multiset{v})
  {
  }

  // ---- lens_dist_merge ----

  method Copy(dst: array<real>, at: nat, src: array<real>, start: nat, n: nat)
    requires dst != src && at + n <= dst.Length && start + n <= src.Length
    modifies dst
    ensures dst[..at] == old(dst[..at]) && dst[at..at + n] == src[start..start + n]
    ensures dst[at + n..] == old(dst[at + n..])
  {
    for i := 0 to n
      invariant dst[..at] == old(dst[..at])
      invariant dst[at..at + i] == src[start..start + i]
      invariant dst[at + i..] == old(dst[at + i..])
    {
      CopyOne(dst, at, at + i, src[start + i]);
      assert src[start..start + i + 1] == src[start..start + i] + [src[start + i]];
    }
  }

  method CopyOne(dst: array<real>, at: nat, i: nat, v: real)
    requires at <= i < dst.Length
    modifies dst
    ensures dst[..at] == old(dst[..at]) && dst[at..i + 1] == old(dst[at..i]) + [v] && dst[i + 1..] == old(dst[i + 1..])
  {
    dst[i] := v;
  }

  /** One sample of the destination is replaced. */
  method Put(dst: array<real>, i: nat, v: real, ghost rest: multiset<real>, ghost all: multiset<real>)
    requires i < dst.Length && multiset(dst[..]) + (rest + multiset{v}) <= all
    modifies dst
    ensures multiset(dst[..]) + rest <= all && dst[..] == old(dst[..])[i := v]
  {
    ghost var s := dst[..];
    ReplaceKeeps(s, i, v, rest, all);
    dst[i] := v;
    assert dst[..] == s[i := v];
  }

  /** Reservoir sampling: each of `xs` in turn replaces the sample its draw names, if there is one. */
  function Sampling(d: seq<real>, xs: seq<real>, draws: seq<nat>): (r: seq<real>)
    requires |xs| <= |draws|
    ensures |r| == |d|
  {
    if xs == [] then d
    else
      var n := |xs| - 1;
      var r := Sampling(d, xs[..n], draws);
      if draws[n] < |d| then r[draws[n] := xs[n]] else r
  }

  /** In each place ends the last sample drawn for it, or else what was there. */
  lemma {:induction false} SamplingAt(d: seq<real>, xs: seq<real>, draws: seq<nat>, p: nat)
    requires |xs| <= |draws| && p < |d|
    ensures (forall i :: 0 <= i < |xs| ==> draws[i] != p) ==> Sampling(d, xs, draws)[p] == d[p]
    ensures forall i :: 0 <= i < |xs| && draws[i] == p && (forall j :: i < j < |xs| ==> draws[j] != p) ==>
      Sampling(d, xs, draws)[p] == xs[i]
  {
    if xs != [] {
      SamplingAt(d, xs[..|xs| - 1], draws, p);
    }
  }

  /** The draws are those that sampling into `seen` and more values asks for. */
  predicate Drawn(draws: seq<nat>, count: nat, seen: nat) {
    count <= |draws| && forall i :: 0 <= i < count ==> draws[i] < seen + i
  }

  /** The regular sampling of unsampled data, from `start` on. */
  method SampleIn(dst: array<real>, src: array<real>, start: nat, count: nat, seen: nat, draws: seq<nat>,
                  ghost all: multiset<real>)
    requires dst != src && dst.Length == RESERVOIR <= seen && start + count <= src.Length && Drawn(draws, count, seen)
    requires multiset(dst[..]) + multiset(src[start..start + count]) <= all
    modifies dst
    ensures multiset(dst[..]) <= all
    ensures dst[..] == Sampling(old(dst[..]), src[start..start + count], draws)
  {
    ghost var d, xs := dst[..], src[start..start + count];
    for i := 0 to count
      invariant multiset(dst[..]) + multiset(xs[i..]) <= all
      invariant dst[..] == Sampling(d, xs[..i], draws)
    {
      SamplingGoesOn(d, xs, i, draws);
      SampleOne(dst, src[start + i], draws[i], multiset(xs[i + 1..]), all);
    }
    assert xs[..count] == xs;
  }

  lemma SamplingGoesOn(d: seq<real>, xs: seq<real>, i: nat, draws: seq<nat>)
    requires i < |xs| <= |draws|
    ensures multiset(xs[i..]) == multiset(xs[i + 1..]) + multiset{xs[i]}
    ensures Sampling(d, xs[..i + 1], draws) ==
      var r := Sampling(d, xs[..i], draws); if draws[i] < |d| then r[draws[i] := xs[i]] else r
  {
    HeadOff(xs[i..], xs[i], xs[i + 1..]);
    assert xs[..i + 1] == xs[..i] + [xs[i]];
    SamplingNext(d, xs[..i], xs[i], draws);
  }

  lemma SamplingNext(d: seq<real>, xs: seq<real>, x: real, draws: seq<nat>)
    requires |xs| < |draws|
    ensures Sampling(d, xs + [x], draws) ==
      var r := Sampling(d, xs, draws); if draws[|xs|] < |d| then r[draws[|xs|] := x] else r
  {
    var all := xs + [x];
    assert all != [] && |all| - 1 == |xs| && all[..|xs|] == xs && all[|xs|] == x;
  }

  method SampleOne(dst: array<real>, v: real, draw: nat, ghost rest: multiset<real>, ghost all: multiset<real>)
    requires dst.Length == RESERVOIR && multiset(dst[..]) + (rest + multiset{v}) <= all
    modifies dst
    ensures multiset(dst[..]) + rest <= all
    ensures dst[..] == if draw < RESERVOIR then old(dst[..])[draw := v] else old(dst[..])
  {
    if draw < RESERVOIR {
      Put(dst, draw, v, rest, all);
    }
  }

  /** Each place keeps its sample or takes that of the other side. */
  function Mixed(d: seq<real>, xs: seq<real>, picks: seq<bool>): seq<real>
    requires |d| == |xs| <= |picks|
  {
    seq(|d|, i requires 0 <= i < |d| => if picks[i] then xs[i] else d[i])
  }

  /** Two sampled sets: each slot is taken from either. */
  method Mix(dst: array<real>, src: array<real>, picks: seq<bool>, ghost all: multiset<real>)
    requires dst != src && dst.Length == src.Length == RESERVOIR <= |picks|
    requires multiset(dst[..]) + multiset(src[..]) <= all
    modifies dst
    ensures multiset(dst[..]) <= all
    ensures dst[..] == Mixed(old(dst[..]), src[..], picks)
  {
    assert src[..] == src[0..];
    for i := 0 to RESERVOIR
      invariant multiset(dst[..]) + multiset(src[i..]) <= all
      invariant dst[..] == MixedTo(old(dst[..]), src[..], picks, i)
    {
      HeadOff(src[i..], src[i], src[i + 1..]);
      SampleOne(dst, src[i], if picks[i] then i else RESERVOIR, multiset(src[i + 1..]), all);
      MixedNext(old(dst[..]), src[..], picks, i);
    }
  }

  /** The same for the first `n` places. */
  function MixedTo(d: seq<real>, xs: seq<real>, picks: seq<bool>, n: nat): seq<real>
    requires |d| == |xs| <= |picks|
  {
    seq(|d|, i requires 0 <= i < |d| => if i < n && picks[i] then xs[i] else d[i])
  }

  lemma MixedNext(d: seq<real>, xs: seq<real>, picks: seq<bool>, n: nat)
    requires n < |d| == |xs| <= |picks|
    ensures MixedTo(d, xs, picks, n + 1) ==
      if picks[n] then MixedTo(d, xs, picks, n)[n := xs[n]] else MixedTo(d, xs, picks, n)
  {
  }

  /** What the random choices of a merge make of the two sides, the larger one first: both, if they fit; otherwise the
      smaller one is sampled into the larger, filled up from it first, or mixed with it if both are sampled already. */
  function Merged(big: seq<real>, bigLen: nat, small: seq<real>, smallLen: nat, draws: seq<nat>, picks: seq<bool>)
    : (r: seq<real>)
    requires |big| == Filled(bigLen) && |small| == Filled(smallLen) && smallLen <= bigLen
    requires |small| <= |draws| && RESERVOIR <= |picks|
    ensures |r| == Filled(bigLen + smallLen)
  {
    if bigLen + smallLen <= RESERVOIR then big + small
    else if smallLen > RESERVOIR then Mixed(big, small, picks)
    else
      var fill := RESERVOIR - |big|;
      Sampling(big + small[..fill], small[fill..], draws)
  }

  /** The random choices that a merge makes. */
  predicate Chances(bigLen: nat, smallLen: nat, draws: seq<nat>, picks: seq<bool>) {
    && RESERVOIR <= |draws| && RESERVOIR <= |picks|
    && (bigLen + smallLen > RESERVOIR ==>
          forall i :: 0 <= i < RESERVOIR ==> draws[i] < (if bigLen > RESERVOIR then bigLen else RESERVOIR) + i)
  }

  method Merge(dst: array<real>, lhs: array<real>, lhsLen: nat, rhs: array<real>, rhsLen: nat, draws: seq<nat>,
               picks: seq<bool>)
    returns (len: nat)
    requires dst.Length == lhs.Length == rhs.Length == RESERVOIR && dst != lhs && dst != rhs
    requires if lhsLen >= rhsLen then Chances(lhsLen, rhsLen, draws, picks) else Chances(rhsLen, lhsLen, draws, picks)
    modifies dst
    ensures len == Filled(lhsLen + rhsLen)
    ensures multiset(dst[..len]) <= multiset(lhs[..Filled(lhsLen)]) + multiset(rhs[..Filled(rhsLen)])
    ensures lhsLen + rhsLen <= RESERVOIR ==> multiset(dst[..len]) == multiset(lhs[..lhsLen]) + multiset(rhs[..rhsLen])
    ensures rhsLen == 0 ==> dst[..len] == lhs[..len]
    ensures lhsLen == 0 ==> dst[..len] == rhs[..len]
    ensures lhsLen >= rhsLen ==>
      dst[..len] == Merged(lhs[..Filled(lhsLen)], lhsLen, rhs[..Filled(rhsLen)], rhsLen, draws, picks)
    ensures lhsLen < rhsLen ==>
      dst[..len] == Merged(rhs[..Filled(rhsLen)], rhsLen, lhs[..Filled(lhsLen)], lhsLen, draws, picks)
  {
    if lhsLen >= rhsLen {
      len := MergeInto(dst, lhs, lhsLen, rhs, rhsLen, draws, picks);
    } else {
      len := MergeInto(dst, rhs, rhsLen, lhs, lhsLen, draws, picks);
    }
  }

  /** The larger side is copied and the smaller one merged into it. */
  method MergeInto(dst: array<real>, big: array<real>, bigLen: nat, small: array<real>, smallLen: nat, draws: seq<nat>,
                   picks: seq<bool>)
    returns (len: nat)
    requires dst.Length == big.Length == small.Length == RESERVOIR && dst != big && dst != small
    requires smallLen <= bigLen && Chances(bigLen, smallLen, draws, picks)
    modifies dst
    ensures len == Filled(bigLen + smallLen)
    ensures multiset(dst[..len]) <= multiset(big[..Filled(bigLen)]) + multiset(small[..Filled(smallLen)])
    ensures bigLen + smallLen <= RESERVOIR ==>
        multiset(dst[..len]) == multiset(big[..bigLen]) + multiset(small[..smallLen])
    ensures smallLen == 0 ==> dst[..len] == big[..len]
    ensures dst[..len] == Merged(big[..Filled(bigLen)], bigLen, small[..Filled(smallLen)], smallLen, draws, picks)
  {
    ghost var b, l := big[..Filled(bigLen)], small[..Filled(smallLen)];
    Copy(dst, 0, big, 0, Filled(bigLen));
    assert dst[..Filled(bigLen)] == b;
    if smallLen == 0 {
      NothingMerged(b, bigLen, draws, picks);
      return Filled(bigLen);
    }
    if bigLen < RESERVOIR {
      len := Fill(dst, bigLen, small, smallLen, draws, picks);
      return;
    }
    assert dst[..] == b;
    assert small[0..Filled(smallLen)] == l;
    Finish(dst, small, 0, smallLen, bigLen, draws, picks, multiset(b) + multiset(l));
    FullMerged(b, bigLen, l, smallLen, draws, picks);
    assert dst[..] == dst[..RESERVOIR];
    return RESERVOIR;
  }

  lemma NothingMerged(big: seq<real>, bigLen: nat, draws: seq<nat>, picks: seq<bool>)
    requires |big| == Filled(bigLen) && RESERVOIR <= |picks|
    ensures Merged(big, bigLen, [], 0, draws, picks) == big
  {
    assert big + [] == big;
  }

  lemma FullMerged(big: seq<real>, bigLen: nat, small: seq<real>, smallLen: nat, draws: seq<nat>, picks: seq<bool>)
    requires |big| == RESERVOIR <= bigLen && 0 < smallLen <= bigLen && |small| == Filled(smallLen)
    requires |small| <= |draws| && RESERVOIR <= |picks|
    ensures Merged(big, bigLen, small, smallLen, draws, picks) == Finished(big, small, smallLen, draws, picks)
  {
    assert big + small[..0] == big && small[0..] == small;
  }

  /** The free part of the destination is filled first. */
  method Fill(dst: array<real>, used: nat, small: array<real>, smallLen: nat, draws: seq<nat>, picks: seq<bool>)
    returns (len: nat)
    requires dst.Length == small.Length == RESERVOIR && dst != small
    requires smallLen <= used < RESERVOIR && Chances(used, smallLen, draws, picks)
    modifies dst
    ensures len == Filled(used + smallLen)
    ensures multiset(dst[..len]) <= multiset(old(dst[..used])) + multiset(small[..smallLen])
    ensures used + smallLen <= RESERVOIR ==>
        multiset(dst[..len]) == multiset(old(dst[..used])) + multiset(small[..smallLen])
    ensures dst[..len] == Merged(old(dst[..used]), used, small[..smallLen], smallLen, draws, picks)
  {
    var room := RESERVOIR - used;
    var fill := if room > smallLen then smallLen else room;
    if fill == smallLen {
      Append(dst, used, small, smallLen);
      return used + smallLen;
    }
    Overflow(dst, used, small, smallLen, draws, picks);
    OverflowMerged(old(dst[..used]), used, small[..smallLen], smallLen, draws, picks);
    assert small[..smallLen][room..] == small[room..smallLen] && small[..smallLen][..room] == small[..room];
    assert dst[..] == dst[..RESERVOIR];
    return RESERVOIR;
  }

  lemma OverflowMerged(big: seq<real>, used: nat, small: seq<real>, smallLen: nat, draws: seq<nat>, picks: seq<bool>)
    requires |big| == used < RESERVOIR < used + smallLen && |small| == smallLen <= used
    requires |small| <= |draws| && RESERVOIR <= |picks|
    ensures var fill := RESERVOIR - used;
      Merged(big, used, small, smallLen, draws, picks) == Sampling(big + small[..fill], small[fill..], draws)
  {
  }

  method Append(dst: array<real>, used: nat, small: array<real>, n: nat)
    requires dst.Length == small.Length == RESERVOIR && dst != small && used + n <= RESERVOIR
    modifies dst
    ensures multiset(dst[..used + n]) == multiset(old(dst[..used])) + multiset(small[..n])
    ensures dst[..used + n] == old(dst[..used]) + small[..n]
  {
    Copy(dst, used, small, 0, n);
    assert dst[..used + n] == old(dst[..used]) + small[..n];
  }

  method Overflow(dst: array<real>, used: nat, small: array<real>, smallLen: nat, draws: seq<nat>, picks: seq<bool>)
    requires dst.Length == small.Length == RESERVOIR && dst != small
    requires used < RESERVOIR < used + smallLen && smallLen <= RESERVOIR && Chances(used, smallLen, draws, picks)
    modifies dst
    ensures multiset(dst[..]) <= multiset(old(dst[..used])) + multiset(small[..smallLen])
    ensures var fill := RESERVOIR - used;
      dst[..] == Sampling(old(dst[..used]) + small[..fill], small[fill..smallLen], draws)
  {
    var fill := RESERVOIR - used;
    ghost var all, xs := multiset(dst[..used]) + multiset(small[..smallLen]), small[fill..smallLen];
    SplitAt(small[..smallLen], small[..fill], xs);
    AppendAll(dst, used, small, fill);
    ghost var d := dst[..];
    SampleIn(dst, small, fill, smallLen - fill, RESERVOIR, draws, all);
    assert small[fill..fill + (smallLen - fill)] == xs;
    assert d == old(dst[..used]) + small[..fill];
  }

  method AppendAll(dst: array<real>, used: nat, small: array<real>, n: nat)
    requires dst.Length == small.Length == RESERVOIR && dst != small && used + n == RESERVOIR
    modifies dst
    ensures multiset(dst[..]) == multiset(old(dst[..used])) + multiset(small[..n])
    ensures dst[..] == old(dst[..used]) + small[..n]
  {
    Append(dst, used, small, n);
    assert dst[..] == dst[..used + n];
  }

  /** What is left of the smaller side goes into a full destination. */
  function Finished(d: seq<real>, xs: seq<real>, count: nat, draws: seq<nat>, picks: seq<bool>): seq<real>
    requires |xs| == Filled(count) && (if count <= RESERVOIR then |xs| <= |draws| else |d| == |xs| <= |picks|)
  {
    if count <= RESERVOIR then Sampling(d, xs, draws) else Mixed(d, xs, picks)
  }

  method Finish(dst: array<real>, src: array<real>, start: nat, count: nat, seen: nat, draws: seq<nat>,
                picks: seq<bool>, ghost all: multiset<real>)
    requires dst != src && dst.Length == src.Length == RESERVOIR <= seen
    requires start + Filled(count) <= RESERVOIR <= |picks| && Drawn(draws, Filled(count), seen)
    requires multiset(dst[..]) + multiset(src[start..start + Filled(count)]) <= all
    modifies dst
    ensures multiset(dst[..]) <= all
    ensures dst[..] == Finished(old(dst[..]), src[start..start + Filled(count)], count, draws, picks)
  {
    if count <= RESERVOIR {
      SampleIn(dst, src, start, count, seen, draws, all);
    } else {
      assert src[..] == src[start..start + Filled(count)];
      Mix(dst, src, picks, all);
    }
  }

  lemma MergedIsSampled(res: seq<real>, a: seq<real>, all: multiset<real>, b: seq<real>, bll: multiset<real>)
    requires Sampled(a, all) && Sampled(b, bll)
    requires |res| == Filled(|all| + |bll|) && multiset(res) <= multiset(a) + multiset(b)
    requires |all| + |bll| <= RESERVOIR ==> multiset(res) == multiset(a) + multiset(b)
    ensures Sampled(res, all + bll)
  {
    assert |all + bll| == |all| + |bll|;
  }

  // ---- the truncating comparator ----

  /** The conversion of a double to int: towards zero. */
  function Trunc(r: real): int { if r >= 0.0 then r.Floor else -((-r).Floor) }

  function Cmp(x: real, y: real): int { Trunc(x - y) }

  predicate FitsInt(x: real, y: real) { -INT_LIMIT - 1.0 < x - y < INT_LIMIT }

  predicate Apart(x: real, y: real) { x == y || x - y >= 1.0 || y - x >= 1.0 }

  /** The comparator has the sign of the difference exactly for samples that are equal or at least 1 apart. */
  lemma CmpIsExactIffApart(x: real, y: real)
    ensures Apart(x, y) <==> (Cmp(x, y) < 0 <==> x < y) && (Cmp(x, y) > 0 <==> x > y)
  {
  }

  predicate Comparable(x: real, y: real) { FitsInt(x, y) && Apart(x, y) }

  ghost predicate Spaced(all: multiset<real>) {
    forall x, y {:trigger Comparable(x, y)} :: x in all && y in all ==> Comparable(x, y)
  }

  /** The comparator tells all samples apart. */
  ghost predicate Exact(all: multiset<real>) {
    forall x, y {:trigger Apart(x, y)} :: x in all && y in all ==> Apart(x, y)
  }

  lemma SpacedIsExact(all: multiset<real>)
    requires Spaced(all)
    ensures Exact(all)
  {
    forall x, y | x in all && y in all ensures Apart(x, y) { assert Comparable(x, y); }
  }

  ghost predicate CmpSorted(s: seq<real>) {
    forall i, j :: 0 <= i < j < |s| ==> Cmp(s[i], s[j]) <= 0
  }

  // ---- qsort ----

  function Insert(x: real, s: seq<real>): (r: seq<real>)
    ensures multiset(r) == multiset(s) + multiset{x} && |r| == |s| + 1
  {
    if s == [] || Cmp(x, s[0]) <= 0 then [x] + s
    else
      assert s == [s[0]] + s[1..];
      [s[0]] + Insert(x, s[1..])
  }

  function Sort(s: seq<real>): (r: seq<real>)
    ensures multiset(r) == multiset(s) && |r| == |s|
  {
    if s == [] then [] else
      assert s == [s[0]] + s[1..];
      Insert(s[0], Sort(s[1..]))
  }

  ghost predicate Ascending(s: seq<real>) {
    forall i, j :: 0 <= i < j < |s| ==> s[i] <= s[j]
  }

  lemma ConsAscends(x: real, s: seq<real>)
    requires Ascending(s) && forall y :: y in s ==> x <= y
    ensures Ascending([x] + s)
  {
    var t := [x] + s;
    forall i, j | 0 <= i < j < |t| ensures t[i] <= t[j] {
      assert t[j] == s[j - 1] && s[j - 1] in s;
      assert i > 0 ==> t[i] == s[i - 1];
    }
  }

  lemma {:induction false} InsertSorts(x: real, s: seq<real>, all: multiset<real>)
    requires Ascending(s) && Exact(all) && x in all && forall y :: y in s ==> y in all
    ensures Ascending(Insert(x, s))
  {
    if s != [] {
      assert s[0] in s;
      assert Apart(x, s[0]);
      CmpIsExactIffApart(x, s[0]);
      if Cmp(x, s[0]) > 0 {
        InsertSorts(x, s[1..], all);
        forall y | y in Insert(x, s[1..]) ensures s[0] <= y {
          assert y in multiset(Insert(x, s[1..]));
        }
        ConsAscends(s[0], Insert(x, s[1..]));
      } else {
        ConsAscends(x, s);
      }
    }
  }

  lemma {:induction false} SortSorts(s: seq<real>, all: multiset<real>)
    requires Exact(all) && forall y :: y in s ==> y in all
    ensures Ascending(Sort(s))
  {
    if s != [] {
      SortSorts(s[1..], all);
      forall y | y in Sort(s[1..]) ensures y in all {
        assert y in multiset(Sort(s[1..]));
      }
      InsertSorts(s[0], Sort(s[1..]), all);
    }
  }

  // ---- percentiles ----

  function P(percentile: nat, n: nat): (i: nat)
    requires percentile < 100 && n > 0
    ensures i < n && i * 100 <= n * percentile < (i + 1) * 100
  {
    n * percentile / 100
  }

  ghost predicate PercentilesOrdered(s: seq<real>)
    requires s != []
  {
    s[P(50, |s|)] <= s[P(90, |s|)] <= s[P(99, |s|)]
  }

  /** What the comparator finds in order is left as it lies. */
  lemma {:induction false} SortedStays(s: seq<real>)
    requires CmpSorted(s)
    ensures Sort(s) == s
  {
    if s != [] {
      SortedStays(s[1..]);
      assert s == [s[0]] + s[1..];
    }
  }

  lemma AscendingIsOrdered(s: seq<real>)
    requires s != [] && Ascending(s)
    ensures PercentilesOrdered(s)
  {
    assert P(50, |s|) <= P(90, |s|) <= P(99, |s|);
  }

  /** `s` holds the samples of `reservoir`: ascending if the comparator tells them apart, and as they lay if it finds
      nothing out of order. */
  ghost predicate SortOf(s: seq<real>, reservoir: seq<real>) {
    && |s| == |reservoir| && multiset(s) == multiset(reservoir)
    && (Exact(multiset(reservoir)) ==> Ascending(s))
    && (CmpSorted(reservoir) ==> s == reservoir)
  }

  /** The percentiles read off the samples are in order, whatever sort put them there. */
  ghost predicate InOrder(s: seq<real>) {
    forall t {:trigger SortOf(t, s)} :: t != [] && SortOf(t, s) ==> PercentilesOrdered(t)
  }

  /** So are those of all choices of samples from `values`. */
  ghost predicate OrderedFrom(values: set<real>) {
    forall s: seq<real> {:trigger InOrder(s)} :: (forall x :: x in s ==> x in values) ==> InOrder(s)
  }

  /** Ten samples of which one is a fraction larger than the rest. */
  function Straggling(x: real, y: real): seq<real> { [y, y, y, y, y, x, y, y, y, y] }

  lemma StragglingIsUnnoticed(x: real, y: real)
    requires y < x < y + 1.0
    ensures CmpSorted(Straggling(x, y)) && !PercentilesOrdered(Straggling(x, y))
  {
    assert Cmp(x, y) == 0 && Cmp(y, x) == 0 && Cmp(y, y) == 0;
    assert P(50, 10) == 5 && P(90, 10) == 9;
  }

  lemma UnnoticedStays(s: seq<real>)
    requires s != [] && CmpSorted(s) && !PercentilesOrdered(s)
    ensures Sort(s) == s && !InOrder(s)
  {
    SortedStays(s);
    SortMeans(s);
    assert SortOf(s, s);
  }

  /** The sort leaves the larger sample in the middle, and so p50 above p90. */
  lemma FractionsBreakTheOrder(x: real, y: real)
    requires y < x < y + 1.0
    ensures Sort(Straggling(x, y)) == Straggling(x, y) && !InOrder(Straggling(x, y))
  {
    StragglingIsUnnoticed(x, y);
    UnnoticedStays(Straggling(x, y));
  }

  lemma ApartIsOrdered(s: seq<real>, values: set<real>)
    requires Exact(multiset(values)) && forall x :: x in s ==> x in values
    ensures InOrder(s)
  {
    assert Exact(multiset(s));
    forall t | t != [] && SortOf(t, s) ensures PercentilesOrdered(t) {
      AscendingIsOrdered(t);
    }
  }

  lemma OrderedIsApart(values: set<real>, x: real, y: real)
    requires OrderedFrom(values) && x in values && y in values
    ensures !(y < x < y + 1.0)
  {
    if y < x < y + 1.0 {
      var s := Spoiler(x, y);
      assert false;
    }
  }

  lemma Spoiler(x: real, y: real) returns (s: seq<real>)
    requires y < x < y + 1.0
    ensures !InOrder(s) && forall z :: z in s ==> z == x || z == y
  {
    s := Straggling(x, y);
    StragglingIsOfTwo(x, y);
    FractionsBreakTheOrder(x, y);
  }

  lemma StragglingIsOfTwo(x: real, y: real)
    ensures forall z :: z in Straggling(x, y) ==> z == x || z == y
  {
  }

  /** Percentiles come out in order, whatever samples of `values` are recorded and in whatever order they lie, exactly
      if no two of the values are less than 1 apart. */
  lemma OrderedIffApart(values: set<real>)
    ensures OrderedFrom(values) <==> forall x, y :: x in values && y in values ==> Apart(x, y)
  {
    if forall x, y :: x in values && y in values ==> Apart(x, y) {
      forall s: seq<real> | forall x :: x in s ==> x in values ensures InOrder(s) {
        ApartIsOrdered(s, values);
      }
    }
    if OrderedFrom(values) {
      forall x, y | x in values && y in values ensures Apart(x, y) {
        OrderedIsApart(values, x, y);
        OrderedIsApart(values, y, x);
      }
    }
  }

  lemma IntegersAreApart(x: real, y: real)
    requires x == x.Floor as real && y == y.Floor as real
    ensures Apart(x, y)
  {
    assert x - y == (x.Floor - y.Floor) as real;
  }

  // ---- the lens ----

  datatype ReadResult = ReadOk | ReadBusy

  lemma SortMeans(s: seq<real>)
    ensures SortOf(Sort(s), s)
  {
    if Exact(multiset(s)) {
      SortSorts(s, multiset(s));
    }
    if CmpSorted(s) {
      SortedStays(s);
    }
  }

  /** qsort on the first `n` samples. */
  method Qsort(a: array<real>, n: nat)
    requires n <= a.Length
    modifies a
    ensures a[..n] == Sort(old(a[..n])) && a[n..] == old(a[n..])
    ensures SortOf(a[..n], old(a[..n]))
  {
    var s := Sort(a[..n]);
    SortMeans(a[..n]);
    PutBack(a, s);
  }

  method PutBack(a: array<real>, s: seq<real>)
    requires |s| <= a.Length
    modifies a
    ensures a[..|s|] == s && a[|s|..] == old(a[|s|..])
  {
    for i := 0 to |s|
      invariant a[..i] == s[..i] && a[|s|..] == old(a[|s|..])
    {
      a[i] := s[i];
    }
  }

  lemma MaxGrows(max: real, value: real, recorded: multiset<real>)
    requires MaxOf(max, recorded)
    ensures MaxOf(if value > max then value else max, recorded + multiset{value})
  {
  }

  lemma MaxMerges(a: real, all: multiset<real>, b: real, bll: multiset<real>)
    requires MaxOf(a, all) && MaxOf(b, bll)
    ensures MaxOf(if a < b then b else a, all + bll)
  {
  }

  /** The reservoir update of lens_dist_record. The draw decides what a sample beyond the first 200 replaces, if it
      does: the 201st always replaces one. */
  method Place(samples: array<real>, n: nat, value: real, draw: nat, ghost recorded: multiset<real>)
    requires samples.Length == RESERVOIR && n == |recorded| && Sampled(samples[..Filled(n)], recorded)
    requires n >= RESERVOIR ==> draw < n
    modifies samples
    ensures Sampled(samples[..Filled(n + 1)], recorded + multiset{value})
    ensures n < RESERVOIR ==> samples[..n + 1] == old(samples[..n]) + [value]
    ensures n >= RESERVOIR && draw < RESERVOIR ==> samples[draw] == value
    ensures forall i :: 0 <= i < Filled(n) && i != draw ==> samples[i] == old(samples[i])
    ensures n >= RESERVOIR && draw >= RESERVOIR ==> samples[..] == old(samples[..])
  {
    ghost var s := samples[..Filled(n)];
    var i := n;
    if i >= RESERVOIR {
      i := draw;
    }
    if i >= RESERVOIR {
      Skipped(s, value, recorded);
      return;
    }
    samples[i] := value;
    if n < RESERVOIR {
      Appended(s, value, recorded);
      assert samples[..n + 1] == s + [value];
    } else {
      Replaced(s, i, value, recorded);
      assert samples[..RESERVOIR] == s[i := value];
    }
  }

  /** The random choices of a merge. */
  datatype Luck = Luck(draws: seq<nat>, picks: seq<bool>)

  predicate LuckFor(a: nat, b: nat, luck: Luck) {
    if a >= b then Chances(a, b, luck.draws, luck.picks) else Chances(b, a, luck.draws, luck.picks)
  }

  /** The reservoir of a value after a read: that of the vacated slot, if it is larger, merged with its own. */
  function Joined(local: seq<real>, count: nat, had: seq<real>, n: nat, luck: Luck): (r: seq<real>)
    requires |local| == Filled(count) && |had| == Filled(n) && LuckFor(count, n, luck)
    ensures |r| == Filled(n + count)
  {
    if count >= n then Merged(local, count, had, n, luck.draws, luck.picks)
    else Merged(had, n, local, count, luck.draws, luck.picks)
  }

  /** The merge of lens_dist_read, into a new array. */
  method MergeNew(samples: array<real>, n: nat, local: array<real>, count: nat, luck: Luck, ghost had: multiset<real>,
                  ghost taken: multiset<real>)
    returns (merged: array<real>, len: nat)
    requires samples.Length == local.Length == RESERVOIR && LuckFor(count, n, luck)
    requires n == |had| && Sampled(samples[..Filled(n)], had)
    requires count == |taken| && Sampled(local[..Filled(count)], taken)
    ensures fresh(merged) && merged.Length == RESERVOIR && len == Filled(n + count)
    ensures Sampled(merged[..len], had + taken)
    ensures n == 0 ==> merged[..len] == local[..len]
    ensures merged[..len] == Joined(local[..Filled(count)], count, samples[..Filled(n)], n, luck)
  {
    merged := new real[RESERVOIR];
    len := Merge(merged, local, count, samples, n, luck.draws, luck.picks);
    MergedIsSampled(merged[..len], local[..Filled(count)], taken, samples[..Filled(n)], had);
    assert taken + had == had + taken;
  }

  /** The merged samples become the reservoir. */
  method Refill(samples: array<real>, n: nat, local: array<real>, count: nat, luck: Luck, ghost had: multiset<real>,
                ghost taken: multiset<real>)
    returns (merged: array<real>, len: nat)
    requires samples.Length == local.Length == RESERVOIR && samples != local && LuckFor(count, n, luck)
    requires n == |had| && Sampled(samples[..Filled(n)], had)
    requires count == |taken| && Sampled(local[..Filled(count)], taken)
    modifies samples
    ensures fresh(merged) && merged.Length == RESERVOIR && len == Filled(n + count)
    ensures Sampled(samples[..len], had + taken) && merged[..len] == samples[..len]
    ensures n == 0 ==> samples[..len] == local[..len]
    ensures samples[..len] == Joined(local[..Filled(count)], count, old(samples[..Filled(n)]), n, luck)
  {
    merged, len := MergeNew(samples, n, local, count, luck, had, taken);
    Copy(samples, 0, merged, 0, RESERVOIR);
    assert samples[..len] == merged[..len];
  }

  /** The sort of lens_dist_read and its percentiles. */
  method Pick(merged: array<real>, len: nat) returns (p50: real, p90: real, p99: real, ghost sorted: seq<real>)
    requires 0 < len <= merged.Length
    modifies merged
    ensures Picked(p50, p90, p99, sorted, old(merged[..len]))
  {
    Qsort(merged, len);
    sorted := merged[..len];
    p50, p90, p99 := ReadOff(merged, len);
  }

  method ReadOff(a: array<real>, len: nat) returns (p50: real, p90: real, p99: real)
    requires 0 < len <= a.Length
    ensures PicksFrom(p50, p90, p99, a[..len])
  {
    p50, p90, p99 := a[P(50, len)], a[P(90, len)], a[P(99, len)];
  }

  method RefillAndPick(samples: array<real>, n: nat, local: array<real>, count: nat, luck: Luck,
                       ghost had: multiset<real>, ghost taken: multiset<real>)
    returns (p50: real, p90: real, p99: real, ghost sorted: seq<real>)
    requires samples.Length == local.Length == RESERVOIR && samples != local && LuckFor(count, n, luck)
    requires n == |had| && Sampled(samples[..Filled(n)], had)
    requires 0 < count == |taken| && Sampled(local[..Filled(count)], taken)
    modifies samples
    ensures Sampled(samples[..Filled(n + count)], had + taken)
    ensures Picked(p50, p90, p99, sorted, samples[..Filled(n + count)])
    ensures n == 0 ==> samples[..Filled(count)] == local[..Filled(count)]
    ensures samples[..Filled(n + count)] == Joined(local[..Filled(count)], count, old(samples[..Filled(n)]), n, luck)
  {
    var merged, len := Refill(samples, n, local, count, luck, had, taken);
    ghost var s := samples[..Filled(n + count)];
    p50, p90, p99, sorted := Pick(merged, len);
    assert samples[..Filled(n + count)] == s;
  }

  class Slot {
    var n: nat
    var max: real
    const samples: array<real>
    /** What was recorded since the slot was last vacated. */
    ghost var recorded: multiset<real>

    ghost predicate Valid()
      reads this, samples
    {
      && samples.Length == RESERVOIR
      && n == |recorded|
      && Sampled(samples[..Filled(n)], recorded)
      && MaxOf(max, recorded)
    }

    /** The slot holds the first `i` of these samples, in the order of their recording, and nothing else. */
    ghost predicate Holds(s: seq<real>, i: nat)
      reads this, samples
    {
      Valid() && n == i <= |s| <= RESERVOIR && samples[..i] == s[..i]
    }

    constructor ()
      ensures Valid() && fresh(samples) && recorded == multiset{} && n == 0
    {
      n, max, recorded := 0, 0.0, multiset{};
      samples := new real[RESERVOIR];
    }

    method Record(value: real, draw: nat)
      requires Valid() && (n >= RESERVOIR ==> draw < n)
      modifies this, samples
      ensures Valid() && recorded == old(recorded) + multiset{value} && n == old(n) + 1
      ensures old(n) < RESERVOIR ==> samples[..n] == old(samples[..n]) + [value]
      ensures old(n) >= RESERVOIR && draw < RESERVOIR ==> samples[draw] == value
      ensures forall i :: 0 <= i < Filled(old(n)) && i != draw ==> samples[i] == old(samples[i])
      ensures old(n) >= RESERVOIR && draw >= RESERVOIR ==> samples[..] == old(samples[..])
    {
      Place(samples, n, value, draw, recorded);
      Note(value);
    }

    /** The count and the maximum follow. */
    method Note(value: real)
      requires samples.Length == RESERVOIR && n == |recorded| && MaxOf(max, recorded)
      requires Sampled(samples[..Filled(n + 1)], recorded + multiset{value})
      modifies this
      ensures Valid() && recorded == old(recorded) + multiset{value} && n == old(n) + 1
    {
      MaxGrows(max, value, recorded);
      n := n + 1;
      if value > max {
        max := value;
      }
      recorded := recorded + multiset{value};
      assert samples[..Filled(n)] == old(samples[..Filled(n + 1)]);
    }

    /** The part of lens_dist_read that empties the slot. */
    method Vacate() returns (local: array<real>, count: nat, top: real)
      requires Valid()
      modifies this
      ensures Valid() && recorded == multiset{}
      ensures fresh(local) && local.Length == RESERVOIR
      ensures count == |old(recorded)| && Sampled(local[..Filled(count)], old(recorded)) && MaxOf(top, old(recorded))
      ensures count == old(n) && local[..Filled(count)] == old(samples[..Filled(n)])
    {
      count, top := n, max;
      local := new real[RESERVOIR];
      Copy(local, 0, samples, 0, Filled(count));
      assert local[..Filled(count)] == samples[..Filled(count)];
      max, n, recorded := 0.0, 0, multiset{};
    }
  }

  /** The percentiles are read off the sorted reservoir; all are 0 before the first sample. */
  ghost predicate Picked(p50: real, p90: real, p99: real, sorted: seq<real>, reservoir: seq<real>) {
    if reservoir == [] then p50 == p90 == p99 == 0.0 else SortOf(sorted, reservoir) && PicksFrom(p50, p90, p99, sorted)
  }

  ghost predicate PicksFrom(p50: real, p90: real, p99: real, s: seq<real>) {
    s != [] && p50 == s[P(50, |s|)] && p90 == s[P(90, |s|)] && p99 == s[P(99, |s|)]
  }

  /** What a polled value says about the samples recorded so far. */
  ghost predicate Summary(n: nat, p50: real, p90: real, p99: real, max: real, sorted: seq<real>, reservoir: seq<real>,
                          recorded: multiset<real>) {
    && n == |recorded|
    && Sampled(reservoir, recorded)
    && MaxOf(max, recorded)
    && Picked(p50, p90, p99, sorted, reservoir)
  }

  class Value {
    var n: nat
    var p50: real
    var p90: real
    var p99: real
    var max: real
    const samples: array<real>
    ghost var recorded: multiset<real>
    /** The reservoir as the sort of the last read left it. */
    ghost var sorted: seq<real>

    ghost predicate Valid()
      reads this, samples
    {
      && samples.Length == RESERVOIR
      && Summary(n, p50, p90, p99, max, sorted, samples[..Filled(n)], recorded)
    }

    constructor ()
      ensures Valid() && fresh(samples) && recorded == multiset{} && n == 0
    {
      n, p50, p90, p99, max, recorded := 0, 0.0, 0.0, 0.0, 0.0, multiset{};
      samples := new real[RESERVOIR];
    }

    lemma PercentilesBelowMax()
      requires Valid()
      ensures p50 <= max && p90 <= max && p99 <= max
      ensures Spaced(recorded) ==> p50 <= p90 <= p99 <= max
    {
      if n > 0 {
        PickedMeans(p50, p90, p99, sorted, samples[..Filled(n)], recorded);
      }
    }

    /** A value whose reservoir holds ten samples, one a fraction above the rest and in the middle, says p50 > p90. */
    lemma FractionsShow(x: real, y: real)
      requires Valid() && samples[..Filled(n)] == Straggling(x, y) && y < x < y + 1.0
      ensures p50 > p90
    {
      StragglingIsUnnoticed(x, y);
      assert P(50, 10) == 5 && P(90, 10) == 9;
    }

    method Read(slot: Slot, locked: bool, luck: Luck) returns (r: ReadResult)
      requires Valid() && slot.Valid() && samples != slot.samples && LuckFor(slot.n, n, luck)
      modifies this, samples, slot
      ensures Valid() && slot.Valid()
      ensures r == if locked then ReadBusy else ReadOk
      ensures locked ==> recorded == old(recorded) && slot.recorded == old(slot.recorded)
      ensures !locked ==> recorded == old(recorded) + old(slot.recorded) && slot.recorded == multiset{}
      ensures !locked && old(n) == 0 < old(slot.n) ==>
          n == old(slot.n) && samples[..Filled(n)] == old(slot.samples[..Filled(slot.n)])
      ensures !locked && old(slot.n) > 0 ==>
        samples[..Filled(n)] ==
        Joined(old(slot.samples[..Filled(slot.n)]), old(slot.n), old(samples[..Filled(n)]), old(n), luck)
    {
      if locked {
        return ReadBusy;
      }
      var local, count, top := slot.Vacate();
      Absorb(local, count, top, luck, old(slot.recorded));
      return ReadOk;
    }

    /** The merge of a vacated slot into the value. */
    method Absorb(local: array<real>, count: nat, top: real, luck: Luck, ghost taken: multiset<real>)
      requires Valid() && local.Length == RESERVOIR && local != samples && LuckFor(count, n, luck)
      requires count == |taken| && Sampled(local[..Filled(count)], taken) && MaxOf(top, taken)
      modifies this, samples
      ensures Valid() && recorded == old(recorded) + taken
      ensures old(n) == 0 < count ==> n == count && samples[..Filled(n)] == local[..Filled(count)]
      ensures count > 0 ==>
        samples[..Filled(n)] == Joined(local[..Filled(count)], count, old(samples[..Filled(n)]), old(n), luck)
    {
      MaxMerges(max, recorded, top, taken);
      var newMax := if max < top then top else max;
      if count == 0 {
        Raise(newMax, taken);
      } else {
        AbsorbSome(local, count, newMax, luck, taken);
      }
    }

    method Raise(newMax: real, ghost taken: multiset<real>)
      requires Valid() && |taken| == 0 && MaxOf(newMax, recorded + taken)
      modifies this
      ensures Valid() && recorded == old(recorded) + taken
    {
      assert taken == multiset{};
      assert recorded + taken == recorded;
      max := newMax;
      assert samples[..Filled(n)] == old(samples[..Filled(n)]);
    }

    method Store(n: nat, p50: real, p90: real, p99: real, max: real, ghost sorted: seq<real>, ghost s: seq<real>,
                 ghost all: multiset<real>)
      requires samples.Length == RESERVOIR && s == samples[..Filled(n)]
      requires Summary(n, p50, p90, p99, max, sorted, s, all)
      modifies this
      ensures Valid() && recorded == all && this.n == n && samples[..Filled(n)] == s
    {
      this.n, this.p50, this.p90, this.p99, this.max, recorded, this.sorted := n, p50, p90, p99, max, all, sorted;
      assert samples[..Filled(n)] == s;
    }

    method AbsorbSome(local: array<real>, count: nat, newMax: real, luck: Luck, ghost taken: multiset<real>)
      requires Valid() && local.Length == RESERVOIR && local != samples && LuckFor(count, n, luck)
      requires 0 < count == |taken| && Sampled(local[..Filled(count)], taken) && MaxOf(newMax, recorded + taken)
      modifies this, samples
      ensures Valid() && recorded == old(recorded) + taken
      ensures old(n) == 0 ==> n == count && samples[..Filled(n)] == local[..Filled(count)]
      ensures samples[..Filled(n)] == Joined(local[..Filled(count)], count, old(samples[..Filled(n)]), old(n), luck)
    {
      ghost var all := recorded + taken;
      assert |all| == n + count;
      var a, b, c, d := RefillAndPick(samples, n, local, count, luck, recorded, taken);
      ghost var s := samples[..Filled(n + count)];
      assert n == 0 ==> Filled(n + count) == Filled(count);
      Store(n + count, a, b, c, newMax, d, s, all);
    }
  }

  /** Samples that fit the reservoir of a new slot lie there in the order of their recording. */
  method RecordAll(s: seq<real>) returns (slot: Slot)
    requires |s| <= RESERVOIR
    ensures fresh(slot) && fresh(slot.samples) && slot.Holds(s, |s|)
  {
    slot := new Slot();
    for i := 0 to |s|
      invariant fresh(slot) && fresh(slot.samples) && slot.Holds(s, i)
    {
      RecordNext(slot, s, i);
    }
  }

  method RecordNext(slot: Slot, s: seq<real>, i: nat)
    requires i < |s| <= RESERVOIR && slot.Holds(s, i)
    modifies slot, slot.samples
    ensures slot.Holds(s, i + 1)
  {
    slot.Record(s[i], 0);
    assert s[..i + 1] == s[..i] + [s[i]];
  }

  /** Ten samples, one a fraction above the rest, are recorded and read into a new value: p50 comes out above p90. */
  method FractionsReported(x: real, y: real) returns (value: Value)
    requires y < x < y + 1.0
    ensures fresh(value) && value.Valid() && value.p50 > value.p90
  {
    var slot := RecordAll(Straggling(x, y));
    value := new Value();
    var luck := Luck(seq(RESERVOIR, _ => 0), seq(RESERVOIR, _ => false));
    var r := value.Read(slot, false, luck);
    value.FractionsShow(x, y);
  }

  /** Percentiles are recorded samples, in order if samples compare exactly. */
  lemma PickedMeans(p50: real, p90: real, p99: real, sorted: seq<real>, reservoir: seq<real>, recorded: multiset<real>)
    requires Picked(p50, p90, p99, sorted, reservoir) && reservoir != [] && multiset(reservoir) <= recorded
    ensures p50 in recorded && p90 in recorded && p99 in recorded
    ensures Spaced(recorded) ==> p50 <= p90 <= p99
  {
    assert forall i :: 0 <= i < |sorted| ==> sorted[i] in multiset(sorted);
    if Spaced(recorded) {
      SpacedIsExact(recorded);
      ExactBelow(multiset(reservoir), recorded);
      AscendingIsOrdered(sorted);
    }
  }

  lemma ExactBelow(a: multiset<real>, b: multiset<real>)
    requires a <= b && Exact(b)
    ensures Exact(a)
  {
    forall x, y | x in a && y in a ensures Apart(x, y) { assert x in b && y in b; }
  }

  // ---- chains of records and reads ----

  /** Random choices come along: numbers that are reduced to the range asked for, and what is picked. */
  datatype Event = Record(odd: bool, sample: real, draw: nat) | Read(odd: bool, locked: bool, luck: Luck)

  function Samples(events: seq<Event>): multiset<real> {
    if events == [] then multiset{}
    else
      var last := events[|events| - 1];
      Samples(events[..|events| - 1]) + if last.Record? then multiset{last.sample} else multiset{}
  }

  lemma SamplesGrow(events: seq<Event>, i: nat)
    requires i < |events|
    ensures Samples(events[..i + 1]) == Samples(events[..i]) + Samples([events[i]])
  {
    assert events[..i + 1][..i] == events[..i];
  }

  /** rng_gen_range takes a remainder. */
  function Reduced(luck: Luck, a: nat, b: nat): (r: Luck)
    ensures LuckFor(a, b, r)
  {
    var seen := if a >= b then a else b;
    var least := if seen > RESERVOIR then seen else RESERVOIR;
    Luck(seq(RESERVOIR, i requires 0 <= i => if i < |luck.draws| then luck.draws[i] % (least + i) else 0),
         seq(RESERVOIR, i requires 0 <= i => i < |luck.picks| && luck.picks[i]))
  }

  method Step(even: Slot, odd: Slot, value: Value, event: Event)
    requires even.Valid() && odd.Valid() && value.Valid() && Separate(even, odd, value)
    modifies even, even.samples, odd, odd.samples, value, value.samples
    ensures even.Valid() && odd.Valid() && value.Valid()
    ensures value.recorded + even.recorded + odd.recorded ==
            old(value.recorded + even.recorded + odd.recorded) + Samples([event])
  {
    if event.odd {
      StepOn(odd, value, event);
      Regroup(value.recorded, even.recorded, odd.recorded);
      Regroup(old(value.recorded), even.recorded, old(odd.recorded));
    } else {
      StepOn(even, value, event);
    }
  }

  lemma Regroup(a: multiset<real>, b: multiset<real>, c: multiset<real>)
    ensures a + b + c == (a + c) + b
  {
  }

  method StepOn(slot: Slot, value: Value, event: Event)
    requires slot.Valid() && value.Valid() && slot.samples != value.samples
    modifies slot, slot.samples, value, value.samples
    ensures slot.Valid() && value.Valid()
    ensures value.recorded + slot.recorded == old(value.recorded + slot.recorded) + Samples([event])
  {
    assert Samples([event]) == if event.Record? then multiset{event.sample} else multiset{};
    match event {
      case Record(_, sample, draw) => slot.Record(sample, if slot.n > 0 then draw % slot.n else 0);
      case Read(_, locked, luck) => var r := value.Read(slot, locked, Reduced(luck, slot.n, value.n));
    }
  }

  ghost predicate Separate(even: Slot, odd: Slot, value: Value) {
    && even != odd && even.samples != odd.samples
    && even.samples != value.samples && odd.samples != value.samples
  }

  /** Whatever the order of records and reads, refused ones included, each sample is in the value or in one slot. */
  method Chain(even: Slot, odd: Slot, value: Value, events: seq<Event>)
    requires even.Valid() && odd.Valid() && value.Valid() && Separate(even, odd, value)
    modifies even, even.samples, odd, odd.samples, value, value.samples
    ensures even.Valid() && odd.Valid() && value.Valid()
    ensures value.recorded + even.recorded + odd.recorded ==
            old(value.recorded + even.recorded + odd.recorded) + Samples(events)
  {
    ghost var was := value.recorded + even.recorded + odd.recorded;
    for i := 0 to |events|
      invariant even.Valid() && odd.Valid() && value.Valid()
      invariant value.recorded + even.recorded + odd.recorded == was + Samples(events[..i])
    {
      SamplesGrow(events, i);
      Step(even, odd, value, events[i]);
    }
    assert events[..|events|] == events;
  }
}
