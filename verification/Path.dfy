/** Splitting a request path into its tokens, in a copy of the raw string that is cut up in place. */
module Path {

  const MAX_PATH_LEN: nat := 1024

  // ---- what the tokens of a path are ----

  /** The part before the first question mark. */
  function BeforeQuery(s: string): (p: string)
    ensures p <= s && '?' !in p
    ensures |p| < |s| ==> s[|p|] == '?'
  {
    if s == "" || s[0] == '?' then "" else [s[0]] + BeforeQuery(s[1..])
  }

  /** The end of the run of other characters than slashes that starts at `i`. */
  function RunEnd(p: string, i: nat): (e: nat)
    requires i <= |p|
    ensures i <= e <= |p|
    ensures forall j :: i <= j < e ==> p[j] != '/'
    ensures e < |p| ==> p[e] == '/'
    decreases |p| - i
  {
    if i == |p| || p[i] == '/' then i else RunEnd(p, i + 1)
  }

  /** The tokens from position `i` on: the maximal runs without a slash. */
  function TokensFrom(p: string, i: nat): seq<string>
    requires i <= |p|
    decreases |p| - i
  {
    if i == |p| then []
    else if p[i] == '/' then TokensFrom(p, i + 1)
    else [p[i..RunEnd(p, i)]] + TokensFrom(p, RunEnd(p, i))
  }

  /** No more than the first 1024 characters of a path are looked at. */
  function Raw(raw: string): (r: string)
    ensures r <= raw && |r| <= MAX_PATH_LEN
    ensures r != raw ==> |r| == MAX_PATH_LEN < |raw|
  {
    if |raw| > MAX_PATH_LEN then raw[..MAX_PATH_LEN] else raw
  }

  function Tokens(raw: string): seq<string> { TokensFrom(BeforeQuery(Raw(raw)), 0) }

  // ---- where they start ----

  predicate IsStart(p: string, i: nat)
    requires i < |p|
  {
    p[i] != '/' && (i == 0 || p[i - 1] == '/')
  }

  function StartsFrom(p: string, i: nat): (r: seq<nat>)
    requires i <= |p|
    ensures forall k :: 0 <= k < |r| ==> i <= r[k] < |p|
    decreases |p| - i
  {
    if i == |p| then [] else (if IsStart(p, i) then [i] else []) + StartsFrom(p, i + 1)
  }

  lemma {:induction false} NoStartInsideARun(p: string, i: nat, e: nat)
    requires 0 < i <= e <= |p| && p[i - 1] != '/' && forall j :: i <= j < e ==> p[j] != '/'
    ensures StartsFrom(p, i) == StartsFrom(p, e)
    decreases e - i
  {
    if i < e {
      NoStartInsideARun(p, i + 1, e);
    }
  }

  function Runs(p: string, starts: seq<nat>): (r: seq<string>)
    requires forall k :: 0 <= k < |starts| ==> starts[k] < |p|
    ensures |r| == |starts| && forall k :: 0 <= k < |r| ==> r[k] == p[starts[k]..RunEnd(p, starts[k])]
  {
    seq(|starts|, k requires 0 <= k < |starts| => p[starts[k]..RunEnd(p, starts[k])])
  }

  lemma RunsCons(p: string, i: nat, rest: seq<nat>)
    requires i < |p| && forall k :: 0 <= k < |rest| ==> rest[k] < |p|
    ensures Runs(p, [i] + rest) == [p[i..RunEnd(p, i)]] + Runs(p, rest)
  {
  }

  lemma OneStartPerRun(p: string, i: nat)
    requires i < |p| && IsStart(p, i)
    ensures i < RunEnd(p, i) && StartsFrom(p, i) == [i] + StartsFrom(p, RunEnd(p, i))
  {
    RunGoesOn(p, i);
    StartComesFirst(p, i);
    NoStartInsideARun(p, i + 1, RunEnd(p, i));
  }

  lemma StartComesFirst(p: string, i: nat)
    requires i < |p| && IsStart(p, i)
    ensures StartsFrom(p, i) == [i] + StartsFrom(p, i + 1)
  {
  }

  lemma RunGoesOn(p: string, i: nat)
    requires i < |p| && p[i] != '/'
    ensures i + 1 <= RunEnd(p, i) <= |p| && forall j :: i + 1 <= j < RunEnd(p, i) ==> p[j] != '/'
  {
  }

  /** Each token is the run that begins at its start. */
  lemma {:induction false} TokensAreRuns(p: string, i: nat)
    requires i <= |p| && (i == 0 || i == |p| || p[i] == '/' || p[i - 1] == '/')
    ensures TokensFrom(p, i) == Runs(p, StartsFrom(p, i))
    decreases |p| - i
  {
    if i < |p| {
      if p[i] == '/' {
        TokensAreRuns(p, i + 1);
        assert StartsFrom(p, i) == StartsFrom(p, i + 1);
      } else {
        var e := RunEnd(p, i);
        OneStartPerRun(p, i);
        TokensAreRuns(p, e);
        RunsCons(p, i, StartsFrom(p, e));
      }
    }
  }

  // ---- the cut buffer ----

  /** The C string that starts at `i`. */
  function CString(buf: string, i: nat): string
    requires i <= |buf|
    decreases |buf| - i
  {
    if i == |buf| || buf[i] == '\0' then "" else [buf[i]] + CString(buf, i + 1)
  }

  /** A buffer in which the path before the query has every slash, and its own end, cut. */
  ghost predicate CutUp(buf: string, p: string) {
    && |p| < |buf| && buf[|p|] == '\0'
    && forall i :: 0 <= i < |p| ==> buf[i] == if p[i] == '/' then '\0' else p[i]
  }

  lemma {:induction false} CStringIsRun(buf: string, p: string, i: nat)
    requires CutUp(buf, p) && '\0' !in p && i <= |p|
    ensures CString(buf, i) == p[i..RunEnd(p, i)]
    decreases |p| - i
  {
    if i < |p| && p[i] != '/' {
      CStringIsRun(buf, p, i + 1);
    }
  }

  /** path_new: `items` point at the tokens. */
  method PathNew(raw: string) returns (buf: array<char>, items: array<nat>)
    requires '\0' !in raw
    ensures fresh(buf) && fresh(items)
    ensures items.Length == |Tokens(raw)|
    ensures forall k :: 0 <= k < items.Length ==> items[k] < buf.Length && CString(buf[..], items[k]) == Tokens(raw)[k]
  {
    var cut := Raw(raw);
    ghost var p := BeforeQuery(cut);
    buf := new char[|cut| + 1](i requires 0 <= i < |cut| + 1 => if i < |cut| then cut[i] else '\0');
    var n := CountTokens(cut);
    items := new nat[n];
    CutTokens(cut, buf, items);
    TokensAreRuns(p, 0);
    assert '\0' !in p;
    ghost var b, starts := buf[..], items[..];
    forall k | 0 <= k < |starts| ensures CString(b, starts[k]) == Tokens(raw)[k] {
      CStringIsRun(b, p, starts[k]);
    }
  }

  /** The cutting loop. */
  method CutTokens(cut: string, buf: array<char>, items: array<nat>)
    requires buf[..] == cut + ['\0'] && items.Length == |StartsFrom(BeforeQuery(cut), 0)|
    modifies buf, items
    ensures CutUp(buf[..], BeforeQuery(cut)) && items[..] == StartsFrom(BeforeQuery(cut), 0)
  {
    ghost var p := BeforeQuery(cut);
    var j: nat, i: nat := 0, 0;
    while i < |cut| && cut[i] != '?'
      invariant i <= |p| && j <= items.Length
      invariant Collected(items[..j], p, i)
      invariant CutSoFar(buf[..], p, i, cut)
    {
      assert IsStart(cut, i) == IsStart(p, i);
      CutStep(buf[..], p, i, cut);
      CollectStep(items[..j], p, i);
      j := CutOne(cut, buf, items, i, j);
      i := i + 1;
    }
    if i < |cut| {
      buf[i] := '\0';
    }
  }

  /** One character: a slash is cut, a start is noted. */
  method CutOne(cut: string, buf: array<char>, items: array<nat>, i: nat, j: nat) returns (next: nat)
    requires i < |cut| && buf.Length == |cut| + 1 && j <= items.Length && (IsStart(cut, i) ==> j < items.Length)
    modifies buf, items
    ensures buf[..] == if cut[i] == '/' then old(buf[..])[i := '\0'] else old(buf[..])
    ensures next <= items.Length && items[..next] == if IsStart(cut, i) then old(items[..j]) + [i] else old(items[..j])
  {
    next := j;
    if cut[i] == '/' {
      buf[i] := '\0';
    } else if i == 0 || cut[i - 1] == '/' {
      items[j] := i;
      next := j + 1;
    }
  }

  ghost predicate Collected(taken: seq<nat>, p: string, i: nat) {
    i <= |p| && taken + StartsFrom(p, i) == StartsFrom(p, 0)
  }

  lemma CollectStep(taken: seq<nat>, p: string, i: nat)
    requires i < |p| && Collected(taken, p, i)
    ensures Collected(if IsStart(p, i) then taken + [i] else taken, p, i + 1)
    ensures IsStart(p, i) ==> |taken| < |StartsFrom(p, 0)|
  {
    assert StartsFrom(p, i) == (if IsStart(p, i) then [i] else []) + StartsFrom(p, i + 1);
  }

  lemma CutStep(buf: string, p: string, i: nat, cut: string)
    requires CutSoFar(buf, p, i, cut) && p <= cut && i < |p|
    ensures CutSoFar(if cut[i] == '/' then buf[i := '\0'] else buf, p, i + 1, cut)
  {
  }

  ghost predicate CutSoFar(buf: string, p: string, i: nat, cut: string) {
    && i <= |p| <= |cut| && |buf| == |cut| + 1 && buf[|cut|] == '\0'
    && (forall k :: 0 <= k < i ==> buf[k] == if p[k] == '/' then '\0' else p[k])
    && forall k :: i <= k < |cut| ==> buf[k] == cut[k]
  }

  /** The counting loop. */
  method CountTokens(cut: string) returns (n: nat)
    ensures n == |StartsFrom(BeforeQuery(cut), 0)|
  {
    ghost var p := BeforeQuery(cut);
    n := 0;
    var i := 0;
    while i < |cut| && cut[i] != '?'
      invariant i <= |p| && n + |StartsFrom(p, i)| == |StartsFrom(p, 0)|
    {
      if cut[i] != '/' && (i == 0 || cut[i - 1] == '/') {
        n := n + 1;
      }
      i := i + 1;
    }
  }
}
