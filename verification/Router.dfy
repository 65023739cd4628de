/**
 The REST router: a trie of patterns, searched with backtracking. A route is the registered pattern that
 matches and comes first in order: constants before wildcards before stars, an exact end before a star.
 */
module Router {
  import opened Wrappers

  type Res = nat
  type Path = seq<string>

  // ---- path tokens ----

  datatype TokenType = StarToken | WildcardToken | ConstToken

  function Type(item: string): TokenType {
    if item != "" && item[0] == '*' then StarToken
    else if item != "" && item[0] == ':' then WildcardToken
    else ConstToken
  }

  // ---- the trie ----

  datatype Node = Node(star: Option<Res>, exact: Option<Res>, wildcards: Option<Node>, consts: seq<Entry>)

  datatype Entry = Entry(value: string, node: Node)

  const EMPTY: Node := Node(None, None, None, [])

  /** The first entry for `head`, or the number of entries. */
  function Scan(consts: seq<Entry>, head: string, i: nat): (k: nat)
    requires i <= |consts|
    ensures i <= k <= |consts|
    ensures k < |consts| ==> consts[k].value == head
    ensures forall j :: i <= j < k ==> consts[j].value != head
    decreases |consts| - i
  {
    if i == |consts| || consts[i].value == head then i else Scan(consts, head, i + 1)
  }

  /** The node below a constant; an empty one if the constant is not there. */
  function Below(consts: seq<Entry>, head: string): Node {
    var k := Scan(consts, head, 0);
    if k < |consts| then consts[k].node else EMPTY
  }

  function WildOf(r: Node): Node { if r.wildcards.Some? then r.wildcards.value else EMPTY }

  datatype Added = Added(ok: bool, node: Node)

  function Add(r: Node, path: Path, res: Res): (a: Added)
    decreases |path|
  {
    if path == [] then
      if r.exact.Some? then Added(false, r) else Added(true, r.(exact := Some(res)))
    else if Type(path[0]).StarToken? then
      if r.star.Some? then Added(false, r) else Added(true, r.(star := Some(res)))
    else if Type(path[0]).WildcardToken? then
      var sub := Add(WildOf(r), path[1..], res);
      Added(sub.ok, r.(wildcards := Some(sub.node)))
    else
      var sub := Add(Below(r.consts, path[0]), path[1..], res);
      Added(sub.ok, r.(consts := SetBelow(r.consts, path[0], sub.node)))
  }

  function SetBelow(consts: seq<Entry>, head: string, node: Node): (r: seq<Entry>) {
    var k := Scan(consts, head, 0);
    if k < |consts| then consts[k := Entry(head, node)] else consts + [Entry(head, node)]
  }

  function Route(r: Node, path: Path): (res: Option<Res>)
    decreases |path|
  {
    if path == [] then
      if r.exact.Some? then r.exact else r.star
    else
      var k := Scan(r.consts, path[0], 0);
      var fixed := if k < |r.consts| then Route(r.consts[k].node, path[1..]) else None;
      if fixed.Some? then fixed
      else
        var wild := if r.wildcards.Some? then Route(r.wildcards.value, path[1..]) else None;
        if wild.Some? then wild else r.star
  }

  // ---- the operations as the source runs them ----

  method RouterAdd(r: Node, path: Path, res: Res) returns (ok: bool, node: Node)
    ensures Added(ok, node) == Add(r, path, res)
    decreases |path|
  {
    if path == [] {
      if r.exact.Some? {
        return false, r;
      }
      return true, r.(exact := Some(res));
    }
    var head := path[0];
    if Type(head).StarToken? {
      if r.star.Some? {
        return false, r;
      }
      return true, r.(star := Some(res));
    }
    if Type(head).WildcardToken? {
      var below := if r.wildcards.None? then EMPTY else r.wildcards.value;
      ok, node := RouterAdd(below, path[1..], res);
      return ok, r.(wildcards := Some(node));
    }
    for i := 0 to |r.consts|
      invariant Scan(r.consts, head, 0) == Scan(r.consts, head, i)
    {
      if r.consts[i].value == head {
        ok, node := RouterAdd(r.consts[i].node, path[1..], res);
        return ok, r.(consts := r.consts[i := Entry(head, node)]);
      }
    }
    ok, node := RouterAdd(EMPTY, path[1..], res);
    return ok, r.(consts := r.consts + [Entry(head, node)]);
  }

  method RouterRoute(r: Node, path: Path) returns (res: Option<Res>)
    ensures res == Route(r, path)
    decreases |path|
  {
    if path == [] {
      if r.exact.Some? {
        return r.exact;
      }
      return r.star;
    }
    var head := path[0];
    for i := 0 to |r.consts|
      invariant Scan(r.consts, head, 0) == Scan(r.consts, head, i)
    {
      if r.consts[i].value == head {
        res := RouterRoute(r.consts[i].node, path[1..]);
        if res.Some? {
          return;
        }
        break;
      }
    }
    if r.wildcards.Some? {
      res := RouterRoute(r.wildcards.value, path[1..]);
      if res.Some? {
        return;
      }
    }
    return r.star;
  }

  // ---- the flat specification ----

  datatype Tok = Const(text: string) | Wild | Star

  /** What distinguishes one pattern from another: wildcard names and all after a star are ignored. */
  function Shape(path: Path): (s: seq<Tok>) {
    if path == [] then []
    else if Type(path[0]).StarToken? then [Star]
    else if Type(path[0]).WildcardToken? then [Wild] + Shape(path[1..])
    else [Const(path[0])] + Shape(path[1..])
  }

  predicate Matches(s: seq<Tok>, path: Path) {
    if s == [] then path == []
    else match s[0]
      case Star => |s| == 1
      case Wild => path != [] && Matches(s[1..], path[1..])
      case Const(c) => path != [] && path[0] == c && Matches(s[1..], path[1..])
  }

  function Rank(t: Tok): nat {
    match t
    case Const(_) => 0
    case Wild => 1
    case Star => 2
  }

  /** Lexicographic order on the shapes that match one path. */
  predicate Before(a: seq<Tok>, b: seq<Tok>) {
    if a == [] then b != []
    else if b == [] then false
    else if a[0] == b[0] then Before(a[1..], b[1..])
    else Rank(a[0]) < Rank(b[0])
  }

  /** A flat registry: the first pattern of each shape stays. */
  function Register(flat: map<seq<Tok>, Res>, path: Path, res: Res): map<seq<Tok>, Res> {
    if Shape(path) in flat then flat else flat[Shape(path) := res]
  }

  /** The best of the matching shapes of a registry. */
  ghost predicate IsBest(flat: map<seq<Tok>, Res>, path: Path, s: seq<Tok>) {
    && s in flat && Matches(s, path)
    && forall t :: t in flat && Matches(t, path) && t != s ==> Before(s, t)
  }

  // ---- what a trie holds ----

  function Lookup(r: Node, s: seq<Tok>): (res: Option<Res>) {
    if s == [] then r.exact
    else match s[0]
      case Star => if |s| == 1 then r.star else None
      case Wild => if r.wildcards.Some? then Lookup(r.wildcards.value, s[1..]) else None
      case Const(c) =>
        var k := Scan(r.consts, c, 0);
        if k < |r.consts| then Lookup(r.consts[k].node, s[1..]) else None
  }

  lemma {:induction false} EmptyHasNothing(s: seq<Tok>)
    ensures Lookup(EMPTY, s) == None
  {
  }

  lemma LookupWild(r: Node, s: seq<Tok>)
    requires s != [] && s[0] == Wild
    ensures Lookup(r, s) == Lookup(WildOf(r), s[1..])
  {
    EmptyHasNothing(s[1..]);
  }

  lemma LookupConst(r: Node, s: seq<Tok>, c: string)
    requires s != [] && s[0] == Const(c)
    ensures Lookup(r, s) == Lookup(Below(r.consts, c), s[1..])
  {
    EmptyHasNothing(s[1..]);
  }

  lemma {:induction false} ScanFinds(consts: seq<Entry>, head: string, i: nat, k: nat)
    requires i <= k < |consts| && consts[k].value == head && forall j :: i <= j < k ==> consts[j].value != head
    ensures Scan(consts, head, i) == k
    decreases k - i
  {
    if i < k {
      ScanFinds(consts, head, i + 1, k);
    }
  }

  lemma BelowAfterSet(consts: seq<Entry>, head: string, node: Node, c: string)
    ensures Below(SetBelow(consts, head, node), c) == if c == head then node else Below(consts, c)
  {
    var k := Scan(consts, head, 0);
    var after := SetBelow(consts, head, node);
    if c == head {
      ScanFinds(after, head, 0, k);
    } else {
      var j := Scan(consts, c, 0);
      var l := Scan(after, c, 0);
      if j < |consts| {
        ScanFinds(after, c, 0, j);
      }
    }
  }

  /** An add puts its shape in the trie, and nothing else changes; it fails exactly if the shape is there. */
  lemma {:induction false} AddIsRegistration(r: Node, path: Path, res: Res, s: seq<Tok>)
    ensures var a := Add(r, path, res);
            && a.ok == Lookup(r, Shape(path)).None?
            && Lookup(a.node, s) == if a.ok && s == Shape(path) then Some(res) else Lookup(r, s)
    decreases |path|
  {
    var a := Add(r, path, res);
    if path == [] || Type(path[0]).StarToken? {
      if s != [] && s[0].Const? {
        LookupConst(r, s, s[0].text);
        LookupConst(a.node, s, s[0].text);
      }
    } else if Type(path[0]).WildcardToken? {
      LookupWild(r, Shape(path));
      assert Shape(path)[1..] == Shape(path[1..]);
      if s != [] && s[0].Const? {
        LookupConst(r, s, s[0].text);
        LookupConst(a.node, s, s[0].text);
      }
      if s != [] && s[0].Wild? {
        LookupWild(r, s);
        LookupWild(a.node, s);
        assert s == [Wild] + s[1..];
        AddIsRegistration(WildOf(r), path[1..], res, s[1..]);
      } else {
        AddIsRegistration(WildOf(r), path[1..], res, []);
      }
    } else {
      var head := path[0];
      LookupConst(r, Shape(path), head);
      assert Shape(path)[1..] == Shape(path[1..]);
      if s != [] && s[0].Const? {
        LookupConst(r, s, s[0].text);
        LookupConst(a.node, s, s[0].text);
        assert s == [s[0]] + s[1..];
        BelowAfterSet(r.consts, head, Add(Below(r.consts, head), path[1..], res).node, s[0].text);
        AddIsRegistration(Below(r.consts, head), path[1..], res, s[1..]);
      } else {
        AddIsRegistration(Below(r.consts, head), path[1..], res, []);
      }
    }
  }

  lemma {:induction false} FailedAddChangesNothing(r: Node, path: Path, res: Res)
    ensures !Add(r, path, res).ok ==> Add(r, path, res).node == r
    decreases |path|
  {
    if path != [] && Type(path[0]).WildcardToken? {
      FailedAddChangesNothing(WildOf(r), path[1..], res);
      AddIsRegistration(WildOf(r), path[1..], res, []);
      EmptyHasNothing(Shape(path[1..]));
    } else if path != [] && Type(path[0]).ConstToken? {
      var head := path[0];
      FailedAddChangesNothing(Below(r.consts, head), path[1..], res);
      AddIsRegistration(Below(r.consts, head), path[1..], res, []);
      EmptyHasNothing(Shape(path[1..]));
      var k := Scan(r.consts, head, 0);
      if k < |r.consts| {
        assert r.consts[k := Entry(head, r.consts[k].node)] == r.consts;
      }
    }
  }

  // ---- the search ----

  /** The shape whose resource the search returns. */
  ghost function Chosen(r: Node, path: Path): (s: seq<Tok>)
    requires Route(r, path).Some?
    decreases |path|
  {
    if path == [] then
      if r.exact.Some? then [] else [Star]
    else
      var below := Below(r.consts, path[0]);
      if Route(below, path[1..]).Some? then [Const(path[0])] + Chosen(below, path[1..])
      else if Route(WildOf(r), path[1..]).Some? then [Wild] + Chosen(WildOf(r), path[1..])
      else [Star]
  }

  lemma EmptyRoutesNowhere(path: Path)
    ensures Route(EMPTY, path) == None
  {
  }

  /** The search, with a missing branch read as an empty one. */
  lemma RouteUnfolds(r: Node, path: Path)
    requires path != []
    ensures Route(r, path) ==
      var fixed, wild := Route(Below(r.consts, path[0]), path[1..]), Route(WildOf(r), path[1..]);
      if fixed.Some? then fixed else if wild.Some? then wild else r.star
  {
    EmptyRoutesNowhere(path[1..]);
  }

  lemma {:induction false} ChosenIsRegistered(r: Node, path: Path)
    requires Route(r, path).Some?
    ensures Matches(Chosen(r, path), path) && Lookup(r, Chosen(r, path)) == Route(r, path)
    decreases |path|
  {
    if path != [] {
      RouteUnfolds(r, path);
      var s := Chosen(r, path);
      if s[0].Const? {
        ChosenIsRegistered(Below(r.consts, path[0]), path[1..]);
        LookupConst(r, s, path[0]);
        assert s[1..] == Chosen(Below(r.consts, path[0]), path[1..]);
      } else if s[0].Wild? {
        ChosenIsRegistered(WildOf(r), path[1..]);
        LookupWild(r, s);
        assert s[1..] == Chosen(WildOf(r), path[1..]);
      }
    }
  }

  lemma {:induction false} ChosenIsFirst(r: Node, path: Path, t: seq<Tok>)
    requires Matches(t, path) && Lookup(r, t).Some?
    ensures Route(r, path).Some? && (t == Chosen(r, path) || Before(Chosen(r, path), t))
    decreases |path|
  {
    if path != [] {
      RouteUnfolds(r, path);
      if t[0].Const? {
        LookupConst(r, t, path[0]);
        ChosenIsFirst(Below(r.consts, path[0]), path[1..], t[1..]);
      } else if t[0].Wild? {
        LookupWild(r, t);
        ChosenIsFirst(WildOf(r), path[1..], t[1..]);
      }
      assert t == [t[0]] + t[1..];
    }
  }

  // ---- any sequence of adds ----

  datatype Call = Call(path: Path, res: Res)

  function Build(calls: seq<Call>): Node {
    if calls == [] then EMPTY
    else
      var last := calls[|calls| - 1];
      Add(Build(calls[..|calls| - 1]), last.path, last.res).node
  }

  function Flat(calls: seq<Call>): map<seq<Tok>, Res> {
    if calls == [] then map[]
    else
      var last := calls[|calls| - 1];
      Register(Flat(calls[..|calls| - 1]), last.path, last.res)
  }

  lemma {:induction false} TrieHoldsFlat(calls: seq<Call>, s: seq<Tok>)
    ensures Lookup(Build(calls), s) == if s in Flat(calls) then Some(Flat(calls)[s]) else None
  {
    if calls == [] {
      EmptyHasNothing(s);
    } else {
      var rest, last := calls[..|calls| - 1], calls[|calls| - 1];
      TrieHoldsFlat(rest, s);
      TrieHoldsFlat(rest, Shape(last.path));
      AddIsRegistration(Build(rest), last.path, last.res, s);
    }
  }

  lemma BestOfFlat(calls: seq<Call>, path: Path)
    ensures match Route(Build(calls), path)
            case Some(res) => exists s :: IsBest(Flat(calls), path, s) && Flat(calls)[s] == res
            case None => forall t :: t in Flat(calls) ==> !Matches(t, path)
  {
    var r, flat := Build(calls), Flat(calls);
    forall t | t in flat && Matches(t, path)
      ensures Route(r, path).Some? && (t == Chosen(r, path) || Before(Chosen(r, path), t))
    {
      TrieHoldsFlat(calls, t);
      ChosenIsFirst(r, path, t);
    }
    if Route(r, path).Some? {
      var s := Chosen(r, path);
      ChosenIsRegistered(r, path);
      TrieHoldsFlat(calls, s);
      assert IsBest(flat, path, s);
    }
  }

  // ---- patterns by their characters ----

  predicate StartsWith(item: string, c: char) {
    item != "" && item[0] == c
  }

  /** A star stands for all the rest of a path, a colon for one token, and anything else for itself. */
  predicate Covers(pattern: Path, path: Path) {
    if pattern == [] then path == []
    else if StartsWith(pattern[0], '*') then true
    else path != [] && (StartsWith(pattern[0], ':') || pattern[0] == path[0]) && Covers(pattern[1..], path[1..])
  }

  /** Two patterns that differ at most in the names behind colons and in what follows a star. */
  predicate Alike(p: Path, q: Path) {
    if p == [] || q == [] then p == q
    else if StartsWith(p[0], '*') then StartsWith(q[0], '*')
    else if StartsWith(p[0], ':') then StartsWith(q[0], ':') && Alike(p[1..], q[1..])
    else p[0] == q[0] && Alike(p[1..], q[1..])
  }

  /** Where the two first differ, `p` says more: an end or a constant, else a colon, else a star. */
  predicate Finer(p: Path, q: Path) {
    if p == [] then q != []
    else if q == [] || StartsWith(p[0], '*') then false
    else if StartsWith(q[0], '*') then true
    else if StartsWith(p[0], ':') then StartsWith(q[0], ':') && Finer(p[1..], q[1..])
    else StartsWith(q[0], ':') || (p[0] == q[0] && Finer(p[1..], q[1..]))
  }

  lemma {:induction false} ShapeCovers(pattern: Path, path: Path)
    ensures Matches(Shape(pattern), path) <==> Covers(pattern, path)
  {
    if pattern != [] && path != [] {
      ShapeCovers(pattern[1..], path[1..]);
      if !StartsWith(pattern[0], '*') { assert Shape(pattern)[1..] == Shape(pattern[1..]); }
    }
  }

  lemma HeadAndTail(a: seq<Tok>, b: seq<Tok>)
    requires a != [] && b != []
    ensures a == b <==> a[0] == b[0] && a[1..] == b[1..]
  {
    assert a == [a[0]] + a[1..] && b == [b[0]] + b[1..];
  }

  lemma {:induction false} ShapeIsAlike(p: Path, q: Path)
    ensures Shape(p) == Shape(q) <==> Alike(p, q)
  {
    if p != [] && q != [] {
      HeadAndTail(Shape(p), Shape(q));
      ShapeIsAlike(p[1..], q[1..]);
      if !StartsWith(p[0], '*') { assert Shape(p)[1..] == Shape(p[1..]); }
      if !StartsWith(q[0], '*') { assert Shape(q)[1..] == Shape(q[1..]); }
    }
  }

  lemma {:induction false} ShapeIsFiner(p: Path, q: Path)
    ensures Before(Shape(p), Shape(q)) <==> Finer(p, q)
  {
    if p != [] && q != [] {
      ShapeIsFiner(p[1..], q[1..]);
      if !StartsWith(p[0], '*') { assert Shape(p)[1..] == Shape(p[1..]); }
      if !StartsWith(q[0], '*') { assert Shape(q)[1..] == Shape(q[1..]); }
    }
  }

  /** What a pattern of one token covers. */
  lemma OneToken(item: string, path: Path)
    ensures StartsWith(item, ':') ==> (Matches(Shape([item]), path) <==> |path| == 1)
    ensures StartsWith(item, '*') ==> Matches(Shape([item]), path)
    ensures !StartsWith(item, ':') && !StartsWith(item, '*') ==> (Matches(Shape([item]), path) <==> path == [item])
  {
    ShapeCovers([item], path);
  }

  /** Call `i` was accepted: no call before it had a pattern alike. */
  predicate Accepted(calls: seq<Call>, i: nat) {
    i < |calls| && forall j :: 0 <= j < i ==> !Alike(calls[j].path, calls[i].path)
  }

  /** The flat registry holds the shapes of the calls, each with the resource of the call that was accepted. */
  lemma {:induction false} FlatIsAccepted(calls: seq<Call>, i: nat)
    requires i < |calls|
    ensures Shape(calls[i].path) in Flat(calls)
    ensures Accepted(calls, i) ==> Flat(calls)[Shape(calls[i].path)] == calls[i].res
  {
    var n := |calls| - 1;
    if i < n {
      FlatIsAccepted(calls[..n], i);
      assert Accepted(calls, i) ==> Accepted(calls[..n], i);
    } else if Shape(calls[n].path) in Flat(calls[..n]) {
      var j := FlatHasACall(calls[..n], Shape(calls[n].path));
      ShapeIsAlike(calls[j].path, calls[n].path);
    }
  }

  lemma {:induction false} FlatHasACall(calls: seq<Call>, s: seq<Tok>) returns (i: nat)
    requires s in Flat(calls)
    ensures Accepted(calls, i) && Shape(calls[i].path) == s
  {
    var n := |calls| - 1;
    if s in Flat(calls[..n]) {
      i := FlatHasACall(calls[..n], s);
      assert calls[..n][i] == calls[i];
      forall j | 0 <= j < i ensures !Alike(calls[j].path, calls[i].path) { assert calls[..n][j] == calls[j]; }
    } else {
      i := n;
      forall j | 0 <= j < n ensures !Alike(calls[j].path, calls[n].path) {
        FlatIsAccepted(calls[..n], j);
        ShapeIsAlike(calls[j].path, calls[n].path);
      }
    }
  }

  /** Call `i` is the one to route `path` to: its pattern covers the path, it was accepted, and every other pattern that
      covers the path is alike or says less. */
  ghost predicate RoutesTo(calls: seq<Call>, path: Path, i: nat) {
    && Accepted(calls, i) && Covers(calls[i].path, path)
    && forall j :: 0 <= j < |calls| && Covers(calls[j].path, path) ==>
         Alike(calls[i].path, calls[j].path) || Finer(calls[i].path, calls[j].path)
  }

  lemma BestIsRoutedTo(calls: seq<Call>, path: Path, s: seq<Tok>) returns (i: nat)
    requires IsBest(Flat(calls), path, s)
    ensures RoutesTo(calls, path, i) && calls[i].res == Flat(calls)[s]
  {
    i := FlatHasACall(calls, s);
    FlatIsAccepted(calls, i);
    ShapeCovers(calls[i].path, path);
    forall j | 0 <= j < |calls| && Covers(calls[j].path, path)
      ensures Alike(calls[i].path, calls[j].path) || Finer(calls[i].path, calls[j].path)
    {
      FlatIsAccepted(calls, j);
      ShapeCovers(calls[j].path, path);
      ShapeIsAlike(calls[i].path, calls[j].path);
      ShapeIsFiner(calls[i].path, calls[j].path);
    }
  }

  /** After any adds, a path is routed to the accepted pattern that covers it and says most about it; it is routed
      nowhere if and only if no pattern covers it. */
  lemma RouteIsBest(calls: seq<Call>, path: Path)
    ensures match Route(Build(calls), path)
            case Some(res) => exists i: nat :: RoutesTo(calls, path, i) && calls[i].res == res
            case None => forall i :: 0 <= i < |calls| ==> !Covers(calls[i].path, path)
  {
    BestOfFlat(calls, path);
    if Route(Build(calls), path).Some? {
      var s :| IsBest(Flat(calls), path, s) && Flat(calls)[s] == Route(Build(calls), path).value;
      var i := BestIsRoutedTo(calls, path, s);
    } else {
      forall i | 0 <= i < |calls| ensures !Covers(calls[i].path, path) {
        FlatIsAccepted(calls, i);
        ShapeCovers(calls[i].path, path);
      }
    }
  }

  /** An add is refused if and only if a pattern alike was added before, and a refused add changes nothing. */
  lemma AddFailsIffRegistered(calls: seq<Call>, path: Path, res: Res)
    ensures var a := Add(Build(calls), path, res);
            && (a.ok <==> forall i :: 0 <= i < |calls| ==> !Alike(calls[i].path, path))
            && (!a.ok ==> a.node == Build(calls))
  {
    TrieHoldsFlat(calls, Shape(path));
    AddIsRegistration(Build(calls), path, res, []);
    FailedAddChangesNothing(Build(calls), path, res);
    if Shape(path) in Flat(calls) {
      var i := FlatHasACall(calls, Shape(path));
      ShapeIsAlike(calls[i].path, path);
    } else {
      forall i | 0 <= i < |calls| ensures !Alike(calls[i].path, path) {
        FlatIsAccepted(calls, i);
        ShapeIsAlike(calls[i].path, path);
      }
    }
  }

  /** There is no second best: at most one registered shape comes first. */
  lemma BestIsUnique(flat: map<seq<Tok>, Res>, path: Path, s: seq<Tok>, t: seq<Tok>)
    requires IsBest(flat, path, s) && IsBest(flat, path, t)
    ensures s == t
  {
    if s != t {
      BeforeIsAsymmetric(s, t);
    }
  }

  lemma {:induction false} BeforeIsAsymmetric(a: seq<Tok>, b: seq<Tok>)
    ensures !(Before(a, b) && Before(b, a))
    decreases |a|
  {
    if a != [] && b != [] && a[0] == b[0] {
      BeforeIsAsymmetric(a[1..], b[1..]);
    }
  }
}
