/** Which lines the receipt tree has and in which order they stand (packages/audit-verify/src/cli.ts). */
module ReceiptTreeOrder {
  import opened Common
  import opened ReceiptTree

  /** `a` stands before `b` in the list. */
  ghost predicate Before(events: seq<Event>, a: Event, b: Event) {
    exists i, j :: 0 <= i < j < |events| && events[i] == a && events[j] == b
  }

  lemma BeforeOneWay(events: seq<Event>, a: Event, b: Event)
    requires DistinctIds(events) && Before(events, a, b)
    ensures a != b && !Before(events, b, a)
  {
  }

  lemma BeforeTail(events: seq<Event>, a: Event, b: Event)
    requires events != [] && (Before(events[1..], a, b) || (a == events[0] && b in events[1..]))
    ensures Before(events, a, b)
  {
    if Before(events[1..], a, b) {
      var i, j :| 0 <= i < j < |events[1..]| && events[1..][i] == a && events[1..][j] == b;
      assert events[i + 1] == a && events[j + 1] == b;
    } else {
      var j :| 0 <= j < |events[1..]| && events[1..][j] == b;
      assert events[0] == a && events[j + 1] == b;
    }
  }

  /** Without a parent, or with one that is empty or that no event has for an id. */
  predicate Orphan(events: seq<Event>, e: Event) {
    e.parent.None? || e.parent.value == "" || forall x :: x in events ==> x.id != e.parent.value
  }

  /** What may come next after a path: the orphans, or the children of its end. */
  predicate Next(events: seq<Event>, path: seq<Event>, x: Event) {
    x in events && if path == [] then Orphan(events, x) else x.parent == Some(path[|path| - 1].id)
  }

  /** A list of events in the order they stand in the whole list. */
  ghost predicate InOrder(events: seq<Event>, part: seq<Event>) {
    forall i, j | 0 <= i < j < |part| :: Before(events, part[i], part[j])
  }

  lemma InOrderMore(events: seq<Event>, part: seq<Event>)
    requires events != [] && InOrder(events[1..], part) && forall x :: x in part ==> x in events[1..]
    ensures InOrder(events, part) && InOrder(events, [events[0]] + part)
  {
    forall i, j | 0 <= i < j < |part| ensures Before(events, part[i], part[j]) {
      BeforeTail(events, part[i], part[j]);
    }
    var all := [events[0]] + part;
    forall i, j | 0 <= i < j < |all| ensures Before(events, all[i], all[j]) {
      assert all[j] == part[j - 1];
      BeforeTail(events, all[i], all[j]);
    }
  }

  lemma {:induction false} KidsInOrder(events: seq<Event>, parent: Option<string>)
    ensures InOrder(events, WithParent(events, parent))
  {
    if events != [] {
      KidsInOrder(events[1..], parent);
      InOrderMore(events, WithParent(events[1..], parent));
    }
  }

  lemma {:induction false} RootsInOrder(all: seq<Event>, events: seq<Event>)
    ensures InOrder(events, Roots(all, events))
  {
    if events != [] {
      RootsInOrder(all, events[1..]);
      InOrderMore(events, Roots(all, events[1..]));
    }
  }

  /** All that may come next, in order. */
  ghost predicate Lists(events: seq<Event>, path: seq<Event>, next: seq<Event>) {
    InOrder(events, next) && forall x :: x in next <==> Next(events, path, x)
  }

  lemma KidsListed(events: seq<Event>, path: seq<Event>)
    requires path != []
    ensures Lists(events, path, WithParent(events, Some(Last(path).id)))
  {
    KidsInOrder(events, Some(Last(path).id));
  }

  lemma RootsListed(events: seq<Event>)
    ensures Lists(events, [], Roots(events, events))
  {
    RootsInOrder(events, events);
  }

  // ---------------------------------------------------------------- lines

  /** The end of a path is the last of those that may stand there. */
  ghost predicate LastOne(events: seq<Event>, path: seq<Event>)
    requires path != []
  {
    var n := |path| - 1;
    forall x | Next(events, path[..n], x) && x != path[n] :: Before(events, x, path[n])
  }

  /** A column for every event above. */
  ghost function Indent(events: seq<Event>, path: seq<Event>): string {
    if |path| <= 1 then ""
    else
      var above := path[..|path| - 1];
      Indent(events, above) + (if LastOne(events, above) then "    " else "│   ")
  }

  /** The line of a path: no mark for an orphan, and for others whether more are to come. */
  ghost function LineFor(events: seq<Event>, path: seq<Event>): Line
    requires path != []
  {
    Line(Indent(events, path),
         if |path| == 1 then "" else if LastOne(events, path) then "└── " else "├── ", Last(path))
  }

  lemma LastIff(events: seq<Event>, path: seq<Event>, next: seq<Event>, idx: nat)
    requires DistinctIds(events) && Lists(events, path, next) && idx < |next|
    ensures idx == |next| - 1 <==> LastOne(events, path + [next[idx]])
  {
    var longer := path + [next[idx]];
    assert longer[..|path|] == path;
    if idx == |next| - 1 {
      forall x | Next(events, path, x) && x != next[idx] ensures Before(events, x, next[idx]) {
        var k :| 0 <= k < |next| && next[k] == x;
      }
    } else {
      var x := next[idx + 1];
      assert x in next && Before(events, next[idx], x);
      BeforeOneWay(events, next[idx], x);
    }
  }

  lemma IndentBelow(events: seq<Event>, path: seq<Event>, kid: Event)
    requires path != []
    ensures Indent(events, path + [kid]) == Indent(events, path) + (if LastOne(events, path) then "    " else "│   ")
    ensures Indent(events, path + [kid]) != ""
  {
    assert (path + [kid])[..|path|] == path;
  }

  /** The line is that of a path that continues this one. */
  ghost predicate LineBelow(events: seq<Event>, path: seq<Event>, l: Line) {
    exists p :: GoodPath(events, p) && path <= p && l == LineFor(events, p)
  }

  ghost predicate LineAt(events: seq<Event>, path: seq<Event>, next: seq<Event>, k: nat, l: Line)
    requires k < |next|
  {
    LineBelow(events, path + [next[k]], l)
  }

  /** The same, through one of the successors from `idx` on. */
  ghost predicate LineVia(events: seq<Event>, path: seq<Event>, next: seq<Event>, idx: nat, l: Line) {
    exists k: nat :: idx <= k < |next| && LineAt(events, path, next, k, l)
  }

  lemma LineViaStep(events: seq<Event>, path: seq<Event>, next: seq<Event>, idx: nat, l: Line)
    requires idx < |next|
    ensures LineVia(events, path, next, idx, l)
            <==> LineAt(events, path, next, idx, l) || LineVia(events, path, next, idx + 1, l)
  {
  }

  lemma LineBelowStep(events: seq<Event>, path: seq<Event>, next: seq<Event>, l: Line)
    requires Lists(events, path, next) && (path != [] ==> GoodPath(events, path))
    ensures LineBelow(events, path, l)
            <==> (path != [] && l == LineFor(events, path)) || LineVia(events, path, next, 0, l)
  {
    if LineBelow(events, path, l) {
      var p :| GoodPath(events, p) && path <= p && l == LineFor(events, p);
      if p != path {
        var kid := p[|path|];
        assert Next(events, path, kid);
        var k: nat :| k < |next| && next[k] == kid;
        PrefixNext(path, kid, p);
        assert LineAt(events, path, next, k, l);
      }
    }
    if LineVia(events, path, next, 0, l) {
      var k: nat :| 0 <= k < |next| && LineAt(events, path, next, k, l);
      var p :| GoodPath(events, p) && path + [next[k]] <= p && l == LineFor(events, p);
      PrefixNext(path, next[k], p);
    }
  }

  /** The column and the flag that the walk hands down are those of the path. */
  ghost predicate Placed(events: seq<Event>, path: seq<Event>, prefix: string, isLast: bool) {
    GoodPath(events, path) && prefix == Indent(events, path) && (prefix == "" <==> |path| == 1)
    && isLast == LastOne(events, path)
  }

  lemma KidPlaced(events: seq<Event>, path: seq<Event>, kids: seq<Event>, idx: nat, prefix: string, isLast: bool)
    requires Loopless(events) && Placed(events, path, prefix, isLast)
    requires kids == WithParent(events, Some(Last(path).id)) && idx < |kids|
    ensures Placed(events, path + [kids[idx]], NextPrefix(prefix, isLast), idx == |kids| - 1)
  {
    ChildExtends(events, path, kids[idx]);
    KidsListed(events, path);
    LastIff(events, path, kids, idx);
    IndentBelow(events, path, kids[idx]);
  }

  lemma RootPlaced(events: seq<Event>, roots: seq<Event>, idx: nat)
    requires Loopless(events) && roots == Roots(events, events) && idx < |roots|
    ensures Placed(events, Start(roots[idx]), "", idx == |roots| - 1)
  {
    assert roots[idx] in roots;
    RootsListed(events);
    LastIff(events, [], roots, idx);
    assert [] + [roots[idx]] == Start(roots[idx]);
  }

  lemma {:induction false} NodeLines(events: seq<Event>, path: seq<Event>, node: Event, prefix: string, isLast: bool,
                                      l: Line)
    requires Loopless(events) && Placed(events, path, prefix, isLast) && Last(path) == node
    ensures l in WalkNode(events, path, node, prefix, isLast) <==> LineBelow(events, path, l)
    decreases |events| - |path|, 1, 0
  {
    PathBounded(events, path);
    var kids := WithParent(events, Some(node.id));
    KidsLines(events, path, kids, 0, prefix, isLast, l);
    KidsListed(events, path);
    LineBelowStep(events, path, kids, l);
    assert LineOf(prefix, isLast, node) == LineFor(events, path);
  }

  lemma {:induction false} KidsLines(events: seq<Event>, path: seq<Event>, kids: seq<Event>, idx: nat, prefix: string,
                                      isLast: bool, l: Line)
    requires Loopless(events) && Placed(events, path, prefix, isLast)
    requires kids == WithParent(events, Some(Last(path).id)) && idx <= |kids|
    ensures l in WalkKids(events, path, kids, idx, NextPrefix(prefix, isLast)) <==> LineVia(events, path, kids, idx, l)
    decreases |events| - |path|, 0, |kids| - idx
  {
    if idx < |kids| {
      ChildExtends(events, path, kids[idx]);
      KidPlaced(events, path, kids, idx, prefix, isLast);
      NodeLines(events, path + [kids[idx]], kids[idx], NextPrefix(prefix, isLast), idx == |kids| - 1, l);
      KidsLines(events, path, kids, idx + 1, prefix, isLast, l);
      LineViaStep(events, path, kids, idx, l);
    }
  }

  lemma {:induction false} RootsLines(events: seq<Event>, roots: seq<Event>, idx: nat, l: Line)
    requires Loopless(events) && AllStart(events, roots) && roots == Roots(events, events) && idx <= |roots|
    ensures l in WalkRoots(events, roots, idx) <==> LineVia(events, [], roots, idx, l)
    decreases |roots| - idx
  {
    if idx < |roots| {
      RootPlaced(events, roots, idx);
      NodeLines(events, Start(roots[idx]), roots[idx], "", idx == |roots| - 1, l);
      RootsLines(events, roots, idx + 1, l);
      LineViaStep(events, [], roots, idx, l);
      assert [] + [roots[idx]] == Start(roots[idx]);
    }
  }

  /** A path of parent links from an orphan. */
  predicate FromOrphan(events: seq<Event>, path: seq<Event>) {
    path != [] && (forall i | 0 <= i < |path| :: path[i] in events) && Orphan(events, path[0])
    && forall i | 0 < i < |path| :: path[i].parent == Some(path[i - 1].id)
  }

  lemma FromOrphanIff(events: seq<Event>, path: seq<Event>)
    ensures FromOrphan(events, path) <==> GoodPath(events, path)
  {
  }

  /** The lines printed are exactly those of the paths from an orphan, each with a column for every event above it that
      goes on down the page unless that event is the last of its siblings. */
  lemma PrintedLines(events: seq<Event>, l: Line)
    requires Loopless(events)
    ensures l in Printed(events) <==> exists p :: FromOrphan(events, p) && l == LineFor(events, p)
  {
    var roots := Roots(events, events);
    RootsStart(events);
    RootsLines(events, roots, 0, l);
    RootsListed(events);
    LineBelowStep(events, [], roots, l);
    if l in Printed(events) {
      var p :| GoodPath(events, p) && [] <= p && l == LineFor(events, p);
      FromOrphanIff(events, p);
    }
    if p :| FromOrphan(events, p) && l == LineFor(events, p) {
      FromOrphanIff(events, p);
      assert [] <= p;
    }
  }

  /** So an orphan is printed, at the left margin. */
  lemma OrphanPrinted(events: seq<Event>, e: Event)
    requires Loopless(events) && e in events && Orphan(events, e)
    ensures Line("", "", e) in Printed(events)
  {
    PrintedLines(events, LineFor(events, [e]));
    assert FromOrphan(events, [e]);
  }

  // ---------------------------------------------------------------- order

  /** Depth first, siblings as they stand in the list: `p` leads to `q`, or turns off towards an earlier event. */
  ghost predicate Precedes(events: seq<Event>, p: seq<Event>, q: seq<Event>) {
    || (p <= q && |p| < |q|)
    || exists n: nat :: n < |p| && n < |q| && (forall k | 0 <= k < n :: p[k] == q[k]) && Before(events, p[n], q[n])
  }

  ghost predicate LineBefore(lines: seq<Line>, a: Line, b: Line) {
    exists i, j :: 0 <= i < j < |lines| && lines[i] == a && lines[j] == b
  }

  lemma Across(x: seq<Line>, y: seq<Line>, a: Line, b: Line)
    requires a in x && b in y
    ensures LineBefore(x + y, a, b)
  {
    var i :| 0 <= i < |x| && x[i] == a;
    var j :| 0 <= j < |y| && y[j] == b;
    assert (x + y)[i] == a && (x + y)[|x| + j] == b;
  }

  lemma InPart(x: seq<Line>, y: seq<Line>, a: Line, b: Line)
    requires LineBefore(x, a, b) || LineBefore(y, a, b)
    ensures LineBefore(x + y, a, b)
  {
    if LineBefore(x, a, b) {
      var i, j :| 0 <= i < j < |x| && x[i] == a && x[j] == b;
      assert (x + y)[i] == a && (x + y)[j] == b;
    } else {
      var i, j :| 0 <= i < j < |y| && y[i] == a && y[j] == b;
      assert (x + y)[|x| + i] == a && (x + y)[|x| + j] == b;
    }
  }

  /** Where a longer path goes on. */
  lemma GoesOn(events: seq<Event>, path: seq<Event>, next: seq<Event>, p: seq<Event>) returns (k: nat)
    requires Lists(events, path, next) && GoodPath(events, p) && path <= p && |path| < |p|
    ensures k < |next| && next[k] == p[|path|] && path + [next[k]] <= p
  {
    assert Next(events, path, p[|path|]);
    k :| k < |next| && next[k] == p[|path|];
    PrefixNext(path, next[k], p);
  }

  lemma TurnsHere(events: seq<Event>, p: seq<Event>, q: seq<Event>, n: nat)
    requires DistinctIds(events) && Precedes(events, p, q) && n < |p| && n < |q|
    requires (forall k | 0 <= k < n :: p[k] == q[k]) && p[n] != q[n]
    ensures Before(events, p[n], q[n])
  {
    var i: nat :| i < |p| && i < |q| && (forall k | 0 <= k < i :: p[k] == q[k]) && Before(events, p[i], q[i]);
    BeforeOneWay(events, p[i], q[i]);
  }

  /** The earlier path goes on earlier, or both go on together. */
  lemma Turn(events: seq<Event>, path: seq<Event>, next: seq<Event>, p: seq<Event>, q: seq<Event>, k: nat, m: nat)
    requires DistinctIds(events) && Lists(events, path, next) && k < |next| && m < |next|
    requires path + [next[k]] <= p && path + [next[m]] <= q && Precedes(events, p, q)
    ensures k <= m
  {
    assert p[|path|] == next[k] && q[|path|] == next[m];
    if m < k {
      assert Before(events, next[m], next[k]);
      BeforeOneWay(events, next[m], next[k]);
      TurnsHere(events, p, q, |path|);
    }
  }

  lemma NotBeforeItsStart(events: seq<Event>, path: seq<Event>, p: seq<Event>)
    requires DistinctIds(events) && path <= p
    ensures !Precedes(events, p, path)
  {
    if n: nat :| n < |p| && n < |path| && (forall k | 0 <= k < n :: p[k] == path[k]) && Before(events, p[n], path[n]) {
      BeforeOneWay(events, p[n], path[n]);
    }
  }

  lemma {:induction false} NodeOrder(events: seq<Event>, path: seq<Event>, node: Event, prefix: string, isLast: bool,
                                      p: seq<Event>, q: seq<Event>)
    requires Loopless(events) && Placed(events, path, prefix, isLast) && Last(path) == node
    requires GoodPath(events, p) && GoodPath(events, q) && path <= p && path <= q && Precedes(events, p, q)
    ensures LineBefore(WalkNode(events, path, node, prefix, isLast), LineFor(events, p), LineFor(events, q))
    decreases |events| - |path|, 1, 0
  {
    PathBounded(events, path);
    var kids := WithParent(events, Some(node.id));
    KidsListed(events, path);
    if q == path {
      NotBeforeItsStart(events, path, p);
    }
    var rest := WalkKids(events, path, kids, 0, NextPrefix(prefix, isLast));
    var m := GoesOn(events, path, kids, q);
    if p == path {
      assert LineAt(events, path, kids, m, LineFor(events, q));
      KidsLines(events, path, kids, 0, prefix, isLast, LineFor(events, q));
      Across([LineOf(prefix, isLast, node)], rest, LineFor(events, p), LineFor(events, q));
    } else {
      var k := GoesOn(events, path, kids, p);
      Turn(events, path, kids, p, q, k, m);
      KidsOrder(events, path, kids, 0, prefix, isLast, p, q, k, m);
      InPart([LineOf(prefix, isLast, node)], rest, LineFor(events, p), LineFor(events, q));
    }
  }

  lemma {:induction false} KidsOrder(events: seq<Event>, path: seq<Event>, kids: seq<Event>, idx: nat, prefix: string,
                                      isLast: bool, p: seq<Event>, q: seq<Event>, k: nat, m: nat)
    requires Loopless(events) && Placed(events, path, prefix, isLast)
    requires kids == WithParent(events, Some(Last(path).id)) && idx <= k <= m < |kids|
    requires GoodPath(events, p) && GoodPath(events, q) && Precedes(events, p, q)
    requires path + [kids[k]] <= p && path + [kids[m]] <= q
    ensures LineBefore(WalkKids(events, path, kids, idx, NextPrefix(prefix, isLast)), LineFor(events, p),
                       LineFor(events, q))
    decreases |events| - |path|, 0, |kids| - idx
  {
    ChildExtends(events, path, kids[idx]);
    KidPlaced(events, path, kids, idx, prefix, isLast);
    var below, last := NextPrefix(prefix, isLast), idx == |kids| - 1;
    var first := WalkNode(events, path + [kids[idx]], kids[idx], below, last);
    var rest := WalkKids(events, path, kids, idx + 1, below);
    if idx < k {
      KidsOrder(events, path, kids, idx + 1, prefix, isLast, p, q, k, m);
      InPart(first, rest, LineFor(events, p), LineFor(events, q));
    } else if idx == m {
      NodeOrder(events, path + [kids[idx]], kids[idx], below, last, p, q);
      InPart(first, rest, LineFor(events, p), LineFor(events, q));
    } else {
      NodeLines(events, path + [kids[idx]], kids[idx], below, last, LineFor(events, p));
      assert LineAt(events, path, kids, m, LineFor(events, q));
      KidsLines(events, path, kids, idx + 1, prefix, isLast, LineFor(events, q));
      Across(first, rest, LineFor(events, p), LineFor(events, q));
    }
  }

  lemma {:induction false} RootsOrder(events: seq<Event>, roots: seq<Event>, idx: nat, p: seq<Event>, q: seq<Event>,
                                       k: nat, m: nat)
    requires Loopless(events) && AllStart(events, roots) && roots == Roots(events, events)
    requires idx <= k <= m < |roots|
    requires GoodPath(events, p) && GoodPath(events, q) && Precedes(events, p, q)
    requires Start(roots[k]) <= p && Start(roots[m]) <= q
    ensures LineBefore(WalkRoots(events, roots, idx), LineFor(events, p), LineFor(events, q))
    decreases |roots| - idx
  {
    RootPlaced(events, roots, idx);
    var last := idx == |roots| - 1;
    var first := WalkNode(events, Start(roots[idx]), roots[idx], "", last);
    var rest := WalkRoots(events, roots, idx + 1);
    if idx < k {
      RootsOrder(events, roots, idx + 1, p, q, k, m);
      InPart(first, rest, LineFor(events, p), LineFor(events, q));
    } else if idx == m {
      NodeOrder(events, Start(roots[idx]), roots[idx], "", last, p, q);
      InPart(first, rest, LineFor(events, p), LineFor(events, q));
    } else {
      NodeLines(events, Start(roots[idx]), roots[idx], "", last, LineFor(events, p));
      LaterRootLines(events, roots, idx + 1, q, m);
      Across(first, rest, LineFor(events, p), LineFor(events, q));
    }
  }

  lemma LaterRootLines(events: seq<Event>, roots: seq<Event>, idx: nat, q: seq<Event>, m: nat)
    requires Loopless(events) && AllStart(events, roots) && roots == Roots(events, events)
    requires idx <= m < |roots| && GoodPath(events, q) && Start(roots[m]) <= q
    ensures LineFor(events, q) in WalkRoots(events, roots, idx)
  {
    assert [] + [roots[m]] == Start(roots[m]);
    assert LineAt(events, [], roots, m, LineFor(events, q));
    RootsLines(events, roots, idx, LineFor(events, q));
  }

  /** Lines stand in depth-first order: an event comes before what hangs below it, and of two that are side by side the
      one that stands first in the list comes first, with all that hangs below it. */
  lemma PrintedInOrder(events: seq<Event>, p: seq<Event>, q: seq<Event>)
    requires Loopless(events) && FromOrphan(events, p) && FromOrphan(events, q) && Precedes(events, p, q)
    ensures LineBefore(Printed(events), LineFor(events, p), LineFor(events, q))
  {
    var roots := Roots(events, events);
    RootsStart(events);
    RootsListed(events);
    FromOrphanIff(events, p);
    FromOrphanIff(events, q);
    var k := GoesOn(events, [], roots, p);
    var m := GoesOn(events, [], roots, q);
    assert [] + [roots[k]] == Start(roots[k]) && [] + [roots[m]] == Start(roots[m]);
    Turn(events, [], roots, p, q, k, m);
    RootsOrder(events, roots, 0, p, q, k, m);
  }
}
