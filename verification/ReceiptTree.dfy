/** The receipt tree printed by packages/audit-verify/src/cli.ts: a recursive walk over parent links
    that keeps no record of what it has visited. */
module ReceiptTree {
  import opened Common

  datatype Event = Event(id: string, parent: Option<string>, decision: string, command: string, agent: string,
                         depth: Option<nat>, swarm: Option<string>)

  /** One printed line: the indentation, the branch mark and the event whose fields follow. */
  datatype Line = Line(prefix: string, branch: string, event: Event)

  // ---------------------------------------------------------------- the graph

  predicate HasId(events: seq<Event>, id: string) {
    exists e :: e in events && e.id == id
  }

  /** `!ev.parent_receipt_id || !byId.has(ev.parent_receipt_id)` */
  predicate IsRoot(events: seq<Event>, e: Event) {
    e.parent.None? || e.parent.value == "" || !HasId(events, e.parent.value)
  }

  function WithParent(events: seq<Event>, parent: Option<string>): (kids: seq<Event>)
    ensures forall e :: e in kids <==> e in events && e.parent == parent
  {
    if events == [] then []
    else if events[0].parent == parent then [events[0]] + WithParent(events[1..], parent)
    else WithParent(events[1..], parent)
  }

  function Roots(all: seq<Event>, events: seq<Event>): (roots: seq<Event>)
    ensures forall e :: e in roots <==> e in events && IsRoot(all, e)
  {
    if events == [] then []
    else if IsRoot(all, events[0]) then [events[0]] + Roots(all, events[1..])
    else Roots(all, events[1..])
  }

  predicate DistinctIds(events: seq<Event>) {
    forall i, j | 0 <= i < j < |events| :: events[i].id != events[j].id
  }

  /** Events of the list, each the child of the one before. */
  predicate Lineage(events: seq<Event>, path: seq<Event>) {
    && path != []
    && (forall i | 0 <= i < |path| :: path[i] in events)
    && (forall i | 0 < i < |path| :: path[i].parent == Some(path[i - 1].id))
  }

  /** A lineage that leads from an event with the empty id back to it. */
  predicate EmptyLoop(events: seq<Event>, loop: seq<Event>) {
    Lineage(events, loop) && |loop| > 1 && loop[0] == loop[|loop| - 1] && loop[0].id == ""
  }

  /** Event ids are distinct, and no event with the empty id is its own ancestor. The root test takes an empty
      parent for a missing one, the lookup of children does not, so such an event is walked again and again. */
  ghost predicate Loopless(events: seq<Event>) {
    DistinctIds(events) && !exists loop :: EmptyLoop(events, loop)
  }

  /** A path of parent links that starts at a root. */
  predicate GoodPath(events: seq<Event>, path: seq<Event>) {
    Lineage(events, path) && IsRoot(events, path[0])
  }

  function Last(path: seq<Event>): Event
    requires path != []
  {
    path[|path| - 1]
  }

  lemma SameIdSameEvent(events: seq<Event>, e: Event, f: Event)
    requires DistinctIds(events) && e in events && f in events && e.id == f.id
    ensures e == f
  {
    var i :| 0 <= i < |events| && events[i] == e;
    var j :| 0 <= j < |events| && events[j] == f;
    assert i == j;
  }

  lemma PrefixGood(events: seq<Event>, path: seq<Event>, n: nat)
    requires GoodPath(events, path) && 0 < n <= |path|
    ensures GoodPath(events, path[..n])
  {
  }

  /** A root that has a parent in the list is a child of the event with the empty id. */
  lemma LinkedRoot(events: seq<Event>, e: Event, parent: Event)
    requires e in events && parent in events && e.parent == Some(parent.id) && IsRoot(events, e)
    ensures parent.id == ""
  {
  }

  /** A path that comes back to its start has gone round a loop through the empty id. */
  lemma BackToStart(events: seq<Event>, path: seq<Event>, j: nat)
    requires GoodPath(events, path) && 0 < j < |path| && path[0] == path[j]
    ensures EmptyLoop(events, [path[j - 1]] + path[..j])
  {
    var loop := [path[j - 1]] + path[..j];
    LinkedRoot(events, path[j], path[j - 1]);
    forall i | 0 < i < |loop| ensures loop[i].parent == Some(loop[i - 1].id) {
      assert loop[i] == path[i - 1];
      assert i > 1 ==> loop[i - 1] == path[i - 2];
    }
    forall i | 0 <= i < |loop| ensures loop[i] in events {
    }
  }

  /** No event repeats along a path. */
  lemma {:induction false} PathDistinct(events: seq<Event>, path: seq<Event>, i: nat, j: nat)
    requires Loopless(events) && GoodPath(events, path) && i < j < |path|
    ensures path[i] != path[j]
    decreases i
  {
    if path[i] == path[j] {
      if i == 0 {
        BackToStart(events, path, j);
      } else {
        SameIdSameEvent(events, path[i - 1], path[j - 1]);
        PathDistinct(events, path, i - 1, j - 1);
      }
    }
  }

  function Elements(s: seq<Event>): set<Event> {
    set e | e in s
  }

  lemma {:induction false} DistinctCount(s: seq<Event>)
    requires forall i, j | 0 <= i < j < |s| :: s[i] != s[j]
    ensures |Elements(s)| == |s|
  {
    if s != [] {
      DistinctCount(s[1..]);
      assert s == [s[0]] + s[1..];
      assert Elements(s) == {s[0]} + Elements(s[1..]);
    }
  }

  lemma {:induction false} ElementsBound(s: seq<Event>)
    ensures |Elements(s)| <= |s|
  {
    if s != [] {
      ElementsBound(s[1..]);
      assert s == [s[0]] + s[1..];
      assert Elements(s) == {s[0]} + Elements(s[1..]);
    }
  }

  lemma SubsetSize(a: set<Event>, b: set<Event>)
    requires a <= b
    ensures |a| <= |b|
  {
    assert |b| == |a| + |b - a| by {
      assert b == a + (b - a);
    }
  }

  /** The measure of the walk: a path is never longer than the list of events. */
  lemma PathBounded(events: seq<Event>, path: seq<Event>)
    requires Loopless(events) && GoodPath(events, path)
    ensures |path| <= |events|
  {
    forall i, j | 0 <= i < j < |path| ensures path[i] != path[j] {
      PathDistinct(events, path, i, j);
    }
    DistinctCount(path);
    ElementsBound(events);
    SubsetSize(Elements(path), Elements(events));
  }

  lemma {:induction false} WithParentSnoc(events: seq<Event>, e: Event, k: Option<string>)
    ensures e.parent == k ==> WithParent(events + [e], k) == WithParent(events, k) + [e]
    ensures e.parent != k ==> WithParent(events + [e], k) == WithParent(events, k)
  {
    var all := events + [e];
    if events == [] {
      assert all == [e] && all[1..] == [];
      assert WithParent(all[1..], k) == [];
    } else {
      WithParentSnoc(events[1..], e, k);
      assert all[0] == events[0] && all[1..] == events[1..] + [e];
    }
  }

  lemma Regroup(a: seq<Line>, b: seq<Line>, c: seq<Line>)
    ensures (a + b) + c == a + (b + c)
  {
  }

  // ---------------------------------------------------------------- the walk as a function

  function LineOf(prefix: string, isLast: bool, e: Event): Line {
    Line(prefix, if prefix == "" then "" else if isLast then "└── " else "├── ", e)
  }

  function NextPrefix(prefix: string, isLast: bool): string {
    prefix + (if isLast then "    " else "│   ")
  }

  lemma LongerPath(events: seq<Event>, path: seq<Event>, kid: Event)
    requires GoodPath(events, path) && kid in events && kid.parent == Some(Last(path).id)
    ensures GoodPath(events, path + [kid])
  {
    var longer := path + [kid];
    assert longer[0] == path[0];
    forall i | 0 <= i < |longer| ensures longer[i] in events {
      assert i < |path| ==> longer[i] == path[i];
    }
    forall i | 0 < i < |longer| ensures longer[i].parent == Some(longer[i - 1].id) {
      assert longer[i - 1] == path[i - 1];
      assert i < |path| ==> longer[i] == path[i];
    }
  }

  lemma ChildExtends(events: seq<Event>, path: seq<Event>, kid: Event)
    requires Loopless(events) && GoodPath(events, path)
    requires kid in WithParent(events, Some(Last(path).id))
    ensures GoodPath(events, path + [kid]) && Last(path + [kid]) == kid && |path| < |events|
  {
    LongerPath(events, path, kid);
    PathBounded(events, path + [kid]);
  }

  /** What the walk prints for the node a path ends in. */
  function WalkNode(events: seq<Event>, ghost path: seq<Event>, node: Event, prefix: string, isLast: bool): seq<Line>
    requires Loopless(events) && GoodPath(events, path) && Last(path) == node
    decreases |events| - |path|, 1, 0
  {
    PathBounded(events, path);
    var kids := WithParent(events, Some(node.id));
    [LineOf(prefix, isLast, node)] + WalkKids(events, path, kids, 0, NextPrefix(prefix, isLast))
  }

  function WalkKids(events: seq<Event>, ghost path: seq<Event>, kids: seq<Event>, idx: nat, prefix: string): seq<Line>
    requires Loopless(events) && GoodPath(events, path)
    requires kids == WithParent(events, Some(Last(path).id)) && idx <= |kids|
    decreases |events| - |path|, 0, |kids| - idx
  {
    if idx == |kids| then []
    else
      ChildExtends(events, path, kids[idx]);
      WalkNode(events, path + [kids[idx]], kids[idx], prefix, idx == |kids| - 1)
      + WalkKids(events, path, kids, idx + 1, prefix)
  }

  /** One turn of the loop over children: the child's lines go out, the others' remain. */
  lemma WalkKidsStep(events: seq<Event>, path: seq<Event>, kids: seq<Event>, idx: nat, prefix: string, out: seq<Line>)
    requires Loopless(events) && GoodPath(events, path)
    requires kids == WithParent(events, Some(Last(path).id)) && idx < |kids|
    ensures var longer := path + [kids[idx]];
            GoodPath(events, longer) && Last(longer) == kids[idx] && |longer| <= |events|
            && out + WalkKids(events, path, kids, idx, prefix)
               == out + WalkNode(events, longer, kids[idx], prefix, idx == |kids| - 1)
                  + WalkKids(events, path, kids, idx + 1, prefix)
  {
    ChildExtends(events, path, kids[idx]);
    Regroup(out, WalkNode(events, path + [kids[idx]], kids[idx], prefix, idx == |kids| - 1),
            WalkKids(events, path, kids, idx + 1, prefix));
  }

  /** The path that has just started at a root. */
  function Start(root: Event): (path: seq<Event>)
    ensures path == [root]
  {
    [] + [root]
  }

  predicate AllStart(events: seq<Event>, roots: seq<Event>) {
    forall i | 0 <= i < |roots| :: GoodPath(events, Start(roots[i]))
  }

  lemma RootsStart(events: seq<Event>)
    ensures AllStart(events, Roots(events, events))
  {
    var roots := Roots(events, events);
    forall i | 0 <= i < |roots| ensures GoodPath(events, Start(roots[i])) {
      assert roots[i] in roots;
    }
  }

  function WalkRoots(events: seq<Event>, roots: seq<Event>, idx: nat): seq<Line>
    requires Loopless(events) && AllStart(events, roots) && idx <= |roots|
    decreases |roots| - idx
  {
    if idx == |roots| then []
    else
      WalkNode(events, Start(roots[idx]), roots[idx], "", idx == |roots| - 1) + WalkRoots(events, roots, idx + 1)
  }

  /** The whole output of `printChainTree`. */
  function Printed(events: seq<Event>): seq<Line>
    requires Loopless(events)
  {
    RootsStart(events);
    WalkRoots(events, Roots(events, events), 0)
  }

  // ---------------------------------------------------------------- the printer

  type ChildIndex = map<Option<string>, seq<Event>>

  function Children(index: ChildIndex, parent: Option<string>): seq<Event> {
    if parent in index then index[parent] else []
  }

  ghost predicate IsIndex(index: ChildIndex, events: seq<Event>) {
    forall k :: Children(index, k) == WithParent(events, k)
  }

  lemma IndexSnoc(index: ChildIndex, events: seq<Event>, e: Event)
    requires IsIndex(index, events)
    ensures IsIndex(index[e.parent := Children(index, e.parent) + [e]], events + [e])
  {
    var more := index[e.parent := Children(index, e.parent) + [e]];
    forall k ensures Children(more, k) == WithParent(events + [e], k) {
      WithParentSnoc(events, e, k);
      assert Children(index, k) == WithParent(events, k);
    }
  }

  class Printer {
    const events: seq<Event>
    var childrenOf: ChildIndex
    var out: seq<Line>

    constructor (evs: seq<Event>)
      ensures events == evs && out == [] && childrenOf == map[]
    {
      events, childrenOf, out := evs, map[], [];
    }

    /** The index of children by parent is complete. */
    ghost predicate Indexed()
      reads this`childrenOf
    {
      IsIndex(childrenOf, events)
    }

    /** The loop that fills `childrenOf`. */
    method Index()
      modifies this`childrenOf
      ensures Indexed()
    {
      childrenOf := map[];
      for i := 0 to |events|
        invariant IsIndex(childrenOf, events[..i])
      {
        var ev := events[i];
        var arr := if ev.parent in childrenOf then childrenOf[ev.parent] else [];
        assert events[..i + 1] == events[..i] + [ev];
        IndexSnoc(childrenOf, events[..i], ev);
        childrenOf := childrenOf[ev.parent := arr + [ev]];
      }
      assert events[..|events|] == events;
    }

    /** `walk` */
    method Walk(node: Event, prefix: string, isLast: bool, ghost path: seq<Event>)
      requires Loopless(events) && GoodPath(events, path) && Last(path) == node && Indexed()
      modifies this`out
      ensures out == old(out) + WalkNode(events, path, node, prefix, isLast)
      decreases |events| - |path|, 1
    {
      PathBounded(events, path);
      out := out + [LineOf(prefix, isLast, node)];
      var kids := if Some(node.id) in childrenOf then childrenOf[Some(node.id)] else [];
      assert kids == Children(childrenOf, Some(node.id));
      var nextPrefix := NextPrefix(prefix, isLast);
      Regroup(old(out), [LineOf(prefix, isLast, node)], WalkKids(events, path, kids, 0, nextPrefix));
      WalkChildren(kids, nextPrefix, path);
    }

    /** The loop over a node's children. */
    method WalkChildren(kids: seq<Event>, prefix: string, ghost path: seq<Event>)
      requires Loopless(events) && GoodPath(events, path) && Indexed()
      requires kids == WithParent(events, Some(Last(path).id))
      modifies this`out
      ensures out == old(out) + WalkKids(events, path, kids, 0, prefix)
      decreases |events| - |path|, 0
    {
      ghost var all := out + WalkKids(events, path, kids, 0, prefix);
      for idx := 0 to |kids|
        invariant out + WalkKids(events, path, kids, idx, prefix) == all
      {
        WalkKidsStep(events, path, kids, idx, prefix, out);
        Walk(kids[idx], prefix, idx == |kids| - 1, path + [kids[idx]]);
      }
    }

    /** `printChainTree` */
    method Print()
      requires Loopless(events)
      modifies this
      ensures out == old(out) + Printed(events)
    {
      Index();
      RootsStart(events);
      var roots := Roots(events, events);
      var idx := 0;
      while idx < |roots|
        invariant 0 <= idx <= |roots| && Indexed()
        invariant out + WalkRoots(events, roots, idx) == old(out) + Printed(events)
      {
        ghost var sub := WalkNode(events, Start(roots[idx]), roots[idx], "", idx == |roots| - 1);
        Regroup(out, sub, WalkRoots(events, roots, idx + 1));
        Walk(roots[idx], "", idx == |roots| - 1, Start(roots[idx]));
        idx := idx + 1;
      }
    }
  }

  // ---------------------------------------------------------------- what is printed

  predicate Prints(lines: seq<Line>, e: Event) {
    exists l :: l in lines && l.event == e
  }

  lemma PrintsConcat(a: seq<Line>, b: seq<Line>, e: Event)
    ensures Prints(a + b, e) <==> Prints(a, e) || Prints(b, e)
  {
    if Prints(a, e) {
      var l :| l in a && l.event == e;
      assert l in a + b;
    }
    if Prints(b, e) {
      var l :| l in b && l.event == e;
      assert l in a + b;
    }
  }

  /** Some path that continues `path` ends in `e`. */
  ghost predicate Reaches(events: seq<Event>, path: seq<Event>, e: Event) {
    exists p :: GoodPath(events, p) && path <= p && Last(p) == e
  }

  /** The same, through one of the successors from `idx` on. */
  ghost predicate ReachesVia(events: seq<Event>, path: seq<Event>, next: seq<Event>, idx: nat, e: Event)
    requires idx <= |next|
    decreases |next| - idx
  {
    idx < |next| && (Reaches(events, path + [next[idx]], e) || ReachesVia(events, path, next, idx + 1, e))
  }

  lemma {:induction false} ViaSome(events: seq<Event>, path: seq<Event>, next: seq<Event>, idx: nat, k: nat, e: Event)
    requires idx <= k < |next| && Reaches(events, path + [next[k]], e)
    ensures ReachesVia(events, path, next, idx, e)
    decreases k - idx
  {
    if idx < k {
      ViaSome(events, path, next, idx + 1, k, e);
    }
  }

  lemma {:induction false} ViaWhich(events: seq<Event>, path: seq<Event>, next: seq<Event>, idx: nat, e: Event)
    returns (k: nat)
    requires idx <= |next| && ReachesVia(events, path, next, idx, e)
    ensures idx <= k < |next| && Reaches(events, path + [next[k]], e)
    decreases |next| - idx
  {
    if Reaches(events, path + [next[idx]], e) {
      k := idx;
    } else {
      k := ViaWhich(events, path, next, idx + 1, e);
    }
  }

  lemma PrefixNext(path: seq<Event>, x: Event, p: seq<Event>)
    ensures path + [x] <= p <==> path <= p && |path| < |p| && p[|path|] == x
  {
    if path <= p && |path| < |p| && p[|path|] == x {
      assert p[..|path| + 1] == path + [x];
    }
  }

  lemma ReachesStep(events: seq<Event>, path: seq<Event>, e: Event)
    requires Loopless(events) && GoodPath(events, path)
    ensures Reaches(events, path, e)
            <==> e == Last(path) || ReachesVia(events, path, WithParent(events, Some(Last(path).id)), 0, e)
  {
    var kids := WithParent(events, Some(Last(path).id));
    if e == Last(path) {
      assert path <= path;
    } else if Reaches(events, path, e) {
      var p :| GoodPath(events, p) && path <= p && Last(p) == e;
      assert |p| > |path|;
      var kid := p[|path|];
      assert p[|path| - 1] == Last(path);
      var k: nat :| k < |kids| && kids[k] == kid;
      PrefixNext(path, kid, p);
      ViaSome(events, path, kids, 0, k, e);
    } else if ReachesVia(events, path, kids, 0, e) {
      var k := ViaWhich(events, path, kids, 0, e);
      var p :| GoodPath(events, p) && path + [kids[k]] <= p && Last(p) == e;
      PrefixNext(path, kids[k], p);
    }
  }

  lemma {:induction false} NodePrints(events: seq<Event>, path: seq<Event>, node: Event, prefix: string, isLast: bool,
                                      e: Event)
    requires Loopless(events) && GoodPath(events, path) && Last(path) == node
    ensures Prints(WalkNode(events, path, node, prefix, isLast), e) <==> Reaches(events, path, e)
    decreases |events| - |path|, 1, 0
  {
    PathBounded(events, path);
    var kids := WithParent(events, Some(node.id));
    KidsPrint(events, path, kids, 0, NextPrefix(prefix, isLast), e);
    PrintsConcat([LineOf(prefix, isLast, node)], WalkKids(events, path, kids, 0, NextPrefix(prefix, isLast)), e);
    ReachesStep(events, path, e);
    if e == node {
      assert LineOf(prefix, isLast, node) in [LineOf(prefix, isLast, node)];
    }
  }

  lemma {:induction false} KidsPrint(events: seq<Event>, path: seq<Event>, kids: seq<Event>, idx: nat, prefix: string,
                                     e: Event)
    requires Loopless(events) && GoodPath(events, path)
    requires kids == WithParent(events, Some(Last(path).id)) && idx <= |kids|
    ensures Prints(WalkKids(events, path, kids, idx, prefix), e)
            <==> ReachesVia(events, path, kids, idx, e)
    decreases |events| - |path|, 0, |kids| - idx
  {
    if idx < |kids| {
      ChildExtends(events, path, kids[idx]);
      var first := WalkNode(events, path + [kids[idx]], kids[idx], prefix, idx == |kids| - 1);
      NodePrints(events, path + [kids[idx]], kids[idx], prefix, idx == |kids| - 1, e);
      KidsPrint(events, path, kids, idx + 1, prefix, e);
      PrintsConcat(first, WalkKids(events, path, kids, idx + 1, prefix), e);
    }
  }

  lemma {:induction false} RootsPrint(events: seq<Event>, roots: seq<Event>, idx: nat, e: Event)
    requires Loopless(events) && AllStart(events, roots) && idx <= |roots|
    ensures Prints(WalkRoots(events, roots, idx), e)
            <==> ReachesVia(events, [], roots, idx, e)
    decreases |roots| - idx
  {
    if idx < |roots| {
      var first := WalkNode(events, Start(roots[idx]), roots[idx], "", idx == |roots| - 1);
      NodePrints(events, Start(roots[idx]), roots[idx], "", idx == |roots| - 1, e);
      RootsPrint(events, roots, idx + 1, e);
      PrintsConcat(first, WalkRoots(events, roots, idx + 1), e);
    }
  }

  /** The printed events are exactly those whose chain of parents reaches a root. */
  lemma PrintedIffReached(events: seq<Event>, e: Event)
    requires Loopless(events)
    ensures Prints(Printed(events), e) <==> exists p :: GoodPath(events, p) && Last(p) == e
  {
    var roots := Roots(events, events);
    RootsStart(events);
    RootsPrint(events, roots, 0, e);
    if p :| GoodPath(events, p) && Last(p) == e {
      assert p[0] in roots;
      var k: nat :| k < |roots| && roots[k] == p[0];
      PrefixNext([], roots[k], p);
      ViaSome(events, [], roots, 0, k, e);
    }
    if ReachesVia(events, [], roots, 0, e) {
      var k := ViaWhich(events, [], roots, 0, e);
    }
  }

  // ---------------------------------------------------------------- nothing is printed twice

  /** The event with the empty id is reached from a root. */
  ghost predicate EmptyIdReached(events: seq<Event>) {
    exists p :: GoodPath(events, p) && Last(p).id == ""
  }

  predicate EmptyParent(events: seq<Event>) {
    exists x :: x in events && x.parent == Some("")
  }

  /** No event is both a root and the child of a walked event. */
  ghost predicate Single(events: seq<Event>) {
    Loopless(events) && !(EmptyIdReached(events) && EmptyParent(events))
  }

  /** Then a linked event is no root, */
  lemma LinkedIsNoRoot(events: seq<Event>, path: seq<Event>)
    requires Single(events) && GoodPath(events, path) && |path| > 1
    ensures !IsRoot(events, Last(path))
  {
    PrefixGood(events, path, |path| - 1);
    assert Last(path[..|path| - 1]) == path[|path| - 2];
    if IsRoot(events, Last(path)) {
      LinkedRoot(events, Last(path), path[|path| - 2]);
    }
  }

  /** and an event is reached by at most one path. */
  lemma {:induction false} PathUnique(events: seq<Event>, p: seq<Event>, q: seq<Event>)
    requires Single(events) && GoodPath(events, p) && GoodPath(events, q) && Last(p) == Last(q)
    ensures p == q
    decreases |p|
  {
    if |p| > 1 {
      LinkedIsNoRoot(events, p);
    }
    if |q| > 1 {
      LinkedIsNoRoot(events, q);
    }
    if |p| > 1 && |q| > 1 {
      var p', q' := p[..|p| - 1], q[..|q| - 1];
      PrefixGood(events, p, |p| - 1);
      PrefixGood(events, q, |q| - 1);
      SameIdSameEvent(events, Last(p'), Last(q'));
      PathUnique(events, p', q');
      assert p == p' + [Last(p)] && q == q' + [Last(q)];
    } else {
      assert p == [Last(p)] && q == [Last(q)];
    }
  }

  predicate NoRepeat(lines: seq<Line>) {
    forall i, j | 0 <= i < j < |lines| :: lines[i].event != lines[j].event
  }

  lemma NoRepeatConcat(a: seq<Line>, b: seq<Line>)
    requires NoRepeat(a) && NoRepeat(b)
    requires forall e :: !(Prints(a, e) && Prints(b, e))
    ensures NoRepeat(a + b)
  {
    var s := a + b;
    forall i, j | 0 <= i < j < |s| ensures s[i].event != s[j].event {
      if i < |a| <= j {
        assert s[i] in a && s[j] in b;
        assert Prints(a, s[i].event) && Prints(b, s[j].event);
      }
    }
  }

  predicate NoDuplicates(s: seq<Event>) {
    forall i, j | 0 <= i < j < |s| :: s[i] != s[j]
  }

  lemma ConsNoDuplicates(x: Event, s: seq<Event>)
    requires NoDuplicates(s) && x !in s
    ensures NoDuplicates([x] + s)
  {
  }

  lemma HeadIdApart(events: seq<Event>)
    requires DistinctIds(events) && events != []
    ensures DistinctIds(events[1..]) && events[0] !in events[1..]
  {
    forall j | 0 <= j < |events[1..]| ensures events[1..][j] != events[0] {
      assert events[0].id != events[j + 1].id;
    }
  }

  lemma {:induction false} KidsDistinct(events: seq<Event>, parent: Option<string>)
    requires DistinctIds(events)
    ensures NoDuplicates(WithParent(events, parent))
  {
    if events != [] {
      HeadIdApart(events);
      KidsDistinct(events[1..], parent);
      ConsNoDuplicates(events[0], WithParent(events[1..], parent));
    }
  }

  lemma {:induction false} RootsDistinct(all: seq<Event>, events: seq<Event>)
    requires DistinctIds(events)
    ensures NoDuplicates(Roots(all, events))
  {
    if events != [] {
      HeadIdApart(events);
      RootsDistinct(all, events[1..]);
      ConsNoDuplicates(events[0], Roots(all, events[1..]));
    }
  }

  /** Paths through different successors never reach the same event. */
  lemma BranchesApart(events: seq<Event>, path: seq<Event>, x: Event, y: Event, e: Event)
    requires Single(events) && x != y
    requires Reaches(events, path + [x], e)
    ensures !Reaches(events, path + [y], e)
  {
    if Reaches(events, path + [y], e) {
      var p :| GoodPath(events, p) && path + [x] <= p && Last(p) == e;
      var q :| GoodPath(events, q) && path + [y] <= q && Last(q) == e;
      PrefixNext(path, x, p);
      PrefixNext(path, y, q);
      PathUnique(events, p, q);
    }
  }

  /** A path's end is not reached again below it. */
  lemma EndNotBelow(events: seq<Event>, path: seq<Event>, kid: Event)
    requires Single(events) && GoodPath(events, path)
    ensures !Reaches(events, path + [kid], Last(path))
  {
    if Reaches(events, path + [kid], Last(path)) {
      var p :| GoodPath(events, p) && path + [kid] <= p && Last(p) == Last(path);
      PathUnique(events, p, path);
    }
  }

  lemma {:induction false} NodeNoRepeat(events: seq<Event>, path: seq<Event>, node: Event, prefix: string, isLast: bool)
    requires Single(events) && GoodPath(events, path) && Last(path) == node
    ensures NoRepeat(WalkNode(events, path, node, prefix, isLast))
    decreases |events| - |path|, 1, 0
  {
    PathBounded(events, path);
    var kids := WithParent(events, Some(node.id));
    var next := NextPrefix(prefix, isLast);
    var line := [LineOf(prefix, isLast, node)];
    KidsNoRepeat(events, path, kids, 0, next);
    forall e | Prints(line, e) ensures !Prints(WalkKids(events, path, kids, 0, next), e) {
      assert e == node;
      KidsPrint(events, path, kids, 0, next, e);
      if ReachesVia(events, path, kids, 0, e) {
        var k := ViaWhich(events, path, kids, 0, e);
        EndNotBelow(events, path, kids[k]);
      }
    }
    NoRepeatConcat(line, WalkKids(events, path, kids, 0, next));
  }

  lemma {:induction false} KidsNoRepeat(events: seq<Event>, path: seq<Event>, kids: seq<Event>, idx: nat,
                                        prefix: string)
    requires Single(events) && GoodPath(events, path)
    requires kids == WithParent(events, Some(Last(path).id)) && idx <= |kids|
    ensures NoRepeat(WalkKids(events, path, kids, idx, prefix))
    decreases |events| - |path|, 0, |kids| - idx
  {
    if idx < |kids| {
      ChildExtends(events, path, kids[idx]);
      var first := WalkNode(events, path + [kids[idx]], kids[idx], prefix, idx == |kids| - 1);
      var rest := WalkKids(events, path, kids, idx + 1, prefix);
      NodeNoRepeat(events, path + [kids[idx]], kids[idx], prefix, idx == |kids| - 1);
      KidsNoRepeat(events, path, kids, idx + 1, prefix);
      KidsDistinct(events, Some(Last(path).id));
      forall e | Prints(first, e) ensures !Prints(rest, e) {
        NodePrints(events, path + [kids[idx]], kids[idx], prefix, idx == |kids| - 1, e);
        KidsPrint(events, path, kids, idx + 1, prefix, e);
        if ReachesVia(events, path, kids, idx + 1, e) {
          var k := ViaWhich(events, path, kids, idx + 1, e);
          BranchesApart(events, path, kids[idx], kids[k], e);
        }
      }
      NoRepeatConcat(first, rest);
    }
  }

  lemma {:induction false} RootsNoRepeat(events: seq<Event>, roots: seq<Event>, idx: nat)
    requires Single(events) && AllStart(events, roots) && NoDuplicates(roots) && idx <= |roots|
    ensures NoRepeat(WalkRoots(events, roots, idx))
    decreases |roots| - idx
  {
    if idx < |roots| {
      var first := WalkNode(events, Start(roots[idx]), roots[idx], "", idx == |roots| - 1);
      var rest := WalkRoots(events, roots, idx + 1);
      NodeNoRepeat(events, Start(roots[idx]), roots[idx], "", idx == |roots| - 1);
      RootsNoRepeat(events, roots, idx + 1);
      forall e | Prints(first, e) ensures !Prints(rest, e) {
        NodePrints(events, Start(roots[idx]), roots[idx], "", idx == |roots| - 1, e);
        RootsPrint(events, roots, idx + 1, e);
        if ReachesVia(events, [], roots, idx + 1, e) {
          var k := ViaWhich(events, [], roots, idx + 1, e);
          BranchesApart(events, [], roots[idx], roots[k], e);
        }
      }
      NoRepeatConcat(first, rest);
    }
  }

  lemma NoRepeatPart(a: seq<Line>, b: seq<Line>, e: Event)
    requires NoRepeat(a + b)
    ensures NoRepeat(b) && !(Prints(a, e) && Prints(b, e))
  {
    var s := a + b;
    forall i, j | 0 <= i < j < |b| ensures b[i].event != b[j].event {
      assert b[i] == s[|a| + i] && b[j] == s[|a| + j];
    }
    forall i, j | 0 <= i < |a| && 0 <= j < |b| ensures a[i].event != b[j].event {
      assert s[i] == a[i] && s[|a| + j] == b[j];
    }
  }

  /** The lines of the first root, and those of the others. */
  lemma RootsMore(events: seq<Event>, roots: seq<Event>, idx: nat, e: Event) returns (first: seq<Line>)
    requires Loopless(events) && AllStart(events, roots) && idx < |roots|
    ensures WalkRoots(events, roots, idx) == first + WalkRoots(events, roots, idx + 1)
    ensures Prints(first, e) <==> Reaches(events, Start(roots[idx]), e)
  {
    first := WalkNode(events, Start(roots[idx]), roots[idx], "", idx == |roots| - 1);
    NodePrints(events, Start(roots[idx]), roots[idx], "", idx == |roots| - 1, e);
  }

  lemma LaterRootPrints(events: seq<Event>, roots: seq<Event>, idx: nat, k: nat, e: Event)
    requires Loopless(events) && AllStart(events, roots) && idx <= k < |roots|
    requires Reaches(events, Start(roots[k]), e)
    ensures Prints(WalkRoots(events, roots, idx), e)
  {
    assert Start(roots[k]) == [] + [roots[k]];
    ViaSome(events, [], roots, idx, k, e);
    RootsPrint(events, roots, idx, e);
  }

  lemma RestNoRepeat(events: seq<Event>, roots: seq<Event>, idx: nat, e: Event)
    requires Loopless(events) && AllStart(events, roots) && idx < |roots| && NoRepeat(WalkRoots(events, roots, idx))
    ensures NoRepeat(WalkRoots(events, roots, idx + 1))
  {
    var first := RootsMore(events, roots, idx, e);
    NoRepeatPart(first, WalkRoots(events, roots, idx + 1), e);
  }

  lemma RootRepeats(events: seq<Event>, roots: seq<Event>, i: nat, k: nat, e: Event)
    requires Loopless(events) && AllStart(events, roots) && i < k < |roots|
    requires Reaches(events, Start(roots[i]), e) && Reaches(events, Start(roots[k]), e)
    ensures !NoRepeat(WalkRoots(events, roots, i))
  {
    var first := RootsMore(events, roots, i, e);
    LaterRootPrints(events, roots, i + 1, k, e);
    BothPrint(WalkRoots(events, roots, i), first, WalkRoots(events, roots, i + 1), e);
  }

  lemma BothPrint(all: seq<Line>, first: seq<Line>, rest: seq<Line>, e: Event)
    requires all == first + rest && Prints(first, e) && Prints(rest, e)
    ensures !NoRepeat(all)
  {
    if NoRepeat(all) {
      NoRepeatPart(first, rest, e);
    }
  }

  /** Printed below two roots is printed twice. */
  lemma {:induction false} TwoRootsRepeat(events: seq<Event>, roots: seq<Event>, idx: nat, i: nat, k: nat, e: Event)
    requires Loopless(events) && AllStart(events, roots) && idx <= i < k < |roots|
    requires Reaches(events, Start(roots[i]), e) && Reaches(events, Start(roots[k]), e)
    ensures !NoRepeat(WalkRoots(events, roots, idx))
    decreases i - idx
  {
    if idx == i {
      RootRepeats(events, roots, i, k, e);
    } else {
      TwoRootsRepeat(events, roots, idx + 1, i, k, e);
      if NoRepeat(WalkRoots(events, roots, idx)) {
        RestNoRepeat(events, roots, idx, e);
      }
    }
  }

  /** A child of the walked event with the empty id is printed below it and as a root. */
  lemma EmptyParentRepeats(events: seq<Event>, p: seq<Event>, x: Event)
    requires Loopless(events) && GoodPath(events, p) && Last(p).id == "" && x in events && x.parent == Some("")
    ensures !NoRepeat(Printed(events))
  {
    var roots := Roots(events, events);
    RootsStart(events);
    LongerPath(events, p, x);
    PathDistinct(events, p + [x], 0, |p|);
    var i: nat :| i < |roots| && roots[i] == p[0];
    var k: nat :| k < |roots| && roots[k] == x;
    PrefixNext([], roots[i], p + [x]);
    assert GoodPath(events, p + [x]) && [] + [roots[i]] <= p + [x] && Last(p + [x]) == x;
    assert GoodPath(events, [x]) && [] + [roots[k]] <= [x] && Last([x]) == x;
    if i < k {
      TwoRootsRepeat(events, roots, 0, i, k, x);
    } else {
      TwoRootsRepeat(events, roots, 0, k, i, x);
    }
  }

  /** No event is printed twice, whatever the parent links, cycles included, exactly unless the walk reaches
      the event with the empty id and some event has the empty string for its parent. */
  lemma PrintedOnceIff(events: seq<Event>)
    requires Loopless(events)
    ensures NoRepeat(Printed(events)) <==> !(EmptyIdReached(events) && EmptyParent(events))
  {
    if Single(events) {
      RootsStart(events);
      RootsDistinct(events, events);
      RootsNoRepeat(events, Roots(events, events), 0);
    } else {
      var p :| GoodPath(events, p) && Last(p).id == "";
      var x :| x in events && x.parent == Some("");
      EmptyParentRepeats(events, p, x);
    }
  }

  // ---------------------------------------------------------------- when the walk ends

  /** The walk from a node ends within `fuel` levels of recursion. */
  predicate EndsWithin(events: seq<Event>, node: Event, fuel: nat)
    decreases fuel
  {
    fuel > 0 && forall kid :: kid in WithParent(events, Some(node.id)) ==> EndsWithin(events, kid, fuel - 1)
  }

  /** Without loops through the empty id the walk from every root ends, within as many levels as there are
      events. */
  lemma {:induction false} WalkEnds(events: seq<Event>, path: seq<Event>, node: Event)
    requires Loopless(events) && GoodPath(events, path) && Last(path) == node
    ensures |path| <= |events| && EndsWithin(events, node, |events| - |path| + 1)
    decreases |events| - |path|
  {
    PathBounded(events, path);
    forall kid | kid in WithParent(events, Some(node.id)) ensures EndsWithin(events, kid, |events| - |path|) {
      ChildExtends(events, path, kid);
      WalkEnds(events, path + [kid], kid);
    }
  }

  /** Round a loop the walk never ends. */
  lemma {:induction false} LoopNeverEnds(events: seq<Event>, loop: seq<Event>, i: nat, fuel: nat)
    requires EmptyLoop(events, loop) && i < |loop|
    ensures !EndsWithin(events, loop[i], fuel)
    decreases fuel
  {
    if fuel > 0 {
      var k := if i == |loop| - 1 then 1 else i + 1;
      assert loop[k].parent == Some(loop[k - 1].id) && loop[k] in events;
      assert loop[k] in WithParent(events, Some(loop[i].id));
      LoopNeverEnds(events, loop, k, fuel - 1);
    }
  }

  ghost predicate Terminates(events: seq<Event>) {
    forall root | root in events && IsRoot(events, root) :: exists fuel :: EndsWithin(events, root, fuel)
  }

  /** With distinct ids the printer ends, on any parent links, exactly when no event with the empty id is its
      own ancestor. */
  lemma EndsIff(events: seq<Event>)
    requires DistinctIds(events)
    ensures Terminates(events) <==> !exists loop :: EmptyLoop(events, loop)
  {
    if loop: seq<Event> :| EmptyLoop(events, loop) {
      var root: Event := loop[1];
      assert root.parent == Some(loop[0].id) && root in events && IsRoot(events, root);
      forall fuel ensures !EndsWithin(events, root, fuel) {
        LoopNeverEnds(events, loop, 1, fuel);
      }
    } else {
      forall root | root in events && IsRoot(events, root) ensures exists fuel :: EndsWithin(events, root, fuel) {
        WalkEnds(events, [root], root);
      }
    }
  }
}
