/** Response sanitising of packages/adapters/src/sanitize.ts: the rules on JSON values, what they change,
    and the in-place algorithm on a tree of mutable nodes. */
module Sanitize {
  import opened Common
  import Canonical

  datatype Value =
    | Null
    | Bool(b: bool)
    | Num(n: real)
    | Str(s: string)
    | Arr(items: seq<Value>)
    | Obj(members: map<string, Value>)

  datatype Rule = Rule(field: string, redact: bool, hash: bool, truncate: Option<int>)

  /** What the rule schema demands. */
  predicate ValidRule(r: Rule) {
    r.truncate.Some? ==> r.truncate.value > 0
  }

  const REDACTED := "[REDACTED]"

  /** What a rule makes of a selected value: redacting comes first, then hashing, then truncating. */
  function Masked(r: Rule, v: Value): Value
    requires ValidRule(r)
  {
    if r.redact then Str(REDACTED)
    else if r.hash then Str("[HASH:" + Canonical.IntText(if v.Str? then |v.s| else 0) + "]")
    else if r.truncate.Some? && v.Str? && |v.s| > r.truncate.value then Str(v.s[..r.truncate.value] + "…")
    else v
  }

  /** `seg.endsWith('[]')` */
  predicate IsList(seg: string) {
    |seg| >= 2 && seg[|seg| - 2..] == "[]"
  }

  function ListKey(seg: string): string
    requires IsList(seg)
  {
    seg[..|seg| - 2]
  }

  /** What `applyRule` makes of a value. */
  function ApplyRule(v: Value, segs: seq<string>, r: Rule): Value
    requires ValidRule(r)
    decreases |segs|, 1, 0
  {
    if segs == [] then v
    else if IsList(segs[0]) then
      var key := ListKey(segs[0]);
      if key == "" then
        if v.Arr? then Arr(ApplyAll(v.items, segs[1..], r)) else v
      else if v.Obj? && key in v.members && v.members[key].Arr? then
        Obj(v.members[key := Arr(ApplyAll(v.members[key].items, segs[1..], r))])
      else v
    else if v.Obj? && segs[0] in v.members then
      var member := v.members[segs[0]];
      Obj(v.members[segs[0] := if |segs| == 1 then Masked(r, member) else ApplyRule(member, segs[1..], r)])
    else v
  }

  function ApplyAll(items: seq<Value>, segs: seq<string>, r: Rule): (out: seq<Value>)
    requires ValidRule(r)
    ensures |out| == |items|
    ensures forall i | 0 <= i < |items| :: out[i] == ApplyRule(items[i], segs, r)
    decreases |segs|, 2, |items|
  {
    if items == [] then [] else [ApplyRule(items[0], segs, r)] + ApplyAll(items[1..], segs, r)
  }

  /** `applySanitize` of a JSON value, which its own JSON text reads back to. */
  function Sanitized(v: Value, rules: seq<Rule>): Value
    requires forall r :: r in rules ==> ValidRule(r)
  {
    if rules == [] then v
    else
      var r := rules[|rules| - 1];
      ApplyRule(Sanitized(v, rules[..|rules| - 1]), Split(r.field, '.'), r)
  }

  // ---------------------------------------------------------------- positions

  datatype Step = Key(key: string) | Index(i: nat)

  type Path = seq<Step>

  function Child(v: Value, step: Step): Option<Value> {
    match step
    case Key(k) => if v.Obj? && k in v.members then Some(v.members[k]) else None
    case Index(i) => if v.Arr? && i < |v.items| then Some(v.items[i]) else None
  }

  function At(v: Value, p: Path): Option<Value> {
    if p == [] then Some(v)
    else match Child(v, p[0]) case None => None case Some(c) => At(c, p[1..])
  }

  /** How many steps a segment takes before the next one applies. */
  function StepCount(seg: string): nat {
    if IsList(seg) && ListKey(seg) != "" then 2 else 1
  }

  /** The steps a segment takes: a list segment enters an array, its own or a member's. */
  predicate Takes(seg: string, steps: Path) {
    if !IsList(seg) then steps == [Key(seg)]
    else if ListKey(seg) == "" then |steps| == 1 && steps[0].Index?
    else |steps| == 2 && steps[0] == Key(ListKey(seg)) && steps[1].Index?
  }

  /** The positions a rule's segments select; a list segment at the end selects nothing. */
  predicate Selects(segs: seq<string>, p: Path)
    decreases |segs|
  {
    segs != [] && |p| >= StepCount(segs[0])
    && var n := StepCount(segs[0]);
       Takes(segs[0], p[..n])
       && if |segs| == 1 then !IsList(segs[0]) && p[n..] == [] else Selects(segs[1..], p[n..])
  }

  /** Neither `p` nor a position above it is selected. */
  predicate Clear(segs: seq<string>, p: Path) {
    forall k | 0 <= k <= |p| :: !Selects(segs, p[..k])
  }

  /** A value without what is inside it. */
  datatype Shape = Whole(v: Value) | Items(n: nat) | Members(keys: set<string>)

  function ShapeOf(v: Option<Value>): Option<Shape> {
    match v
    case None => None
    case Some(Arr(items)) => Some(Items(|items|))
    case Some(Obj(members)) => Some(Members(members.Keys))
    case Some(w) => Some(Whole(w))
  }

  lemma {:induction false} AtSteps(v: Value, a: Path, b: Path)
    ensures At(v, a + b) == match At(v, a) case None => None case Some(w) => At(w, b)
    decreases |a|
  {
    if a == [] {
      assert a + b == b;
    } else {
      assert (a + b)[1..] == a[1..] + b;
      if Child(v, a[0]).Some? {
        AtSteps(Child(v, a[0]).value, a[1..], b);
      }
    }
  }

  /** The value the first segment leads to by the given steps, after the rule: the rest of the rule applied,
      or the mask. */
  function Inner(w: Value, segs: seq<string>, r: Rule): Value
    requires ValidRule(r) && segs != []
  {
    if |segs| == 1 && !IsList(segs[0]) then Masked(r, w) else ApplyRule(w, segs[1..], r)
  }

  lemma AtOne(v: Value, step: Step)
    ensures At(v, [step]) == Child(v, step)
  {
  }

  lemma AtTwo(v: Value, a: Step, b: Step)
    ensures At(v, [a, b]) == match Child(v, a) case None => None case Some(w) => Child(w, b)
  {
    assert [a, b][1..] == [b];
    if Child(v, a).Some? {
      AtOne(Child(v, a).value, b);
    }
  }

  /** What a rule does one segment down. */
  lemma FirstSteps(v: Value, segs: seq<string>, r: Rule, steps: Path)
    requires ValidRule(r) && segs != [] && Takes(segs[0], steps)
    ensures At(ApplyRule(v, segs, r), steps)
            == match At(v, steps) case None => None case Some(w) => Some(Inner(w, segs, r))
  {
    if |steps| == 1 {
      assert steps == [steps[0]];
      AtOne(v, steps[0]);
      AtOne(ApplyRule(v, segs, r), steps[0]);
    } else {
      assert steps == [steps[0], steps[1]];
      AtTwo(v, steps[0], steps[1]);
      AtTwo(ApplyRule(v, segs, r), steps[0], steps[1]);
    }
  }

  /** Exactly the selected values are masked: every one is, */
  lemma {:induction false} SelectedMasked(v: Value, segs: seq<string>, r: Rule, p: Path)
    requires ValidRule(r) && Selects(segs, p)
    ensures At(ApplyRule(v, segs, r), p) == match At(v, p) case None => None case Some(w) => Some(Masked(r, w))
    decreases |segs|
  {
    var n := StepCount(segs[0]);
    assert p == p[..n] + p[n..];
    FirstSteps(v, segs, r, p[..n]);
    AtSteps(v, p[..n], p[n..]);
    AtSteps(ApplyRule(v, segs, r), p[..n], p[n..]);
    if |segs| > 1 && At(v, p[..n]).Some? {
      SelectedMasked(At(v, p[..n]).value, segs[1..], r, p[n..]);
    }
  }

  lemma RootShape(v: Value, segs: seq<string>, r: Rule)
    requires ValidRule(r)
    ensures ShapeOf(Some(ApplyRule(v, segs, r))) == ShapeOf(Some(v))
  {
    if v.Obj? && segs != [] {
      assert ApplyRule(v, segs, r).members.Keys == v.members.Keys;
    }
  }

  /** A member or element that the first segment does not lead to stays as it is. */
  lemma OtherStep(v: Value, segs: seq<string>, r: Rule, step: Step)
    requires ValidRule(r) && segs != []
    requires StepCount(segs[0]) == 1 ==> !Takes(segs[0], [step])
    requires StepCount(segs[0]) == 2 ==> step != Key(ListKey(segs[0]))
    ensures Child(ApplyRule(v, segs, r), step) == Child(v, step)
  {
  }

  /** On the way into a member's array: the member stays an array of as many elements. */
  lemma ListMember(v: Value, segs: seq<string>, r: Rule, rest: Path)
    requires ValidRule(r) && segs != [] && StepCount(segs[0]) == 2 && (rest == [] || !rest[0].Index?)
    ensures var p := [Key(ListKey(segs[0]))] + rest; ShapeOf(At(ApplyRule(v, segs, r), p)) == ShapeOf(At(v, p))
  {
    var key := Key(ListKey(segs[0]));
    var p := [key] + rest;
    assert p[1..] == rest;
  }

  lemma ClearBelow(segs: seq<string>, p: Path)
    requires |segs| > 1 && Clear(segs, p) && |p| >= StepCount(segs[0]) && Takes(segs[0], p[..StepCount(segs[0])])
    ensures Clear(segs[1..], p[StepCount(segs[0])..])
  {
    var n := StepCount(segs[0]);
    forall k | 0 <= k <= |p| - n ensures !Selects(segs[1..], p[n..][..k]) {
      assert p[..n + k][..n] == p[..n] && p[..n + k][n..] == p[n..][..k];
      assert !Selects(segs, p[..n + k]);
    }
  }

  /** and nothing else is: at every position that is not at or below a selected one, what is there is of the
      same kind with the same members or as many elements, and a plain value is the same value. */
  lemma {:induction false} OthersKept(v: Value, segs: seq<string>, r: Rule, p: Path)
    requires ValidRule(r) && Clear(segs, p)
    ensures ShapeOf(At(ApplyRule(v, segs, r), p)) == ShapeOf(At(v, p))
    decreases |segs|
  {
    if segs != [] && p != [] {
      var n := StepCount(segs[0]);
      if |p| >= n && Takes(segs[0], p[..n]) {
        assert p == p[..n] + p[n..];
        FirstSteps(v, segs, r, p[..n]);
        AtSteps(v, p[..n], p[n..]);
        AtSteps(ApplyRule(v, segs, r), p[..n], p[n..]);
        assert p[..n][n..] == [] && p[..n][..n] == p[..n];
        assert !Selects(segs, p[..n]);
        if |segs| > 1 && At(v, p[..n]).Some? {
          ClearBelow(segs, p);
          OthersKept(At(v, p[..n]).value, segs[1..], r, p[n..]);
        }
      } else {
        OffTheWay(v, segs, r, p);
      }
    } else {
      RootShape(v, segs, r);
    }
  }

  /** A path that leaves the way of the first segment. */
  lemma OffTheWay(v: Value, segs: seq<string>, r: Rule, p: Path)
    requires ValidRule(r) && segs != [] && p != []
    requires !(|p| >= StepCount(segs[0]) && Takes(segs[0], p[..StepCount(segs[0])]))
    ensures ShapeOf(At(ApplyRule(v, segs, r), p)) == ShapeOf(At(v, p))
  {
    assert p == [p[0]] + p[1..];
    if StepCount(segs[0]) == 1 {
      assert p[..1] == [p[0]];
      OtherStep(v, segs, r, p[0]);
    } else if p[0] != Key(ListKey(segs[0])) {
      OtherStep(v, segs, r, p[0]);
    } else {
      if |p| > 1 {
        assert p[..2] == [p[0], p[1]];
      }
      ListMember(v, segs, r, p[1..]);
    }
  }

  /** Over a whole list of rules: nothing changes at a position that is not at or below one that some rule
      selects. */
  lemma {:induction false} SanitizedKeepsOthers(v: Value, rules: seq<Rule>, p: Path)
    requires forall r :: r in rules ==> ValidRule(r) && Clear(Split(r.field, '.'), p)
    ensures ShapeOf(At(Sanitized(v, rules), p)) == ShapeOf(At(v, p))
  {
    if rules != [] {
      var before, r := rules[..|rules| - 1], rules[|rules| - 1];
      SanitizedKeepsOthers(v, before, p);
      OthersKept(Sanitized(v, before), Split(r.field, '.'), r, p);
    }
  }

  /** What a rule leaves of a selected value: no trace if it redacts, no more than the length of a string if it
      hashes, and if it truncates the first characters and an ellipsis of a string that is longer. */
  predicate Leaves(r: Rule, was: Value, left: Value) {
    if r.redact then left == Str("[REDACTED]")
    else if r.hash then left == Str("[HASH:" + Canonical.IntText(if was.Str? then |was.s| else 0) + "]")
    else if r.truncate.Some? && was.Str? && 0 <= r.truncate.value < |was.s| then
      left.Str? && |left.s| == r.truncate.value + 1 && left.s[r.truncate.value] == '…'
      && forall i | 0 <= i < r.truncate.value :: left.s[i] == was.s[i]
    else left == was
  }

  /** Right after a rule ran, after whatever rules, every position it selects has just what it leaves of the
      value that was there. */
  lemma LeftAfterRule(v: Value, rules: seq<Rule>, r: Rule, p: Path)
    requires (forall q :: q in rules ==> ValidRule(q)) && ValidRule(r)
    requires Selects(Split(r.field, '.'), p) && At(Sanitized(v, rules), p).Some?
    ensures var after := At(Sanitized(v, rules + [r]), p);
            after.Some? && Leaves(r, At(Sanitized(v, rules), p).value, after.value)
  {
    assert (rules + [r])[..|rules|] == rules;
    SelectedMasked(Sanitized(v, rules), Split(r.field, '.'), r, p);
  }

  // ---------------------------------------------------------------- doing it twice

  ghost predicate MaskTwice(r: Rule)
    requires ValidRule(r)
  {
    forall v :: Masked(r, Masked(r, v)) == Masked(r, v)
  }

  /** Masking twice is masking once exactly for rules that do not end up hashing. */
  lemma MaskTwiceIff(r: Rule)
    requires ValidRule(r)
    ensures MaskTwice(r) <==> r.redact || !r.hash
  {
    if !r.redact && r.hash {
      var once := Masked(r, Str(""));
      assert Canonical.IntText(0) == "0" && Canonical.IntText(8) == "8";
      assert once == Str("[HASH:0]") && Masked(r, once) == Str("[HASH:8]");
      assert "[HASH:0]"[6] != "[HASH:8]"[6];
    } else if !r.redact && r.truncate.Some? {
      forall v ensures Masked(r, Masked(r, v)) == Masked(r, v) {
        var n := r.truncate.value;
        if v.Str? && |v.s| > n {
          assert (v.s[..n] + "…")[..n] == v.s[..n];
        }
      }
    }
  }

  /** A rule that redacts, only truncates or does nothing is idempotent on every value and path. */
  lemma {:induction false} RuleTwice(v: Value, segs: seq<string>, r: Rule)
    requires ValidRule(r) && (r.redact || !r.hash)
    ensures ApplyRule(ApplyRule(v, segs, r), segs, r) == ApplyRule(v, segs, r)
    decreases |segs|, 0
  {
    MaskTwiceIff(r);
    if segs != [] {
      var once := ApplyRule(v, segs, r);
      if IsList(segs[0]) {
        var key := ListKey(segs[0]);
        if key == "" {
          if v.Arr? {
            AllTwice(v.items, segs[1..], r);
          }
        } else if v.Obj? && key in v.members && v.members[key].Arr? {
          AllTwice(v.members[key].items, segs[1..], r);
          assert once.members[key := once.members[key]] == once.members;
        }
      } else if v.Obj? && segs[0] in v.members {
        if |segs| > 1 {
          RuleTwice(v.members[segs[0]], segs[1..], r);
        }
        assert once.members[segs[0] := once.members[segs[0]]] == once.members;
      }
    }
  }

  lemma AllTwice(items: seq<Value>, segs: seq<string>, r: Rule)
    requires ValidRule(r) && (r.redact || !r.hash)
    ensures ApplyAll(ApplyAll(items, segs, r), segs, r) == ApplyAll(items, segs, r)
    decreases |segs|, 1
  {
    forall i | 0 <= i < |items| ensures ApplyAll(ApplyAll(items, segs, r), segs, r)[i] == ApplyAll(items, segs, r)[i] {
      RuleTwice(items[i], segs, r);
    }
  }

  /** A rule that hashes is not: some object's plain field it changes again. */
  lemma HashNotTwice(r: Rule, key: string)
    requires ValidRule(r) && !r.redact && r.hash && !IsList(key)
    ensures exists v :: ApplyRule(ApplyRule(v, [key], r), [key], r) != ApplyRule(v, [key], r)
  {
    MaskTwiceIff(r);
    var x :| Masked(r, Masked(r, x)) != Masked(r, x);
    var v := Obj(map[key := x]);
    assert ApplyRule(v, [key], r) == Obj(map[key := Masked(r, x)]);
    assert ApplyRule(ApplyRule(v, [key], r), [key], r) == Obj(map[key := Masked(r, Masked(r, x))]);
    assert map[key := Masked(r, Masked(r, x))][key] != map[key := Masked(r, x)][key];
  }

  // ---------------------------------------------------------------- in place

  /** A plain value, or a reference to an array or object. */
  datatype Slot = Plain(v: Value) | Ref(node: Node)

  /** An array or object; `repr` is the tree below it, itself included. */
  class Node {
    const isArray: bool
    var items: seq<Slot>
    var members: map<string, Slot>
    ghost const repr: set<Node>

    constructor OfItems(items: seq<Slot>, ghost repr: set<Node>)
      ensures isArray && this.items == items && this.members == map[] && this.repr == repr + {this}
    {
      isArray, this.items, members, this.repr := true, items, map[], repr + {this};
    }

    constructor OfMembers(members: map<string, Slot>, ghost repr: set<Node>)
      ensures !isArray && this.members == members && this.items == [] && this.repr == repr + {this}
    {
      isArray, items, this.members, this.repr := false, [], members, repr + {this};
    }

    /** The node is the root of a tree. */
    ghost predicate Valid()
      reads this, repr
      decreases repr, 0
    {
      && this in repr && (if isArray then members == map[] else items == [])
      && (forall i | 0 <= i < |items| :: Footprint(items[i]) <= repr - {this} && ValidSlot(items[i]))
      && (forall k | k in members :: Footprint(members[k]) <= repr - {this} && ValidSlot(members[k]))
      && (forall i, j | 0 <= i < j < |items| :: Footprint(items[i]) !! Footprint(items[j]))
      && (forall k, l | k in members && l in members && k != l :: Footprint(members[k]) !! Footprint(members[l]))
    }

    /** The value the tree stands for. */
    function ToValue(): Value
      requires Valid()
      reads this, repr
      decreases repr, 0
    {
      if isArray then
        Arr(seq(|items|, i reads this, repr
                           requires 0 <= i < |items| && Footprint(items[i]) <= repr - {this} && ValidSlot(items[i])
                         => SlotValue(items[i])))
      else Obj(map k | k in members :: SlotValue(members[k]))
    }
  }

  /** The nodes of a slot's tree. */
  ghost function Footprint(s: Slot): set<Node> {
    if s.Ref? then s.node.repr else {}
  }

  ghost predicate ValidSlot(s: Slot)
    reads Footprint(s)
    decreases Footprint(s), 1
  {
    match s
    case Plain(v) => !v.Arr? && !v.Obj?
    case Ref(node) => node in node.repr && node.Valid()
  }

  function SlotValue(s: Slot): Value
    requires ValidSlot(s)
    reads Footprint(s)
    decreases Footprint(s), 1
  {
    match s
    case Plain(v) => v
    case Ref(node) => node.ToValue()
  }

  /** `applyRule`, in place */
  method ApplyInPlace(s: Slot, segs: seq<string>, r: Rule)
    requires ValidSlot(s) && ValidRule(r)
    modifies Footprint(s)
    ensures ValidSlot(s) && SlotValue(s) == ApplyRule(old(SlotValue(s)), segs, r)
    decreases |segs|, 0
  {
    if |segs| == 0 || s.Plain? {
      return;
    }
    var node := s.node;
    var seg, rest := segs[0], segs[1..];
    if IsList(seg) {
      var key := ListKey(seg);
      if key == "" {
        ElementsInPlace(s, rest, r);
        return;
      }
      if !node.isArray && key in node.members {
        ListInPlace(node, key, rest, r);
      }
      return;
    }
    if node.isArray || seg !in node.members {
      return;
    }
    if |rest| == 0 {
      MaskInPlace(node, seg, r);
      return;
    }
    MemberInPlace(node, seg, rest, r);
  }

  /** The step into a member. */
  method MemberInPlace(node: Node, key: string, segs: seq<string>, r: Rule)
    requires node.Valid() && !node.isArray && key in node.members && ValidRule(r)
    modifies node.repr
    ensures node.Valid()
    ensures node.ToValue()
            == Obj(old(node.ToValue()).members[key := ApplyRule(old(SlotValue(node.members[key])), segs, r)])
    decreases |segs|, 1
  {
    var member := node.members[key];
    ApplyInPlace(member, segs, r);
    forall k | k in node.members && k != key
      ensures ValidSlot(node.members[k]) && SlotValue(node.members[k]) == old(SlotValue(node.members[k]))
    {
      assert Footprint(node.members[k]) !! Footprint(member);
    }
  }

  /** The step into a member's elements, if it is an array. */
  method ListInPlace(node: Node, key: string, segs: seq<string>, r: Rule)
    requires node.Valid() && !node.isArray && key in node.members && ValidRule(r)
    modifies node.repr
    ensures node.Valid()
    ensures var was := old(SlotValue(node.members[key]));
            node.ToValue()
            == Obj(old(node.ToValue()).members[key := if was.Arr? then Arr(ApplyAll(was.items, segs, r)) else was])
    decreases |segs|, 3
  {
    var arr := node.members[key];
    ElementsInPlace(arr, segs, r);
    forall k | k in node.members && k != key
      ensures ValidSlot(node.members[k]) && SlotValue(node.members[k]) == old(SlotValue(node.members[k]))
    {
      assert Footprint(node.members[k]) !! Footprint(arr);
    }
  }

  /** The step into the elements of a slot, if it holds an array. */
  method ElementsInPlace(s: Slot, segs: seq<string>, r: Rule)
    requires ValidSlot(s) && ValidRule(r)
    modifies Footprint(s)
    ensures ValidSlot(s)
    ensures var was := old(SlotValue(s)); SlotValue(s) == if was.Arr? then Arr(ApplyAll(was.items, segs, r)) else was
    decreases |segs|, 2
  {
    if s.Ref? && s.node.isArray {
      EachInPlace(s.node, segs, r);
    }
  }

  /** The assignment to a selected member. */
  method MaskInPlace(node: Node, seg: string, r: Rule)
    requires node.Valid() && !node.isArray && seg in node.members && ValidRule(r)
    modifies node
    ensures node.Valid()
    ensures node.ToValue()
            == Obj(old(node.ToValue()).members[seg := Masked(r, old(SlotValue(node.members[seg])))])
  {
    var orig := node.members[seg];
    if r.redact {
      Put(node, seg, Str(REDACTED));
    } else if r.hash {
      var n := if orig.Plain? && orig.v.Str? then |orig.v.s| else 0;
      Put(node, seg, Str("[HASH:" + Canonical.IntText(n) + "]"));
    } else if r.truncate.Some? && orig.Plain? && orig.v.Str? && |orig.v.s| > r.truncate.value {
      Put(node, seg, Str(orig.v.s[..r.truncate.value] + "…"));
    } else {
      ghost var m := node.ToValue().members;
      assert m[seg := m[seg]] == m;
    }
  }

  /** `obj[seg] = v` */
  method Put(node: Node, seg: string, v: Value)
    requires node.Valid() && !node.isArray && !v.Arr? && !v.Obj?
    modifies node
    ensures node.Valid() && node.ToValue() == Obj(old(node.ToValue()).members[seg := v])
  {
    ghost var before := node.members;
    node.members := node.members[seg := Plain(v)];
    forall k | k in node.members && k != seg
      ensures node.members[k] == before[k] && Footprint(before[k]) <= node.repr - {node}
      ensures ValidSlot(before[k]) && SlotValue(before[k]) == old(SlotValue(before[k]))
    {
    }
    assert Footprint(node.members[seg]) == {} && ValidSlot(node.members[seg]) && SlotValue(node.members[seg]) == v;
    assert node.Valid();
    assert node.ToValue().members == old(node.ToValue()).members[seg := v];
  }

  /** The loop over the elements of an array. */
  method EachInPlace(node: Node, segs: seq<string>, r: Rule)
    requires node.Valid() && node.isArray && ValidRule(r)
    modifies node.repr
    ensures unchanged(node) && node.Valid() && node.ToValue() == Arr(ApplyAll(old(node.ToValue()).items, segs, r))
    decreases |segs|, 1
  {
    ghost var was := node.ToValue().items;
    for i := 0 to |node.items|
      invariant unchanged(node) && node.Valid() && node.ToValue().Arr? && |node.ToValue().items| == |was|
      invariant forall j | 0 <= j < i :: node.ToValue().items[j] == ApplyRule(was[j], segs, r)
      invariant forall j | i <= j < |was| :: node.ToValue().items[j] == was[j]
    {
      label Before:
      ApplyInPlace(node.items[i], segs, r);
      forall j | 0 <= j < |was| && j != i
        ensures ValidSlot(node.items[j]) && SlotValue(node.items[j]) == old@Before(SlotValue(node.items[j]))
      {
        assert Footprint(node.items[j]) !! Footprint(node.items[i]);
      }
    }
    assert node.ToValue().items == ApplyAll(was, segs, r);
  }

  // ---------------------------------------------------------------- the clone

  /** `JSON.parse` of a value's text: a new tree. */
  method Build(v: Value) returns (s: Slot)
    ensures ValidSlot(s) && SlotValue(s) == v && fresh(Footprint(s))
    decreases v, 2
  {
    match v
    case Arr(items) => s := BuildArray(items);
    case Obj(members) => s := BuildObject(members);
    case _ => s := Plain(v);
  }

  method BuildArray(items: seq<Value>) returns (s: Slot)
    ensures ValidSlot(s) && SlotValue(s) == Arr(items) && fresh(Footprint(s))
    decreases Arr(items), 0
  {
    var slots: seq<Slot> := [];
    ghost var nodes: set<Node> := {};
    for i := 0 to |items|
      invariant |slots| == i && fresh(nodes)
      invariant forall j | 0 <= j < i ::
                  Footprint(slots[j]) <= nodes && ValidSlot(slots[j]) && SlotValue(slots[j]) == items[j]
      invariant forall j, k | 0 <= j < k < i :: Footprint(slots[j]) !! Footprint(slots[k])
    {
      var slot := Build(items[i]);
      slots, nodes := slots + [slot], nodes + Footprint(slot);
    }
    var node := new Node.OfItems(slots, nodes);
    assert node.Valid();
    assert node.ToValue().items == items;
    s := Ref(node);
  }

  /** Slots for members, each a tree of its own, within `nodes`. */
  ghost predicate Apart(slots: map<string, Slot>, nodes: set<Node>)
    reads nodes
  {
    (forall k | k in slots :: Footprint(slots[k]) <= nodes && ValidSlot(slots[k]))
    && (forall k, l | k in slots && l in slots && k != l :: Footprint(slots[k]) !! Footprint(slots[l]))
  }

  method BuildObject(members: map<string, Value>) returns (s: Slot)
    ensures ValidSlot(s) && SlotValue(s) == Obj(members) && fresh(Footprint(s))
    decreases Obj(members), 1
  {
    ghost var nodes;
    var slots;
    slots, nodes := BuildMembers(members);
    var node := new Node.OfMembers(slots, nodes);
    assert forall k | k in slots :: node !in Footprint(slots[k]);
    assert node.Valid();
    assert node.ToValue().members == members;
    s := Ref(node);
  }

  /** The loop over the members. */
  method BuildMembers(members: map<string, Value>) returns (slots: map<string, Slot>, ghost nodes: set<Node>)
    ensures fresh(nodes) && Apart(slots, nodes) && slots.Keys == members.Keys
    ensures forall k | k in slots :: SlotValue(slots[k]) == members[k]
    decreases Obj(members), 0
  {
    slots, nodes := map[], {};
    var todo := members.Keys;
    while todo != {}
      invariant todo <= members.Keys && slots.Keys == members.Keys - todo && fresh(nodes) && Apart(slots, nodes)
      invariant forall k | k in slots :: SlotValue(slots[k]) == members[k]
      decreases |todo|
    {
      var key :| key in todo;
      todo := todo - {key};
      var slot := Build(members[key]);
      slots, nodes := slots[key := slot], nodes + Footprint(slot);
    }
  }

  /** `applySanitize`: nothing that existed before is changed, the argument included; with no rules the
      argument itself is returned, otherwise a new tree. */
  method ApplySanitize(value: Slot, rules: seq<Rule>) returns (s: Slot)
    requires ValidSlot(value) && forall r :: r in rules ==> ValidRule(r)
    ensures rules == [] ==> s == value
    ensures rules != [] ==> fresh(Footprint(s))
    ensures ValidSlot(value) && SlotValue(value) == old(SlotValue(value))
    ensures ValidSlot(s) && SlotValue(s) == Sanitized(SlotValue(value), rules)
    ensures forall p: Path | (forall r :: r in rules ==> Clear(Split(r.field, '.'), p)) ::
              ShapeOf(At(SlotValue(s), p)) == ShapeOf(At(SlotValue(value), p))
  {
    forall p: Path | forall r :: r in rules ==> Clear(Split(r.field, '.'), p)
      ensures ShapeOf(At(Sanitized(SlotValue(value), rules), p)) == ShapeOf(At(SlotValue(value), p))
    {
      SanitizedKeepsOthers(SlotValue(value), rules, p);
    }
    if |rules| == 0 {
      return value;
    }
    s := Build(SlotValue(value));
    for i := 0 to |rules|
      invariant fresh(Footprint(s)) && ValidSlot(s) && SlotValue(s) == Sanitized(SlotValue(value), rules[..i])
    {
      var segments := Split(rules[i].field, '.');
      assert rules[..i + 1][..i] == rules[..i];
      ApplyInPlace(s, segments, rules[i]);
    }
    assert rules[..|rules|] == rules;
  }
}
