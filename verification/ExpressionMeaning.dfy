/** What expressions mean, rule by rule, and that the evaluator follows the rules
    (packages/adapters/src/transforms.ts). */
module ExpressionMeaning {
  import opened Common
  import opened Tokenizer
  import opened Expression

  // ---------------------------------------------------------------- paths

  /** One name leads from a value to another: to a member, to the length of an array, or nowhere. */
  predicate Leads(v: Value, name: string, w: Value) {
    if v.Obj? && name in v.members then w == v.members[name]
    else if v.Arr? && name == "length" then w == Num(|v.items| as real)
    else w == Undefined
  }

  /** The values on the way of a path. */
  predicate Way(names: seq<string>, values: seq<Value>) {
    |values| == |names| + 1 && forall i | 0 <= i < |names| :: Leads(values[i], names[i], values[i + 1])
  }

  ghost predicate LeadsTo(v: Value, names: seq<string>, w: Value) {
    exists values :: Way(names, values) && values[0] == v && values[|names|] == w
  }

  lemma {:induction false} FollowLeads(v: Value, names: seq<string>) returns (values: seq<Value>)
    ensures Way(names, values) && values[0] == v && values[|names|] == Follow(v, names)
    decreases |names|
  {
    if names == [] {
      values := [v];
    } else {
      var rest := FollowLeads(Member(v, names[0]), names[1..]);
      values := [v] + rest;
      forall i | 0 <= i < |names| ensures Leads(values[i], names[i], values[i + 1]) {
        assert i > 0 ==> names[1..][i - 1] == names[i] && Leads(rest[i - 1], names[i], rest[i]);
      }
    }
  }

  lemma {:induction false} WayOnce(names: seq<string>, a: seq<Value>, b: seq<Value>, i: nat)
    requires Way(names, a) && Way(names, b) && a[0] == b[0] && i <= |names|
    ensures a[i] == b[i]
  {
    if i > 0 {
      WayOnce(names, a, b, i - 1);
      assert Leads(a[i - 1], names[i - 1], a[i - 1 + 1]) && Leads(b[i - 1], names[i - 1], b[i - 1 + 1]);
    }
  }

  lemma FollowIff(v: Value, names: seq<string>, w: Value)
    ensures Follow(v, names) == w <==> LeadsTo(v, names, w)
  {
    var values := FollowLeads(v, names);
    if LeadsTo(v, names, w) {
      var others :| Way(names, others) && others[0] == v && others[|names|] == w;
      WayOnce(names, values, others, |names|);
    }
  }

  // ---------------------------------------------------------------- calls

  predicate Nothing(v: Value) {
    v == Undefined || v == Null || v == Str("")
  }

  /** The first argument that is something; null if none is. */
  ghost predicate FirstThing(vs: seq<Value>, v: Value) {
    (v == Null && forall w :: w in vs ==> Nothing(w))
    || exists i :: 0 <= i < |vs| && vs[i] == v && !Nothing(v) && forall j | 0 <= j < i :: Nothing(vs[j])
  }

  lemma {:induction false} FirstThingIff(vs: seq<Value>, v: Value)
    ensures FirstFilled(vs) == v <==> FirstThing(vs, v)
  {
    if vs != [] {
      FirstThingIff(vs[1..], v);
      if Nothing(vs[0]) {
        FirstThingTail(vs, v);
      } else {
        assert FirstThing(vs, vs[0]);
      }
    }
  }

  lemma FirstThingTail(vs: seq<Value>, v: Value)
    requires vs != [] && Nothing(vs[0])
    ensures FirstThing(vs, v) <==> FirstThing(vs[1..], v)
  {
    if i :| 0 <= i < |vs| && vs[i] == v && !Nothing(v) && forall j | 0 <= j < i :: Nothing(vs[j]) {
      assert vs[1..][i - 1] == v && forall j | 0 <= j < i - 1 :: Nothing(vs[1..][j]);
    }
    if i :| 0 <= i < |vs[1..]| && vs[1..][i] == v && !Nothing(v) && forall j | 0 <= j < i :: Nothing(vs[1..][j]) {
      forall j | 0 <= j < i + 1 ensures Nothing(vs[j]) {
        assert j > 0 ==> vs[j] == vs[1..][j - 1];
      }
      assert vs[i + 1] == v;
    }
    assert forall w :: w in vs <==> w == vs[0] || w in vs[1..];
  }

  /** The argument as text; a missing one is empty. */
  function Shown(env: Env, vs: seq<Value>): string {
    if vs == [] || vs[0] == Undefined || vs[0] == Null then env.text(Str("")) else env.text(vs[0])
  }

  /** What a call of a name on arguments comes to. */
  ghost predicate Gives(env: Env, name: string, vs: seq<Value>, at: nat, v: Value) {
    || (name == "now" && v == Str(env.now(at)))
    || (name == "uuid" && v == Str(env.uuid(at)))
    || (name == "lower" && v == Str(env.lower(Shown(env, vs))))
    || (name == "upper" && v == Str(env.upper(Shown(env, vs))))
    || (name == "rfc3339" && vs != [] && (vs[0].Str? || vs[0].Num? || vs[0].NaN?)
        && env.date(vs[0]).Some? && v == Str(env.date(vs[0]).value))
    || (name == "coalesce" && FirstThing(vs, v))
    || (name == "default" && vs != [] && !Nothing(vs[0]) && v == vs[0])
    || (name == "default" && (vs == [] || Nothing(vs[0])) && v == if |vs| > 1 then vs[1] else Undefined)
    || (Inherited(name) && name in env.inherited && env.inherited[name](vs) == Some(v))
  }

  /** None of the seven. */
  predicate Inherited(name: string) {
    name != "now" && name != "uuid" && name != "lower" && name != "upper" && name != "rfc3339" && name != "coalesce"
    && name != "default"
  }

  lemma NamesApart()
    ensures "now" != "uuid" && "lower" != "upper" && "lower" != "rfc3339" && "upper" != "rfc3339"
    ensures "rfc3339" != "default" && "coalesce" != "default"
  {
    assert "lower"[0] != "upper"[0] && "rfc3339"[0] != "default"[0];
  }

  lemma ApplyGives(env: Env, name: string, vs: seq<Value>, at: nat, v: Value)
    ensures Apply(env, name, vs, at) == Some(v) <==> Gives(env, name, vs, at, v)
  {
    NamesApart();
    FirstThingIff(vs, v);
  }

  // ---------------------------------------------------------------- expressions

  /** Where argument `i` starts, each followed by a comma or the closing parenthesis. */
  function Start(args: seq<Expr>, at: nat, i: nat): nat
    requires AllWellFormed(args) && i <= |args|
    decreases i
  {
    if i == 0 then at else Start(args, at, i - 1) + |Render(args[i - 1])| + 1
  }

  /** The rules: a literal means itself, a path what it leads to from the context, a call what its name gives for the
      values of its arguments. */
  ghost predicate Means(env: Env, ctx: Value, e: Expr, at: nat, v: Value)
    requires WellFormed(e)
    decreases e, 0
  {
    match e
    case Text(s) => v == Str(s)
    case Number(digits) => v == env.number(digits)
    case Word(name) =>
      (name == "true" && v == Bool(true)) || (name == "false" && v == Bool(false)) || (name == "null" && v == Null)
    case Path(segments) => LeadsTo(ctx, segments, v)
    case Call(name, args) => exists vs :: ArgsMean(env, ctx, args, at + 2, vs) && Gives(env, name, vs, at, v)
  }

  ghost predicate ArgsMean(env: Env, ctx: Value, args: seq<Expr>, at: nat, vs: seq<Value>)
    requires AllWellFormed(args)
    decreases args, 1
  {
    |vs| == |args| && forall i | 0 <= i < |args| :: Means(env, ctx, args[i], Start(args, at, i), vs[i])
  }

  lemma {:induction false} StartTail(args: seq<Expr>, at: nat, i: nat)
    requires AllWellFormed(args) && 0 < i <= |args|
    ensures Start(args, at, i) == Start(args[1..], at + |Render(args[0])| + 1, i - 1)
  {
    if i > 1 {
      StartTail(args, at, i - 1);
      assert args[1..][i - 2] == args[i - 1];
    }
  }

  lemma ArgsMeanTail(env: Env, ctx: Value, args: seq<Expr>, at: nat, vs: seq<Value>)
    requires args != [] && vs != [] && AllWellFormed(args)
    ensures ArgsMean(env, ctx, args, at, vs)
            <==> Means(env, ctx, args[0], at, vs[0])
                 && ArgsMean(env, ctx, args[1..], at + |Render(args[0])| + 1, vs[1..])
  {
    var next := at + |Render(args[0])| + 1;
    forall i | 0 < i < |args| ensures Start(args, at, i) == Start(args[1..], next, i - 1) {
      StartTail(args, at, i);
    }
    if |vs| == |args| {
      if ArgsMean(env, ctx, args, at, vs) {
        forall i | 0 <= i < |args[1..]| ensures Means(env, ctx, args[1..][i], Start(args[1..], next, i), vs[1..][i]) {
          assert Means(env, ctx, args[i + 1], Start(args, at, i + 1), vs[i + 1]);
        }
        assert Means(env, ctx, args[0], Start(args, at, 0), vs[0]);
      }
      if Means(env, ctx, args[0], at, vs[0]) && ArgsMean(env, ctx, args[1..], next, vs[1..]) {
        forall i | 0 <= i < |args| ensures Means(env, ctx, args[i], Start(args, at, i), vs[i]) {
          assert i > 0 ==> Means(env, ctx, args[1..][i - 1], Start(args[1..], next, i - 1), vs[1..][i - 1]);
        }
      }
    }
  }

  lemma WordMeans(name: string, v: Value)
    requires name in LITERALS
    ensures WordValue(name) == v
            <==> (name == "true" && v == Bool(true)) || (name == "false" && v == Bool(false))
                 || (name == "null" && v == Null)
  {
    assert "true" != "false" && "true"[0] != "null"[0];
  }

  /** The evaluator follows the rules: it gives a value exactly if the expression means it. */
  lemma {:induction false} EvalMeans(env: Env, ctx: Value, e: Expr, at: nat, v: Value)
    requires WellFormed(e)
    ensures Eval(ScopeOf(env, ctx), e, at) == Some(v) <==> Means(env, ctx, e, at, v)
    decreases e, 0
  {
    match e
    case Text(_) =>
    case Number(_) =>
    case Word(name) => WordMeans(name, v);
    case Path(segments) => FollowIff(ctx, segments, v);
    case Call(name, args) =>
      forall vs
        ensures EvalArgs(ScopeOf(env, ctx), args, at + 2) == Some(vs) <==> ArgsMean(env, ctx, args, at + 2, vs)
      {
        ArgsMeans(env, ctx, args, at + 2, vs);
      }
      CallMeans(env, ctx, name, args, at, v, EvalArgs(ScopeOf(env, ctx), args, at + 2));
  }

  lemma CallMeans(env: Env, ctx: Value, name: string, args: seq<Expr>, at: nat, v: Value, given: Option<seq<Value>>)
    requires WellFormed(Call(name, args)) && given == EvalArgs(ScopeOf(env, ctx), args, at + 2)
    requires forall vs :: given == Some(vs) <==> ArgsMean(env, ctx, args, at + 2, vs)
    ensures Eval(ScopeOf(env, ctx), Call(name, args), at) == Some(v) <==> Means(env, ctx, Call(name, args), at, v)
  {
    if given.Some? {
      var vs := given.value;
      ApplyGives(env, name, vs, at, v);
      assert Eval(ScopeOf(env, ctx), Call(name, args), at) == Apply(env, name, vs, at);
      if Gives(env, name, vs, at, v) {
        assert ArgsMean(env, ctx, args, at + 2, vs) && Gives(env, name, vs, at, v);
      }
    }
    if Means(env, ctx, Call(name, args), at, v) {
      var vs :| ArgsMean(env, ctx, args, at + 2, vs) && Gives(env, name, vs, at, v);
      assert given == Some(vs);
    }
  }

  /** Values of arguments, of the first one and of the others. */
  lemma EvalArgsStep(sc: Scope, args: seq<Expr>, at: nat, vs: seq<Value>)
    requires AllWellFormed(args) && args != [] && vs != []
    ensures EvalArgs(sc, args, at) == Some(vs)
            <==> Eval(sc, args[0], at) == Some(vs[0])
                 && EvalArgs(sc, args[1..], at + |Render(args[0])| + 1) == Some(vs[1..])
  {
    assert vs == [vs[0]] + vs[1..];
  }

  lemma EvalNoArgs(sc: Scope, args: seq<Expr>, at: nat, vs: seq<Value>)
    requires AllWellFormed(args) && (args == [] || vs == [])
    ensures EvalArgs(sc, args, at) == Some(vs) <==> args == [] && vs == []
  {
  }

  lemma ArgsMeansStep(env: Env, ctx: Value, args: seq<Expr>, at: nat, vs: seq<Value>, next: nat)
    requires AllWellFormed(args) && args != [] && vs != [] && next == at + |Render(args[0])| + 1
    requires Eval(ScopeOf(env, ctx), args[0], at) == Some(vs[0]) <==> Means(env, ctx, args[0], at, vs[0])
    requires EvalArgs(ScopeOf(env, ctx), args[1..], next) == Some(vs[1..])
             <==> ArgsMean(env, ctx, args[1..], next, vs[1..])
    ensures EvalArgs(ScopeOf(env, ctx), args, at) == Some(vs) <==> ArgsMean(env, ctx, args, at, vs)
  {
    EvalArgsStep(ScopeOf(env, ctx), args, at, vs);
    ArgsMeanTail(env, ctx, args, at, vs);
  }

  lemma {:induction false} ArgsMeans(env: Env, ctx: Value, args: seq<Expr>, at: nat, vs: seq<Value>)
    requires AllWellFormed(args)
    ensures EvalArgs(ScopeOf(env, ctx), args, at) == Some(vs) <==> ArgsMean(env, ctx, args, at, vs)
    decreases args, 1
  {
    if args == [] || vs == [] {
      EvalNoArgs(ScopeOf(env, ctx), args, at, vs);
    } else {
      var next := at + |Render(args[0])| + 1;
      EvalMeans(env, ctx, args[0], at, vs[0]);
      ArgsMeans(env, ctx, args[1..], next, vs[1..]);
      ArgsMeansStep(env, ctx, args, at, vs, next);
    }
  }

  /** From text to meaning: a text evaluates to a value exactly if it has no tokens and the value is undefined, or it
      spells an expression that means the value. */
  lemma TextMeans(env: Env, ctx: Value, text: string, v: Value)
    ensures EvalText(env, ctx, text) == Some(v)
            <==> (Tokens(text) == Some([]) && v == Undefined)
                 || exists e :: WellFormed(e) && Tokens(text) == Some(Render(e)) && Means(env, ctx, e, 0, v)
  {
    forall e | WellFormed(e) ensures Eval(ScopeOf(env, ctx), e, 0) == Some(v) <==> Means(env, ctx, e, 0, v) {
      EvalMeans(env, ctx, e, 0, v);
    }
    if Tokens(text).Some? {
      ParserExact(ScopeOf(env, ctx), Tokens(text).value, v);
    }
  }
}
