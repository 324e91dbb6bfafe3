/** The recursive-descent parser of packages/adapters/src/transforms.ts, which evaluates as it parses,
    against a syntax of expressions and their values. */
module Expression {
  import opened Common
  import opened Tokenizer

  datatype Value =
    | Undefined
    | Null
    | Bool(b: bool)
    | Num(n: real)
    | NaN
    | Str(s: string)
    | Arr(items: seq<Value>)
    | Obj(members: map<string, Value>)

  /** The foreign functions. What `now` and `uuid` return may differ from call to call, so they are given
      the call's place in the text; `date` is the ISO form of a readable date. `inherited` are the names the
      function table inherits and what calling them on arguments comes to. */
  datatype Env = Env(
    number: string -> Value,
    text: Value -> string,
    lower: string -> string,
    upper: string -> string,
    date: Value -> Option<string>,
    now: nat -> string,
    uuid: nat -> string,
    inherited: map<string, seq<Value> -> Option<Value>>
  )

  // ---------------------------------------------------------------- the syntax

  datatype Expr =
    | Text(s: string)
    | Number(digits: string)
    | Word(name: string)
    | Path(segments: seq<string>)
    | Call(name: string, args: seq<Expr>)

  const LITERALS := ["true", "false", "null"]

  /** Literal words are no names; a name may follow a dot all the same. */
  predicate WellFormed(e: Expr)
    decreases e, 0
  {
    match e
    case Text(_) => true
    case Number(_) => true
    case Word(name) => name in LITERALS
    case Path(segments) => segments != [] && segments[0] !in LITERALS
    case Call(name, args) => name !in LITERALS && AllWellFormed(args)
  }

  predicate AllWellFormed(es: seq<Expr>)
    decreases es, 1
  {
    forall i | 0 <= i < |es| :: WellFormed(es[i])
  }

  function Dotted(segments: seq<string>): seq<Token> {
    if segments == [] then [] else [Dot, TIdent(segments[0])] + Dotted(segments[1..])
  }

  /** The tokens of an expression. */
  function Render(e: Expr): (ts: seq<Token>)
    requires WellFormed(e)
    ensures ts != [] && (ts[0].TString? || ts[0].TNumber? || ts[0].TIdent?)
    decreases e, 0
  {
    match e
    case Text(s) => [TString(s)]
    case Number(digits) => [TNumber(digits)]
    case Word(name) => [TIdent(name)]
    case Path(segments) => [TIdent(segments[0])] + Dotted(segments[1..])
    case Call(name, args) => [TIdent(name), LParen] + RenderArgs(args) + [RParen]
  }

  function RenderArgs(args: seq<Expr>): seq<Token>
    requires AllWellFormed(args)
    decreases args, 1
  {
    if args == [] then []
    else if |args| == 1 then Render(args[0])
    else Render(args[0]) + [Comma] + RenderArgs(args[1..])
  }

  // ---------------------------------------------------------------- values

  predicate Blank(v: Value) {
    v == Undefined || v == Null || v == Str("")
  }

  function FirstFilled(vs: seq<Value>): Value {
    if vs == [] then Null else if !Blank(vs[0]) then vs[0] else FirstFilled(vs[1..])
  }

  /** `coalesce` returns the first argument that is not blank, or null if all are. */
  lemma {:induction false} CoalesceFirst(vs: seq<Value>)
    ensures (FirstFilled(vs) == Null && forall v :: v in vs ==> Blank(v))
            || exists i :: 0 <= i < |vs| && vs[i] == FirstFilled(vs) && !Blank(vs[i])
                           && forall j | 0 <= j < i :: Blank(vs[j])
  {
    if vs != [] {
      if !Blank(vs[0]) {
        assert vs[0] == FirstFilled(vs);
      } else {
        CoalesceFirst(vs[1..]);
        if FirstFilled(vs) != Null {
          var i :| 0 <= i < |vs| - 1 && vs[1..][i] == FirstFilled(vs) && !Blank(vs[1..][i])
                   && forall j | 0 <= j < i :: Blank(vs[1..][j]);
          forall j | 0 <= j < i + 1 ensures Blank(vs[j]) {
            assert j > 0 ==> vs[1..][j - 1] == vs[j];
          }
          assert vs[i + 1] == FirstFilled(vs);
        }
      }
    }
  }

  /** An argument; those not given are undefined. */
  function Arg(vs: seq<Value>, i: nat): Value {
    if i < |vs| then vs[i] else Undefined
  }

  function OrEmpty(v: Value): Value {
    if v == Undefined || v == Null then Str("") else v
  }

  const WHITELIST := ["now", "rfc3339", "uuid", "lower", "upper", "coalesce", "default"]

  /** `FUNCTIONS`, at the place of the call; none is an exception. */
  function Apply(env: Env, name: string, vs: seq<Value>, at: nat): Option<Value> {
    if name == "now" then Some(Str(env.now(at)))
    else if name == "rfc3339" then
      if Arg(vs, 0).Str? || Arg(vs, 0).Num? || Arg(vs, 0).NaN? then
        (match env.date(Arg(vs, 0)) case None => None case Some(iso) => Some(Str(iso)))
      else None
    else if name == "uuid" then Some(Str(env.uuid(at)))
    else if name == "lower" then Some(Str(env.lower(env.text(OrEmpty(Arg(vs, 0))))))
    else if name == "upper" then Some(Str(env.upper(env.text(OrEmpty(Arg(vs, 0))))))
    else if name == "coalesce" then Some(FirstFilled(vs))
    else if name == "default" then Some(if Blank(Arg(vs, 0)) then Arg(vs, 1) else Arg(vs, 0))
    else if name in env.inherited then env.inherited[name](vs)
    else None
  }

  lemma OffWhitelist(name: string)
    requires name !in WHITELIST
    ensures name != "now" && name != "rfc3339" && name != "uuid" && name != "lower" && name != "upper"
            && name != "coalesce" && name != "default"
  {
    assert WHITELIST[0] == "now" && WHITELIST[1] == "rfc3339" && WHITELIST[2] == "uuid" && WHITELIST[3] == "lower";
    assert WHITELIST[4] == "upper" && WHITELIST[5] == "coalesce" && WHITELIST[6] == "default";
  }

  /** "Anything else throws": a call of a name off the whitelist throws, whatever its arguments, exactly if
      the name is not inherited or what it inherits always throws. */
  lemma ElseThrowsIff(env: Env, name: string)
    requires name !in WHITELIST
    ensures (forall vs, at :: Apply(env, name, vs, at).None?)
            <==> (name in env.inherited ==> forall vs :: env.inherited[name](vs).None?)
  {
    OffWhitelist(name);
    if name in env.inherited {
      forall vs ensures Apply(env, name, vs, 0) == env.inherited[name](vs) {
      }
    }
  }

  /** What an expression is evaluated in: the functions by name, arguments and place of the call, the
      reading of number literals, and the context object. */
  datatype Scope = Scope(functions: (string, seq<Value>, nat) -> Option<Value>, number: string -> Value, ctx: Value)

  function ScopeOf(env: Env, ctx: Value): Scope {
    Scope((name: string, vs: seq<Value>, at: nat) => Apply(env, name, vs, at), env.number, ctx)
  }

  /** `default` is the two-argument `coalesce` it is described as exactly when one of its arguments is not
      blank or its second is null: of two blank arguments it returns the second, where `coalesce` returns
      null. */
  lemma DefaultVsCoalesce(env: Env, a: Value, b: Value, at: nat)
    ensures Apply(env, "default", [a, b], at) == Apply(env, "coalesce", [a, b], at)
            <==> !Blank(a) || !Blank(b) || b == Null
  {
    assert [a, b][1..] == [b] && [b][1..] == [];
    assert FirstFilled([b]) == if !Blank(b) then b else Null;
    assert FirstFilled([a, b]) == if !Blank(a) then a else if !Blank(b) then b else Null;
  }

  function Member(v: Value, name: string): Value {
    match v
    case Obj(members) => if name in members then members[name] else Undefined
    case Arr(items) => if name == "length" then Num(|items| as real) else Undefined
    case _ => Undefined
  }

  /** The value a path leads to. */
  function Follow(v: Value, path: seq<string>): Value
    decreases |path|
  {
    if path == [] then v else Follow(Member(v, path[0]), path[1..])
  }

  function WordValue(name: string): Value {
    if name == "true" then Bool(true) else if name == "false" then Bool(false) else Null
  }

  /** The value of an expression whose tokens start at place `at`. */
  function Eval(sc: Scope, e: Expr, at: nat): Option<Value>
    requires WellFormed(e)
    decreases e, 0
  {
    match e
    case Text(s) => Some(Str(s))
    case Number(digits) => Some(sc.number(digits))
    case Word(name) => Some(WordValue(name))
    case Path(segments) => Some(Follow(sc.ctx, segments))
    case Call(name, args) =>
      match EvalArgs(sc, args, at + 2)
      case None => None
      case Some(vs) => sc.functions(name, vs, at)
  }

  function EvalArgs(sc: Scope, args: seq<Expr>, at: nat): Option<seq<Value>>
    requires AllWellFormed(args)
    decreases args, 1
  {
    if args == [] then Some([])
    else
      match Eval(sc, args[0], at)
      case None => None
      case Some(v) =>
        match EvalArgs(sc, args[1..], at + |Render(args[0])| + 1)
        case None => None
        case Some(vs) => Some([v] + vs)
  }

  // ---------------------------------------------------------------- recognising the syntax

  datatype Found = Found(e: Expr, next: nat)

  datatype FoundArgs = FoundArgs(args: seq<Expr>, next: nat)

  datatype FoundPath = FoundPath(segments: seq<string>, next: nat)

  predicate Is(ts: seq<Token>, i: nat, t: Token) {
    i < |ts| && ts[i] == t
  }

  /** The dots and names from `i` on. */
  function ReadDots(ts: seq<Token>, i: nat): (r: Option<FoundPath>)
    requires i <= |ts|
    ensures r.Some? ==> i <= r.value.next <= |ts| && !Is(ts, r.value.next, Dot)
    decreases |ts| - i
  {
    if !Is(ts, i, Dot) then Some(FoundPath([], i))
    else if i + 1 >= |ts| || !ts[i + 1].TIdent? then None
    else
      match ReadDots(ts, i + 2)
      case None => None
      case Some(f) => Some(FoundPath([ts[i + 1].name] + f.segments, f.next))
  }

  /** The expression from `i` on, its longest reading. */
  function ReadExpr(ts: seq<Token>, i: nat): (r: Option<Found>)
    requires i <= |ts|
    ensures r.Some? ==> i < r.value.next <= |ts| && WellFormed(r.value.e)
    decreases |ts| - i, 0
  {
    if i == |ts| then None
    else
      match ts[i]
      case TString(s) => Some(Found(Text(s), i + 1))
      case TNumber(digits) => Some(Found(Number(digits), i + 1))
      case TIdent(name) =>
        if name in LITERALS then Some(Found(Word(name), i + 1))
        else if Is(ts, i + 1, LParen) then
          match (if Is(ts, i + 2, RParen) then Some(FoundArgs([], i + 2)) else ReadArgs(ts, i + 2))
          case None => None
          case Some(f) => if Is(ts, f.next, RParen) then Some(Found(Call(name, f.args), f.next + 1)) else None
        else
          (match ReadDots(ts, i + 1)
           case None => None
           case Some(f) => Some(Found(Path([name] + f.segments), f.next)))
      case _ => None
  }

  /** One expression or several between commas, from `i` on. */
  function ReadArgs(ts: seq<Token>, i: nat): (r: Option<FoundArgs>)
    requires i <= |ts|
    ensures r.Some? ==> i < r.value.next <= |ts| && r.value.args != [] && AllWellFormed(r.value.args)
    decreases |ts| - i, 1
  {
    match ReadExpr(ts, i)
    case None => None
    case Some(f) =>
      if !Is(ts, f.next, Comma) then Some(FoundArgs([f.e], f.next))
      else
        match ReadArgs(ts, f.next + 1)
        case None => None
        case Some(more) => Some(FoundArgs([f.e] + more.args, more.next))
  }

  // ---------------------------------------------------------------- the parser

  /** The parser's answer for what it reads from `i` on. */
  function Outcome(sc: Scope, ts: seq<Token>, i: nat): Option<Value>
    requires i <= |ts|
  {
    match ReadExpr(ts, i)
    case None => None
    case Some(f) => Eval(sc, f.e, i)
  }

  datatype Given = Given(values: seq<Value>, next: nat)

  /** The parser's answer for the arguments it reads from `i` on. */
  function ArgsOutcome(sc: Scope, ts: seq<Token>, i: nat): Option<Given>
    requires i <= |ts|
  {
    FoundOutcome(sc, ReadArgs(ts, i), i)
  }

  /** The answer for the arguments found from `i` on. */
  function FoundOutcome(sc: Scope, found: Option<FoundArgs>, i: nat): Option<Given>
    requires found.Some? ==> AllWellFormed(found.value.args)
  {
    match found
    case None => None
    case Some(f) => match EvalArgs(sc, f.args, i) case None => None case Some(vs) => Some(Given(vs, f.next))
  }

  /** The answer when `values` are read and the reading stands at `i`. */
  function MoreArgs(sc: Scope, ts: seq<Token>, values: seq<Value>, i: nat): Option<Given>
    requires i <= |ts|
  {
    if Is(ts, i, Comma) then Push(values, ArgsOutcome(sc, ts, i + 1)) else Some(Given(values, i))
  }

  function Push(values: seq<Value>, more: Option<Given>): Option<Given> {
    if more.Some? then Some(Given(values + more.value.values, more.value.next)) else None
  }

  lemma CallSound(ts: seq<Token>, i: nat, name: string, args: seq<Expr>, close: nat)
    requires i + 2 <= close < |ts| && ts[i] == TIdent(name) && ts[i + 1] == LParen && ts[close] == RParen
    requires WellFormed(Call(name, args)) && ts[i + 2..close] == RenderArgs(args)
    ensures ts[i..close + 1] == Render(Call(name, args))
  {
    assert ts[i..close + 1] == [ts[i], ts[i + 1]] + ts[i + 2..close] + [ts[close]];
  }

  lemma PathSound(ts: seq<Token>, i: nat, segments: seq<string>, next: nat)
    requires WellFormed(Path(segments)) && i < next <= |ts| && ts[i] == TIdent(segments[0])
    requires ts[i + 1..next] == Dotted(segments[1..])
    ensures ts[i..next] == Render(Path(segments))
  {
    assert ts[i..next] == [ts[i]] + ts[i + 1..next];
  }

  lemma ArgsSlice(ts: seq<Token>, i: nat, comma: nat, next: nat)
    requires i <= comma < next <= |ts|
    ensures ts[i..next] == ts[i..comma] + [ts[comma]] + ts[comma + 1..next]
  {
  }

  lemma {:induction false} DotsSound(ts: seq<Token>, i: nat)
    requires i <= |ts| && ReadDots(ts, i).Some?
    ensures var f := ReadDots(ts, i).value; ts[i..f.next] == Dotted(f.segments)
    decreases |ts| - i
  {
    if Is(ts, i, Dot) {
      DotsSound(ts, i + 2);
      var f := ReadDots(ts, i).value;
      assert ts[i..f.next] == [ts[i], ts[i + 1]] + ts[i + 2..f.next];
      assert f.segments[1..] == ReadDots(ts, i + 2).value.segments;
    }
  }

  lemma CallParts(ts: seq<Token>, i: nat, name: string, args: seq<Expr>, next: nat)
    requires i <= |ts| && ReadExpr(ts, i) == Some(Found(Call(name, args), next))
    ensures i + 3 <= next <= |ts| && Is(ts, i, TIdent(name)) && Is(ts, i + 1, LParen) && Is(ts, next - 1, RParen)
    ensures if args == [] then next == i + 3 else ReadArgs(ts, i + 2) == Some(FoundArgs(args, next - 1))
  {
  }

  lemma PathParts(ts: seq<Token>, i: nat, segments: seq<string>, next: nat)
    requires i <= |ts| && ReadExpr(ts, i) == Some(Found(Path(segments), next))
    ensures segments != [] && Is(ts, i, TIdent(segments[0])) && i + 1 <= |ts|
    ensures ReadDots(ts, i + 1) == Some(FoundPath(segments[1..], next))
  {
    var f := ReadDots(ts, i + 1).value;
    assert ([ts[i].name] + f.segments)[1..] == f.segments;
  }

  /** An expression read stands for exactly the tokens it took. */
  lemma {:induction false} ReadSound(ts: seq<Token>, i: nat)
    requires i <= |ts| && ReadExpr(ts, i).Some?
    ensures var f := ReadExpr(ts, i).value; ts[i..f.next] == Render(f.e)
    decreases |ts| - i, 0
  {
    var f := ReadExpr(ts, i).value;
    match f.e
    case Call(name, args) =>
      CallParts(ts, i, name, args, f.next);
      if args != [] {
        ReadArgsSound(ts, i + 2);
      }
      CallSound(ts, i, name, args, f.next - 1);
    case Path(segments) =>
      PathParts(ts, i, segments, f.next);
      DotsSound(ts, i + 1);
      PathSound(ts, i, segments, f.next);
    case _ =>
  }

  /** Arguments found after an expression and a comma, the expression included. */
  function OneMore(one: Expr, more: Option<FoundArgs>): Option<FoundArgs> {
    if more.Some? then Some(FoundArgs([one] + more.value.args, more.value.next)) else None
  }

  lemma ReadArgsStep(ts: seq<Token>, i: nat, one: Found)
    requires i <= |ts| && ReadExpr(ts, i) == Some(one)
    ensures ReadArgs(ts, i)
            == if Is(ts, one.next, Comma) then OneMore(one.e, ReadArgs(ts, one.next + 1))
               else Some(FoundArgs([one.e], one.next))
  {
  }

  lemma RenderMore(one: Expr, more: seq<Expr>)
    requires WellFormed(one) && AllWellFormed(more) && more != []
    ensures AllWellFormed([one] + more) && RenderArgs([one] + more) == Render(one) + [Comma] + RenderArgs(more)
  {
    assert ([one] + more)[1..] == more;
  }

  lemma ArgsSoundStep(ts: seq<Token>, i: nat, one: Found, more: FoundArgs)
    requires WellFormed(one.e) && AllWellFormed(more.args) && more.args != []
    requires i <= one.next < more.next <= |ts| && ts[one.next] == Comma
    requires ts[i..one.next] == Render(one.e) && ts[one.next + 1..more.next] == RenderArgs(more.args)
    ensures AllWellFormed([one.e] + more.args) && ts[i..more.next] == RenderArgs([one.e] + more.args)
  {
    ArgsSlice(ts, i, one.next, more.next);
    RenderMore(one.e, more.args);
  }

  lemma {:induction false} ReadArgsSound(ts: seq<Token>, i: nat)
    requires i <= |ts| && ReadArgs(ts, i).Some?
    ensures var f := ReadArgs(ts, i).value; ts[i..f.next] == RenderArgs(f.args)
    decreases |ts| - i, 1
  {
    var one := ReadExpr(ts, i).value;
    ReadSound(ts, i);
    ReadArgsStep(ts, i, one);
    if Is(ts, one.next, Comma) {
      ReadArgsSound(ts, one.next + 1);
      ArgsSoundStep(ts, i, one, ReadArgs(ts, one.next + 1).value);
    }
  }

  /** What a call contributes. */
  lemma CallOutcome(sc: Scope, ts: seq<Token>, i: nat)
    requires i + 1 < |ts| && ts[i].TIdent? && ts[i].name !in LITERALS && ts[i + 1] == LParen
    ensures var given := if Is(ts, i + 2, RParen) then Some(Given([], i + 2)) else ArgsOutcome(sc, ts, i + 2);
            if given.None? || !Is(ts, given.value.next, RParen) then Outcome(sc, ts, i).None?
            else
              Outcome(sc, ts, i) == sc.functions(ts[i].name, given.value.values, i)
              && ReadExpr(ts, i).Some? && ReadExpr(ts, i).value.next == given.value.next + 1
  {
    NoArgs(sc, i + 2);
  }

  lemma NoArgs(sc: Scope, at: nat)
    ensures EvalArgs(sc, [], at) == Some([])
  {
  }

  lemma OneArg(sc: Scope, e: Expr, at: nat)
    requires WellFormed(e)
    ensures EvalArgs(sc, [e], at) == match Eval(sc, e, at) case None => None case Some(v) => Some([v])
  {
    assert [e][1..] == [];
    NoArgs(sc, at + |Render(e)| + 1);
    assert Eval(sc, e, at).Some? ==> [Eval(sc, e, at).value] + [] == [Eval(sc, e, at).value];
  }

  lemma MoreEval(sc: Scope, e: Expr, more: seq<Expr>, at: nat)
    requires WellFormed(e) && AllWellFormed(more)
    ensures AllWellFormed([e] + more)
    ensures EvalArgs(sc, [e] + more, at)
            == match Eval(sc, e, at)
               case None => None
               case Some(v) =>
                 match EvalArgs(sc, more, at + |Render(e)| + 1) case None => None case Some(vs) => Some([v] + vs)
  {
    assert ([e] + more)[1..] == more;
  }

  lemma OneMoreOutcome(sc: Scope, one: Expr, more: Option<FoundArgs>, i: nat, next: nat)
    requires WellFormed(one) && (more.Some? ==> AllWellFormed(more.value.args)) && next == i + |Render(one)|
    ensures OneMore(one, more).Some? ==> AllWellFormed(OneMore(one, more).value.args)
    ensures FoundOutcome(sc, OneMore(one, more), i)
            == match Eval(sc, one, i)
               case None => None
               case Some(v) => Push([v], FoundOutcome(sc, more, next + 1))
  {
    if more.Some? {
      MoreEval(sc, one, more.value.args, i);
    }
  }

  lemma OneOutcome(sc: Scope, one: Expr, i: nat, next: nat)
    requires WellFormed(one)
    ensures FoundOutcome(sc, Some(FoundArgs([one], next)), i)
            == match Eval(sc, one, i) case None => None case Some(v) => Some(Given([v], next))
  {
    OneArg(sc, one, i);
  }

  lemma ReadLength(ts: seq<Token>, i: nat)
    requires i <= |ts| && ReadExpr(ts, i).Some?
    ensures ReadExpr(ts, i).value.next == i + |Render(ReadExpr(ts, i).value.e)|
  {
    ReadSound(ts, i);
  }

  /** What the first argument contributes. */
  lemma ArgsStep(sc: Scope, ts: seq<Token>, i: nat)
    requires i <= |ts|
    ensures ArgsOutcome(sc, ts, i)
            == match Outcome(sc, ts, i)
               case None => None
               case Some(v) => MoreArgs(sc, ts, [v], ReadExpr(ts, i).value.next)
  {
    if ReadExpr(ts, i).Some? {
      var one := ReadExpr(ts, i).value;
      ReadLength(ts, i);
      ReadArgsStep(ts, i, one);
      if Is(ts, one.next, Comma) {
        OneMoreOutcome(sc, one.e, ReadArgs(ts, one.next + 1), i, one.next);
      } else {
        OneOutcome(sc, one.e, i, one.next);
      }
    }
  }

  lemma MoreArgsMore(sc: Scope, ts: seq<Token>, values: seq<Value>, v: Value, i: nat)
    requires i <= |ts|
    ensures MoreArgs(sc, ts, values + [v], i)
            == Push(values, MoreArgs(sc, ts, [v], i))
  {
    if Is(ts, i, Comma) && ArgsOutcome(sc, ts, i + 1).Some? {
      var more := ArgsOutcome(sc, ts, i + 1).value.values;
      assert values + [v] + more == values + ([v] + more);
    }
  }

  /** The path the dots from `i` on lead to, when `segments` are read. */
  function MoreDots(ts: seq<Token>, segments: seq<string>, i: nat): Option<FoundPath>
    requires i <= |ts|
  {
    match ReadDots(ts, i) case None => None case Some(f) => Some(FoundPath(segments + f.segments, f.next))
  }

  lemma MoreDotsStep(ts: seq<Token>, segments: seq<string>, i: nat)
    requires i <= |ts|
    ensures !Is(ts, i, Dot) ==> MoreDots(ts, segments, i) == Some(FoundPath(segments, i))
    ensures Is(ts, i, Dot) ==>
              MoreDots(ts, segments, i)
              == if i + 1 < |ts| && ts[i + 1].TIdent? then MoreDots(ts, segments + [ts[i + 1].name], i + 2) else None
  {
    assert segments + [] == segments;
    if Is(ts, i, Dot) && i + 1 < |ts| && ts[i + 1].TIdent? && ReadDots(ts, i + 2).Some? {
      var rest := ReadDots(ts, i + 2).value.segments;
      assert segments + ([ts[i + 1].name] + rest) == segments + [ts[i + 1].name] + rest;
    }
  }

  class Parser {
    const tokens: seq<Token>
    const sc: Scope
    var pos: nat

    constructor (tokens: seq<Token>, sc: Scope)
      ensures this.tokens == tokens && this.sc == sc && pos == 0
    {
      this.tokens, this.sc, pos := tokens, sc, 0;
    }

    /** `parse`: the value, if every token is consumed. */
    method Parse() returns (r: Option<Value>)
      requires pos == 0
      modifies this`pos
      ensures r == Parsed(sc, tokens)
    {
      r := Primary();
      if r.Some? && pos != |tokens| {
        return None;
      }
    }

    predicate Sees(t: Token)
      reads this`pos
    {
      Is(tokens, pos, t)
    }

    /** `consume` */
    method Consume() returns (t: Option<Token>)
      requires pos <= |tokens|
      modifies this`pos
      ensures t.None? <==> old(pos) == |tokens|
      ensures t.Some? ==> t.value == tokens[old(pos)] && pos == old(pos) + 1
      ensures t.None? ==> pos == old(pos)
    {
      if pos >= |tokens| {
        return None;
      }
      pos := pos + 1;
      return Some(tokens[pos - 1]);
    }

    /** `expr` and `primary`; none is an exception. */
    method Primary() returns (r: Option<Value>)
      requires pos <= |tokens|
      modifies this`pos
      ensures old(pos) <= pos <= |tokens|
      ensures r == Outcome(sc, tokens, old(pos))
      ensures r.Some? ==> pos == ReadExpr(tokens, old(pos)).value.next
      decreases |tokens| - pos, 0
    {
      if pos >= |tokens| {
        return None;
      }
      var t := tokens[pos];
      if t.TString? {
        pos := pos + 1;
        return Some(Str(t.text));
      }
      if t.TNumber? {
        pos := pos + 1;
        return Some(sc.number(t.digits));
      }
      if t.TIdent? {
        pos := pos + 1;
        if t.name == "true" {
          return Some(Bool(true));
        }
        if t.name == "false" {
          return Some(Bool(false));
        }
        if t.name == "null" {
          return Some(Null);
        }
        if Sees(LParen) {
          r := Call(t.name);
          return;
        }
        r := MemberChain(t.name);
        return;
      }
      return None;
    }

    /** The function-call branch, at the opening parenthesis. */
    method Call(name: string) returns (r: Option<Value>)
      requires 0 < pos <= |tokens| && tokens[pos - 1] == TIdent(name) && name !in LITERALS && Is(tokens, pos, LParen)
      modifies this`pos
      ensures old(pos) <= pos <= |tokens|
      ensures r == Outcome(sc, tokens, old(pos) - 1)
      ensures r.Some? ==> pos == ReadExpr(tokens, old(pos) - 1).value.next
      decreases |tokens| - pos, 1
    {
      var start := pos - 1;
      CallOutcome(sc, tokens, start);
      pos := pos + 1;
      var args: seq<Value> := [];
      if !Sees(RParen) {
        var given := Arguments();
        if given.None? {
          return None;
        }
        args := given.value;
      }
      var close := Consume();
      if close != Some(RParen) {
        return None;
      }
      return sc.functions(name, args, start);
    }

    /** The loop over arguments. */
    method Arguments() returns (r: Option<seq<Value>>)
      requires pos <= |tokens|
      modifies this`pos
      ensures old(pos) <= pos <= |tokens|
      ensures match ArgsOutcome(sc, tokens, old(pos))
              case None => r.None?
              case Some(given) => r == Some(given.values) && pos == given.next
      decreases |tokens| - pos, 1
    {
      ghost var start := pos;
      ArgsStep(sc, tokens, start);
      var v := Primary();
      if v.None? {
        return None;
      }
      var args := [v.value];
      while Sees(Comma)
        invariant start < pos <= |tokens|
        invariant ArgsOutcome(sc, tokens, start) == MoreArgs(sc, tokens, args, pos)
        decreases |tokens| - pos
      {
        pos := pos + 1;
        ArgsStep(sc, tokens, pos);
        v := Primary();
        if v.None? {
          return None;
        }
        MoreArgsMore(sc, tokens, args, v.value, pos);
        args := args + [v.value];
      }
      return Some(args);
    }

    /** The member-access branch, after the first name. */
    method MemberChain(name: string) returns (r: Option<Value>)
      requires 0 < pos <= |tokens| && tokens[pos - 1] == TIdent(name) && name !in LITERALS && !Is(tokens, pos, LParen)
      modifies this`pos
      ensures old(pos) <= pos <= |tokens|
      ensures r == Outcome(sc, tokens, old(pos) - 1)
      ensures r.Some? ==> pos == ReadExpr(tokens, old(pos) - 1).value.next
    {
      var path := [name];
      ghost var start := pos;
      while Sees(Dot)
        invariant start <= pos <= |tokens|
        invariant MoreDots(tokens, [name], start) == MoreDots(tokens, path, pos)
        decreases |tokens| - pos
      {
        MoreDotsStep(tokens, path, pos);
        pos := pos + 1;
        var next := Consume();
        if next.None? || !next.value.TIdent? {
          return None;
        }
        path := path + [next.value.name];
      }
      MoreDotsStep(tokens, path, pos);
      var value := Lookup(path);
      return Some(value);
    }

    /** `lookup` */
    method Lookup(path: seq<string>) returns (cur: Value)
      ensures cur == Follow(sc.ctx, path)
    {
      cur := sc.ctx;
      for i := 0 to |path|
        invariant Follow(sc.ctx, path) == Follow(cur, path[i..])
      {
        if !cur.Obj? && !cur.Arr? {
          FollowNothing(cur, path[i..]);
          return Undefined;
        }
        cur := Member(cur, path[i]);
      }
    }
  }

  /** Only objects have members. */
  lemma {:induction false} FollowNothing(v: Value, path: seq<string>)
    requires path != [] && !v.Obj? && !v.Arr?
    ensures Follow(v, path) == Undefined
    decreases |path|
  {
    if |path| > 1 {
      FollowNothing(Undefined, path[1..]);
    }
  }

  // ---------------------------------------------------------------- the grammar is exact

  /** No longer reading is possible past `i`. */
  predicate Stops(ts: seq<Token>, i: nat) {
    !Is(ts, i, Dot) && !Is(ts, i, LParen)
  }

  lemma FollowsPair(ts: seq<Token>, i: nat, t: Token, u: Token, rest: seq<Token>)
    requires At(ts, i, [t, u] + rest)
    ensures Is(ts, i, t) && Is(ts, i + 1, u) && At(ts, i + 2, rest)
  {
    AtParts(ts, i, [t, u], rest);
    assert [t, u][0] == t && [t, u][1] == u;
  }

  lemma {:induction false} DotsComplete(ts: seq<Token>, i: nat, segments: seq<string>)
    requires At(ts, i, Dotted(segments)) && !Is(ts, i + |Dotted(segments)|, Dot)
    ensures ReadDots(ts, i) == Some(FoundPath(segments, i + |Dotted(segments)|))
    decreases |segments|
  {
    if segments != [] {
      FollowsPair(ts, i, Dot, TIdent(segments[0]), Dotted(segments[1..]));
      DotsComplete(ts, i + 2, segments[1..]);
      assert segments == [segments[0]] + segments[1..];
    }
  }

  lemma PathComplete(ts: seq<Token>, i: nat, segments: seq<string>)
    requires WellFormed(Path(segments)) && At(ts, i, Render(Path(segments))) && Stops(ts, i + |Render(Path(segments))|)
    ensures ReadExpr(ts, i) == Some(Found(Path(segments), i + |Render(Path(segments))|))
  {
    var dots := Dotted(segments[1..]);
    AtParts(ts, i, [TIdent(segments[0])], dots);
    AtFirst(ts, i, [TIdent(segments[0])]);
    if |segments| > 1 {
      AtFirst(ts, i + 1, dots);
    }
    DotsComplete(ts, i + 1, segments[1..]);
    assert segments == [segments[0]] + segments[1..];
  }

  /** Wherever an expression stands in a list of tokens and cannot go on, it is what is read. */
  lemma {:induction false} ReadComplete(ts: seq<Token>, i: nat, e: Expr)
    requires WellFormed(e) && At(ts, i, Render(e)) && Stops(ts, i + |Render(e)|)
    ensures ReadExpr(ts, i) == Some(Found(e, i + |Render(e)|))
    decreases e, 0
  {
    AtFirst(ts, i, Render(e));
    match e
    case Path(segments) => PathComplete(ts, i, segments);
    case Call(name, args) =>
      FollowsCall(ts, i, name, args);
      var close := i + 2 + |RenderArgs(args)|;
      if args != [] {
        ArgsComplete(ts, i + 2, args, close);
      }
      CallRead(ts, i, name, args, close);
    case _ =>
  }

  lemma CallRead(ts: seq<Token>, i: nat, name: string, args: seq<Expr>, close: nat)
    requires Is(ts, i, TIdent(name)) && name !in LITERALS && Is(ts, i + 1, LParen) && Is(ts, close, RParen)
    requires if args == [] then close == i + 2
             else !Is(ts, i + 2, RParen) && ReadArgs(ts, i + 2) == Some(FoundArgs(args, close))
    ensures ReadExpr(ts, i) == Some(Found(Call(name, args), close + 1))
  {
  }

  /** Where the parts of a call are. */
  lemma FollowsCall(ts: seq<Token>, i: nat, name: string, args: seq<Expr>)
    requires WellFormed(Call(name, args)) && At(ts, i, Render(Call(name, args)))
    ensures Is(ts, i, TIdent(name)) && Is(ts, i + 1, LParen) && At(ts, i + 2, RenderArgs(args))
    ensures |Render(Call(name, args))| == 3 + |RenderArgs(args)| && Is(ts, i + 2 + |RenderArgs(args)|, RParen)
    ensures args != [] ==> !Is(ts, i + 2, RParen)
  {
    var open, inner := [TIdent(name), LParen], RenderArgs(args);
    assert Render(Call(name, args)) == open + (inner + [RParen]);
    AtParts(ts, i, open, inner + [RParen]);
    AtParts(ts, i + 2, inner, [RParen]);
    AtFirst(ts, i, open);
    assert open[1] == LParen;
    AtFirst(ts, i + 2 + |inner|, [RParen]);
    if args != [] {
      RenderArgsStart(args);
      AtFirst(ts, i + 2, inner);
    }
  }

  lemma RenderArgsStart(args: seq<Expr>)
    requires args != [] && AllWellFormed(args)
    ensures RenderArgs(args) != [] && RenderArgs(args)[0] == Render(args[0])[0]
  {
  }

  lemma FollowsAround(ts: seq<Token>, i: nat, a: seq<Token>, t: Token, b: seq<Token>)
    requires At(ts, i, a + [t] + b)
    ensures At(ts, i, a) && Is(ts, i + |a|, t) && At(ts, i + |a| + 1, b)
  {
    AtParts(ts, i, a + [t], b);
    AtParts(ts, i, a, [t]);
    AtFirst(ts, i + |a|, [t]);
  }

  lemma RenderArgsMore(args: seq<Expr>)
    requires |args| > 1 && AllWellFormed(args)
    ensures RenderArgs(args) == Render(args[0]) + [Comma] + RenderArgs(args[1..])
  {
  }

  lemma OneArgRead(ts: seq<Token>, i: nat, args: seq<Expr>, next: nat)
    requires |args| == 1 && i <= |ts| && ReadExpr(ts, i) == Some(Found(args[0], next)) && !Is(ts, next, Comma)
    ensures ReadArgs(ts, i) == Some(FoundArgs(args, next))
  {
    ReadArgsStep(ts, i, Found(args[0], next));
    assert args == [args[0]];
  }

  lemma MoreArgsRead(ts: seq<Token>, i: nat, args: seq<Expr>, comma: nat, next: nat)
    requires |args| > 1 && i <= |ts| && ReadExpr(ts, i) == Some(Found(args[0], comma)) && Is(ts, comma, Comma)
    requires ReadArgs(ts, comma + 1) == Some(FoundArgs(args[1..], next))
    ensures ReadArgs(ts, i) == Some(FoundArgs(args, next))
  {
    ReadArgsStep(ts, i, Found(args[0], comma));
    assert args == [args[0]] + args[1..];
  }

  lemma ArgsSplit(ts: seq<Token>, i: nat, args: seq<Expr>)
    requires |args| > 1 && AllWellFormed(args) && At(ts, i, RenderArgs(args))
    ensures var comma := i + |Render(args[0])|;
            && At(ts, i, Render(args[0])) && Is(ts, comma, Comma) && Stops(ts, comma)
            && At(ts, comma + 1, RenderArgs(args[1..]))
            && comma + 1 + |RenderArgs(args[1..])| == i + |RenderArgs(args)|
  {
    RenderArgsMore(args);
    FollowsAround(ts, i, Render(args[0]), Comma, RenderArgs(args[1..]));
  }

  lemma {:induction false} ArgsComplete(ts: seq<Token>, i: nat, args: seq<Expr>, close: nat)
    requires args != [] && AllWellFormed(args) && At(ts, i, RenderArgs(args))
    requires close == i + |RenderArgs(args)| && Is(ts, close, RParen)
    ensures ReadArgs(ts, i) == Some(FoundArgs(args, close))
    decreases args, 1
  {
    if |args| == 1 {
      ReadComplete(ts, i, args[0]);
      OneArgRead(ts, i, args, close);
    } else {
      var comma := i + |Render(args[0])|;
      ArgsSplit(ts, i, args);
      ArgsComplete(ts, comma + 1, args[1..], close);
      ReadComplete(ts, i, args[0]);
      MoreArgsRead(ts, i, args, comma, close);
    }
  }

  /** Different expressions have different tokens. */
  lemma RenderUnambiguous(d: Expr, e: Expr)
    requires WellFormed(d) && WellFormed(e) && Render(d) == Render(e)
    ensures d == e
  {
    var ts := Render(d);
    ReadComplete(ts, 0, d);
    ReadComplete(ts, 0, e);
  }

  /** What a whole run of the parser returns. */
  function Parsed(sc: Scope, ts: seq<Token>): Option<Value> {
    if ReadExpr(ts, 0).Some? && ReadExpr(ts, 0).value.next == |ts| then Outcome(sc, ts, 0) else None
  }

  /** The parser is exact for its grammar: it accepts a list of tokens with a value exactly when the list is
      that of a well-formed expression with that value. */
  lemma ParserExact(sc: Scope, ts: seq<Token>, v: Value)
    ensures Parsed(sc, ts) == Some(v)
            <==> exists e :: WellFormed(e) && Render(e) == ts && Eval(sc, e, 0) == Some(v)
  {
    if Parsed(sc, ts) == Some(v) {
      ReadSound(ts, 0);
    }
    forall e | WellFormed(e) && Render(e) == ts && Eval(sc, e, 0) == Some(v)
      ensures Parsed(sc, ts) == Some(v)
    {
      ReadComplete(ts, 0, e);
    }
  }

  // ---------------------------------------------------------------- whole expressions

  /** The value of a text; an empty one is undefined. */
  function EvalText(env: Env, ctx: Value, text: string): Option<Value> {
    match Tokens(text)
    case None => None
    case Some(ts) => if ts == [] then Some(Undefined) else Parsed(ScopeOf(env, ctx), ts)
  }

  /** `evalExpression` */
  method EvalExpression(env: Env, ctx: Value, text: string) returns (r: Option<Value>)
    ensures r == EvalText(env, ctx, text)
  {
    var tokens := Tokenize(text);
    if tokens.None? {
      return None;
    }
    if tokens.value == [] {
      return Some(Undefined);
    }
    var parser := new Parser(tokens.value, ScopeOf(env, ctx));
    r := parser.Parse();
  }

  /** From text to value: a text that spells an expression, in whatever spacing and quoting, evaluates to
      the expression's value; printing the expression is one such text. */
  lemma TextExact(env: Env, ctx: Value, text: string, e: Expr)
    requires WellFormed(e)
    ensures Tokens(text) == Some(Render(e)) ==> EvalText(env, ctx, text) == Eval(ScopeOf(env, ctx), e, 0)
    ensures (forall t :: t in Render(e) ==> Spellable(t)) ==>
              Tokens(Print(Render(e))) == Some(Render(e))
              && EvalText(env, ctx, Print(Render(e))) == Eval(ScopeOf(env, ctx), e, 0)
  {
    TextValue(env, ctx, text, e, Render(e));
    TextValue(env, ctx, Print(Render(e)), e, Render(e));
    TokenRoundTrip(Render(e));
  }

  lemma TextValue(env: Env, ctx: Value, text: string, e: Expr, ts: seq<Token>)
    requires WellFormed(e) && ts == Render(e)
    ensures Tokens(text) == Some(ts) ==> EvalText(env, ctx, text) == Eval(ScopeOf(env, ctx), e, 0)
  {
    ReadComplete(ts, 0, e);
    TextEvaluates(env, ctx, text, ts, e);
  }

  lemma TextEvaluates(env: Env, ctx: Value, text: string, ts: seq<Token>, e: Expr)
    requires WellFormed(e) && ts != [] && ReadExpr(ts, 0) == Some(Found(e, |ts|))
    ensures Tokens(text) == Some(ts) ==> EvalText(env, ctx, text) == Eval(ScopeOf(env, ctx), e, 0)
  {
  }

  /** So an inherited name such as `toString`, called in a text, evaluates where an exception is described. */
  lemma InheritedCalled(env: Env, ctx: Value, name: string)
    requires name !in WHITELIST && name !in LITERALS && name in env.inherited && Spellable(TIdent(name))
    ensures var text := Print(Render(Call(name, [])));
            EvalText(env, ctx, text) == env.inherited[name]([])
  {
    var e := Call(name, []);
    assert Render(e) == [TIdent(name), LParen, RParen];
    assert forall t :: t in Render(e) ==> Spellable(t);
    TextExact(env, ctx, "", e);
    NoArgs(ScopeOf(env, ctx), 2);
    OffWhitelist(name);
  }
}
