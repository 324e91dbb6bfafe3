/** Policy clauses: matching Cedar expressions against the visual builder's clause shapes
    (packages/policy-builder/src/parse.ts) and emitting clauses as Cedar text
    (packages/policy-builder/src/emit.ts). */
module PolicyClause {
  import opened Common
  import Canonical
  import Tokenizer

  datatype Literal = Str(s: string) | Num(n: int) | Bool(b: bool)

  datatype Op = Eq | In | Lt | Le | Gt | Ge

  type NumericOp = op: Op | op.Lt? || op.Le? || op.Gt? || op.Ge? witness Lt

  /** A Cedar expression in its JSON form, one key an object; `Opaque` stands for the keys that no clause
      shape looks at, `Foreign` for a value that is no string, number or boolean. */
  datatype Expr =
    | Var(name: string)
    | Dot(left: Expr, attr: string)
    | Value(lit: Literal)
    | Foreign(text: string)
    | Set(items: seq<Expr>)
    | Binary(op: Op, l: Expr, r: Expr)
    | And(l: Expr, r: Expr)
    | Has(left: Expr, attr: string)
    | Opaque(text: string)

  datatype Clause =
    | AttrEq(path: string, value: Literal)
    | AttrIn(path: string, values: seq<Literal>)
    | NumericCmp(op: NumericOp, path: string, bound: int)
    | TimeWindowHour(path: string, startHour: int, endHour: int)
    | HasAttr(path: string)
    | Raw(cedar: string)

  // ---------------------------------------------------------------- recognising a clause

  /** `pathFromExpr` */
  function PathFrom(e: Expr): Option<string> {
    match e
    case Var(name) => if name != "" then Some(name) else None
    case Dot(left, attr) => (match PathFrom(left) case None => None case Some(p) => Some(p + "." + attr))
    case _ => None
  }

  /** `literalFromExpr` */
  function LiteralFrom(e: Expr): Option<Literal> {
    if e.Value? then Some(e.lit) else None
  }

  /** The literals of a set, if that is what all its members are. */
  function LiteralsFrom(items: seq<Expr>): Option<seq<Literal>> {
    if items == [] then Some([])
    else
      match (LiteralFrom(items[0]), LiteralsFrom(items[1..]))
      case (Some(v), Some(vs)) => Some([v] + vs)
      case _ => None
  }

  const OTHER := Raw("/* see Cedar tab */")

  function Onto(values: seq<Literal>, rest: Option<seq<Literal>>): Option<seq<Literal>> {
    if rest.Some? then Some(values + rest.value) else None
  }

  lemma OntoEnds(values: seq<Literal>, rest: Option<seq<Literal>>)
    ensures Onto([], rest) == rest && Onto(values, Some([])) == Some(values)
  {
    assert rest.Some? ==> [] + rest.value == rest.value;
    assert values + [] == values;
  }

  lemma OntoMore(values: seq<Literal>, v: Literal, rest: Option<seq<Literal>>)
    ensures Onto(values, Onto([v], rest)) == Onto(values + [v], rest)
  {
    if rest.Some? {
      assert values + ([v] + rest.value) == values + [v] + rest.value;
    }
  }

  const COMPARISONS: seq<NumericOp> := [Lt, Le, Gt, Ge]

  /** The clause an expression reads as. */
  function ClauseOf(e: Expr): Clause {
    match e
    case Binary(Eq, l, r) =>
      (match (PathFrom(l), LiteralFrom(r)) case (Some(p), Some(v)) => AttrEq(p, v) case _ => OTHER)
    case Binary(In, l, r) =>
      (match (PathFrom(l), if r.Set? then LiteralsFrom(r.items) else None)
       case (Some(p), Some(vs)) => AttrIn(p, vs)
       case _ => OTHER)
    case Binary(op, l, r) =>
      (match (PathFrom(l), LiteralFrom(r)) case (Some(p), Some(Num(n))) => NumericCmp(op, p, n) case _ => OTHER)
    case And(l, r) =>
      (match (ClauseOf(l), ClauseOf(r))
       case (NumericCmp(Ge, p, from), NumericCmp(Lt, q, until)) =>
         if p == q then TimeWindowHour(p, from, until) else OTHER
       case _ => OTHER)
    case Has(left, attr) =>
      (match PathFrom(left) case Some(p) => HasAttr(p + "." + attr) case None => OTHER)
    case _ => OTHER
  }

  /** `parseClause` */
  method ParseClause(e: Expr) returns (c: Clause)
    ensures c == ClauseOf(e)
    decreases e
  {
    if e.Binary? && e.op.Eq? {
      var path, lit := PathFrom(e.l), LiteralFrom(e.r);
      if path.Some? && lit.Some? {
        return AttrEq(path.value, lit.value);
      }
    }
    if e.Binary? && e.op.In? {
      var path := PathFrom(e.l);
      if path.Some? && e.r.Set? {
        var values: seq<Literal> := [];
        var allLits := true;
        OntoEnds(values, LiteralsFrom(e.r.items));
        for i := 0 to |e.r.items|
          invariant allLits ==> LiteralsFrom(e.r.items) == Onto(values, LiteralsFrom(e.r.items[i..]))
          invariant !allLits ==> LiteralsFrom(e.r.items).None?
        {
          var v := LiteralFrom(e.r.items[i]);
          if v.None? {
            assert LiteralsFrom(e.r.items[i..]).None?;
            allLits := false;
            break;
          }
          assert e.r.items[i..][1..] == e.r.items[i + 1..];
          OntoMore(values, v.value, LiteralsFrom(e.r.items[i + 1..]));
          values := values + [v.value];
        }
        if allLits {
          OntoEnds(values, Some([]));
          return AttrIn(path.value, values);
        }
      }
    }
    for i := 0 to |COMPARISONS|
      invariant forall j | 0 <= j < i :: e.Binary? && e.op == COMPARISONS[j] ==> ClauseOf(e) == OTHER
    {
      var op := COMPARISONS[i];
      if e.Binary? && e.op == op {
        var path, v := PathFrom(e.l), LiteralFrom(e.r);
        if path.Some? && v.Some? && v.value.Num? {
          return NumericCmp(op, path.value, v.value.n);
        }
      }
    }
    assert e.Binary? && !e.op.Eq? && !e.op.In? ==> e.op in COMPARISONS;
    if e.And? {
      var lo := ParseClause(e.l);
      var hi := ParseClause(e.r);
      if lo.NumericCmp? && lo.op.Ge? && hi.NumericCmp? && hi.op.Lt? && lo.path == hi.path {
        return TimeWindowHour(lo.path, lo.bound, hi.bound);
      }
    }
    if e.Has? {
      var left := PathFrom(e.left);
      if left.Some? {
        return HasAttr(left.value + "." + e.attr);
      }
      // the source's second try, on a bare variable, finds nothing that a path is not
    }
    return OTHER;
  }

  // ---------------------------------------------------------------- emitting a clause

  /** `s.replace(/c/g, by)` */
  function ReplaceChar(s: string, c: char, with: string): string {
    if s == "" then "" else (if s[0] == c then with else [s[0]]) + ReplaceChar(s[1..], c, with)
  }

  /** `quoteString` */
  function QuoteString(s: string): string {
    "\"" + ReplaceChar(ReplaceChar(s, '\\', "\\\\"), '"', "\\\"") + "\""
  }

  /** `emitLiteral` */
  function LiteralText(v: Literal): string {
    match v
    case Str(s) => QuoteString(s)
    case Num(n) => Canonical.IntText(n)
    case Bool(b) => if b then "true" else "false"
  }

  function OpText(op: Op): string {
    match op
    case Eq => "=="
    case In => "in"
    case Lt => "<"
    case Le => "<="
    case Gt => ">"
    case Ge => ">="
  }

  /** The tests one after the other that each part of a path is there, after the part `acc` leads to. */
  function HasSteps(acc: string, parts: seq<string>): seq<string>
    decreases |parts|
  {
    if parts == [] then [] else [acc + " has " + parts[0]] + HasSteps(acc + "." + parts[0], parts[1..])
  }

  /** `emitHasAttr` */
  method EmitHasAttr(path: string) returns (text: string)
    ensures text == HasText(path)
  {
    var parts := Split(path, '.');
    if |parts| < 2 {
      return path;
    }
    var acc, out: seq<string> := parts[0], [];
    for i := 1 to |parts|
      invariant HasSteps(parts[0], parts[1..]) == out + HasSteps(acc, parts[i..])
    {
      assert parts[i..][1..] == parts[i + 1..];
      out := out + [acc + " has " + parts[i]];
      acc := acc + "." + parts[i];
    }
    assert out + HasSteps(acc, []) == out;
    return Join(out, " && ");
  }

  function HasText(path: string): string {
    var parts := Split(path, '.');
    if |parts| < 2 then path else Join(HasSteps(parts[0], parts[1..]), " && ")
  }

  /** `emitClause` */
  function EmitClause(c: Clause): string {
    match c
    case AttrEq(path, value) => path + " == " + LiteralText(value)
    case AttrIn(path, values) => path + " in [" + Join(Map(LiteralText, values), ", ") + "]"
    case NumericCmp(op, path, n) => path + " " + OpText(op) + " " + Canonical.IntText(n)
    case TimeWindowHour(path, from, until) =>
      path + " >= " + Canonical.IntText(from) + " && " + path + " < " + Canonical.IntText(until)
    case HasAttr(path) => HasText(path)
    case Raw(cedar) => cedar
  }

  // ---------------------------------------------------------------- quoting

  lemma {:induction false} TwoReplacesEscape(s: string)
    ensures ReplaceChar(ReplaceChar(s, '\\', "\\\\"), '"', "\\\"") == Tokenizer.Escape(s, '"')
  {
    if s != "" {
      TwoReplacesEscape(s[1..]);
      var inner := ReplaceChar(s[1..], '\\', "\\\\");
      if s[0] == '\\' {
        assert ReplaceChar(s, '\\', "\\\\") == ['\\', '\\'] + inner;
        assert (['\\', '\\'] + inner)[1..] == ['\\'] + inner && (['\\'] + inner)[1..] == inner;
      } else {
        assert ReplaceChar(s, '\\', "\\\\") == [s[0]] + inner;
        assert ([s[0]] + inner)[1..] == inner;
      }
    }
  }

  lemma QuotedParts(quoted: string, e: string, text: string, at: nat)
    requires quoted == "\"" + (e + ['"']) && At(text, at, quoted)
    ensures at + |quoted| <= |text| && |quoted| == |e| + 2 && text[at] == '"'
    ensures At(text, at + 1, e + ['"']) && text[at + 1..at + 1 + |e|] == e
  {
    AtParts(text, at, "\"", e + ['"']);
    AtFirst(text, at, quoted);
    AtParts(text, at + 1, e, ['"']);
    AtSlice(text, at + 1, e);
  }

  lemma QuotedEnd(s: string, e: string, text: string, i: nat, end: nat)
    requires e == Tokenizer.Escape(s, '"') && At(text, i, e + ['"']) && i + |e| < |text| && text[i..i + |e|] == e
    requires end == Tokenizer.Closing(text, '"', i)
    ensures end == i + |e| && Tokenizer.Unescape(text[i..end]) == s
  {
    Tokenizer.ClosingAfterEscape(text, i, s, '"');
    Tokenizer.UnescapeEscape(s, '"');
  }

  lemma QuoteShape(s: string)
    ensures QuoteString(s) == "\"" + (Tokenizer.Escape(s, '"') + ['"'])
  {
    TwoReplacesEscape(s);
  }

  /** A quoted string is undone by unescaping, and wherever it stands in a text it ends at its own closing
      quote and not before. */
  lemma QuoteUndone(s: string, text: string, at: nat)
    requires At(text, at, QuoteString(s))
    ensures at < |text| && text[at] == '"'
    ensures var end := Tokenizer.Closing(text, '"', at + 1);
            end == at + |QuoteString(s)| - 1 < |text| && end > at && Tokenizer.Unescape(text[at + 1..end]) == s
  {
    QuoteShape(s);
    var e := Tokenizer.Escape(s, '"');
    QuotedParts(QuoteString(s), e, text, at);
    QuotedEnd(s, e, text, at + 1, Tokenizer.Closing(text, '"', at + 1));
  }

  // ---------------------------------------------------------------- what the emitted text says

  /** The expression of a path, given the one its first part stands for. */
  function DotAll(base: Expr, attrs: seq<string>): Expr
    decreases |attrs|
  {
    if attrs == [] then base else DotAll(Dot(base, attrs[0]), attrs[1..])
  }

  function PathExpr(path: string): Expr {
    var parts := Split(path, '.');
    DotAll(Var(parts[0]), parts[1..])
  }

  /** `acc && base has a && base.a has b && ...`, grouped to the left. */
  function AndSteps(acc: Expr, base: Expr, attrs: seq<string>): Expr
    decreases |attrs|
  {
    if attrs == [] then acc else AndSteps(And(acc, Has(base, attrs[0])), Dot(base, attrs[0]), attrs[1..])
  }

  function HasExpr(path: string): Expr {
    var parts := Split(path, '.');
    if |parts| < 2 then Var(path)
    else AndSteps(Has(Var(parts[0]), parts[1]), Dot(Var(parts[0]), parts[1]), parts[2..])
  }

  /** The Cedar expression that an emitted clause is. */
  function ExprOf(c: Clause): Expr {
    match c
    case AttrEq(path, value) => Binary(Eq, PathExpr(path), Value(value))
    case AttrIn(path, values) => Binary(In, PathExpr(path), Set(Map((v: Literal) => Value(v), values)))
    case NumericCmp(op, path, n) => Binary(op, PathExpr(path), Value(Num(n)))
    case TimeWindowHour(path, from, until) =>
      And(Binary(Ge, PathExpr(path), Value(Num(from))), Binary(Lt, PathExpr(path), Value(Num(until))))
    case HasAttr(path) => HasExpr(path)
    case Raw(cedar) => Opaque(cedar)
  }

  /** The Cedar text of an expression of these shapes. */
  function Render(e: Expr): string
    decreases e, 0
  {
    match e
    case Var(name) => name
    case Dot(left, attr) => Render(left) + "." + attr
    case Value(lit) => LiteralText(lit)
    case Foreign(text) => text
    case Set(items) => "[" + Join(RenderAll(items), ", ") + "]"
    case Binary(op, l, r) => Render(l) + " " + OpText(op) + " " + Render(r)
    case And(l, r) => Render(l) + " && " + Render(r)
    case Has(left, attr) => Render(left) + " has " + attr
    case Opaque(text) => text
  }

  function RenderAll(items: seq<Expr>): seq<string>
    decreases items, 1
  {
    if items == [] then [] else [Render(items[0])] + RenderAll(items[1..])
  }

  lemma JoinTwo(a: string, b: string, rest: seq<string>, sep: string)
    ensures Join([a, b] + rest, sep) == Join([a + sep + b] + rest, sep)
  {
    assert ([a, b] + rest)[1..] == [b] + rest;
    if rest == [] {
      assert [a, b] + rest == [a, b] && [a + sep + b] + rest == [a + sep + b] && [a, b][1..] == [b];
    } else {
      JoinCons(b, rest, sep);
      JoinCons(a, [b] + rest, sep);
      JoinCons(a + sep + b, rest, sep);
      assert a + sep + (b + sep + Join(rest, sep)) == a + sep + b + sep + Join(rest, sep);
      assert [a, b] + rest == [a] + ([b] + rest);
    }
  }

  lemma {:induction false} DotAllText(base: Expr, attrs: seq<string>)
    ensures Render(DotAll(base, attrs)) == Join([Render(base)] + attrs, ".")
    decreases |attrs|
  {
    if attrs == [] {
      assert [Render(base)] + attrs == [Render(base)];
    } else {
      DotAllText(Dot(base, attrs[0]), attrs[1..]);
      JoinTwo(Render(base), attrs[0], attrs[1..], ".");
      assert [Render(base)] + attrs == [Render(base), attrs[0]] + attrs[1..];
    }
  }

  lemma PathText(path: string)
    ensures Render(PathExpr(path)) == path
  {
    var parts := Split(path, '.');
    DotAllText(Var(parts[0]), parts[1..]);
    assert [parts[0]] + parts[1..] == parts;
    JoinSplit(path, '.');
  }

  lemma {:induction false} AndStepsText(acc: Expr, base: Expr, attrs: seq<string>)
    ensures Render(AndSteps(acc, base, attrs)) == Join([Render(acc)] + HasSteps(Render(base), attrs), " && ")
    decreases |attrs|
  {
    if attrs == [] {
      assert [Render(acc)] + HasSteps(Render(base), attrs) == [Render(acc)];
    } else {
      var step := Render(Has(base, attrs[0]));
      var rest := HasSteps(Render(Dot(base, attrs[0])), attrs[1..]);
      AndStepsText(And(acc, Has(base, attrs[0])), Dot(base, attrs[0]), attrs[1..]);
      JoinTwo(Render(acc), step, rest, " && ");
      assert [Render(acc)] + ([step] + rest) == [Render(acc), step] + rest;
    }
  }

  lemma {:induction false} ValuesText(values: seq<Literal>)
    ensures RenderAll(Map((v: Literal) => Value(v), values)) == Map(LiteralText, values)
  {
    if values != [] {
      ValuesText(values[1..]);
      var items := Map((v: Literal) => Value(v), values);
      assert items[1..] == Map((v: Literal) => Value(v), values[1..]);
    }
  }

  lemma AttrInText(path: string, values: seq<Literal>)
    ensures Render(ExprOf(AttrIn(path, values))) == EmitClause(AttrIn(path, values))
  {
    PathText(path);
    ValuesText(values);
    var list := Join(Map(LiteralText, values), ", ");
    assert path + " " + "in" + " " == path + " in ";
    Regroup(path + " in ", "[", list, "]");
    assert path + " in " + "[" == path + " in [";
  }

  lemma TimeWindowText(path: string, from: int, until: int)
    ensures Render(ExprOf(TimeWindowHour(path, from, until))) == EmitClause(TimeWindowHour(path, from, until))
  {
    PathText(path);
    assert Render(Binary(Ge, PathExpr(path), Value(Num(from)))) == path + " " + ">=" + " " + Canonical.IntText(from);
    assert Render(Binary(Lt, PathExpr(path), Value(Num(until)))) == path + " " + "<" + " " + Canonical.IntText(until);
    WindowText(path, Canonical.IntText(from), Canonical.IntText(until));
  }

  lemma WindowText(path: string, a: string, b: string)
    ensures path + " " + ">=" + " " + a + " && " + (path + " " + "<" + " " + b)
            == path + " >= " + a + " && " + path + " < " + b
  {
    assert path + " " + ">=" + " " == path + " >= ";
    assert path + " " + "<" + " " == path + " < ";
    Regroup(path + " >= " + a, " && ", path + " < ", b);
    Regroup(path + " >= " + a + " && ", path, " < ", b);
  }

  lemma HasAttrText(path: string)
    ensures Render(HasExpr(path)) == HasText(path)
  {
    var parts := Split(path, '.');
    if |parts| >= 2 {
      AndStepsText(Has(Var(parts[0]), parts[1]), Dot(Var(parts[0]), parts[1]), parts[2..]);
      assert parts[1..][1..] == parts[2..];
    }
  }

  lemma ComparisonText(path: string, v: string)
    ensures path + " " + "==" + " " + v == path + " == " + v
  {
    assert path + " " + "==" + " " == path + " == ";
  }

  /** What is emitted is the text of that expression. */
  lemma EmittedText(c: Clause)
    ensures Render(ExprOf(c)) == EmitClause(c)
  {
    match c
    case AttrEq(path, value) =>
      PathText(path);
      ComparisonText(path, LiteralText(value));
    case AttrIn(path, values) => AttrInText(path, values);
    case NumericCmp(_, path, _) => PathText(path);
    case TimeWindowHour(path, from, until) => TimeWindowText(path, from, until);
    case HasAttr(path) => HasAttrText(path);
    case Raw(_) =>
  }

  lemma Regroup(a: string, b: string, c: string, d: string)
    ensures a + (b + c + d) == a + b + c + d
    ensures a + b + (c + d) == a + b + c + d
  {
  }

  // ---------------------------------------------------------------- round trips

  predicate Named(path: string) {
    Split(path, '.')[0] != ""
  }

  lemma {:induction false} PathFromDots(base: Expr, attrs: seq<string>)
    ensures PathFrom(base).None? ==> PathFrom(DotAll(base, attrs)).None?
    ensures PathFrom(base).Some? ==> PathFrom(DotAll(base, attrs)) == Some(Join([PathFrom(base).value] + attrs, "."))
    decreases |attrs|
  {
    if attrs == [] {
      if PathFrom(base).Some? {
        assert [PathFrom(base).value] + attrs == [PathFrom(base).value];
      }
    } else {
      PathFromDots(Dot(base, attrs[0]), attrs[1..]);
      if PathFrom(base).Some? {
        JoinTwo(PathFrom(base).value, attrs[0], attrs[1..], ".");
        assert [PathFrom(base).value] + attrs == [PathFrom(base).value, attrs[0]] + attrs[1..];
      }
    }
  }

  lemma PathReadsBack(path: string)
    ensures PathFrom(PathExpr(path)) == if Named(path) then Some(path) else None
  {
    var parts := Split(path, '.');
    PathFromDots(Var(parts[0]), parts[1..]);
    assert [parts[0]] + parts[1..] == parts;
    JoinSplit(path, '.');
  }

  lemma {:induction false} LiteralsReadBack(values: seq<Literal>)
    ensures LiteralsFrom(Map((v: Literal) => Value(v), values)) == Some(values)
  {
    if values != [] {
      LiteralsReadBack(values[1..]);
      var items := Map((v: Literal) => Value(v), values);
      assert items[1..] == Map((v: Literal) => Value(v), values[1..]);
      assert values == [values[0]] + values[1..];
    }
  }

  lemma {:induction false} AndStepsNoClause(acc: Expr, base: Expr, attrs: seq<string>)
    requires attrs != [] && !ClauseOf(acc).NumericCmp?
    ensures ClauseOf(AndSteps(acc, base, attrs)) == OTHER
    decreases |attrs|
  {
    if |attrs| > 1 {
      AndStepsNoClause(And(acc, Has(base, attrs[0])), Dot(base, attrs[0]), attrs[1..]);
    } else {
      assert attrs[1..] == [];
    }
  }

  lemma HasReadsBack(path: string)
    ensures ClauseOf(HasExpr(path)) == HasAttr(path) <==> Named(path) && |Split(path, '.')| == 2
  {
    var parts := Split(path, '.');
    if |parts| == 2 {
      assert parts[2..] == [] && parts[1..] == [parts[1]];
      JoinSplit(path, '.');
      assert path == parts[0] + "." + parts[1];
    } else if |parts| > 2 {
      AndStepsNoClause(Has(Var(parts[0]), parts[1]), Dot(Var(parts[0]), parts[1]), parts[2..]);
    }
  }

  /** The expression of a clause reads as the clause exactly when its path does not start empty and, for a
      presence test, has exactly two parts. */
  lemma ReadsBack(c: Clause)
    requires !c.Raw?
    ensures ClauseOf(ExprOf(c)) == c <==> Named(c.path) && (c.HasAttr? ==> |Split(c.path, '.')| == 2)
  {
    match c
    case AttrIn(path, values) =>
      PathReadsBack(path);
      LiteralsReadBack(values);
    case HasAttr(path) => HasReadsBack(path);
    case AttrEq(path, _) => PathReadsBack(path);
    case NumericCmp(_, path, _) => PathReadsBack(path);
    case TimeWindowHour(path, _, _) => PathReadsBack(path);
    case Raw(_) =>
  }

  /** No dot inside a name or attribute. */
  predicate DotFree(e: Expr) {
    match e
    case Var(name) => '.' !in name
    case Dot(left, attr) => DotFree(left) && '.' !in attr
    case Binary(_, l, _) => DotFree(l)
    case And(l, r) => DotFree(l) && DotFree(r)
    case Has(left, attr) => DotFree(left) && '.' !in attr
    case _ => true
  }

  lemma HeadLast(first: string, parts: seq<string>, attr: string)
    requires parts != []
    ensures [first + parts[0]] + (parts + [attr])[1..] == [first + parts[0]] + parts[1..] + [attr]
    ensures [first] + (parts + [attr]) == [first] + parts + [attr]
  {
  }

  lemma {:induction false} SplitLast(s: string, attr: string, sep: char)
    requires sep !in attr
    ensures Split(s + [sep] + attr, sep) == Split(s, sep) + [attr]
  {
    var all := s + [sep] + attr;
    if s == "" {
      assert all[1..] == attr;
      SplitWhole(attr, sep);
    } else {
      SplitLast(s[1..], attr, sep);
      assert all[1..] == s[1..] + [sep] + attr;
      HeadLast(if s[0] == sep then "" else [s[0]], Split(s[1..], sep), attr);
    }
  }

  lemma {:induction false} DotAllLast(base: Expr, attrs: seq<string>, attr: string)
    ensures DotAll(base, attrs + [attr]) == Dot(DotAll(base, attrs), attr)
    decreases |attrs|
  {
    if attrs == [] {
      assert attrs + [attr] == [attr] && [attr][1..] == [];
    } else {
      DotAllLast(Dot(base, attrs[0]), attrs[1..], attr);
      assert (attrs + [attr])[1..] == attrs[1..] + [attr];
    }
  }

  /** The text of a path tells its expression. */
  lemma {:induction false} PathExprBack(e: Expr, path: string)
    requires DotFree(e) && PathFrom(e) == Some(path)
    ensures PathExpr(path) == e && Named(path)
    decreases e
  {
    match e
    case Var(name) => SplitWhole(name, '.');
    case Dot(left, attr) =>
      var p := PathFrom(left).value;
      PathExprBack(left, p);
      SplitLast(p, attr, '.');
      assert p + "." + attr == p + ['.'] + attr;
      var parts := Split(p, '.');
      assert (parts + [attr])[1..] == parts[1..] + [attr];
      DotAllLast(Var(parts[0]), parts[1..], attr);
  }

  lemma {:induction false} LiteralsBack(items: seq<Expr>, values: seq<Literal>)
    requires LiteralsFrom(items) == Some(values)
    ensures Map((v: Literal) => Value(v), values) == items
  {
    if items != [] {
      LiteralsBack(items[1..], values[1..]);
      assert items == [items[0]] + items[1..];
    }
  }

  /** The expression of the clause that an expression is recognised as is that very expression, except that a
      presence test on a longer path becomes a chain of tests. */
  lemma Reemits(e: Expr)
    requires DotFree(e) && !ClauseOf(e).Raw?
    ensures var c := ClauseOf(e); ExprOf(c) == e <==> (c.HasAttr? ==> |Split(c.path, '.')| == 2)
  {
    match e
    case Binary(op, l, r) =>
      PathExprBack(l, PathFrom(l).value);
      if op.In? {
        LiteralsBack(r.items, LiteralsFrom(r.items).value);
      }
    case And(l, r) =>
      PathExprBack(l.l, PathFrom(l.l).value);
      PathExprBack(r.l, PathFrom(r.l).value);
    case Has(left, attr) =>
      HasReemits(left, attr, PathFrom(left).value);
  }

  lemma HasReemits(left: Expr, attr: string, p: string)
    requires DotFree(Has(left, attr)) && PathFrom(left) == Some(p)
    ensures HasExpr(p + "." + attr) == Has(left, attr) <==> |Split(p + "." + attr, '.')| == 2
    ensures Split(p + "." + attr, '.') == Split(p, '.') + [attr] && |Split(p, '.')| >= 1
    ensures left == DotAll(Var(Split(p, '.')[0]), Split(p, '.')[1..])
  {
    PathExprBack(left, p);
    SplitLast(p, attr, '.');
    assert p + "." + attr == p + ['.'] + attr;
    var parts := Split(p, '.') + [attr];
    if |parts| == 2 {
      assert parts[2..] == [] && Split(p, '.')[1..] == [];
    } else {
      AndStepsNoClause(Has(Var(parts[0]), parts[1]), Dot(Var(parts[0]), parts[1]), parts[2..]);
    }
  }

  // ---------------------------------------------------------------- meaning

  datatype Val =
    | VStr(s: string)
    | VNum(n: int)
    | VBool(b: bool)
    | VRec(fields: map<string, Val>)
    | VEntity(id: string)
    | VSet(items: seq<Val>)

  /** What an expression is evaluated in; membership and the shapes outside the fragment are foreign. */
  datatype World = World(
    vars: map<string, Val>,
    entities: map<string, map<string, Val>>,
    member: (Val, Val) -> Option<Val>,
    foreign: string -> Option<Val>
  )

  function LiteralValue(v: Literal): Val {
    match v
    case Str(s) => VStr(s)
    case Num(n) => VNum(n)
    case Bool(b) => VBool(b)
  }

  /** The attributes of a record or an entity. */
  function Attrs(w: World, v: Val): Option<map<string, Val>> {
    match v
    case VRec(fields) => Some(fields)
    case VEntity(id) => Some(if id in w.entities then w.entities[id] else map[])
    case _ => None
  }

  /** `v.attr`; a missing attribute is an error. */
  function GetAttr(w: World, v: Option<Val>, attr: string): Option<Val> {
    if v.None? then None
    else
      match Attrs(w, v.value)
      case None => None
      case Some(fields) => if attr in fields then Some(fields[attr]) else None
  }

  /** `v has attr` */
  function HasAttrOf(w: World, v: Option<Val>, attr: string): Option<Val> {
    if v.None? then None
    else match Attrs(w, v.value) case None => None case Some(fields) => Some(VBool(attr in fields))
  }

  function Compare(op: NumericOp, a: int, b: int): bool {
    match op
    case Lt => a < b
    case Le => a <= b
    case Gt => a > b
    case Ge => a >= b
  }

  /** Cedar's `&&`: the right side counts only when the left is true. */
  function AndOf(l: Option<Val>, r: Option<Val>): Option<Val> {
    if l == Some(VBool(false)) then l
    else if l == Some(VBool(true)) && r.Some? && r.value.VBool? then r
    else None
  }

  /** The value of an expression; none is an evaluation error. */
  function Eval(w: World, e: Expr): Option<Val>
    decreases e, 0
  {
    match e
    case Var(name) => if name in w.vars then Some(w.vars[name]) else None
    case Dot(left, attr) => GetAttr(w, Eval(w, left), attr)
    case Value(lit) => Some(LiteralValue(lit))
    case Foreign(text) => w.foreign(text)
    case Set(items) => (match EvalAll(w, items) case None => None case Some(vs) => Some(VSet(vs)))
    case Binary(op, l, r) =>
      (match (Eval(w, l), Eval(w, r))
       case (Some(a), Some(b)) =>
         if op.Eq? then Some(VBool(a == b))
         else if op.In? then w.member(a, b)
         else if a.VNum? && b.VNum? then Some(VBool(Compare(op, a.n, b.n)))
         else None
       case _ => None)
    case And(l, r) => AndOf(Eval(w, l), Eval(w, r))
    case Has(left, attr) => HasAttrOf(w, Eval(w, left), attr)
    case Opaque(text) => w.foreign(text)
  }

  function EvalAll(w: World, items: seq<Expr>): Option<seq<Val>>
    decreases items, 1
  {
    if items == [] then Some([])
    else
      match (Eval(w, items[0]), EvalAll(w, items[1..]))
      case (Some(v), Some(vs)) => Some([v] + vs)
      case _ => None
  }

  function Walk(w: World, v: Option<Val>, attrs: seq<string>): Option<Val>
    decreases |attrs|
  {
    if attrs == [] then v else Walk(w, GetAttr(w, v, attrs[0]), attrs[1..])
  }

  /** Some attribute before the last one is missing. */
  predicate MissingBefore(w: World, v: Option<Val>, attrs: seq<string>)
    decreases |attrs|
  {
    |attrs| >= 2 && (HasAttrOf(w, v, attrs[0]) == Some(VBool(false))
                     || MissingBefore(w, GetAttr(w, v, attrs[0]), attrs[1..]))
  }

  lemma {:induction false} EvalDots(w: World, base: Expr, attrs: seq<string>)
    ensures Eval(w, DotAll(base, attrs)) == Walk(w, Eval(w, base), attrs)
    decreases |attrs|
  {
    if attrs != [] {
      EvalDots(w, Dot(base, attrs[0]), attrs[1..]);
    }
  }

  /** What a chain of presence tests comes to. */
  function Chain(w: World, acc: Option<Val>, v: Option<Val>, attrs: seq<string>): Option<Val>
    decreases |attrs|
  {
    if attrs == [] then acc
    else Chain(w, AndOf(acc, HasAttrOf(w, v, attrs[0])), GetAttr(w, v, attrs[0]), attrs[1..])
  }

  lemma {:induction false} EvalAndSteps(w: World, acc: Expr, base: Expr, attrs: seq<string>)
    ensures Eval(w, AndSteps(acc, base, attrs)) == Chain(w, Eval(w, acc), Eval(w, base), attrs)
    decreases |attrs|
  {
    if attrs != [] {
      EvalAndSteps(w, And(acc, Has(base, attrs[0])), Dot(base, attrs[0]), attrs[1..]);
    }
  }

  /** A test that failed or an error decides the chain. */
  lemma {:induction false} ChainDecided(w: World, acc: Option<Val>, v: Option<Val>, attrs: seq<string>)
    requires acc.None? || acc == Some(VBool(false))
    ensures Chain(w, acc, v, attrs) == acc
    decreases |attrs|
  {
    if attrs != [] {
      ChainDecided(w, AndOf(acc, HasAttrOf(w, v, attrs[0])), GetAttr(w, v, attrs[0]), attrs[1..]);
    }
  }

  /** The chain says what the single test says, unless an attribute before the last is missing: then it is
      false where the single test is an error. */
  lemma {:induction false} ChainIsTest(w: World, v: Option<Val>, attrs: seq<string>)
    requires attrs != []
    ensures var single := HasAttrOf(w, Walk(w, v, attrs[..|attrs| - 1]), attrs[|attrs| - 1]);
            if MissingBefore(w, v, attrs)
            then single.None? && Chain(w, Some(VBool(true)), v, attrs) == Some(VBool(false))
            else Chain(w, Some(VBool(true)), v, attrs) == single
    decreases |attrs|
  {
    var first := HasAttrOf(w, v, attrs[0]);
    var next, rest := GetAttr(w, v, attrs[0]), attrs[1..];
    if |attrs| > 1 {
      assert rest[..|rest| - 1] == attrs[..|attrs| - 1][1..];
      ChainIsTest(w, next, rest);
      if first != Some(VBool(true)) {
        ChainDecided(w, AndOf(Some(VBool(true)), first), next, rest);
        WalkNothing(w, rest[..|rest| - 1]);
        NothingMissing(w, rest);
      }
    } else {
      assert rest == [] && attrs[..0] == [];
    }
  }

  lemma {:induction false} WalkNothing(w: World, attrs: seq<string>)
    ensures Walk(w, None, attrs).None?
  {
    if attrs != [] {
      WalkNothing(w, attrs[1..]);
    }
  }

  lemma {:induction false} NothingMissing(w: World, attrs: seq<string>)
    ensures !MissingBefore(w, None, attrs)
  {
    if attrs != [] {
      NothingMissing(w, attrs[1..]);
    }
  }

  /** A recognised expression and the expression of its clause agree in exactly the worlds where no attribute
      on the way to a presence test is missing. */
  lemma ExprMeaning(w: World, e: Expr)
    requires DotFree(e) && !ClauseOf(e).Raw?
    ensures var c := ClauseOf(e);
            var parts := Split(c.path, '.');
            Eval(w, ExprOf(c)) == Eval(w, e) <==> !(c.HasAttr? && MissingBefore(w, Eval(w, Var(parts[0])), parts[1..]))
  {
    if e.Has? {
      HasMeaning(w, e.left, e.attr, PathFrom(e.left).value);
    } else {
      Reemits(e);
    }
  }

  lemma HasMeaning(w: World, left: Expr, attr: string, p: string)
    requires DotFree(Has(left, attr)) && PathFrom(left) == Some(p)
    ensures var parts := Split(p + "." + attr, '.');
            Eval(w, HasExpr(p + "." + attr)) == Eval(w, Has(left, attr))
            <==> !MissingBefore(w, Eval(w, Var(parts[0])), parts[1..])
  {
    HasReemits(left, attr, p);
    var parts := Split(p + "." + attr, '.');
    var before := Split(p, '.');
    var base := Var(parts[0]);
    EvalDots(w, base, before[1..]);
    EvalAndSteps(w, Has(base, parts[1]), Dot(base, parts[1]), parts[2..]);
    var attrs := parts[1..];
    assert attrs[1..] == parts[2..] && attrs[..|attrs| - 1] == before[1..];
    ChainIsTest(w, Eval(w, base), attrs);
    FirstTest(w, Eval(w, base), attrs);
  }

  lemma FirstTest(w: World, v: Option<Val>, attrs: seq<string>)
    requires attrs != []
    ensures Chain(w, Some(VBool(true)), v, attrs)
            == Chain(w, HasAttrOf(w, v, attrs[0]), GetAttr(w, v, attrs[0]), attrs[1..])
  {
    assert AndOf(Some(VBool(true)), HasAttrOf(w, v, attrs[0])) == HasAttrOf(w, v, attrs[0]);
  }
}
