/** What becomes of a clause, or of a Cedar expression, that the visual builder emits and Cedar reads again. */
module PolicyRoundTrip {
  import opened Common
  import opened PolicyClause
  import opened CedarText
  import opened CedarTheorems

  // ---------------------------------------------------------------- clauses Cedar reads as meant

  /** The path starts with one of Cedar's variables and goes on with names. */
  predicate NamedPath(k: Cedar, path: string) {
    var parts := Split(path, '.');
    parts[0] in VARIABLES && AllNames(k, parts[1..])
  }

  predicate AllNames(k: Cedar, attrs: seq<string>) {
    forall i | 0 <= i < |attrs| :: IsName(k, attrs[i])
  }

  /** The path is named and every literal can be written in Cedar. */
  predicate Readable(k: Cedar, c: Clause)
    requires !c.Raw?
  {
    NamedPath(k, c.path)
    && match c
       case AttrEq(_, value) => PlainLiteral(k, value)
       case AttrIn(_, values) => forall i | 0 <= i < |values| :: PlainLiteral(k, values[i])
       case NumericCmp(_, _, n) => PlainLiteral(k, Num(n))
       case TimeWindowHour(_, from, until) => PlainLiteral(k, Num(from)) && PlainLiteral(k, Num(until))
       case _ => true
  }

  lemma AllNamesCons(k: Cedar, attrs: seq<string>)
    requires attrs != []
    ensures AllNames(k, attrs) <==> IsName(k, attrs[0]) && AllNames(k, attrs[1..])
  {
    assert attrs == [attrs[0]] + attrs[1..];
  }

  lemma {:induction false} DotAllLegible(k: Cedar, base: Expr, attrs: seq<string>)
    ensures Legible(k, DotAll(base, attrs)) <==> Legible(k, base) && AllNames(k, attrs)
    decreases |attrs|
  {
    if attrs != [] {
      DotAllLegible(k, Expr.Dot(base, attrs[0]), attrs[1..]);
      AllNamesCons(k, attrs);
    }
  }

  lemma {:induction false} AndStepsLegible(k: Cedar, acc: Expr, base: Expr, attrs: seq<string>)
    requires Legible(k, acc) ==> Legible(k, base)
    ensures Legible(k, AndSteps(acc, base, attrs)) <==> Legible(k, acc) && AllNames(k, attrs)
    decreases |attrs|
  {
    if attrs != [] {
      assert Legible(k, Has(base, attrs[0])) == (Legible(k, base) && IsName(k, attrs[0]));
      assert Legible(k, Expr.Dot(base, attrs[0])) == (Legible(k, base) && IsName(k, attrs[0]));
      AndStepsLegible(k, And(acc, Has(base, attrs[0])), Expr.Dot(base, attrs[0]), attrs[1..]);
      AllNamesCons(k, attrs);
    }
  }

  lemma PathLegible(k: Cedar, path: string)
    ensures Legible(k, PathExpr(path)) <==> NamedPath(k, path)
  {
    var parts := Split(path, '.');
    DotAllLegible(k, Var(parts[0]), parts[1..]);
  }

  lemma HasLegible(k: Cedar, path: string)
    ensures Legible(k, HasExpr(path)) <==> NamedPath(k, path)
  {
    var parts := Split(path, '.');
    if |parts| >= 2 {
      AndStepsLegible(k, Has(Var(parts[0]), parts[1]), Expr.Dot(Var(parts[0]), parts[1]), parts[2..]);
      AllNamesCons(k, parts[1..]);
      assert parts[1..][1..] == parts[2..];
    } else {
      JoinSplit(path, '.');
      assert parts == [path] && parts[1..] == [];
    }
  }

  lemma ValuesLegible(k: Cedar, values: seq<Literal>)
    ensures AllLegible(k, Map((v: Literal) => Value(v), values))
            <==> forall i | 0 <= i < |values| :: PlainLiteral(k, values[i])
    ensures IsOperand(Set(Map((v: Literal) => Value(v), values)))
  {
    var items := Map((v: Literal) => Value(v), values);
    forall i: nat | i < |values| ensures items[i] == Value(values[i]) {
      MapAt((v: Literal) => Value(v), values, i);
    }
    assert forall i | 0 <= i < |values| :: Legible(k, items[i]) == PlainLiteral(k, values[i]);
  }

  /** A readable clause is one whose expression Cedar can write. */
  lemma ReadableIff(k: Cedar, c: Clause)
    requires !c.Raw?
    ensures Legible(k, ExprOf(c)) <==> Readable(k, c)
  {
    PathLegible(k, c.path);
    match c
    case AttrIn(_, values) => ValuesLegible(k, values);
    case HasAttr(path) => HasLegible(k, path);
    case AttrEq(_, _) =>
    case NumericCmp(_, _, _) =>
    case TimeWindowHour(path, from, until) =>
      assert Legible(k, Binary(Ge, PathExpr(path), Value(Num(from))))
             == (Legible(k, PathExpr(path)) && Legible(k, Value(Num(from))));
      assert Legible(k, Binary(Lt, PathExpr(path), Value(Num(until))))
             == (Legible(k, PathExpr(path)) && Legible(k, Value(Num(until))));
    case Raw(_) =>
  }

  lemma {:induction false} DotAllIsPath(base: Expr, attrs: seq<string>)
    requires IsPath(base)
    ensures IsPath(DotAll(base, attrs))
    decreases |attrs|
  {
    if attrs != [] {
      DotAllIsPath(Expr.Dot(base, attrs[0]), attrs[1..]);
    }
  }

  lemma {:induction false} AndStepsFlat(acc: Expr, base: Expr, attrs: seq<string>)
    requires IsFlat(acc) && IsPath(base)
    ensures IsFlat(AndSteps(acc, base, attrs))
    decreases |attrs|
  {
    if attrs != [] {
      AndStepsFlat(And(acc, Has(base, attrs[0])), Expr.Dot(base, attrs[0]), attrs[1..]);
    }
  }

  lemma ExprFlat(k: Cedar, c: Clause)
    requires !c.Raw?
    ensures IsFlat(ExprOf(c))
  {
    var parts := Split(c.path, '.');
    DotAllIsPath(Var(parts[0]), parts[1..]);
    match c
    case AttrIn(_, values) => ValuesLegible(k, values);
    case HasAttr(_) =>
      if |parts| >= 2 {
        AndStepsFlat(Has(Var(parts[0]), parts[1]), Expr.Dot(Var(parts[0]), parts[1]), parts[2..]);
      }
    case _ =>
  }

  /** Cedar reads what a clause emits as the clause's expression exactly when the clause's path starts with a
      variable of Cedar's, goes on with names, and its literals can be written. */
  lemma TextReadsAsMeant(k: Cedar, c: Clause)
    requires !c.Raw?
    ensures ReadCedar(k, EmitClause(c)) == Some(ExprOf(c)) <==> Readable(k, c)
  {
    ReadableIff(k, c);
    if Readable(k, c) {
      ExprFlat(k, c);
      EmittedText(c);
      FlatTextReads(k, ExprOf(c));
    }
    if ReadCedar(k, EmitClause(c)).Some? {
      ReadLegible(k, EmitClause(c));
    }
  }

  // ---------------------------------------------------------------- round trips

  lemma NameHasNoDot(k: Cedar, w: string)
    requires IsName(k, w)
    ensures '.' !in w
  {
  }

  lemma {:induction false} LegibleDotFree(k: Cedar, e: Expr)
    requires Legible(k, e)
    ensures DotFree(e)
    decreases e
  {
    match e
    case Dot(left, attr) =>
      LegibleDotFree(k, left);
      NameHasNoDot(k, attr);
    case Has(left, attr) =>
      LegibleDotFree(k, left);
      NameHasNoDot(k, attr);
    case Binary(_, l, _) => LegibleDotFree(k, l);
    case And(l, r) =>
      LegibleDotFree(k, l);
      LegibleDotFree(k, r);
    case _ =>
  }

  lemma PathFromLegible(k: Cedar, e: Expr, path: string)
    requires Legible(k, e) && PathFrom(e) == Some(path)
    ensures NamedPath(k, path)
  {
    LegibleDotFree(k, e);
    PathExprBack(e, path);
    PathLegible(k, path);
  }

  lemma {:induction false} LiteralsLegible(k: Cedar, items: seq<Expr>, values: seq<Literal>)
    requires AllLegible(k, items) && LiteralsFrom(items) == Some(values)
    ensures forall i | 0 <= i < |values| :: PlainLiteral(k, values[i])
  {
    LiteralsBack(items, values);
    ValuesLegible(k, values);
  }

  /** A legible expression is recognised as a readable clause. */
  lemma ClauseReadable(k: Cedar, e: Expr)
    requires Legible(k, e) && !ClauseOf(e).Raw?
    ensures Readable(k, ClauseOf(e))
  {
    match e
    case Binary(op, l, r) =>
      PathFromLegible(k, l, PathFrom(l).value);
      if op.In? {
        LiteralsLegible(k, r.items, LiteralsFrom(r.items).value);
      }
    case And(l, r) => PathFromLegible(k, l.l, PathFrom(l.l).value);
    case Has(left, attr) =>
      PathFromLegible(k, left, PathFrom(left).value);
      HasPathNamed(k, PathFrom(left).value, attr);
  }

  lemma HasPathNamed(k: Cedar, p: string, attr: string)
    requires NamedPath(k, p) && IsName(k, attr)
    ensures NamedPath(k, p + "." + attr)
  {
    NameHasNoDot(k, attr);
    SplitLast(p, attr, '.');
    var parts := Split(p, '.');
    assert p + "." + attr == p + ['.'] + attr;
    assert (parts + [attr])[1..] == parts[1..] + [attr];
  }

  function ReadClause(k: Cedar, text: string): Option<Clause> {
    match ReadCedar(k, text) case None => None case Some(e) => Some(ClauseOf(e))
  }

  /** The clause round trip, through Cedar's text: a clause is recognised in what it emits exactly when it is
      readable and, for a presence test, its path has two parts. */
  lemma ClauseRoundTrip(k: Cedar, c: Clause)
    requires !c.Raw?
    ensures ReadClause(k, EmitClause(c)) == Some(c)
            <==> Readable(k, c) && (c.HasAttr? ==> |Split(c.path, '.')| == 2)
  {
    TextReadsAsMeant(k, c);
    ReadsBack(c);
    if ReadClause(k, EmitClause(c)) == Some(c) {
      ReadLegible(k, EmitClause(c));
      ClauseReadable(k, ReadCedar(k, EmitClause(c)).value);
    }
  }

  /** Recognising and re-emitting an expression gives that very expression back from Cedar exactly when its
      attributes are names (and its variables and literals Cedar's) and it is no presence test on a longer
      path. */
  lemma Reemission(k: Cedar, e: Expr)
    requires !ClauseOf(e).Raw?
    ensures var c := ClauseOf(e);
            ReadCedar(k, EmitClause(c)) == Some(e)
            <==> Legible(k, e) && (c.HasAttr? ==> |Split(c.path, '.')| == 2)
  {
    var c := ClauseOf(e);
    if ReadCedar(k, EmitClause(c)) == Some(e) {
      ReadLegible(k, EmitClause(c));
    }
    if Legible(k, e) {
      ClauseReadable(k, e);
      TextReadsAsMeant(k, c);
      LegibleDotFree(k, e);
      Reemits(e);
    }
  }

  /** What re-emission does to the meaning of an expression whose attributes are names: Cedar reads an
      expression back, and it evaluates as before in exactly the worlds where no attribute on the way to a
      presence test is missing; all but presence tests evaluate as before in every world. */
  lemma MeaningKept(k: Cedar, w: World, e: Expr)
    requires Legible(k, e) && !ClauseOf(e).Raw?
    ensures var c := ClauseOf(e);
            var again := ReadCedar(k, EmitClause(c));
            var parts := Split(c.path, '.');
            again.Some?
            && (Eval(w, again.value) == Eval(w, e)
                <==> !(c.HasAttr? && MissingBefore(w, Eval(w, Var(parts[0])), parts[1..])))
  {
    ClauseReadable(k, e);
    TextReadsAsMeant(k, ClauseOf(e));
    LegibleDotFree(k, e);
    ExprMeaning(w, e);
  }

  // ---------------------------------------------------------------- names that are none

  /** The expression that compares the attribute `a && principal` of the context with true, */
  function OddlyNamed(a: string): Expr {
    Binary(Eq, Expr.Dot(Var("context"), a + " && principal"), Value(Bool(true)))
  }

  /** and the conjunction its text is. */
  function Misread(a: string): Expr {
    And(Expr.Dot(Var("context"), a), Binary(Eq, Var("principal"), Value(Bool(true))))
  }

  lemma OddlyNamedText(a: string)
    ensures ClauseOf(OddlyNamed(a)) == AttrEq("context" + "." + (a + " && principal"), Bool(true))
    ensures EmitClause(ClauseOf(OddlyNamed(a))) == Render(Misread(a))
  {
    var attr := a + " && principal";
    assert PathFrom(Var("context")) == Some("context");
    assert PathFrom(Expr.Dot(Var("context"), attr)) == Some("context" + "." + attr);
    MisreadText(a);
    OddText(a);
  }

  lemma OddText(a: string)
    ensures "context" + "." + (a + " && principal") + " == " + "true"
            == "context" + "." + a + " && " + ("principal" + " " + "==" + " " + "true")
  {
    var x := "context" + "." + a;
    assert "context" + "." + (a + " && principal") == x + " && principal";
    assert " && principal" + " == " + "true" == " && " + ("principal" + " " + "==" + " " + "true");
    assert x + " && principal" + " == " + "true" == x + (" && principal" + " == " + "true");
    assert x + " && " + ("principal" + " " + "==" + " " + "true")
           == x + (" && " + ("principal" + " " + "==" + " " + "true"));
  }

  lemma MisreadText(a: string)
    ensures Render(Misread(a)) == "context" + "." + a + " && " + ("principal" + " " + "==" + " " + "true")
  {
    assert Render(Var("context")) == "context" && Render(Var("principal")) == "principal";
    assert Render(Expr.Dot(Var("context"), a)) == "context" + "." + a;
    assert Render(Value(Bool(true))) == "true";
    assert Render(Binary(Eq, Var("principal"), Value(Bool(true)))) == "principal" + " " + "==" + " " + "true";
  }

  lemma MisreadFlat(k: Cedar, a: string)
    requires IsName(k, a)
    ensures IsFlat(Misread(a)) && Legible(k, Misread(a))
  {
    assert "context" in VARIABLES && "principal" in VARIABLES;
    assert IsPath(Var("context")) && IsPath(Var("principal")) && IsPath(Expr.Dot(Var("context"), a));
    assert Legible(k, Var("context")) && Legible(k, Var("principal"));
    assert Legible(k, Expr.Dot(Var("context"), a)) && Legible(k, Value(Bool(true)));
    assert IsFlat(Expr.Dot(Var("context"), a)) && IsRelation(Binary(Eq, Var("principal"), Value(Bool(true))));
  }

  /** A world whose context has that attribute and no other. */
  function OddWorld(a: string): World {
    World(map["context" := VRec(map[a + " && principal" := VBool(true)])], map[], (x, y) => None, text => None)
  }

  lemma OddValues(a: string)
    ensures Eval(OddWorld(a), OddlyNamed(a)) == Some(VBool(true)) && Eval(OddWorld(a), Misread(a)).None?
  {
    var w := OddWorld(a);
    var attr := a + " && principal";
    assert |attr| > |a|;
    assert Eval(w, Var("context")) == Some(VRec(map[attr := VBool(true)]));
    assert Eval(w, Expr.Dot(Var("context"), attr)) == Some(VBool(true));
    assert Eval(w, Expr.Dot(Var("context"), a)).None?;
    assert Eval(w, Value(Bool(true))) == Some(VBool(true));
  }

  /** Without the condition on names re-emission changes the meaning: for every name `a`, comparing the
      attribute `a && principal` of the context with true is recognised, is emitted as a conjunction, and is
      true in a world where what Cedar reads is an error. */
  lemma OddNameMisread(k: Cedar, a: string)
    requires IsName(k, a)
    ensures ReadCedar(k, EmitClause(ClauseOf(OddlyNamed(a)))) == Some(Misread(a))
    ensures Eval(OddWorld(a), OddlyNamed(a)) == Some(VBool(true)) && Eval(OddWorld(a), Misread(a)).None?
  {
    OddlyNamedText(a);
    MisreadFlat(k, a);
    FlatTextReads(k, Misread(a));
    OddValues(a);
  }
}
