/** Clauses, their Cedar text, and Cedar's reading of it. */
module CedarTheorems {
  import opened Common
  import opened PolicyClause
  import opened CedarText
  import Canonical
  import CanonicalTheorems
  import JsonText
  import Tokenizer

  // ---------------------------------------------------------------- the expressions clauses are

  predicate IsPath(e: Expr) {
    e.Var? || (e.Dot? && IsPath(e.left))
  }

  predicate IsOperand(e: Expr) {
    e.Value? || IsPath(e) || (e.Set? && forall i | 0 <= i < |e.items| :: e.items[i].Value?)
  }

  predicate IsRelation(e: Expr) {
    IsPath(e) || (e.Binary? && IsPath(e.l) && IsOperand(e.r)) || (e.Has? && IsPath(e.left))
  }

  /** A relation, or several between `&&`, grouped to the left. */
  predicate IsFlat(e: Expr) {
    IsRelation(e) || (e.And? && IsFlat(e.l) && IsRelation(e.r))
  }

  function LiteralTokens(v: Literal): seq<CToken> {
    match v
    case Str(s) => [Quoted(s)]
    case Num(n) => if n < 0 then [Symbol("-"), Digits(Canonical.NatText(-n))] else [Digits(Canonical.NatText(n))]
    case Bool(b) => [Word(if b then "true" else "false")]
  }

  function OpToken(op: Op): CToken {
    if op.In? then Word("in") else Symbol(OpText(op))
  }

  /** The tokens of an expression, as it is rendered. */
  function TokensOf(e: Expr): seq<CToken>
    decreases e, 0
  {
    match e
    case Var(name) => [Word(name)]
    case Dot(left, attr) => TokensOf(left) + [Symbol("."), Word(attr)]
    case Value(lit) => LiteralTokens(lit)
    case Set(items) => [Symbol("[")] + ItemTokens(items) + [Symbol("]")]
    case Binary(op, l, r) => TokensOf(l) + [OpToken(op)] + TokensOf(r)
    case And(l, r) => TokensOf(l) + [Symbol("&&")] + TokensOf(r)
    case Has(left, attr) => TokensOf(left) + [Word("has"), Word(attr)]
    case Foreign(_) => []
    case Opaque(_) => []
  }

  function ItemTokens(items: seq<Expr>): seq<CToken>
    decreases items, 1
  {
    if items == [] then []
    else if |items| == 1 then TokensOf(items[0])
    else TokensOf(items[0]) + [Symbol(",")] + ItemTokens(items[1..])
  }

  // ---------------------------------------------------------------- reading tokens

  lemma AtTwo<T>(s: seq<T>, i: nat, a: seq<T>, t: T, u: T)
    requires At(s, i, a + [t, u])
    ensures At(s, i, a) && i + |a| + 1 < |s| && s[i + |a|] == t && s[i + |a| + 1] == u
  {
    AtParts(s, i, a, [t, u]);
    assert [t, u][0] == t && [t, u][1] == u;
  }

  lemma AtAround<T>(s: seq<T>, i: nat, a: seq<T>, t: T, b: seq<T>)
    requires At(s, i, a + [t] + b)
    ensures At(s, i, a) && i + |a| < |s| && s[i + |a|] == t && At(s, i + |a| + 1, b)
  {
    AtParts(s, i, a + [t], b);
    AtParts(s, i, a, [t]);
    assert [t][0] == t;
  }

  /** A path is read as far as it goes, and on. */
  lemma {:induction false} PathReads(k: Cedar, ts: seq<CToken>, i: nat, e: Expr)
    requires IsPath(e) && Legible(k, e) && At(ts, i, TokensOf(e))
    ensures ReadMember(k, ts, i) == ReadAccess(k, ts, e, i + |TokensOf(e)|)
    decreases e
  {
    match e
    case Var(name) =>
      AtFirst(ts, i, TokensOf(e));
      assert "true" !in VARIABLES && "false" !in VARIABLES;
    case Dot(left, attr) =>
      AtTwo(ts, i, TokensOf(left), Symbol("."), Word(attr));
      PathReads(k, ts, i, left);
  }

  lemma NatReads(ts: seq<CToken>, i: nat, n: nat, negative: bool)
    requires i < |ts| && ts[i] == Digits(Canonical.NatText(n))
    requires n <= if negative then MAX_LONG + 1 else MAX_LONG
    ensures NumberAt(ts, i, negative) == Some(Read(Value(Num(if negative then 0 - n as int else n as int)), i + 1))
  {
    CanonicalTheorems.NatTextDigits(n);
  }

  /** A primary that no access follows. */
  lemma PrimaryAlone(k: Cedar, ts: seq<CToken>, i: nat, f: Read)
    requires i <= |ts| && ReadPrimary(k, ts, i) == Some(f) && !Sees(ts, i, Symbol("-"))
             && !Sees(ts, f.next, Symbol("."))
    ensures ReadUnary(k, ts, i) == Some(f)
  {
  }

  lemma LiteralReads(k: Cedar, ts: seq<CToken>, i: nat, v: Literal)
    requires PlainLiteral(k, v) && At(ts, i, LiteralTokens(v)) && !Sees(ts, i + |LiteralTokens(v)|, Symbol("."))
    ensures ReadUnary(k, ts, i) == Some(Read(Value(v), i + |LiteralTokens(v)|))
  {
    AtFirst(ts, i, LiteralTokens(v));
    if v.Num? && v.n < 0 {
      assert ts[i + 1] == LiteralTokens(v)[1];
      NatReads(ts, i + 1, -v.n, true);
    } else {
      if v.Num? {
        NatReads(ts, i, v.n, false);
      }
      PrimaryAlone(k, ts, i, Read(Value(v), i + 1));
    }
  }

  /** Nothing of a relation can follow. */
  predicate Stops(ts: seq<CToken>, i: nat) {
    i >= |ts| || ts[i] == Symbol("&&") || ts[i] == Symbol(",") || ts[i] == Symbol("]")
  }

  lemma StopsRest(k: Cedar, ts: seq<CToken>, e: Expr, i: nat)
    requires i <= |ts| && Stops(ts, i)
    ensures !Sees(ts, i, Symbol(".")) && ReadRest(k, ts, e, i) == Some(Read(e, i))
    ensures !Sees(ts, i, Symbol("&&")) ==> ReadMore(k, ts, e, i) == Some(Read(e, i))
  {
  }

  lemma {:induction false} ItemsRead(k: Cedar, ts: seq<CToken>, i: nat, items: seq<Expr>, close: nat)
    requires items != [] && AllLegible(k, items) && forall j | 0 <= j < |items| :: items[j].Value?
    requires At(ts, i, ItemTokens(items)) && close == i + |ItemTokens(items)| && Sees(ts, close, Symbol("]"))
    ensures ReadItems(k, ts, i) == Some(ReadSeq(items, close))
    decreases |items|
  {
    var lit := items[0].lit;
    var first := LiteralTokens(lit);
    if |items| == 1 {
      ItemReads(k, ts, i, lit);
      assert items == [items[0]];
    } else {
      AtAround(ts, i, first, Symbol(","), ItemTokens(items[1..]));
      ItemReads(k, ts, i, lit);
      ItemsRead(k, ts, i + |first| + 1, items[1..], close);
      assert items == [items[0]] + items[1..];
    }
  }

  lemma ItemReads(k: Cedar, ts: seq<CToken>, i: nat, v: Literal)
    requires PlainLiteral(k, v) && At(ts, i, LiteralTokens(v))
    requires var next := i + |LiteralTokens(v)|; Sees(ts, next, Symbol(",")) || Sees(ts, next, Symbol("]"))
    ensures ReadAnd(k, ts, i) == Some(Read(Value(v), i + |LiteralTokens(v)|))
  {
    StopsRest(k, ts, Value(v), i + |LiteralTokens(v)|);
    LiteralReads(k, ts, i, v);
  }

  lemma SetReads(k: Cedar, ts: seq<CToken>, i: nat, items: seq<Expr>)
    requires AllLegible(k, items) && forall j | 0 <= j < |items| :: items[j].Value?
    requires At(ts, i, TokensOf(Set(items))) && !Sees(ts, i + |TokensOf(Set(items))|, Symbol("."))
    ensures ReadUnary(k, ts, i) == Some(Read(Set(items), i + |TokensOf(Set(items))|))
  {
    var inner := ItemTokens(items);
    var close := i + 1 + |inner|;
    SetParts(ts, i, inner);
    if items != [] {
      FirstItem(items);
      AtFirst(ts, i + 1, inner);
      ItemsRead(k, ts, i + 1, items, close);
    }
    PrimaryAlone(k, ts, i, Read(Set(items), close + 1));
  }

  lemma SetParts(ts: seq<CToken>, i: nat, inner: seq<CToken>)
    requires At(ts, i, [Symbol("[")] + inner + [Symbol("]")])
    ensures Sees(ts, i, Symbol("[")) && At(ts, i + 1, inner) && Sees(ts, i + 1 + |inner|, Symbol("]"))
  {
    AtParts(ts, i, [Symbol("[")] + inner, [Symbol("]")]);
    AtParts(ts, i, [Symbol("[")], inner);
    AtFirst(ts, i, [Symbol("[")]);
    AtFirst(ts, i + 1 + |inner|, [Symbol("]")]);
  }

  lemma FirstItem(items: seq<Expr>)
    requires items != [] && items[0].Value?
    ensures ItemTokens(items) != [] && ItemTokens(items)[0] != Symbol("]")
  {
    assert ItemTokens(items)[0] == LiteralTokens(items[0].lit)[0];
    assert "-" != "]";
  }

  lemma OperandReads(k: Cedar, ts: seq<CToken>, i: nat, e: Expr)
    requires IsOperand(e) && Legible(k, e) && At(ts, i, TokensOf(e)) && Stops(ts, i + |TokensOf(e)|)
    ensures ReadUnary(k, ts, i) == Some(Read(e, i + |TokensOf(e)|))
  {
    StopsRest(k, ts, e, i + |TokensOf(e)|);
    if e.Value? {
      LiteralReads(k, ts, i, e.lit);
    } else if e.Set? {
      SetReads(k, ts, i, e.items);
    } else {
      PathThen(k, ts, i, e);
    }
  }

  lemma {:induction false} PathStarts(e: Expr)
    requires IsPath(e)
    ensures TokensOf(e) != [] && TokensOf(e)[0].Word?
  {
    if e.Dot? {
      PathStarts(e.left);
    }
  }

  /** After a path comes something that is no access. */
  lemma PathThen(k: Cedar, ts: seq<CToken>, i: nat, e: Expr)
    requires IsPath(e) && Legible(k, e) && At(ts, i, TokensOf(e)) && !Sees(ts, i + |TokensOf(e)|, Symbol("."))
    ensures ReadUnary(k, ts, i) == Some(Read(e, i + |TokensOf(e)|))
  {
    PathStarts(e);
    AtFirst(ts, i, TokensOf(e));
    PathReads(k, ts, i, e);
  }

  lemma OpReads(ts: seq<CToken>, i: nat, op: Op)
    requires Sees(ts, i, OpToken(op))
    ensures OpAt(ts, i) == Some(op) && !Sees(ts, i, Symbol("."))
  {
    assert "==" != "<" && "==" != "<=" && "==" != ">" && "==" != ">=" && "==" != ".";
    assert "<" != "<=" && "<" != ">" && "<" != ">=" && "<" != ".";
    assert "<=" != ">" && "<=" != ">=" && "<=" != ".";
    assert ">" != ">=" && ">" != "." && ">=" != ".";
  }

  lemma BinaryReads(k: Cedar, ts: seq<CToken>, i: nat, op: Op, l: Expr, r: Expr, at: nat, next: nat)
    requires i <= at < next <= |ts| && ReadUnary(k, ts, i) == Some(Read(l, at)) && Sees(ts, at, OpToken(op))
    requires ReadUnary(k, ts, at + 1) == Some(Read(r, next))
    ensures ReadRelation(k, ts, i) == Some(Read(Binary(op, l, r), next))
  {
    OpReads(ts, at, op);
  }

  lemma LeftReads(k: Cedar, ts: seq<CToken>, i: nat, l: Expr, op: Op)
    requires IsPath(l) && Legible(k, l) && At(ts, i, TokensOf(l)) && Sees(ts, i + |TokensOf(l)|, OpToken(op))
    ensures ReadUnary(k, ts, i) == Some(Read(l, i + |TokensOf(l)|))
  {
    OpReads(ts, i + |TokensOf(l)|, op);
    PathThen(k, ts, i, l);
  }

  lemma ComparisonReads(k: Cedar, ts: seq<CToken>, i: nat, op: Op, l: Expr, r: Expr)
    requires IsPath(l) && IsOperand(r) && Legible(k, l) && Legible(k, r)
    requires At(ts, i, TokensOf(l) + [OpToken(op)] + TokensOf(r))
    requires Stops(ts, i + |TokensOf(l)| + 1 + |TokensOf(r)|)
    ensures ReadRelation(k, ts, i) == Some(Read(Binary(op, l, r), i + |TokensOf(l)| + 1 + |TokensOf(r)|))
  {
    var at := i + |TokensOf(l)|;
    AtAround(ts, i, TokensOf(l), OpToken(op), TokensOf(r));
    LeftReads(k, ts, i, l, op);
    OperandReads(k, ts, at + 1, r);
    BinaryReads(k, ts, i, op, l, r, at, at + 1 + |TokensOf(r)|);
  }

  lemma HasReads(k: Cedar, ts: seq<CToken>, i: nat, left: Expr, attr: string)
    requires IsPath(left) && Legible(k, left) && IsName(k, attr)
             && At(ts, i, TokensOf(left) + [Word("has"), Word(attr)])
    ensures ReadRelation(k, ts, i) == Some(Read(Has(left, attr), i + |TokensOf(left)| + 2))
  {
    AtTwo(ts, i, TokensOf(left), Word("has"), Word(attr));
    assert "has" != "in";
    PathThen(k, ts, i, left);
  }

  lemma RelationReads(k: Cedar, ts: seq<CToken>, i: nat, e: Expr)
    requires IsRelation(e) && Legible(k, e) && At(ts, i, TokensOf(e)) && Stops(ts, i + |TokensOf(e)|)
    ensures ReadRelation(k, ts, i) == Some(Read(e, i + |TokensOf(e)|))
  {
    if e.Binary? {
      ComparisonReads(k, ts, i, e.op, e.l, e.r);
    } else if e.Has? {
      HasReads(k, ts, i, e.left, e.attr);
    } else {
      StopsRest(k, ts, e, i + |TokensOf(e)|);
      PathThen(k, ts, i, e);
    }
  }

  lemma OneReads(k: Cedar, ts: seq<CToken>, i: nat, e: Expr, next: nat)
    requires i <= next <= |ts| && ReadRelation(k, ts, i) == Some(Read(e, next))
    ensures ReadAnd(k, ts, i) == ReadMore(k, ts, e, next)
  {
  }

  lemma AndReads(k: Cedar, ts: seq<CToken>, i: nat, l: Expr, r: Expr, at: nat, next: nat)
    requires i <= at < next <= |ts| && ReadAnd(k, ts, i) == ReadMore(k, ts, l, at) && Sees(ts, at, Symbol("&&"))
    requires ReadRelation(k, ts, at + 1) == Some(Read(r, next))
    ensures ReadAnd(k, ts, i) == ReadMore(k, ts, And(l, r), next)
  {
  }

  /** A flat expression is read as far as it goes, and on. */
  lemma {:induction false} FlatReads(k: Cedar, ts: seq<CToken>, i: nat, e: Expr)
    requires IsFlat(e) && Legible(k, e) && At(ts, i, TokensOf(e)) && Stops(ts, i + |TokensOf(e)|)
    ensures ReadAnd(k, ts, i) == ReadMore(k, ts, e, i + |TokensOf(e)|)
    decreases e
  {
    if e.And? {
      var at, next := i + |TokensOf(e.l)|, i + |TokensOf(e)|;
      AtAround(ts, i, TokensOf(e.l), Symbol("&&"), TokensOf(e.r));
      RelationReads(k, ts, at + 1, e.r);
      FlatReads(k, ts, i, e.l);
      AndReads(k, ts, i, e.l, e.r, at, next);
    } else {
      RelationReads(k, ts, i, e);
      OneReads(k, ts, i, e, i + |TokensOf(e)|);
    }
  }

  lemma AllRead(k: Cedar, ts: seq<CToken>, e: Expr)
    requires ReadAnd(k, ts, 0) == ReadMore(k, ts, e, |ts|)
    ensures ReadAll(k, ts) == Some(e)
  {
    StopsRest(k, ts, e, |ts|);
  }

  lemma TokensRead(k: Cedar, e: Expr)
    requires IsFlat(e) && Legible(k, e)
    ensures ReadAll(k, TokensOf(e)) == Some(e)
  {
    FlatReads(k, TokensOf(e), 0, e);
    AllRead(k, TokensOf(e), e);
  }

  // ---------------------------------------------------------------- from text to tokens

  /** A token or a blank of a text. */
  datatype Piece = Tok(t: CToken) | Gap

  function TokenText(t: CToken): string {
    match t
    case Word(w) => w
    case Quoted(s) => QuoteString(s)
    case Digits(d) => d
    case Symbol(s) => s
  }

  function PieceText(p: Piece): string {
    if p.Gap? then " " else TokenText(p.t)
  }

  function TextOf(ps: seq<Piece>): string {
    if ps == [] then "" else PieceText(ps[0]) + TextOf(ps[1..])
  }

  function Tokens(ps: seq<Piece>): seq<CToken> {
    if ps == [] then [] else (if ps[0].Tok? then [ps[0].t] else []) + Tokens(ps[1..])
  }

  const SYMBOLS := [".", ",", "[", "]", "-", "&&", "==", "<=", ">=", "<", ">"]

  predicate Spelled(k: Cedar, t: CToken) {
    match t
    case Word(w) => IsWord(w)
    case Quoted(s) => PlainLiteral(k, Str(s))
    case Digits(d) => IsDigits(d)
    case Symbol(s) => s in SYMBOLS
  }

  /** A token that would swallow the character. */
  predicate Sticks(t: CToken, c: char) {
    match t
    case Word(_) => Tokenizer.IsIdentChar(c)
    case Digits(_) => JsonText.IsDigit(c)
    case Quoted(_) => false
    case Symbol(s) => (s == "<" || s == ">") && c == '='
  }

  /** A token is not swallowed by the one before it. */
  predicate Apart(p: Piece, q: Piece) {
    p.Tok? ==> !Sticks(p.t, FirstChar(q))
  }

  predicate WellSpaced(k: Cedar, ps: seq<Piece>) {
    ps == []
    || ((ps[0].Tok? ==> Spelled(k, ps[0].t)) && (|ps| > 1 ==> Apart(ps[0], ps[1])) && WellSpaced(k, ps[1..]))
  }

  lemma {:induction false} UnquotedEscape(k: Cedar, s: string)
    requires PlainLiteral(k, Str(s))
    ensures Unquoted(k, Tokenizer.Escape(s, '"')) == Some(s)
  {
    if s != "" {
      UnquotedEscape(k, s[1..]);
      var e, rest := Tokenizer.Escape(s, '"'), Tokenizer.Escape(s[1..], '"');
      assert s == [s[0]] + s[1..] && s[0] in s;
      if s[0] == '"' || s[0] == '\\' {
        assert e[0] == '\\' && e[1] == s[0] && e[2..] == rest;
      } else {
        assert e[0] == s[0] && e[1..] == rest;
      }
    }
  }

  lemma WordLexes(k: Cedar, src: string, i: nat, w: string)
    requires IsWord(w) && At(src, i, w) && (i + |w| < |src| ==> !Tokenizer.IsIdentChar(src[i + |w|]))
    ensures CLex(k, src, i) == Some(CLexeme(Word(w), i + |w|)) && !IsBlank(src[i])
  {
    AtFirst(src, i, w);
    AtSlice(src, i, w);
    RunLexes(Tokenizer.IsIdentChar, src, i, w);
  }

  lemma DigitsLex(k: Cedar, src: string, i: nat, d: string)
    requires IsDigits(d) && At(src, i, d) && (i + |d| < |src| ==> !JsonText.IsDigit(src[i + |d|]))
    ensures CLex(k, src, i) == Some(CLexeme(Digits(d), i + |d|)) && !IsBlank(src[i])
  {
    AtFirst(src, i, d);
    AtSlice(src, i, d);
    assert d[0] in d;
    RunLexes(JsonText.IsDigit, src, i, d);
  }

  lemma RunLexes(p: char -> bool, src: string, i: nat, part: string)
    requires part != "" && At(src, i, part) && forall c :: c in part ==> p(c)
    requires i + |part| < |src| ==> !p(src[i + |part|])
    ensures Tokenizer.Span(p, src, i + 1) == i + |part|
  {
    forall j | i + 1 <= j < i + |part| ensures p(src[j]) {
      assert src[i + (j - i)] == part[j - i];
    }
    SpanEnds(p, src, i + 1, i + |part|);
  }

  lemma {:induction false} SpanEnds(p: char -> bool, src: string, i: nat, end: nat)
    requires i <= end <= |src| && (forall j | i <= j < end :: p(src[j])) && (end < |src| ==> !p(src[end]))
    ensures Tokenizer.Span(p, src, i) == end
    decreases end - i
  {
    if i < end {
      SpanEnds(p, src, i + 1, end);
    }
  }

  lemma QuotedLexes(k: Cedar, src: string, i: nat, s: string, e: string)
    requires PlainLiteral(k, Str(s)) && e == Tokenizer.Escape(s, '"') && At(src, i, "\"" + (e + ['"']))
    ensures CLex(k, src, i) == Some(CLexeme(Quoted(s), i + |e| + 2)) && !IsBlank(src[i])
  {
    AtParts(src, i, "\"", e + ['"']);
    AtFirst(src, i, "\"");
    Tokenizer.ClosingAfterEscape(src, i + 1, s, '"');
    AtParts(src, i + 1, e, ['"']);
    AtSlice(src, i + 1, e);
    UnquotedEscape(k, s);
  }

  lemma SymbolLexes(k: Cedar, src: string, i: nat, s: string)
    requires s in SYMBOLS && At(src, i, s) && (i + |s| < |src| ==> !Sticks(Symbol(s), src[i + |s|]))
    ensures CLex(k, src, i) == Some(CLexeme(Symbol(s), i + |s|)) && !IsBlank(src[i])
  {
    AtFirst(src, i, s);
    if |s| == 2 {
      assert src[i + 1] == s[1];
      assert s == [s[0], s[1]];
    } else {
      assert s == [s[0]];
    }
  }

  lemma QuotedPiece(k: Cedar, src: string, i: nat, s: string, quoted: string)
    requires PlainLiteral(k, Str(s)) && quoted == QuoteString(s) && At(src, i, quoted)
    ensures i < |src| && CLex(k, src, i) == Some(CLexeme(Quoted(s), i + |quoted|)) && !IsBlank(src[i])
  {
    QuoteShape(s);
    QuotedLexes(k, src, i, s, Tokenizer.Escape(s, '"'));
  }

  /** A spelled token that nothing sticks to is read back. */
  lemma PieceLexes(k: Cedar, src: string, i: nat, t: CToken)
    requires Spelled(k, t) && At(src, i, TokenText(t))
    requires i + |TokenText(t)| < |src| ==> !Sticks(t, src[i + |TokenText(t)|])
    ensures i < |src| && CLex(k, src, i) == Some(CLexeme(t, i + |TokenText(t)|)) && !IsBlank(src[i])
  {
    match t
    case Word(w) => WordLexes(k, src, i, w);
    case Digits(d) => DigitsLex(k, src, i, d);
    case Symbol(s) => SymbolLexes(k, src, i, s);
    case Quoted(s) => QuotedPiece(k, src, i, s, QuoteString(s));
  }

  lemma TextStarts(k: Cedar, t: CToken)
    requires Spelled(k, t)
    ensures TokenText(t) != ""
  {
    if t.Quoted? {
      QuoteShape(t.s);
    }
  }

  lemma GapStep(k: Cedar, src: string, i: nat)
    requires i < |src| && src[i] == ' '
    ensures CTokens(k, src, i) == CTokens(k, src, i + 1)
  {
  }

  lemma TokenStep(k: Cedar, src: string, i: nat, t: CToken, next: nat)
    requires i < next <= |src| && CLex(k, src, i) == Some(CLexeme(t, next)) && !IsBlank(src[i])
    ensures CTokens(k, src, i) == Prefixed(t, CTokens(k, src, next))
  {
  }

  lemma PieceStep(k: Cedar, src: string, i: nat, t: CToken, rest: seq<Piece>, next: nat)
    requires Spelled(k, t) && At(src, i, TokenText(t)) && next == i + |TokenText(t)|
    requires if rest == [] then next == |src|
             else WellSpaced(k, rest) && At(src, next, TextOf(rest)) && Apart(Tok(t), rest[0])
    ensures CTokens(k, src, i) == Prefixed(t, CTokens(k, src, next))
  {
    if rest != [] {
      NextPiece(k, src, next, rest);
      TextSeparates(t, rest[0]);
    }
    PieceLexes(k, src, i, t);
    TextStarts(k, t);
    TokenStep(k, src, i, t, next);
  }

  lemma TextSeparates(t: CToken, p: Piece)
    requires Apart(Tok(t), p)
    ensures !Sticks(t, FirstChar(p))
  {
  }

  /** The tokens of a well-spaced text are those of its pieces. */
  lemma {:induction false} PiecesLex(k: Cedar, src: string, i: nat, ps: seq<Piece>)
    requires WellSpaced(k, ps) && At(src, i, TextOf(ps)) && i + |TextOf(ps)| == |src|
    ensures CTokens(k, src, i) == Some(Tokens(ps))
    decreases |ps|
  {
    if ps != [] {
      var next := i + |PieceText(ps[0])|;
      AtParts(src, i, PieceText(ps[0]), TextOf(ps[1..]));
      PiecesLex(k, src, next, ps[1..]);
      TokensStep(ps);
      if ps[0].Gap? {
        AtFirst(src, i, " ");
        GapStep(k, src, i);
      } else {
        PieceStep(k, src, i, ps[0].t, ps[1..], next);
      }
    }
  }

  lemma TokensStep(ps: seq<Piece>)
    requires ps != []
    ensures Tokens(ps) == if ps[0].Gap? then Tokens(ps[1..]) else [ps[0].t] + Tokens(ps[1..])
  {
    assert [] + Tokens(ps[1..]) == Tokens(ps[1..]);
  }

  /** The character a piece starts with. */
  function FirstChar(p: Piece): char {
    if p.Gap? || TokenText(p.t) == "" then ' ' else TokenText(p.t)[0]
  }

  lemma NextPiece(k: Cedar, src: string, i: nat, ps: seq<Piece>)
    requires ps != [] && WellSpaced(k, ps) && At(src, i, TextOf(ps))
    ensures i < |src| && src[i] == FirstChar(ps[0])
  {
    if ps[0].Tok? {
      TextStarts(k, ps[0].t);
    }
    AtParts(src, i, PieceText(ps[0]), TextOf(ps[1..]));
    AtFirst(src, i, PieceText(ps[0]));
  }

  // ---------------------------------------------------------------- the pieces of an expression

  function LiteralPieces(v: Literal): seq<Piece> {
    match v
    case Num(n) =>
      if n < 0 then [Tok(Symbol("-")), Tok(Digits(Canonical.NatText(-n)))] else [Tok(Digits(Canonical.NatText(n)))]
    case _ => [Tok(LiteralTokens(v)[0])]
  }

  function PiecesOf(e: Expr): seq<Piece>
    decreases e, 0
  {
    match e
    case Var(name) => [Tok(Word(name))]
    case Dot(left, attr) => PiecesOf(left) + [Tok(Symbol(".")), Tok(Word(attr))]
    case Value(lit) => LiteralPieces(lit)
    case Set(items) => [Tok(Symbol("["))] + (ItemPieces(items) + [Tok(Symbol("]"))])
    case Binary(op, l, r) => PiecesOf(l) + ([Gap, Tok(OpToken(op)), Gap] + PiecesOf(r))
    case And(l, r) => PiecesOf(l) + ([Gap, Tok(Symbol("&&")), Gap] + PiecesOf(r))
    case Has(left, attr) => PiecesOf(left) + [Gap, Tok(Word("has")), Gap, Tok(Word(attr))]
    case Foreign(_) => []
    case Opaque(_) => []
  }

  function ItemPieces(items: seq<Expr>): seq<Piece>
    decreases items, 1
  {
    if items == [] then []
    else if |items| == 1 then PiecesOf(items[0])
    else PiecesOf(items[0]) + ([Tok(Symbol(",")), Gap] + ItemPieces(items[1..]))
  }

  /** Well-spaced pieces with this text and these tokens. */
  ghost predicate Spells(k: Cedar, ps: seq<Piece>, text: string, ts: seq<CToken>) {
    WellSpaced(k, ps) && TextOf(ps) == text && Tokens(ps) == ts
  }

  lemma {:induction false} SpellsJoin(k: Cedar, a: seq<Piece>, x: string, s: seq<CToken>, b: seq<Piece>, y: string,
                                      t: seq<CToken>)
    requires Spells(k, a, x, s) && Spells(k, b, y, t)
    requires a != [] && b != [] ==> Apart(a[|a| - 1], b[0])
    ensures Spells(k, a + b, x + y, s + t)
    decreases |a|
  {
    if a == [] {
      assert a + b == b && x + y == y && s + t == t;
    } else {
      var rest := a[1..];
      SpellsJoin(k, rest, TextOf(rest), Tokens(rest), b, y, t);
      assert (a + b)[1..] == rest + b && (a + b)[0] == a[0];
      TokensStep(a);
      TokensStep(a + b);
      if |a + b| > 1 {
        assert (a + b)[1] == if |a| > 1 then a[1] else b[0];
      }
      JoinTexts(PieceText(a[0]), TextOf(rest), y);
      if a[0].Tok? {
        JoinTokens([a[0].t], Tokens(rest), t);
      }
    }
  }

  lemma JoinTexts(a: string, b: string, c: string)
    ensures a + (b + c) == a + b + c
  {
  }

  lemma JoinTokens(a: seq<CToken>, b: seq<CToken>, c: seq<CToken>)
    ensures a + (b + c) == a + b + c
  {
  }

  lemma SpellsToken(k: Cedar, t: CToken)
    requires Spelled(k, t)
    ensures Spells(k, [Tok(t)], TokenText(t), [t])
  {
    assert [Tok(t)][1..] == [];
    assert TokenText(t) + "" == TokenText(t);
  }

  lemma SpellsGap(k: Cedar)
    ensures Spells(k, [Gap], " ", [])
  {
    assert [Gap][1..] == [];
    assert " " + "" == " ";
  }

  /** Two tokens next to each other. */
  lemma SpellsPair(k: Cedar, t: CToken, u: CToken)
    requires Spelled(k, t) && Spelled(k, u) && Apart(Tok(t), Tok(u))
    ensures Spells(k, [Tok(t), Tok(u)], TokenText(t) + TokenText(u), [t, u])
  {
    SpellsToken(k, t);
    SpellsToken(k, u);
    SpellsJoin(k, [Tok(t)], TokenText(t), [t], [Tok(u)], TokenText(u), [u]);
  }

  /** An operator with a blank on each side. */
  lemma SpellsInfix(k: Cedar, t: CToken)
    requires Spelled(k, t)
    ensures Spells(k, [Gap, Tok(t), Gap], " " + TokenText(t) + " ", [t])
  {
    SpellsGap(k);
    SpellsToken(k, t);
    SpellsJoin(k, [Gap], " ", [], [Tok(t)], TokenText(t), [t]);
    BlankSeparates(Tok(t), Gap);
    SpellsJoin(k, [Gap, Tok(t)], " " + TokenText(t), [] + [t], [Gap], " ", []);
  }

  /** Nothing swallows a blank, a dot, a comma or a closing bracket. */
  lemma BlankSeparates(p: Piece, q: Piece)
    requires q.Gap? || q.t == Symbol(".") || q.t == Symbol(",") || q.t == Symbol("]")
    ensures Apart(p, q)
  {
  }

  lemma {:induction false} PathSpells(k: Cedar, e: Expr)
    requires IsPath(e) && Legible(k, e)
    ensures PiecesOf(e) != [] && Spells(k, PiecesOf(e), Render(e), TokensOf(e))
    decreases e
  {
    match e
    case Var(name) =>
      VariableIsWord(name);
      SpellsToken(k, Word(name));
    case Dot(left, attr) =>
      var step := [Tok(Symbol(".")), Tok(Word(attr))];
      PathSpells(k, left);
      SpellsPair(k, Symbol("."), Word(attr));
      BlankSeparates(PiecesOf(left)[|PiecesOf(left)| - 1], step[0]);
      SpellsJoin(k, PiecesOf(left), Render(left), TokensOf(left), step, "." + attr, [Symbol("."), Word(attr)]);
      JoinTexts(Render(left), ".", attr);
  }

  lemma VariableIsWord(name: string)
    requires name in VARIABLES
    ensures IsWord(name)
  {
  }

  lemma LiteralSpells(k: Cedar, v: Literal)
    requires PlainLiteral(k, v)
    ensures LiteralPieces(v) != [] && LiteralPieces(v)[0].Tok?
    ensures Spells(k, LiteralPieces(v), LiteralText(v), LiteralTokens(v))
  {
    match v
    case Str(s) => SpellsToken(k, Quoted(s));
    case Num(n) =>
      NatIsDigits(if n < 0 then -n else n);
      if n < 0 {
        SpellsPair(k, Symbol("-"), Digits(Canonical.NatText(-n)));
      } else {
        SpellsToken(k, Digits(Canonical.NatText(n)));
      }
    case Bool(b) => SpellsToken(k, Word(if b then "true" else "false"));
  }

  lemma NatIsDigits(n: nat)
    ensures IsDigits(Canonical.NatText(n))
  {
    CanonicalTheorems.NatTextDigits(n);
  }

  lemma {:induction false} ItemsSpell(k: Cedar, items: seq<Expr>)
    requires items != [] && AllLegible(k, items) && forall i | 0 <= i < |items| :: items[i].Value?
    ensures ItemPieces(items) != []
    ensures Spells(k, ItemPieces(items), Join(RenderAll(items), ", "), ItemTokens(items))
    decreases |items|
  {
    var v := items[0].lit;
    LiteralSpells(k, v);
    if |items| == 1 {
      assert RenderAll(items) == [LiteralText(v)];
    } else {
      ItemsSpell(k, items[1..]);
      CommaSpells(k, LiteralPieces(v), LiteralText(v), LiteralTokens(v),
                  ItemPieces(items[1..]), Join(RenderAll(items[1..]), ", "), ItemTokens(items[1..]));
      JoinCons(LiteralText(v), RenderAll(items[1..]), ", ");
    }
  }

  lemma CommaSpells(k: Cedar, a: seq<Piece>, x: string, s: seq<CToken>, b: seq<Piece>, y: string, t: seq<CToken>)
    requires Spells(k, a, x, s) && Spells(k, b, y, t) && a != [] && b != []
    ensures Spells(k, a + ([Tok(Symbol(",")), Gap] + b), x + ", " + y, s + [Symbol(",")] + t)
  {
    var comma := [Tok(Symbol(",")), Gap];
    SpellsToken(k, Symbol(","));
    SpellsGap(k);
    SpellsJoin(k, [Tok(Symbol(","))], ",", [Symbol(",")], [Gap], " ", []);
    SpellsJoin(k, comma, ", ", [Symbol(",")], b, y, t);
    BlankSeparates(a[|a| - 1], comma[0]);
    SpellsJoin(k, a, x, s, comma + b, ", " + y, [Symbol(",")] + t);
    JoinTexts(x, ", ", y);
    JoinTokens(s, [Symbol(",")], t);
  }

  lemma SetSpells(k: Cedar, items: seq<Expr>)
    requires AllLegible(k, items) && forall i | 0 <= i < |items| :: items[i].Value?
    ensures Spells(k, PiecesOf(Set(items)), Render(Set(items)), TokensOf(Set(items)))
  {
    var inner, text := ItemPieces(items), Join(RenderAll(items), ", ");
    SpellsToken(k, Symbol("["));
    SpellsToken(k, Symbol("]"));
    if items != [] {
      ItemsSpell(k, items);
      BlankSeparates(inner[|inner| - 1], Tok(Symbol("]")));
    }
    SpellsJoin(k, inner, text, ItemTokens(items), [Tok(Symbol("]"))], "]", [Symbol("]")]);
    SpellsJoin(k, [Tok(Symbol("["))], "[", [Symbol("[")], inner + [Tok(Symbol("]"))], text + "]",
               ItemTokens(items) + [Symbol("]")]);
    JoinTexts("[", text, "]");
    JoinTokens([Symbol("[")], ItemTokens(items), [Symbol("]")]);
  }

  lemma OperandSpells(k: Cedar, e: Expr)
    requires IsOperand(e) && Legible(k, e)
    ensures PiecesOf(e) != [] && Spells(k, PiecesOf(e), Render(e), TokensOf(e))
  {
    match e
    case Value(lit) => LiteralSpells(k, lit);
    case Set(items) => SetSpells(k, items);
    case _ => PathSpells(k, e);
  }

  /** Two spellings around an infix operator. */
  lemma InfixSpells(k: Cedar, a: seq<Piece>, x: string, s: seq<CToken>, op: CToken, b: seq<Piece>, y: string,
                    t: seq<CToken>)
    requires Spells(k, a, x, s) && Spells(k, b, y, t) && Spelled(k, op) && a != [] && b != []
    ensures Spells(k, a + ([Gap, Tok(op), Gap] + b), x + (" " + TokenText(op) + " " + y), s + ([op] + t))
  {
    SpellsInfix(k, op);
    SpellsJoin(k, [Gap, Tok(op), Gap], " " + TokenText(op) + " ", [op], b, y, t);
    BlankSeparates(a[|a| - 1], Gap);
    SpellsJoin(k, a, x, s, [Gap, Tok(op), Gap] + b, " " + TokenText(op) + " " + y, [op] + t);
  }

  lemma HasSpells(k: Cedar, a: seq<Piece>, x: string, s: seq<CToken>, attr: string)
    requires Spells(k, a, x, s) && a != [] && IsWord(attr)
    ensures Spells(k, a + [Gap, Tok(Word("has")), Gap, Tok(Word(attr))], x + " has " + attr,
                   s + [Word("has"), Word(attr)])
  {
    SpellsToken(k, Word(attr));
    InfixSpells(k, a, x, s, Word("has"), [Tok(Word(attr))], attr, [Word(attr)]);
    assert [Gap, Tok(Word("has")), Gap] + [Tok(Word(attr))] == [Gap, Tok(Word("has")), Gap, Tok(Word(attr))];
    assert [Word("has")] + [Word(attr)] == [Word("has"), Word(attr)];
    assert x + (" " + "has" + " " + attr) == x + " has " + attr;
  }

  lemma RegroupInfix(x: string, op: string, y: string)
    ensures x + (" " + op + " " + y) == x + " " + op + " " + y
  {
  }

  lemma RelationSpells(k: Cedar, e: Expr)
    requires IsRelation(e) && Legible(k, e)
    ensures PiecesOf(e) != [] && Spells(k, PiecesOf(e), Render(e), TokensOf(e))
  {
    match e
    case Binary(op, l, r) =>
      PathSpells(k, l);
      OperandSpells(k, r);
      OpSpelled(k, op);
      InfixSpells(k, PiecesOf(l), Render(l), TokensOf(l), OpToken(op), PiecesOf(r), Render(r), TokensOf(r));
      RegroupInfix(Render(l), OpText(op), Render(r));
      JoinTokens(TokensOf(l), [OpToken(op)], TokensOf(r));
    case Has(left, attr) =>
      PathSpells(k, left);
      HasSpells(k, PiecesOf(left), Render(left), TokensOf(left), attr);
    case _ => PathSpells(k, e);
  }

  lemma OpSpelled(k: Cedar, op: Op)
    ensures Spelled(k, OpToken(op)) && TokenText(OpToken(op)) == OpText(op)
  {
  }

  lemma AndSpells(k: Cedar, a: seq<Piece>, x: string, s: seq<CToken>, b: seq<Piece>, y: string, t: seq<CToken>)
    requires Spells(k, a, x, s) && Spells(k, b, y, t) && a != [] && b != []
    ensures Spells(k, a + ([Gap, Tok(Symbol("&&")), Gap] + b), x + " && " + y, s + [Symbol("&&")] + t)
  {
    InfixSpells(k, a, x, s, Symbol("&&"), b, y, t);
    assert x + (" " + "&&" + " " + y) == x + " && " + y;
    JoinTokens(s, [Symbol("&&")], t);
  }

  lemma {:induction false} FlatSpells(k: Cedar, e: Expr)
    requires IsFlat(e) && Legible(k, e)
    ensures PiecesOf(e) != [] && Spells(k, PiecesOf(e), Render(e), TokensOf(e))
    decreases e
  {
    if e.And? {
      FlatSpells(k, e.l);
      RelationSpells(k, e.r);
      AndSpells(k, PiecesOf(e.l), Render(e.l), TokensOf(e.l), PiecesOf(e.r), Render(e.r), TokensOf(e.r));
    } else {
      RelationSpells(k, e);
    }
  }

  /** Cedar reads the text of a legible flat expression as that expression. */
  lemma FlatTextReads(k: Cedar, e: Expr)
    requires IsFlat(e) && Legible(k, e)
    ensures ReadCedar(k, Render(e)) == Some(e)
  {
    FlatSpells(k, e);
    PiecesLex(k, Render(e), 0, PiecesOf(e));
    TokensRead(k, e);
  }
}
