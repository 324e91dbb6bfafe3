/** A reader of the part of Cedar's expression grammar that emitted clauses are written in: literals, the four
    variables, member access by name, sets, comparisons, `in`, `has` and `&&`, with parentheses. Texts that use
    more of Cedar read as nothing. */
module CedarText {
  import opened Common
  import opened PolicyClause
  import opened Tokenizer
  import Canonical
  import CanonicalTheorems
  import JsonText

  /** What is left to Cedar: the words it reserves beside those this reader knows, and the characters it
      allows unescaped in a string. */
  datatype Cedar = Cedar(reserved: set<string>, raw: char -> bool)

  const VARIABLES := ["principal", "action", "resource", "context"]

  const KEYWORDS := ["true", "false", "in", "has"]

  const MAX_LONG := 0x7fff_ffff_ffff_ffff

  // ---------------------------------------------------------------- tokens

  datatype CToken = Word(text: string) | Quoted(s: string) | Digits(text: string) | Symbol(text: string)

  predicate IsBlank(c: char) {
    c == ' ' || c == '\t' || c == '\n' || c == '\r'
  }

  predicate IsWord(w: string) {
    w != "" && IsLetter(w[0]) && forall c :: c in w ==> IsIdentChar(c)
  }

  predicate IsDigits(d: string) {
    d != "" && forall c :: c in d ==> JsonText.IsDigit(c)
  }

  /** The string a body between quotes stands for. */
  function Unquoted(k: Cedar, body: string): Option<string> {
    if body == "" then Some("")
    else if body[0] == '\\' then
      if |body| >= 2 && (body[1] == '\\' || body[1] == '"') then Onto(body[1], Unquoted(k, body[2..])) else None
    else if k.raw(body[0]) then Onto(body[0], Unquoted(k, body[1..]))
    else None
  }

  function Onto(c: char, rest: Option<string>): Option<string> {
    if rest.Some? then Some([c] + rest.value) else None
  }

  /** The longest symbol the text goes on with. */
  function SymbolAt(src: string, i: nat): (r: Option<string>)
    requires i < |src|
    ensures r.Some? ==> 0 < |r.value| <= |src| - i
  {
    var c := src[i];
    var twice := i + 1 < |src| && src[i + 1] == c;
    var equals := i + 1 < |src| && src[i + 1] == '=';
    if c == '.' || c == ',' || c == '[' || c == ']' || c == '(' || c == ')' || c == '-' then Some([c])
    else if c == '<' || c == '>' then Some(if equals then [c, '='] else [c])
    else if (c == '&' || c == '=') && twice then Some([c, c])
    else None
  }

  datatype CLexeme = CLexeme(token: CToken, next: nat)

  function CLex(k: Cedar, src: string, i: nat): (r: Option<CLexeme>)
    requires i < |src|
    ensures r.Some? ==> i < r.value.next <= |src|
  {
    if IsLetter(src[i]) then
      var end := Span(IsIdentChar, src, i + 1);
      Some(CLexeme(Word(src[i..end]), end))
    else if JsonText.IsDigit(src[i]) then
      var end := Span(JsonText.IsDigit, src, i + 1);
      Some(CLexeme(Digits(src[i..end]), end))
    else if src[i] == '"' then
      var end := Closing(src, '"', i + 1);
      if end >= |src| then None
      else
        match Unquoted(k, src[i + 1..end])
        case None => None
        case Some(s) => Some(CLexeme(Quoted(s), end + 1))
    else
      match SymbolAt(src, i)
      case None => None
      case Some(symbol) => Some(CLexeme(Symbol(symbol), i + |symbol|))
  }

  function Prefixed(t: CToken, rest: Option<seq<CToken>>): Option<seq<CToken>> {
    if rest.Some? then Some([t] + rest.value) else None
  }

  function CTokens(k: Cedar, src: string, i: nat): Option<seq<CToken>>
    requires i <= |src|
    decreases |src| - i
  {
    if i == |src| then Some([])
    else if IsBlank(src[i]) then CTokens(k, src, i + 1)
    else
      match CLex(k, src, i)
      case None => None
      case Some(x) => Prefixed(x.token, CTokens(k, src, x.next))
  }

  // ---------------------------------------------------------------- the grammar

  datatype Read = Read(e: Expr, next: nat)

  datatype ReadSeq = ReadSeq(items: seq<Expr>, next: nat)

  predicate Sees(ts: seq<CToken>, i: nat, t: CToken) {
    i < |ts| && ts[i] == t
  }

  /** A word that may name an attribute. */
  predicate IsName(k: Cedar, w: string) {
    IsWord(w) && w !in KEYWORDS && w !in k.reserved
  }

  predicate SeesName(k: Cedar, ts: seq<CToken>, i: nat) {
    i < |ts| && ts[i].Word? && IsName(k, ts[i].text)
  }

  /** A number literal; the most negative one has no positive counterpart. */
  function NumberAt(ts: seq<CToken>, i: nat, negative: bool): (r: Option<Read>)
    ensures r.Some? ==> i < r.value.next <= |ts|
  {
    if i < |ts| && ts[i].Digits? && IsDigits(ts[i].text) then
      var n: int := JsonText.DigitsValue(ts[i].text);
      if negative then if n <= MAX_LONG + 1 then Some(Read(Value(Num(-n)), i + 1)) else None
      else if n <= MAX_LONG then Some(Read(Value(Num(n)), i + 1))
      else None
    else None
  }

  function ReadPrimary(k: Cedar, ts: seq<CToken>, i: nat): (r: Option<Read>)
    requires i <= |ts|
    ensures r.Some? ==> i < r.value.next <= |ts|
    decreases |ts| - i, 0
  {
    if i == |ts| then None
    else
      match ts[i]
      case Word(w) =>
        if w == "true" then Some(Read(Value(Bool(true)), i + 1))
        else if w == "false" then Some(Read(Value(Bool(false)), i + 1))
        else if w in VARIABLES then Some(Read(Var(w), i + 1))
        else None
      case Quoted(s) => Some(Read(Value(Str(s)), i + 1))
      case Digits(_) => NumberAt(ts, i, false)
      case Symbol(s) =>
        if s == "[" then
          if Sees(ts, i + 1, Symbol("]")) then Some(Read(Set([]), i + 2))
          else
            match ReadItems(k, ts, i + 1)
            case None => None
            case Some(f) => if Sees(ts, f.next, Symbol("]")) then Some(Read(Set(f.items), f.next + 1)) else None
        else if s == "(" then
          match ReadAnd(k, ts, i + 1)
          case None => None
          case Some(f) => if Sees(ts, f.next, Symbol(")")) then Some(Read(f.e, f.next + 1)) else None
        else None
  }

  /** One expression or several between commas. */
  function ReadItems(k: Cedar, ts: seq<CToken>, i: nat): (r: Option<ReadSeq>)
    requires i <= |ts|
    ensures r.Some? ==> i < r.value.next <= |ts|
    decreases |ts| - i, 6
  {
    match ReadAnd(k, ts, i)
    case None => None
    case Some(f) =>
      if Sees(ts, f.next, Symbol(",")) then
        match ReadItems(k, ts, f.next + 1)
        case None => None
        case Some(more) => Some(ReadSeq([f.e] + more.items, more.next))
      else Some(ReadSeq([f.e], f.next))
  }

  /** The member accesses that follow. */
  function ReadAccess(k: Cedar, ts: seq<CToken>, e: Expr, i: nat): (r: Option<Read>)
    requires i <= |ts|
    ensures r.Some? ==> i <= r.value.next <= |ts|
    decreases |ts| - i
  {
    if !Sees(ts, i, Symbol(".")) then Some(Read(e, i))
    else if SeesName(k, ts, i + 1) then ReadAccess(k, ts, Expr.Dot(e, ts[i + 1].text), i + 2)
    else None
  }

  function ReadMember(k: Cedar, ts: seq<CToken>, i: nat): (r: Option<Read>)
    requires i <= |ts|
    ensures r.Some? ==> i < r.value.next <= |ts|
    decreases |ts| - i, 1
  {
    match ReadPrimary(k, ts, i)
    case None => None
    case Some(f) => ReadAccess(k, ts, f.e, f.next)
  }

  /** A member, or a number with a minus sign. */
  function ReadUnary(k: Cedar, ts: seq<CToken>, i: nat): (r: Option<Read>)
    requires i <= |ts|
    ensures r.Some? ==> i < r.value.next <= |ts|
    decreases |ts| - i, 2
  {
    if Sees(ts, i, Symbol("-")) then NumberAt(ts, i + 1, true) else ReadMember(k, ts, i)
  }

  /** The comparison a token writes. */
  function OpAt(ts: seq<CToken>, i: nat): Option<Op> {
    if Sees(ts, i, Symbol("==")) then Some(Eq)
    else if Sees(ts, i, Word("in")) then Some(In)
    else if Sees(ts, i, Symbol("<")) then Some(Lt)
    else if Sees(ts, i, Symbol("<=")) then Some(Le)
    else if Sees(ts, i, Symbol(">")) then Some(Gt)
    else if Sees(ts, i, Symbol(">=")) then Some(Ge)
    else None
  }

  /** What may follow the left side of a relation. */
  function ReadRest(k: Cedar, ts: seq<CToken>, l: Expr, i: nat): (r: Option<Read>)
    requires i <= |ts|
    ensures r.Some? ==> i <= r.value.next <= |ts|
    decreases |ts| - i, 3
  {
    if OpAt(ts, i).Some? then
      match ReadUnary(k, ts, i + 1)
      case None => None
      case Some(f) => Some(Read(Binary(OpAt(ts, i).value, l, f.e), f.next))
    else if Sees(ts, i, Word("has")) then
      if SeesName(k, ts, i + 1) then Some(Read(Has(l, ts[i + 1].text), i + 2)) else None
    else Some(Read(l, i))
  }

  function ReadRelation(k: Cedar, ts: seq<CToken>, i: nat): (r: Option<Read>)
    requires i <= |ts|
    ensures r.Some? ==> i < r.value.next <= |ts|
    decreases |ts| - i, 4
  {
    match ReadUnary(k, ts, i)
    case None => None
    case Some(f) => ReadRest(k, ts, f.e, f.next)
  }

  /** The conjuncts that follow, grouped to the left. */
  function ReadMore(k: Cedar, ts: seq<CToken>, e: Expr, i: nat): (r: Option<Read>)
    requires i <= |ts|
    ensures r.Some? ==> i <= r.value.next <= |ts|
    decreases |ts| - i, 5
  {
    if !Sees(ts, i, Symbol("&&")) then Some(Read(e, i))
    else
      match ReadRelation(k, ts, i + 1)
      case None => None
      case Some(f) => ReadMore(k, ts, And(e, f.e), f.next)
  }

  function ReadAnd(k: Cedar, ts: seq<CToken>, i: nat): (r: Option<Read>)
    requires i <= |ts|
    ensures r.Some? ==> i < r.value.next <= |ts|
    decreases |ts| - i, 5
  {
    match ReadRelation(k, ts, i)
    case None => None
    case Some(f) => ReadMore(k, ts, f.e, f.next)
  }

  function ReadAll(k: Cedar, ts: seq<CToken>): Option<Expr> {
    match ReadAnd(k, ts, 0)
    case None => None
    case Some(f) => if f.next == |ts| then Some(f.e) else None
  }

  /** The expression a text is. */
  function ReadCedar(k: Cedar, text: string): Option<Expr> {
    match CTokens(k, text, 0)
    case None => None
    case Some(ts) => ReadAll(k, ts)
  }

  // ---------------------------------------------------------------- what can be read

  predicate PlainLiteral(k: Cedar, v: Literal) {
    match v
    case Str(s) => forall c :: c in s ==> c == '"' || c == '\\' || k.raw(c)
    case Num(n) => -MAX_LONG - 1 <= n <= MAX_LONG
    case Bool(_) => true
  }

  /** Variables are Cedar's, attributes are names, and literals can be written. */
  predicate Legible(k: Cedar, e: Expr)
    decreases e, 0
  {
    match e
    case Var(name) => name in VARIABLES
    case Dot(left, attr) => Legible(k, left) && IsName(k, attr)
    case Value(lit) => PlainLiteral(k, lit)
    case Set(items) => AllLegible(k, items)
    case Binary(_, l, r) => Legible(k, l) && Legible(k, r)
    case And(l, r) => Legible(k, l) && Legible(k, r)
    case Has(left, attr) => Legible(k, left) && IsName(k, attr)
    case Foreign(_) => false
    case Opaque(_) => false
  }

  predicate AllLegible(k: Cedar, es: seq<Expr>)
    decreases es, 1
  {
    forall i | 0 <= i < |es| :: Legible(k, es[i])
  }

  /** Every string token came through the lexer's check. */
  predicate Checked(k: Cedar, ts: seq<CToken>) {
    forall t :: t in ts && t.Quoted? ==> PlainLiteral(k, Str(t.s))
  }

  lemma {:induction false} UnquotedPlain(k: Cedar, body: string)
    requires Unquoted(k, body).Some?
    ensures PlainLiteral(k, Str(Unquoted(k, body).value))
  {
    if body != "" {
      if body[0] == '\\' {
        UnquotedPlain(k, body[2..]);
      } else {
        UnquotedPlain(k, body[1..]);
      }
    }
  }

  lemma {:induction false} TokensChecked(k: Cedar, src: string, i: nat)
    requires i <= |src| && CTokens(k, src, i).Some?
    ensures Checked(k, CTokens(k, src, i).value)
    decreases |src| - i
  {
    if i < |src| {
      if IsBlank(src[i]) {
        TokensChecked(k, src, i + 1);
      } else {
        LexChecked(k, src, i);
        TokensChecked(k, src, CLex(k, src, i).value.next);
      }
    }
  }

  lemma LexChecked(k: Cedar, src: string, i: nat)
    requires i < |src| && CLex(k, src, i).Some?
    ensures Checked(k, [CLex(k, src, i).value.token])
  {
    if src[i] == '"' {
      UnquotedPlain(k, src[i + 1..Closing(src, '"', i + 1)]);
    }
  }

  lemma NumberLegible(k: Cedar, ts: seq<CToken>, i: nat, negative: bool)
    requires NumberAt(ts, i, negative).Some?
    ensures Legible(k, NumberAt(ts, i, negative).value.e)
  {
  }

  lemma {:induction false} AccessLegible(k: Cedar, ts: seq<CToken>, e: Expr, i: nat)
    requires i <= |ts| && Legible(k, e) && ReadAccess(k, ts, e, i).Some?
    ensures Legible(k, ReadAccess(k, ts, e, i).value.e)
    decreases |ts| - i
  {
    if Sees(ts, i, Symbol(".")) {
      AccessLegible(k, ts, Expr.Dot(e, ts[i + 1].text), i + 2);
    }
  }

  lemma {:induction false} PrimaryLegible(k: Cedar, ts: seq<CToken>, i: nat)
    requires i <= |ts| && Checked(k, ts) && ReadPrimary(k, ts, i).Some?
    ensures Legible(k, ReadPrimary(k, ts, i).value.e)
    decreases |ts| - i, 0
  {
    match ts[i]
    case Word(w) =>
    case Quoted(s) => assert ts[i] in ts;
    case Digits(_) => NumberLegible(k, ts, i, false);
    case Symbol(s) =>
      if s == "(" {
        AndLegible(k, ts, i + 1);
      } else if !Sees(ts, i + 1, Symbol("]")) {
        ItemsLegible(k, ts, i + 1);
      }
  }

  lemma {:induction false} ItemsLegible(k: Cedar, ts: seq<CToken>, i: nat)
    requires i <= |ts| && Checked(k, ts) && ReadItems(k, ts, i).Some?
    ensures AllLegible(k, ReadItems(k, ts, i).value.items)
    decreases |ts| - i, 6
  {
    AndLegible(k, ts, i);
    var f := ReadAnd(k, ts, i).value;
    if Sees(ts, f.next, Symbol(",")) {
      ItemsLegible(k, ts, f.next + 1);
    }
  }

  lemma {:induction false} UnaryLegible(k: Cedar, ts: seq<CToken>, i: nat)
    requires i <= |ts| && Checked(k, ts) && ReadUnary(k, ts, i).Some?
    ensures Legible(k, ReadUnary(k, ts, i).value.e)
    decreases |ts| - i, 2
  {
    if Sees(ts, i, Symbol("-")) {
      NumberLegible(k, ts, i + 1, true);
    } else {
      PrimaryLegible(k, ts, i);
      var f := ReadPrimary(k, ts, i).value;
      AccessLegible(k, ts, f.e, f.next);
    }
  }

  lemma {:induction false} RelationLegible(k: Cedar, ts: seq<CToken>, i: nat)
    requires i <= |ts| && Checked(k, ts) && ReadRelation(k, ts, i).Some?
    ensures Legible(k, ReadRelation(k, ts, i).value.e)
    decreases |ts| - i, 4
  {
    UnaryLegible(k, ts, i);
    var f := ReadUnary(k, ts, i).value;
    if OpAt(ts, f.next).Some? {
      UnaryLegible(k, ts, f.next + 1);
    }
  }

  lemma {:induction false} MoreLegible(k: Cedar, ts: seq<CToken>, e: Expr, i: nat)
    requires i <= |ts| && Checked(k, ts) && Legible(k, e) && ReadMore(k, ts, e, i).Some?
    ensures Legible(k, ReadMore(k, ts, e, i).value.e)
    decreases |ts| - i, 5
  {
    if Sees(ts, i, Symbol("&&")) {
      RelationLegible(k, ts, i + 1);
      var f := ReadRelation(k, ts, i + 1).value;
      MoreLegible(k, ts, And(e, f.e), f.next);
    }
  }

  lemma {:induction false} AndLegible(k: Cedar, ts: seq<CToken>, i: nat)
    requires i <= |ts| && Checked(k, ts) && ReadAnd(k, ts, i).Some?
    ensures Legible(k, ReadAnd(k, ts, i).value.e)
    decreases |ts| - i, 5
  {
    RelationLegible(k, ts, i);
    var f := ReadRelation(k, ts, i).value;
    MoreLegible(k, ts, f.e, f.next);
  }

  /** Whatever is read has Cedar's variables, attributes that are names, and literals that can be written. */
  lemma ReadLegible(k: Cedar, text: string)
    requires ReadCedar(k, text).Some?
    ensures Legible(k, ReadCedar(k, text).value)
  {
    TokensChecked(k, text, 0);
    AndLegible(k, CTokens(k, text, 0).value, 0);
  }
}
