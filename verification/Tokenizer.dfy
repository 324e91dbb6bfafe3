/** The tokenizer of the expression language of packages/adapters/src/transforms.ts. */
module Tokenizer {
  import opened Common

  /** A number token keeps its text. */
  datatype Token =
    | TIdent(name: string)
    | TString(text: string)
    | TNumber(digits: string)
    | LParen
    | RParen
    | Comma
    | Dot

  predicate IsSpace(c: char) {
    var n := c as int;
    9 <= n <= 13 || n == 32 || n == 0xa0 || n == 0x1680 || 0x2000 <= n <= 0x200a || n == 0x2028 || n == 0x2029
    || n == 0x202f || n == 0x205f || n == 0x3000 || n == 0xfeff
  }

  predicate IsDigit(c: char) {
    '0' <= c <= '9'
  }

  predicate IsNumberChar(c: char) {
    IsDigit(c) || c == '.'
  }

  predicate IsLetter(c: char) {
    'a' <= c <= 'z' || 'A' <= c <= 'Z' || c == '_'
  }

  predicate IsIdentChar(c: char) {
    IsLetter(c) || IsDigit(c)
  }

  /** What a dot in a regular expression does not match. */
  predicate IsLineEnd(c: char) {
    c as int in {10, 13, 0x2028, 0x2029}
  }

  /** The end of the run of characters of a class that starts at `i`. */
  function Span(p: char -> bool, src: string, i: nat): (end: nat)
    requires i <= |src|
    ensures i <= end <= |src| && (forall j | i <= j < end :: p(src[j])) && (end < |src| ==> !p(src[end]))
    decreases |src| - i
  {
    if i == |src| || !p(src[i]) then i else Span(p, src, i + 1)
  }

  /** Where the quote that closes a body from `i` on is, a backslash taking the next character with it;
      past the end when there is none. */
  function Closing(src: string, quote: char, i: nat): (end: nat)
    ensures end >= i && (end < |src| ==> src[end] == quote)
    decreases |src| - i
  {
    if i >= |src| || src[i] == quote then i
    else Closing(src, quote, i + (if src[i] == '\\' then 2 else 1))
  }

  /** `.replace(/\\(.)/g, '$1')` */
  function Unescape(s: string): string {
    if s == "" then ""
    else if s[0] == '\\' && |s| >= 2 && !IsLineEnd(s[1]) then [s[1]] + Unescape(s[2..])
    else [s[0]] + Unescape(s[1..])
  }

  function Single(c: char): Option<Token> {
    if c == '(' then Some(LParen)
    else if c == ')' then Some(RParen)
    else if c == ',' then Some(Comma)
    else if c == '.' then Some(Dot)
    else None
  }

  predicate NumberStart(src: string, i: nat)
    requires i < |src|
  {
    IsDigit(src[i]) || (src[i] == '-' && i + 1 < |src| && IsDigit(src[i + 1]))
  }

  /** One token and where the text goes on. */
  datatype Lexeme = Lexeme(token: Token, next: nat)

  /** The token at `i`, where there is no blank. */
  function Lex(src: string, i: nat): (r: Option<Lexeme>)
    requires i < |src|
    ensures r.Some? ==> i < r.value.next <= |src|
  {
    var ch := src[i];
    if Single(ch).Some? then Some(Lexeme(Single(ch).value, i + 1))
    else if ch == '\'' || ch == '"' then
      var end := Closing(src, ch, i + 1);
      if end >= |src| then None else Some(Lexeme(TString(Unescape(src[i + 1..end])), end + 1))
    else if NumberStart(src, i) then
      var end := Span(IsNumberChar, src, i + 1);
      Some(Lexeme(TNumber(src[i..end]), end))
    else if IsLetter(ch) then
      var end := Span(IsIdentChar, src, i + 1);
      Some(Lexeme(TIdent(src[i..end]), end))
    else None
  }

  function Prepend(done: seq<Token>, rest: Option<seq<Token>>): Option<seq<Token>> {
    if rest.Some? then Some(done + rest.value) else None
  }

  /** The tokens from `i` on; none is the tokenizer's error. */
  function TokensFrom(src: string, i: nat): Option<seq<Token>>
    requires i <= |src|
    decreases |src| - i
  {
    if i == |src| then Some([])
    else if IsSpace(src[i]) then TokensFrom(src, i + 1)
    else
      match Lex(src, i)
      case None => None
      case Some(x) => Prepend([x.token], TokensFrom(src, x.next))
  }

  function Tokens(src: string): Option<seq<Token>> {
    TokensFrom(src, 0)
  }

  lemma PrependMore(out: seq<Token>, t: Token, rest: Option<seq<Token>>)
    ensures Prepend(out, Prepend([t], rest)) == Prepend(out + [t], rest)
  {
    if rest.Some? {
      assert out + ([t] + rest.value) == out + [t] + rest.value;
    }
  }

  lemma PrependNothing(out: seq<Token>, rest: Option<seq<Token>>)
    ensures Prepend([], rest) == rest && Prepend(out, Some([])) == Some(out)
  {
    assert rest.Some? ==> [] + rest.value == rest.value;
    assert out + [] == out;
  }

  /** `tokenize` */
  method Tokenize(src: string) returns (r: Option<seq<Token>>)
    ensures r == Tokens(src)
  {
    var out: seq<Token> := [];
    var i := 0;
    PrependNothing(out, Tokens(src));
    while i < |src|
      invariant 0 <= i <= |src|
      invariant Tokens(src) == Prepend(out, TokensFrom(src, i))
    {
      if IsSpace(src[i]) {
        i := i + 1;
        continue;
      }
      var next := ReadToken(src, i);
      if next.None? {
        return None;
      }
      PrependMore(out, next.value.token, TokensFrom(src, next.value.next));
      out, i := out + [next.value.token], next.value.next;
    }
    PrependNothing(out, Some([]));
    return Some(out);
  }

  /** The branches of the loop, on the token at `i`. */
  method ReadToken(src: string, i: nat) returns (r: Option<Lexeme>)
    requires i < |src|
    ensures r == Lex(src, i)
  {
    var ch := src[i];
    if ch == '(' {
      return Some(Lexeme(LParen, i + 1));
    } else if ch == ')' {
      return Some(Lexeme(RParen, i + 1));
    } else if ch == ',' {
      return Some(Lexeme(Comma, i + 1));
    } else if ch == '.' {
      return Some(Lexeme(Dot, i + 1));
    } else if ch == '\'' || ch == '"' {
      var end := i + 1;
      while end < |src| && src[end] != ch
        invariant Closing(src, ch, i + 1) == Closing(src, ch, end) && i < end
      {
        if src[end] == '\\' {
          end := end + 1;
        }
        end := end + 1;
      }
      if end >= |src| {
        return None;
      }
      return Some(Lexeme(TString(Unescape(src[i + 1..end])), end + 1));
    } else if IsDigit(ch) || (ch == '-' && i + 1 < |src| && IsDigit(src[i + 1])) {
      var end := Scan(src, i + 1, IsNumberChar);
      return Some(Lexeme(TNumber(src[i..end]), end));
    } else if IsLetter(ch) {
      var end := Scan(src, i + 1, IsIdentChar);
      return Some(Lexeme(TIdent(src[i..end]), end));
    }
    return None;
  }

  /** The loop over a class of characters. */
  method Scan(src: string, start: nat, p: char -> bool) returns (end: nat)
    requires start <= |src|
    ensures end == Span(p, src, start)
  {
    end := start;
    while end < |src| && p(src[end])
      invariant start <= end <= |src| && Span(p, src, start) == Span(p, src, end)
    {
      end := end + 1;
    }
  }

  // ---------------------------------------------------------------- printing tokens

  /** A string body in which the quote and backslashes are escaped. */
  function Escape(s: string, quote: char): string {
    if s == "" then "" else EscapeChar(s[0], quote) + Escape(s[1..], quote)
  }

  function EscapeChar(c: char, quote: char): string {
    if c == quote || c == '\\' then ['\\', c] else [c]
  }

  function TokenText(t: Token): string {
    match t
    case TIdent(name) => name
    case TString(text) => "'" + Escape(text, '\'') + "'"
    case TNumber(digits) => digits
    case LParen => "("
    case RParen => ")"
    case Comma => ","
    case Dot => "."
  }

  /** A token that some text spells. */
  predicate Spellable(t: Token) {
    match t
    case TIdent(name) => name != "" && IsLetter(name[0]) && forall c :: c in name ==> IsIdentChar(c)
    case TNumber(digits) => digits != "" && NumberStart(digits, 0) && forall c :: c in digits[1..] ==> IsNumberChar(c)
    case _ => true
  }

  /** The tokens one after the other, a blank after each. */
  function Print(ts: seq<Token>): string {
    if ts == [] then "" else TokenText(ts[0]) + " " + Print(ts[1..])
  }

  /** An escaped body ends at its own quote and not before. */
  lemma {:induction false} ClosingAfterEscape(src: string, i: nat, s: string, quote: char)
    requires quote != '\\' && At(src, i, Escape(s, quote) + [quote])
    ensures Closing(src, quote, i) == i + |Escape(s, quote)|
    decreases |s|
  {
    var all := Escape(s, quote) + [quote];
    assert src[i + 0] == all[0];
    if s != "" {
      var first, rest := EscapeChar(s[0], quote), Escape(s[1..], quote) + [quote];
      assert all == first + rest;
      AtParts(src, i, first, rest);
      ClosingAfterEscape(src, i + |first|, s[1..], quote);
    }
  }

  lemma {:induction false} UnescapeEscape(s: string, quote: char)
    requires !IsLineEnd(quote)
    ensures Unescape(Escape(s, quote)) == s
  {
    if s != "" {
      UnescapeEscape(s[1..], quote);
      var e := Escape(s, quote);
      if s[0] == quote || s[0] == '\\' {
        assert e[2..] == Escape(s[1..], quote) && e[0] == '\\' && e[1] == s[0];
      } else {
        assert e[1..] == Escape(s[1..], quote) && e[0] == s[0];
      }
      assert s == [s[0]] + s[1..];
    }
  }

  /** A run of the class that is followed by something else is taken exactly. */
  lemma {:induction false} SpanExact(p: char -> bool, src: string, i: nat, end: nat)
    requires i <= end < |src| && (forall j | i <= j < end :: p(src[j])) && !p(src[end])
    ensures Span(p, src, i) == end
    decreases end - i
  {
    if i < end {
      SpanExact(p, src, i + 1, end);
    }
  }

  lemma SpanOfPart(p: char -> bool, src: string, i: nat, part: string)
    requires part != "" && At(src, i, part) && (forall c :: c in part[1..] ==> p(c))
    requires i + |part| < |src| && !p(src[i + |part|])
    ensures Span(p, src, i + 1) == i + |part|
  {
    forall j | i + 1 <= j < i + |part| ensures p(src[j]) {
      assert src[i + (j - i)] == part[j - i];
      assert part[1..][j - i - 1] == src[j];
    }
    SpanExact(p, src, i + 1, i + |part|);
  }

  lemma LexQuoted(src: string, i: nat, end: nat)
    requires i < end < |src| && src[i] == '\'' && Closing(src, '\'', i + 1) == end
    ensures Lex(src, i) == Some(Lexeme(TString(Unescape(src[i + 1..end])), end + 1))
  {
  }

  lemma LexBody(src: string, i: nat, body: string, e: string)
    requires e == Escape(body, '\'') && At(src, i, "'" + (e + ['\'']))
    ensures Lex(src, i) == Some(Lexeme(TString(body), i + |e| + 2))
  {
    AtParts(src, i, "'", e + ['\'']);
    assert src[i + 0] == "'"[0];
    ClosingAfterEscape(src, i + 1, body, '\'');
    AtParts(src, i + 1, e, ['\'']);
    AtSlice(src, i + 1, e);
    LexQuoted(src, i, i + 1 + |e|);
    UnescapeEscape(body, '\'');
  }

  lemma LexString(src: string, i: nat, body: string)
    requires At(src, i, TokenText(TString(body)))
    ensures Lex(src, i) == Some(Lexeme(TString(body), i + |TokenText(TString(body))|))
  {
    var e := Escape(body, '\'');
    assert TokenText(TString(body)) == "'" + (e + ['\'']);
    LexBody(src, i, body, e);
  }

  lemma LexIdent(src: string, i: nat, name: string)
    requires Spellable(TIdent(name)) && At(src, i, name) && i + |name| < |src| && src[i + |name|] == ' '
    ensures Lex(src, i) == Some(Lexeme(TIdent(name), i + |name|))
  {
    assert src[i + 0] == name[0];
    AtSlice(src, i, name);
    assert name[0] in name && forall c :: c in name[1..] ==> c in name;
    SpanOfPart(IsIdentChar, src, i, name);
  }

  lemma LexNumber(src: string, i: nat, digits: string)
    requires Spellable(TNumber(digits)) && At(src, i, digits) && i + |digits| < |src| && src[i + |digits|] == ' '
    ensures Lex(src, i) == Some(Lexeme(TNumber(digits), i + |digits|))
  {
    assert src[i + 0] == digits[0];
    AtSlice(src, i, digits);
    if |digits| > 1 {
      assert src[i + 1] == digits[1];
    }
    SpanOfPart(IsNumberChar, src, i, digits);
  }

  lemma TextStart(t: Token)
    requires Spellable(t)
    ensures TokenText(t) != "" && !IsSpace(TokenText(t)[0])
  {
  }

  /** A spelled token followed by a blank is read back, and nothing more is taken. */
  lemma LexToken(src: string, i: nat, t: Token)
    requires Spellable(t) && At(src, i, TokenText(t)) && i + |TokenText(t)| < |src| && src[i + |TokenText(t)|] == ' '
    ensures i < |src| && Lex(src, i) == Some(Lexeme(t, i + |TokenText(t)|)) && !IsSpace(src[i])
  {
    TextStart(t);
    assert src[i + 0] == TokenText(t)[0];
    match t
    case TIdent(name) => LexIdent(src, i, name);
    case TNumber(digits) => LexNumber(src, i, digits);
    case TString(body) => LexString(src, i, body);
    case _ =>
  }

  lemma AtBlank(src: string, i: nat, text: string, rest: string)
    requires At(src, i, text + " " + rest)
    ensures At(src, i, text) && i + |text| < |src| && src[i + |text|] == ' ' && At(src, i + |text| + 1, rest)
  {
    AtParts(src, i, text + " ", rest);
    AtParts(src, i, text, " ");
    assert src[i + |text| + 0] == " "[0];
  }

  lemma TokenThenBlank(src: string, i: nat, t: Token, next: nat)
    requires i < next < |src| && !IsSpace(src[i]) && Lex(src, i) == Some(Lexeme(t, next)) && IsSpace(src[next])
    ensures TokensFrom(src, i) == Prepend([t], TokensFrom(src, next + 1))
  {
  }

  lemma PrintedToken(src: string, i: nat, t: Token, rest: string, next: nat)
    requires Spellable(t) && At(src, i, TokenText(t) + " " + rest) && next == i + |TokenText(t)| + 1
    ensures next <= |src| && TokensFrom(src, i) == Prepend([t], TokensFrom(src, next)) && At(src, next, rest)
  {
    AtBlank(src, i, TokenText(t), rest);
    LexToken(src, i, t);
    TokenThenBlank(src, i, t, next - 1);
  }

  /** Printing is undone by tokenizing, wherever in a text the printed tokens end it. */
  lemma {:induction false} TokensPrint(src: string, i: nat, ts: seq<Token>)
    requires (forall t :: t in ts ==> Spellable(t)) && At(src, i, Print(ts)) && i + |Print(ts)| == |src|
    ensures TokensFrom(src, i) == Some(ts)
    decreases |ts|
  {
    if ts != [] {
      var next := i + |TokenText(ts[0])| + 1;
      PrintedToken(src, i, ts[0], Print(ts[1..]), next);
      TokensPrint(src, next, ts[1..]);
      assert ts == [ts[0]] + ts[1..];
    }
  }

  lemma LexSpellable(src: string, i: nat)
    requires i < |src| && Lex(src, i).Some?
    ensures Spellable(Lex(src, i).value.token)
  {
    var x := Lex(src, i).value;
    if x.token.TIdent? || x.token.TNumber? {
      var part := src[i..x.next];
      assert forall k | 0 <= k < |part| :: part[k] == src[i + k];
    }
  }

  lemma {:induction false} TokensSpellable(src: string, i: nat)
    requires i <= |src| && TokensFrom(src, i).Some?
    ensures forall t :: t in TokensFrom(src, i).value ==> Spellable(t)
    decreases |src| - i
  {
    if i < |src| {
      if IsSpace(src[i]) {
        TokensSpellable(src, i + 1);
      } else {
        LexSpellable(src, i);
        TokensSpellable(src, Lex(src, i).value.next);
      }
    }
  }

  /** The token round trip: printed tokens are read back exactly when they are spellable, and the tokens of
      every accepted text are. */
  lemma TokenRoundTrip(ts: seq<Token>)
    ensures (forall t :: t in ts ==> Spellable(t)) <==> exists src :: Tokens(src) == Some(ts)
    ensures (forall t :: t in ts ==> Spellable(t)) ==> Tokens(Print(ts)) == Some(ts)
  {
    if forall t :: t in ts ==> Spellable(t) {
      TokensPrint(Print(ts), 0, ts);
      assert Tokens(Print(ts)) == Some(ts);
    }
    forall src | Tokens(src) == Some(ts) ensures forall t :: t in ts ==> Spellable(t) {
      TokensSpellable(src, 0);
    }
  }
}
