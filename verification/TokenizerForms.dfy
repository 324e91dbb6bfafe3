/** Which texts have which tokens (packages/adapters/src/transforms.ts). */
module TokenizerForms {
  import opened Common
  import opened Tokenizer

  // ---------------------------------------------------------------- characters

  /** White space and line ends of ECMAScript: tab to carriage return, the space separators and the byte order mark. */
  predicate White(c: char) {
    c == '\t' || c == '\n' || c == '\U{000B}' || c == '\U{000C}' || c == '\r' || c == ' ' || c == '\U{00A0}'
    || c == '\U{1680}' || '\U{2000}' <= c <= '\U{200A}' || c == '\U{2028}' || c == '\U{2029}' || c == '\U{202F}'
    || c == '\U{205F}' || c == '\U{3000}' || c == '\U{FEFF}'
  }

  predicate Letter(c: char) {
    'a' <= c <= 'z' || 'A' <= c <= 'Z' || c == '_'
  }

  predicate Decimal(c: char) {
    '0' <= c <= '9'
  }

  predicate LineEnd(c: char) {
    c == '\n' || c == '\r' || c == '\U{2028}' || c == '\U{2029}'
  }

  lemma WhiteIff(c: char)
    ensures White(c) <==> IsSpace(c)
  {
  }

  // ---------------------------------------------------------------- string bodies

  /** Between its quotes a body is spelled with any characters but the quote and the backslash for themselves; after a
      backslash any character stands for itself, a line end with the backslash. */
  predicate Spells(inner: string, quote: char, body: string) {
    if inner == "" then body == ""
    else if inner[0] == quote then false
    else if inner[0] != '\\' then body != "" && body[0] == inner[0] && Spells(inner[1..], quote, body[1..])
    else if |inner| == 1 then false
    else if LineEnd(inner[1]) then |body| >= 2 && body[..2] == inner[..2] && Spells(inner[2..], quote, body[2..])
    else body != "" && body[0] == inner[1] && Spells(inner[2..], quote, body[1..])
  }

  /** Such a body ends at its quote, and is what is read. */
  lemma {:induction false} SpellsReads(src: string, i: nat, end: nat, quote: char, body: string)
    requires quote == '\'' || quote == '"'
    requires i <= end < |src| && src[end] == quote && Spells(src[i..end], quote, body)
    ensures Closing(src, quote, i) == end && Unescape(src[i..end]) == body
    decreases end - i
  {
    var inner := src[i..end];
    if inner != "" {
      if inner[0] != '\\' {
        assert inner[1..] == src[i + 1..end];
        SpellsReads(src, i + 1, end, quote, body[1..]);
        assert body == [body[0]] + body[1..];
      } else {
        assert inner[2..] == src[i + 2..end] && inner[1] == src[i + 1];
        if LineEnd(inner[1]) {
          SpellsReads(src, i + 2, end, quote, body[2..]);
          LineEndRead(inner);
          assert body == body[..2] + body[2..];
        } else {
          SpellsReads(src, i + 2, end, quote, body[1..]);
          assert body == [body[0]] + body[1..];
        }
      }
    }
  }

  lemma LineEndIff(c: char)
    ensures LineEnd(c) <==> IsLineEnd(c)
    ensures LineEnd(c) ==> c != '\\'
  {
  }

  lemma OneKept(s: string)
    requires s != "" && (s[0] != '\\' || (|s| >= 2 && IsLineEnd(s[1])))
    ensures Unescape(s) == [s[0]] + Unescape(s[1..])
  {
  }

  lemma LineEndRead(inner: string)
    requires |inner| >= 2 && inner[0] == '\\' && LineEnd(inner[1])
    ensures Unescape(inner) == inner[..2] + Unescape(inner[2..])
  {
    LineEndIff(inner[1]);
    OneKept(inner);
    OneKept(inner[1..]);
    assert inner[1..][1..] == inner[2..];
    assert [inner[0]] + ([inner[1]] + Unescape(inner[2..])) == inner[..2] + Unescape(inner[2..]);
  }

  /** What is read is so spelled. */
  lemma {:induction false} ReadSpells(src: string, i: nat, quote: char)
    requires quote == '\'' || quote == '"'
    requires i <= |src| && Closing(src, quote, i) < |src|
    ensures var end := Closing(src, quote, i); Spells(src[i..end], quote, Unescape(src[i..end]))
    decreases |src| - i
  {
    var end := Closing(src, quote, i);
    var inner := src[i..end];
    if src[i] != quote {
      if src[i] == '\\' {
        ReadSpells(src, i + 2, quote);
        assert inner[2..] == src[i + 2..end] && inner[1] == src[i + 1];
        if LineEnd(inner[1]) {
          LineEndRead(inner);
        }
      } else {
        ReadSpells(src, i + 1, quote);
        assert inner[1..] == src[i + 1..end];
      }
    }
  }

  // ---------------------------------------------------------------- one token

  /** The token stands in the text from `i` up to `next` and goes no further. */
  predicate Stands(src: string, i: nat, t: Token, next: nat)
    requires i < next <= |src|
  {
    match t
    case LParen => src[i..next] == "("
    case RParen => src[i..next] == ")"
    case Comma => src[i..next] == ","
    case Dot => src[i..next] == "."
    case TIdent(name) =>
      name == src[i..next] && Letter(src[i]) && (forall j | i < j < next :: Letter(src[j]) || Decimal(src[j]))
      && (next < |src| ==> !Letter(src[next]) && !Decimal(src[next]))
    case TNumber(digits) =>
      digits == src[i..next] && (Decimal(src[i]) || (src[i] == '-' && i + 1 < next && Decimal(src[i + 1])))
      && (forall j | i < j < next :: Decimal(src[j]) || src[j] == '.')
      && (next < |src| ==> !Decimal(src[next]) && src[next] != '.')
    case TString(body) =>
      i + 2 <= next && (src[i] == '\'' || src[i] == '"') && src[next - 1] == src[i]
      && Spells(src[i + 1..next - 1], src[i], body)
  }

  lemma SpanIs(p: char -> bool, src: string, i: nat, end: nat)
    requires i <= end <= |src| && (forall j | i <= j < end :: p(src[j])) && (end < |src| ==> !p(src[end]))
    ensures Span(p, src, i) == end
    decreases end - i
  {
    if i < end {
      SpanIs(p, src, i + 1, end);
    }
  }

  lemma StandsRead(src: string, i: nat, t: Token, next: nat)
    requires i < next <= |src| && Stands(src, i, t, next)
    ensures Lex(src, i) == Some(Lexeme(t, next))
  {
    match t
    case TIdent(name) => SpanIs(IsIdentChar, src, i + 1, next);
    case TNumber(digits) => SpanIs(IsNumberChar, src, i + 1, next);
    case TString(body) => SpellsReads(src, i + 1, next - 1, src[i], body);
    case _ => assert src[i] == src[i..next][0] && |src[i..next]| == 1;
  }

  lemma ReadStands(src: string, i: nat, t: Token, next: nat)
    requires i < next <= |src| && Lex(src, i) == Some(Lexeme(t, next))
    ensures Stands(src, i, t, next)
  {
    if t.TString? {
      ReadSpells(src, i + 1, src[i]);
    } else if !t.TIdent? && !t.TNumber? {
      assert src[i..i + 1] == [src[i]];
    }
  }

  // ---------------------------------------------------------------- all tokens

  predicate AllWhite(src: string, i: nat, j: nat)
    requires i <= j <= |src|
  {
    forall k | i <= k < j :: White(src[k])
  }

  /** From `i` on the text is these tokens, each as long as it goes, and white space. */
  ghost predicate Tiled(src: string, i: nat, ts: seq<Token>)
    requires i <= |src|
    decreases |ts|
  {
    if ts == [] then AllWhite(src, i, |src|)
    else
      exists start: nat, next: nat ::
        i <= start < next <= |src| && AllWhite(src, i, start) && Stands(src, start, ts[0], next)
        && Tiled(src, next, ts[1..])
  }

  lemma {:induction false} SkipWhite(src: string, i: nat, j: nat)
    requires i <= j <= |src| && AllWhite(src, i, j)
    ensures TokensFrom(src, i) == TokensFrom(src, j)
    decreases j - i
  {
    if i < j {
      WhiteIff(src[i]);
      SkipWhite(src, i + 1, j);
    }
  }

  lemma LexNoWhite(src: string, i: nat)
    requires i < |src| && Lex(src, i).Some?
    ensures !IsSpace(src[i])
  {
  }

  lemma {:induction false} TiledTokens(src: string, i: nat, ts: seq<Token>)
    requires i <= |src| && Tiled(src, i, ts)
    ensures TokensFrom(src, i) == Some(ts)
    decreases |ts|
  {
    if ts == [] {
      SkipWhite(src, i, |src|);
    } else {
      var start: nat, next: nat :|
        i <= start < next <= |src| && AllWhite(src, i, start) && Stands(src, start, ts[0], next)
        && Tiled(src, next, ts[1..]);
      SkipWhite(src, i, start);
      StandsRead(src, start, ts[0], next);
      LexNoWhite(src, start);
      TiledTokens(src, next, ts[1..]);
      assert ts == [ts[0]] + ts[1..];
    }
  }

  lemma TiledWhite(src: string, i: nat, ts: seq<Token>)
    requires i < |src| && White(src[i]) && Tiled(src, i + 1, ts)
    ensures Tiled(src, i, ts)
  {
    if ts != [] {
      var start: nat, next: nat :|
        i + 1 <= start < next <= |src| && AllWhite(src, i + 1, start) && Stands(src, start, ts[0], next)
        && Tiled(src, next, ts[1..]);
      assert AllWhite(src, i, start);
    }
  }

  lemma {:induction false} TokensTiled(src: string, i: nat)
    requires i <= |src| && TokensFrom(src, i).Some?
    ensures Tiled(src, i, TokensFrom(src, i).value)
    decreases |src| - i
  {
    if i < |src| {
      if IsSpace(src[i]) {
        WhiteIff(src[i]);
        TokensTiled(src, i + 1);
        TiledWhite(src, i, TokensFrom(src, i).value);
      } else {
        var x := Lex(src, i).value;
        ReadStands(src, i, x.token, x.next);
        TokensTiled(src, x.next);
        var ts := TokensFrom(src, i).value;
        assert ts[0] == x.token && ts[1..] == TokensFrom(src, x.next).value;
        assert AllWhite(src, i, i);
      }
    }
  }

  /** A text has these tokens exactly if it is they, each as long as it goes, with white space around. */
  lemma TokensIff(src: string, ts: seq<Token>)
    ensures Tokens(src) == Some(ts) <==> Tiled(src, 0, ts)
  {
    if Tokens(src) == Some(ts) {
      TokensTiled(src, 0);
    }
    if Tiled(src, 0, ts) {
      TiledTokens(src, 0, ts);
    }
  }
}
