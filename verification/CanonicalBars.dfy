/** Where bars stand in canonical text: only inside string literals. So a canonical text is never what
    follows a bar of another, and a text `prefix|canonical` can be taken apart in one way. */
module CanonicalBars {
  import opened Common
  import opened Canonical

  /** A reader of quotes and backslashes: whether it is inside a literal and whether the next character is
      escaped. */
  datatype Scan = Scan(inside: bool, escaped: bool)

  const OUTSIDE := Scan(false, false)

  const INSIDE := Scan(true, false)

  function Step(st: Scan, c: char): Scan {
    if st.escaped then Scan(st.inside, false)
    else if c == '\\' then Scan(st.inside, true)
    else if c == '"' then Scan(!st.inside, false)
    else st
  }

  function After(st: Scan, s: string): Scan
    decreases |s|
  {
    if s == "" then st else After(Step(st, s[0]), s[1..])
  }

  /** Every bar is met inside a literal. */
  predicate BarsInside(st: Scan, s: string)
    decreases |s|
  {
    s == "" || ((s[0] == '|' ==> st == INSIDE) && BarsInside(Step(st, s[0]), s[1..]))
  }

  lemma {:induction false} ScanAppend(st: Scan, a: string, b: string)
    ensures After(st, a + b) == After(After(st, a), b)
    ensures BarsInside(st, a + b) <==> BarsInside(st, a) && BarsInside(After(st, a), b)
    decreases |a|
  {
    if a == "" {
      assert a + b == b;
    } else {
      ScanAppend(Step(st, a[0]), a[1..], b);
      assert (a + b)[0] == a[0] && (a + b)[1..] == a[1..] + b;
    }
  }

  /** Starting on the other side of a quote, the scan ends on the other side. */
  lemma {:induction false} Flipped(st: Scan, s: string)
    ensures After(st.(inside := !st.inside), s) == After(st, s).(inside := !After(st, s).inside)
    decreases |s|
  {
    if s != "" {
      Flipped(Step(st, s[0]), s[1..]);
    }
  }

  /** A text that leaves the scan where it was, with all bars inside literals. */
  predicate Keeps(st: Scan, s: string) {
    BarsInside(st, s) && After(st, s) == st
  }

  lemma KeepsBoth(st: Scan, a: string, b: string)
    requires Keeps(st, a) && Keeps(st, b)
    ensures Keeps(st, a + b)
  {
    ScanAppend(st, a, b);
  }

  /** No character of the text is a quote, a backslash or a bar. */
  predicate Dull(s: string) {
    forall i | 0 <= i < |s| :: s[i] != '"' && s[i] != '\\' && s[i] != '|'
  }

  lemma {:induction false} DullKeeps(st: Scan, s: string)
    requires Dull(s) && !st.escaped
    ensures Keeps(st, s)
  {
    if s != "" {
      assert forall i | 0 <= i < |s| - 1 :: s[1..][i] == s[i + 1];
      DullKeeps(st, s[1..]);
    }
  }

  // ---------------------------------------------------------------- canonical text

  lemma EscapeCharKeeps(c: char)
    ensures Keeps(INSIDE, EscapeChar(c))
  {
    var e := EscapeChar(c);
    if |e| > 1 {
      EscapedKeeps(e[1], e[2..]);
      assert e == "\\" + ([e[1]] + e[2..]);
    }
  }

  /** A backslash, the character it escapes and what follows. */
  lemma EscapedKeeps(c: char, rest: string)
    requires c != '|' && Dull(rest)
    ensures Keeps(INSIDE, "\\" + ([c] + rest))
  {
    DullKeeps(INSIDE, rest);
    var s := "\\" + ([c] + rest);
    assert s[1..] == [c] + rest && ([c] + rest)[1..] == rest;
    assert Step(INSIDE, '\\') == Scan(true, true);
  }

  lemma {:induction false} EscapeKeeps(s: string)
    ensures Keeps(INSIDE, Escape(s))
  {
    if s != "" {
      EscapeCharKeeps(s[0]);
      EscapeKeeps(s[1..]);
      KeepsBoth(INSIDE, EscapeChar(s[0]), Escape(s[1..]));
    }
  }

  lemma Quoted(inner: string)
    requires Keeps(INSIDE, inner)
    ensures Keeps(OUTSIDE, "\"" + inner + "\"")
  {
    ScanAppend(OUTSIDE, "\"", inner);
    ScanAppend(OUTSIDE, "\"" + inner, "\"");
  }

  lemma {:induction false} NatTextDull(n: nat)
    ensures Dull(NatText(n))
  {
    if n >= 10 {
      NatTextDull(n / 10);
    }
  }

  lemma NumberKeeps(n: int)
    ensures Keeps(OUTSIDE, IntText(n))
  {
    NatTextDull(if n < 0 then -n else n);
    DullKeeps(OUTSIDE, IntText(n));
  }

  lemma Bracketed(open: string, body: string, close: string)
    requires Dull(open) && Dull(close) && Keeps(OUTSIDE, body)
    ensures Keeps(OUTSIDE, open + body + close)
  {
    DullKeeps(OUTSIDE, open);
    DullKeeps(OUTSIDE, close);
    KeepsBoth(OUTSIDE, open, body);
    KeepsBoth(OUTSIDE, open + body, close);
  }

  lemma Separated(a: string, sep: string, b: string)
    requires Keeps(OUTSIDE, a) && Dull(sep) && Keeps(OUTSIDE, b)
    ensures Keeps(OUTSIDE, a + sep + b)
  {
    DullKeeps(OUTSIDE, sep);
    KeepsBoth(OUTSIDE, a, sep);
    KeepsBoth(OUTSIDE, a + sep, b);
  }

  /** Canonical text has all its bars inside literals and closes every literal. */
  lemma {:induction false} CanonicalKeeps(nfc: Nfc, v: Json)
    requires Canonicalize(nfc, v).Success?
    ensures Keeps(OUTSIDE, Canonicalize(nfc, v).value)
    decreases v, 0
  {
    match v
    case Null => DullKeeps(OUTSIDE, "null");
    case Bool(b) => DullKeeps(OUTSIDE, if b then "true" else "false");
    case Num(n) => NumberKeeps(n);
    case Str(s) =>
      EscapeKeeps(s);
      Quoted(Escape(s));
    case Arr(items) =>
      ItemsKeep(nfc, items);
      Bracketed("[", CanonicalItems(nfc, items).value, "]");
    case Obj(fields) =>
      PairsKeep(nfc, SortedPairs(nfc, fields), v);
      Bracketed("{", CanonicalPairs(nfc, SortedPairs(nfc, fields), v).value, "}");
  }

  lemma {:induction false} ItemsKeep(nfc: Nfc, items: seq<Json>)
    requires CanonicalItems(nfc, items).Success?
    ensures Keeps(OUTSIDE, CanonicalItems(nfc, items).value)
    decreases items, 1
  {
    if items != [] {
      CanonicalKeeps(nfc, items[0]);
      ItemsKeep(nfc, items[1..]);
      if |items| > 1 {
        Separated(Canonicalize(nfc, items[0]).value, ",", CanonicalItems(nfc, items[1..]).value);
      }
    }
  }

  lemma PairKeeps(key: string, text: string)
    requires Keeps(OUTSIDE, text)
    ensures Keeps(OUTSIDE, StringText(key) + ":" + text)
  {
    EscapeKeeps(key);
    Quoted(Escape(key));
    Separated(StringText(key), ":", text);
  }

  lemma {:induction false} PairsKeep(nfc: Nfc, pairs: seq<Field>, bound: Json)
    requires forall p :: p in pairs ==> p.value < bound
    requires CanonicalPairs(nfc, pairs, bound).Success?
    ensures Keeps(OUTSIDE, CanonicalPairs(nfc, pairs, bound).value)
    decreases bound, 0, |pairs|
  {
    if pairs != [] {
      var text := Canonicalize(nfc, pairs[0].value).value;
      CanonicalKeeps(nfc, pairs[0].value);
      PairKeeps(pairs[0].key, text);
      PairsKeep(nfc, pairs[1..], bound);
      if |pairs| > 1 {
        Separated(StringText(pairs[0].key) + ":" + text, ",", CanonicalPairs(nfc, pairs[1..], bound).value);
      }
    }
  }

  // ---------------------------------------------------------------- taking apart

  /** What follows a bar of such a text is no such text. */
  lemma AfterBar(front: string, y: string)
    requires Keeps(OUTSIDE, y)
    ensures !Keeps(OUTSIDE, front + ("|" + y))
  {
    ScanAppend(OUTSIDE, front, "|" + y);
    assert ("|" + y)[1..] == y;
    Flipped(OUTSIDE, y);
  }

  lemma BarShift(a: string, b: string, x: string, y: string)
    requires a + "|" + x == b + "|" + y && |a| < |b|
    ensures x == b[|a| + 1..] + ("|" + y)
  {
    var s := a + "|" + x;
    assert x == s[|a| + 1..];
    assert s == b + ("|" + y);
    assert s[|a| + 1..] == b[|a| + 1..] + ("|" + y);
  }

  /** Whatever the prefixes are, a prefix, a bar and a canonical text are one text in one way only. */
  lemma CanonicalAfterBar(nfc: Nfc, a: string, b: string, v: Json, w: Json)
    requires Canonicalize(nfc, v).Success? && Canonicalize(nfc, w).Success?
    requires a + "|" + Canonicalize(nfc, v).value == b + "|" + Canonicalize(nfc, w).value
    ensures a == b && Canonicalize(nfc, v) == Canonicalize(nfc, w)
  {
    CanonicalKeeps(nfc, v);
    CanonicalKeeps(nfc, w);
    TakenApart(a, b, Canonicalize(nfc, v).value, Canonicalize(nfc, w).value);
  }

  lemma TakenApart(a: string, b: string, x: string, y: string)
    requires Keeps(OUTSIDE, x) && Keeps(OUTSIDE, y) && a + "|" + x == b + "|" + y
    ensures a == b && x == y
  {
    if |a| < |b| {
      BarShift(a, b, x, y);
      AfterBar(b[|a| + 1..], y);
    } else if |b| < |a| {
      BarShift(b, a, y, x);
      AfterBar(a[|b| + 1..], x);
    } else {
      var s := a + "|" + x;
      assert a == s[..|a|] && b == s[..|b|] && x == s[|a| + 1..] && y == s[|b| + 1..];
    }
  }
}
