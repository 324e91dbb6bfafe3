/** JSON text after section 7 of RFC 8259 (integers only), read the way `JSON.parse` reads it. */
module JsonText {
  import opened Common
  import opened Canonical

  datatype Parse<+T> = Fail | Done(value: T, rest: string)

  predicate IsDigit(c: char) {
    '0' <= c <= '9'
  }

  predicate IsSpace(c: char) {
    c == ' ' || c == '\t' || c == '\n' || c == '\r'
  }

  function SkipSpace(s: string): (r: string)
    ensures |r| <= |s|
  {
    if s != "" && IsSpace(s[0]) then SkipSpace(s[1..]) else s
  }

  // ---------------------------------------------------------------- numbers

  function DigitRun(s: string): (n: nat)
    ensures n <= |s|
  {
    if s != "" && IsDigit(s[0]) then 1 + DigitRun(s[1..]) else 0
  }

  function DigitsValue(s: string): nat
    requires forall c :: c in s ==> IsDigit(c)
  {
    if s == "" then 0
    else
      assert IsDigit(s[|s| - 1]);
      DigitsValue(s[..|s| - 1]) * 10 + (s[|s| - 1] as int - '0' as int)
  }

  lemma {:induction false} DigitRunDigits(s: string)
    ensures forall c :: c in s[..DigitRun(s)] ==> IsDigit(c)
  {
    if s != "" && IsDigit(s[0]) {
      DigitRunDigits(s[1..]);
      assert s[..DigitRun(s)] == [s[0]] + s[1..][..DigitRun(s[1..])];
    }
  }

  /** What may follow an integer: anything that does not continue the number. */
  predicate EndsNumber(s: string) {
    s == "" || !(IsDigit(s[0]) || s[0] == '.' || s[0] == 'e' || s[0] == 'E')
  }

  function ParseNat(s: string): (r: Parse<nat>)
    ensures r.Done? ==> |r.rest| < |s|
  {
    var n := DigitRun(s);
    if n == 0 || (n > 1 && s[0] == '0') || !EndsNumber(s[n..]) then Fail
    else
      DigitRunDigits(s);
      Done(DigitsValue(s[..n]), s[n..])
  }

  function ParseInt(s: string): (r: Parse<int>)
    ensures r.Done? ==> |r.rest| < |s|
  {
    if s != "" && s[0] == '-' then
      match ParseNat(s[1..])
      case Fail => Fail
      case Done(n, rest) =>
        var value: int := n;
        Done(-value, rest)
    else
      match ParseNat(s)
      case Fail => Fail
      case Done(n, rest) => Done(n, rest)
  }

  // ---------------------------------------------------------------- strings

  function HexValue(c: char): Option<int> {
    if '0' <= c <= '9' then Some(c as int - '0' as int)
    else if 'a' <= c <= 'f' then Some(c as int - 'a' as int + 10)
    else if 'A' <= c <= 'F' then Some(c as int - 'A' as int + 10)
    else None
  }

  function HexQuad(s: string): Option<int>
    requires |s| == 4
  {
    match (HexValue(s[0]), HexValue(s[1]), HexValue(s[2]), HexValue(s[3]))
    case (Some(a), Some(b), Some(c), Some(d)) => Some(((a * 16 + b) * 16 + c) * 16 + d)
    case _ => None
  }

  /** A `\u` escape, after the backslash and the `u`: one unit, or two that form a surrogate pair. */
  function UnicodeEscape(s: string): (r: Parse<char>)
    ensures r.Done? ==> |r.rest| < |s|
  {
    if |s| < 4 then Fail
    else
      match HexQuad(s[..4])
      case None => Fail
      case Some(hi) =>
        if 0 <= hi < 0xD800 || 0xE000 <= hi < 0x1_0000 then Done(hi as char, s[4..])
        else if 0xD800 <= hi < 0xDC00 && |s| >= 10 && s[4] == '\\' && s[5] == 'u' then
          match HexQuad(s[6..10])
          case Some(lo) =>
            if 0xDC00 <= lo < 0xE000 then
              Done((0x1_0000 + (hi - 0xD800) * 0x400 + (lo - 0xDC00)) as char, s[10..])
            else Fail
          case None => Fail
        else Fail
  }

  /** An escape, after the backslash. */
  function EscapeSequence(s: string): (r: Parse<char>)
    ensures r.Done? ==> |r.rest| < |s|
  {
    if s == "" then Fail
    else if s[0] == '"' || s[0] == '\\' || s[0] == '/' then Done(s[0], s[1..])
    else if s[0] == 'b' then Done(8 as char, s[1..])
    else if s[0] == 't' then Done(9 as char, s[1..])
    else if s[0] == 'n' then Done(10 as char, s[1..])
    else if s[0] == 'f' then Done(12 as char, s[1..])
    else if s[0] == 'r' then Done(13 as char, s[1..])
    else if s[0] == 'u' then UnicodeEscape(s[1..])
    else Fail
  }

  /** The inside of a string literal and its closing quote. */
  function ParseChars(s: string): (r: Parse<string>)
    ensures r.Done? ==> |r.rest| < |s|
    decreases |s|
  {
    if s == "" then Fail
    else if s[0] == '"' then Done("", s[1..])
    else if s[0] == '\\' then
      match EscapeSequence(s[1..])
      case Fail => Fail
      case Done(c, more) =>
        (match ParseChars(more)
         case Fail => Fail
         case Done(t, rest) => Done([c] + t, rest))
    else if s[0] < 32 as char then Fail
    else
      match ParseChars(s[1..])
      case Fail => Fail
      case Done(t, rest) => Done([s[0]] + t, rest)
  }

  // ---------------------------------------------------------------- values

  function ParseValue(s: string): (r: Parse<Doc>)
    ensures r.Done? ==> |r.rest| < |s|
    decreases |s|, 2
  {
    var t := SkipSpace(s);
    if t == "" then Fail
    else if t[0] == '{' then
      var u := SkipSpace(t[1..]);
      if u != "" && u[0] == '}' then Done(DObj(map[]), u[1..])
      else
        match ParseMembers(t[1..])
        case Fail => Fail
        case Done(m, rest) => Done(DObj(m), rest)
    else if t[0] == '[' then
      var u := SkipSpace(t[1..]);
      if u != "" && u[0] == ']' then Done(DArr([]), u[1..])
      else
        match ParseElements(t[1..])
        case Fail => Fail
        case Done(ds, rest) => Done(DArr(ds), rest)
    else if t[0] == '"' then
      match ParseChars(t[1..])
      case Fail => Fail
      case Done(text, rest) => Done(DStr(text), rest)
    else if StartsWith(t, "null") then Done(DNull, t[4..])
    else if StartsWith(t, "true") then Done(DBool(true), t[4..])
    else if StartsWith(t, "false") then Done(DBool(false), t[5..])
    else
      match ParseInt(t)
      case Fail => Fail
      case Done(n, rest) => Done(DNum(n), rest)
  }

  /** One or more elements and the closing bracket. */
  function ParseElements(s: string): (r: Parse<seq<Doc>>)
    ensures r.Done? ==> |r.rest| < |s|
    decreases |s|, 3
  {
    match ParseValue(s)
    case Fail => Fail
    case Done(d, after) =>
      var t := SkipSpace(after);
      if t != "" && t[0] == ']' then Done([d], t[1..])
      else if t != "" && t[0] == ',' then
        match ParseElements(t[1..])
        case Fail => Fail
        case Done(ds, rest) => Done([d] + ds, rest)
      else Fail
  }

  /** One or more members and the closing brace; of repeated keys the last wins. */
  function ParseMembers(s: string): (r: Parse<map<string, Doc>>)
    ensures r.Done? ==> |r.rest| < |s|
    decreases |s|, 3
  {
    var t := SkipSpace(s);
    if t == "" || t[0] != '"' then Fail
    else
      match ParseChars(t[1..])
      case Fail => Fail
      case Done(key, afterKey) =>
        var u := SkipSpace(afterKey);
        if u == "" || u[0] != ':' then Fail
        else
          match ParseValue(u[1..])
          case Fail => Fail
          case Done(d, after) =>
            var w := SkipSpace(after);
            if w != "" && w[0] == '}' then Done(map[key := d], w[1..])
            else if w != "" && w[0] == ',' then
              match ParseMembers(w[1..])
              case Fail => Fail
              case Done(m, rest) => Done(map[key := d] + m, rest)
            else Fail
  }

  /** `JSON.parse` */
  function ParseJson(s: string): Option<Doc> {
    match ParseValue(s)
    case Done(d, rest) => if SkipSpace(rest) == "" then Some(d) else None
    case Fail => None
  }
}
