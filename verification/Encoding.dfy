/** UTF-8 (RFC 3629) and base64url without padding (section 5 of RFC 4648), the two encodings of
    packages/ucan/src/base64url.ts. */
module Encoding {
  import opened Common

  type Byte = b: int | 0 <= b < 256

  // ---------------------------------------------------------------- UTF-8

  function Utf8Char(c: char): (bs: seq<Byte>)
    ensures 1 <= |bs| <= 4
  {
    var n := c as int;
    if n < 0x80 then [n]
    else if n < 0x800 then [0xC0 + n / 64, 0x80 + n % 64]
    else if n < 0x1_0000 then [0xE0 + n / 64 / 64, 0x80 + n / 64 % 64, 0x80 + n % 64]
    else [0xF0 + n / 64 / 64 / 64, 0x80 + n / 64 / 64 % 64, 0x80 + n / 64 % 64, 0x80 + n % 64]
  }

  function Utf8(s: string): seq<Byte> {
    if s == "" then [] else Utf8Char(s[0]) + Utf8(s[1..])
  }

  predicate Tail(b: Byte) {
    0x80 <= b < 0xC0
  }

  function Two(a: int, b: int): int {
    (a - 0xC0) * 64 + (b - 0x80)
  }

  function Three(a: int, b: int, c: int): int {
    ((a - 0xE0) * 64 + (b - 0x80)) * 64 + (c - 0x80)
  }

  function Four(a: int, b: int, c: int, d: int): int {
    (((a - 0xF0) * 64 + (b - 0x80)) * 64 + (c - 0x80)) * 64 + (d - 0x80)
  }

  /** The character at the front of a byte sequence and the number of bytes it takes. */
  function Utf8Front(bs: seq<Byte>): (r: Option<(char, nat)>)
    ensures r.Some? ==> 1 <= r.value.1 <= |bs|
  {
    if bs == [] then None
    else if bs[0] < 0x80 then Some((bs[0] as char, 1))
    else if 0xC2 <= bs[0] < 0xE0 && |bs| >= 2 && Tail(bs[1]) then
      Some((Two(bs[0], bs[1]) as char, 2))
    else if 0xE0 <= bs[0] < 0xF0 && |bs| >= 3 && Tail(bs[1]) && Tail(bs[2]) then
      var n := Three(bs[0], bs[1], bs[2]);
      if 0x800 <= n < 0xD800 || 0xE000 <= n then Some((n as char, 3)) else None
    else if 0xF0 <= bs[0] < 0xF5 && |bs| >= 4 && Tail(bs[1]) && Tail(bs[2]) && Tail(bs[3]) then
      var n := Four(bs[0], bs[1], bs[2], bs[3]);
      if 0x1_0000 <= n < 0x11_0000 then Some((n as char, 4)) else None
    else None
  }

  function Utf8Decode(bs: seq<Byte>): Option<string>
    decreases |bs|
  {
    if bs == [] then Some("")
    else
      match Utf8Front(bs)
      case None => None
      case Some((c, n)) =>
        match Utf8Decode(bs[n..])
        case None => None
        case Some(s) => Some([c] + s)
  }

  lemma Utf8FrontOfChar(c: char, rest: seq<Byte>)
    ensures Utf8Front(Utf8Char(c) + rest) == Some((c, |Utf8Char(c)|))
  {
    var n := c as int;
    var es := Utf8Char(c);
    var bs := es + rest;
    assert |bs| >= |es| && forall i | 0 <= i < |es| :: bs[i] == es[i];
  }

  lemma {:induction false} Utf8RoundTrip(s: string)
    ensures Utf8Decode(Utf8(s)) == Some(s)
  {
    if s != "" {
      var c, rest := s[0], Utf8(s[1..]);
      Utf8FrontOfChar(c, rest);
      assert (Utf8Char(c) + rest)[|Utf8Char(c)|..] == rest;
      Utf8RoundTrip(s[1..]);
      assert s == [c] + s[1..];
    }
  }

  // ---------------------------------------------------------------- base64url

  type Sextet = b: int | 0 <= b < 64

  function SextetChar(n: Sextet): char {
    if n < 26 then 'A' + n as char
    else if n < 52 then 'a' + (n - 26) as char
    else if n < 62 then '0' + (n - 52) as char
    else if n == 62 then '-'
    else '_'
  }

  function CharSextet(c: char): Option<Sextet> {
    if 'A' <= c <= 'Z' then Some(c as int - 'A' as int)
    else if 'a' <= c <= 'z' then Some(c as int - 'a' as int + 26)
    else if '0' <= c <= '9' then Some(c as int - '0' as int + 52)
    else if c == '-' then Some(62)
    else if c == '_' then Some(63)
    else None
  }

  lemma SextetRoundTrip(n: Sextet)
    ensures CharSextet(SextetChar(n)) == Some(n) && SextetChar(n) != '.'
  {
  }

  function Group(a: Byte, b: Byte, c: Byte): string {
    [SextetChar(a / 4), SextetChar(a % 4 * 16 + b / 16), SextetChar(b % 16 * 4 + c / 64), SextetChar(c % 64)]
  }

  function Base64url(bs: seq<Byte>): string {
    if bs == [] then ""
    else if |bs| == 1 then Group(bs[0], 0, 0)[..2]
    else if |bs| == 2 then Group(bs[0], bs[1], 0)[..3]
    else Group(bs[0], bs[1], bs[2]) + Base64url(bs[3..])
  }

  function Base64urlDecode(s: string): Option<seq<Byte>> {
    if s == "" then Some([])
    else if |s| == 1 then None
    else
      match (CharSextet(s[0]), CharSextet(s[1]))
      case (Some(a), Some(b)) =>
        if |s| == 2 then Some([a * 4 + b / 16])
        else
          (match CharSextet(s[2])
           case None => None
           case Some(c) =>
             if |s| == 3 then Some([a * 4 + b / 16, b % 16 * 16 + c / 4])
             else
               match (CharSextet(s[3]), Base64urlDecode(s[4..]))
               case (Some(d), Some(rest)) => Some([a * 4 + b / 16, b % 16 * 16 + c / 4, c % 4 * 64 + d] + rest)
               case _ => None)
      case _ => None
  }

  lemma SplitBytes(a: Byte, b: Byte, c: Byte)
    ensures var s1, s2 := a % 4 * 16 + b / 16, b % 16 * 4 + c / 64;
            0 <= a / 4 < 64 && 0 <= s1 < 64 && 0 <= s2 < 64
            && a / 4 * 4 + s1 / 16 == a && s1 % 16 * 16 + s2 / 4 == b && s2 % 4 * 64 + c % 64 == c
  {
  }

  lemma GroupChars(a: Byte, b: Byte, c: Byte)
    ensures var g := Group(a, b, c);
            CharSextet(g[0]) == Some(a / 4) && CharSextet(g[1]) == Some(a % 4 * 16 + b / 16)
            && CharSextet(g[2]) == Some(b % 16 * 4 + c / 64) && CharSextet(g[3]) == Some(c % 64)
    ensures '.' !in Group(a, b, c)
  {
    SplitBytes(a, b, c);
    SextetRoundTrip(a / 4);
    SextetRoundTrip(a % 4 * 16 + b / 16);
    SextetRoundTrip(b % 16 * 4 + c / 64);
    SextetRoundTrip(c % 64);
  }

  lemma ReadGroup(a: Byte, b: Byte, c: Byte, more: string, bs: seq<Byte>)
    requires Base64urlDecode(more) == Some(bs)
    ensures Base64urlDecode(Group(a, b, c) + more) == Some([a, b, c] + bs)
  {
    GroupChars(a, b, c);
    SplitBytes(a, b, c);
    assert (Group(a, b, c) + more)[4..] == more;
  }

  lemma ReadLastGroup(a: Byte, b: Byte)
    ensures Base64urlDecode(Group(a, 0, 0)[..2]) == Some([a])
    ensures Base64urlDecode(Group(a, b, 0)[..3]) == Some([a, b])
  {
    GroupChars(a, 0, 0);
    GroupChars(a, b, 0);
    SplitBytes(a, 0, 0);
    SplitBytes(a, b, 0);
  }

  lemma {:induction false} Base64urlRoundTrip(bs: seq<Byte>)
    ensures Base64urlDecode(Base64url(bs)) == Some(bs)
  {
    if |bs| == 1 {
      ReadLastGroup(bs[0], 0);
      assert bs == [bs[0]];
    } else if |bs| == 2 {
      ReadLastGroup(bs[0], bs[1]);
      assert bs == [bs[0], bs[1]];
    } else if |bs| > 2 {
      Base64urlRoundTrip(bs[3..]);
      ReadGroup(bs[0], bs[1], bs[2], Base64url(bs[3..]), bs[3..]);
      assert bs == [bs[0], bs[1], bs[2]] + bs[3..];
    }
  }

  lemma {:induction false} Base64urlDotFree(bs: seq<Byte>)
    ensures '.' !in Base64url(bs)
  {
    if bs != [] {
      GroupChars(bs[0], if |bs| > 1 then bs[1] else 0, if |bs| > 2 then bs[2] else 0);
      if |bs| > 2 {
        Base64urlDotFree(bs[3..]);
      }
    }
  }

  /** Another text for the same bytes: the last character has low bits that no byte takes. */
  function Twin(bs: seq<Byte>): string
    requires |bs| % 3 != 0
  {
    if |bs| == 1 then [SextetChar(bs[0] / 4), SextetChar(bs[0] % 4 * 16 + 1)]
    else if |bs| == 2 then
      [SextetChar(bs[0] / 4), SextetChar(bs[0] % 4 * 16 + bs[1] / 16), SextetChar(bs[1] % 16 * 4 + 1)]
    else Group(bs[0], bs[1], bs[2]) + Twin(bs[3..])
  }

  lemma ReadTwo(a: Byte, low: int)
    requires 0 <= low < 16
    ensures var s := [SextetChar(a / 4), SextetChar(a % 4 * 16 + low)];
            Base64urlDecode(s) == Some([a]) && '.' !in s
  {
    SextetRoundTrip(a / 4);
    SextetRoundTrip(a % 4 * 16 + low);
  }

  lemma ReadThree(a: Byte, b: Byte, low: int)
    requires 0 <= low < 4
    ensures var s := [SextetChar(a / 4), SextetChar(a % 4 * 16 + b / 16), SextetChar(b % 16 * 4 + low)];
            Base64urlDecode(s) == Some([a, b]) && '.' !in s
  {
    SextetRoundTrip(a / 4);
    SextetRoundTrip(a % 4 * 16 + b / 16);
    SextetRoundTrip(b % 16 * 4 + low);
  }

  lemma OneTwin(a: Byte)
    ensures [SextetChar(a / 4), SextetChar(a % 4 * 16 + 1)] != Group(a, 0, 0)[..2]
  {
    SextetRoundTrip(a % 4 * 16);
    SextetRoundTrip(a % 4 * 16 + 1);
    assert Group(a, 0, 0)[..2][1] == SextetChar(a % 4 * 16);
  }

  lemma TwoTwin(a: Byte, b: Byte)
    ensures [SextetChar(a / 4), SextetChar(a % 4 * 16 + b / 16), SextetChar(b % 16 * 4 + 1)] != Group(a, b, 0)[..3]
  {
    SextetRoundTrip(b % 16 * 4);
    SextetRoundTrip(b % 16 * 4 + 1);
    assert Group(a, b, 0)[..3][2] == SextetChar(b % 16 * 4);
  }

  lemma SamePrefix(g: string, t: string, u: string)
    requires g + t == g + u
    ensures t == u
  {
    assert (g + t)[|g|..] == t && (g + u)[|g|..] == u;
  }

  /** A twin decodes to the same bytes and is a different text. */
  lemma {:induction false} TwinDecodes(bs: seq<Byte>)
    requires |bs| % 3 != 0
    ensures Twin(bs) != Base64url(bs) && Base64urlDecode(Twin(bs)) == Some(bs) && '.' !in Twin(bs)
  {
    if |bs| == 1 {
      ReadTwo(bs[0], 1);
      OneTwin(bs[0]);
      assert bs == [bs[0]];
    } else if |bs| == 2 {
      ReadThree(bs[0], bs[1], 1);
      TwoTwin(bs[0], bs[1]);
      assert bs == [bs[0], bs[1]];
    } else {
      TwinDecodes(bs[3..]);
      TwinGroup(bs, Group(bs[0], bs[1], bs[2]), Twin(bs[3..]), Base64url(bs[3..]));
    }
  }

  lemma TwinGroup(bs: seq<Byte>, g: string, t: string, u: string)
    requires |bs| >= 3 && g == Group(bs[0], bs[1], bs[2]) && t != u && Base64urlDecode(t) == Some(bs[3..]) && '.' !in t
    ensures g + t != g + u && Base64urlDecode(g + t) == Some(bs) && '.' !in g + t
  {
    GroupChars(bs[0], bs[1], bs[2]);
    ReadGroup(bs[0], bs[1], bs[2], t, bs[3..]);
    assert bs == [bs[0], bs[1], bs[2]] + bs[3..];
    if g + t == g + u {
      SamePrefix(g, t, u);
    }
  }

  lemma SextetOfChar(c: char)
    requires CharSextet(c).Some?
    ensures SextetChar(CharSextet(c).value) == c
  {
  }

  lemma Parts(q: int, r: int)
    ensures 0 <= r < 4 ==> (q * 4 + r) / 4 == q && (q * 4 + r) % 4 == r
    ensures 0 <= r < 16 ==> (q * 16 + r) / 16 == q && (q * 16 + r) % 16 == r
    ensures 0 <= r < 64 ==> (q * 64 + r) / 64 == q && (q * 64 + r) % 64 == r
  {
  }

  function FourSextets(a: Sextet, b: Sextet, c: Sextet, d: Sextet): (bs: seq<Byte>)
    ensures |bs| == 3
  {
    [a * 4 + b / 16, b % 16 * 16 + c / 4, c % 4 * 64 + d]
  }

  lemma SextetsBack(a: Sextet, b: Sextet, c: Sextet, d: Sextet)
    ensures var x, y, z := a * 4 + b / 16, b % 16 * 16 + c / 4, c % 4 * 64 + d;
            x / 4 == a && x % 4 * 16 + y / 16 == b && y % 16 * 4 + z / 64 == c && z % 64 == d
  {
    Parts(a, b / 16);
    Parts(b % 16, c / 4);
    Parts(c % 4, d);
    assert b / 16 * 16 + b % 16 == b;
    assert c / 4 * 4 + c % 4 == c;
  }

  lemma GroupIs(x: Byte, y: Byte, z: Byte, a: Sextet, b: Sextet, c: Sextet, d: Sextet)
    requires x / 4 == a && x % 4 * 16 + y / 16 == b && y % 16 * 4 + z / 64 == c && z % 64 == d
    ensures Group(x, y, z) == [SextetChar(a), SextetChar(b), SextetChar(c), SextetChar(d)]
  {
  }

  lemma GroupOf(a: Sextet, b: Sextet, c: Sextet, d: Sextet)
    ensures var bs := FourSextets(a, b, c, d);
            Group(bs[0], bs[1], bs[2]) == [SextetChar(a), SextetChar(b), SextetChar(c), SextetChar(d)]
  {
    SextetsBack(a, b, c, d);
    var bs := FourSextets(a, b, c, d);
    GroupIs(bs[0], bs[1], bs[2], a, b, c, d);
  }

  lemma FourChars(s: string)
    requires |s| >= 4 && Base64urlDecode(s).Some?
    ensures CharSextet(s[0]).Some? && CharSextet(s[1]).Some? && CharSextet(s[2]).Some? && CharSextet(s[3]).Some?
  {
  }

  lemma ReadFour(s: string, a: Sextet, b: Sextet, c: Sextet, d: Sextet, bs: seq<Byte>)
    requires |s| >= 4 && Base64urlDecode(s) == Some(bs)
    requires CharSextet(s[0]) == Some(a) && CharSextet(s[1]) == Some(b)
    requires CharSextet(s[2]) == Some(c) && CharSextet(s[3]) == Some(d)
    ensures |bs| >= 3 && Base64urlDecode(s[4..]) == Some(bs[3..])
    ensures [bs[0], bs[1], bs[2]] == FourSextets(a, b, c, d)
  {
    var rest := Base64urlDecode(s[4..]).value;
    assert bs[3..] == rest;
  }

  lemma CharsOfGroup(s: string, a: Sextet, b: Sextet, c: Sextet, d: Sextet)
    requires |s| == 4 && CharSextet(s[0]) == Some(a) && CharSextet(s[1]) == Some(b)
    requires CharSextet(s[2]) == Some(c) && CharSextet(s[3]) == Some(d)
    ensures s == [SextetChar(a), SextetChar(b), SextetChar(c), SextetChar(d)]
  {
    SextetOfChar(s[0]);
    SextetOfChar(s[1]);
    SextetOfChar(s[2]);
    SextetOfChar(s[3]);
  }

  lemma FirstFour(s: string, bs: seq<Byte>)
    requires |s| >= 4 && Base64urlDecode(s) == Some(bs)
    ensures |bs| >= 3 && Base64urlDecode(s[4..]) == Some(bs[3..]) && s[..4] == Group(bs[0], bs[1], bs[2])
  {
    FourChars(s);
    GroupRead(s, CharSextet(s[0]).value, CharSextet(s[1]).value, CharSextet(s[2]).value, CharSextet(s[3]).value, bs);
  }

  lemma GroupRead(s: string, a: Sextet, b: Sextet, c: Sextet, d: Sextet, bs: seq<Byte>)
    requires |s| >= 4 && Base64urlDecode(s) == Some(bs)
    requires CharSextet(s[0]) == Some(a) && CharSextet(s[1]) == Some(b)
    requires CharSextet(s[2]) == Some(c) && CharSextet(s[3]) == Some(d)
    ensures |bs| >= 3 && Base64urlDecode(s[4..]) == Some(bs[3..]) && s[..4] == Group(bs[0], bs[1], bs[2])
  {
    ReadFour(s, a, b, c, d, bs);
    CharsOfGroup(s[..4], a, b, c, d);
    GroupOf(a, b, c, d);
    assert bs[0] == FourSextets(a, b, c, d)[0] && bs[1] == FourSextets(a, b, c, d)[1];
    assert bs[2] == FourSextets(a, b, c, d)[2];
  }

  lemma ShortLength(s: string, bs: seq<Byte>)
    requires |s| < 4 && Base64urlDecode(s) == Some(bs)
    ensures |bs| == if s == "" then 0 else |s| - 1
  {
  }

  lemma ShortText(s: string, bs: seq<Byte>)
    requires Base64urlDecode(s) == Some(bs) && |bs| % 3 == 0
    ensures if bs == [] then s == "" else |s| >= 4
  {
    if |s| >= 4 {
      FirstFour(s, bs);
    } else {
      ShortLength(s, bs);
    }
  }

  lemma SameFirst(s: string, t: string, bs: seq<Byte>)
    requires |s| >= 4 && |t| >= 4 && Base64urlDecode(s) == Some(bs) && Base64urlDecode(t) == Some(bs)
    ensures s[..4] == t[..4] && |bs| >= 3
    ensures Base64urlDecode(s[4..]) == Some(bs[3..]) && Base64urlDecode(t[4..]) == Some(bs[3..])
  {
    FirstFour(s, bs);
    FirstFour(t, bs);
  }

  lemma Glue(s: string, t: string)
    requires |s| >= 4 && |t| >= 4 && s[..4] == t[..4] && s[4..] == t[4..]
    ensures s == t
  {
    assert s == s[..4] + s[4..] && t == t[..4] + t[4..];
  }

  /** Whole groups have one text only. */
  lemma {:induction false} WholeGroupsOneText(s: string, t: string, bs: seq<Byte>)
    requires Base64urlDecode(s) == Some(bs) && Base64urlDecode(t) == Some(bs) && |bs| % 3 == 0
    ensures s == t
  {
    ShortText(s, bs);
    ShortText(t, bs);
    if bs != [] {
      SameFirst(s, t, bs);
      WholeGroupsOneText(s[4..], t[4..], bs[3..]);
      Glue(s, t);
    }
  }

  /** Bytes have a second text exactly when their number is no multiple of three. */
  lemma TwinIff(bs: seq<Byte>)
    ensures (exists s :: s != Base64url(bs) && Base64urlDecode(s) == Some(bs)) <==> |bs| % 3 != 0
  {
    if |bs| % 3 != 0 {
      TwinDecodes(bs);
    } else {
      forall s | Base64urlDecode(s) == Some(bs) ensures s == Base64url(bs) {
        Base64urlRoundTrip(bs);
        WholeGroupsOneText(s, Base64url(bs), bs);
      }
    }
  }

  // ---------------------------------------------------------------- text

  /** `stringToBase64url` */
  function EncodeText(s: string): string {
    Base64url(Utf8(s))
  }

  /** `base64urlToString` */
  function DecodeText(s: string): Option<string> {
    match Base64urlDecode(s)
    case None => None
    case Some(bs) => Utf8Decode(bs)
  }

  /** Encoded text has no dot and decodes to the text it came from. */
  lemma EncodeTextRoundTrip(s: string)
    ensures DecodeText(EncodeText(s)) == Some(s)
    ensures '.' !in EncodeText(s)
  {
    Base64urlRoundTrip(Utf8(s));
    Base64urlDotFree(Utf8(s));
    Utf8RoundTrip(s);
  }
}
