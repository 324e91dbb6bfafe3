/** What the two encodings look like, from the tables of their standards. */
module EncodingForm {
  import opened Common
  import opened Encoding

  // ---------------------------------------------------------------- UTF-8

  /** The six bits of a tail byte. */
  predicate Holds(b: int, bits: int) {
    b == 0x80 + bits && 0 <= bits < 64
  }

  /** The forms of section 3 of RFC 3629: as few bytes as the number allows, its bits in order. */
  predicate Utf8Form(n: int, bs: seq<int>) {
    match |bs|
    case 1 => 0 <= n < 0x80 && bs[0] == n
    case 2 => 0x80 <= n && 0xC0 <= bs[0] < 0xE0 && Holds(bs[1], n - (bs[0] - 0xC0) * 64)
    case 3 =>
      0x800 <= n && 0xE0 <= bs[0] < 0xF0 && 0x80 <= bs[1] < 0xC0
      && Holds(bs[2], n - (bs[0] - 0xE0) * 4096 - (bs[1] - 0x80) * 64)
    case 4 =>
      0x1_0000 <= n && 0xF0 <= bs[0] < 0xF8 && 0x80 <= bs[1] < 0xC0 && 0x80 <= bs[2] < 0xC0
      && Holds(bs[3], n - (bs[0] - 0xF0) * 262144 - (bs[1] - 0x80) * 4096 - (bs[2] - 0x80) * 64)
    case _ => false
  }

  lemma Utf8CharForm(c: char)
    ensures Utf8Form(c as int, Utf8Char(c))
  {
  }

  lemma {:induction false} Utf8Append(s: string, t: string)
    ensures Utf8(s + t) == Utf8(s) + Utf8(t)
  {
    if s == "" {
      assert s + t == t;
    } else {
      assert (s + t)[1..] == s[1..] + t;
      Utf8Append(s[1..], t);
    }
  }

  // ---------------------------------------------------------------- base64url

  /** Table 2 of RFC 4648. */
  const UPPER := "ABCDEFGHIJKLMNOPQRSTUVWXYZ"
  const LOWER := "abcdefghijklmnopqrstuvwxyz"
  const OTHER := "0123456789-_"
  const ALPHABET := UPPER + LOWER + OTHER

  lemma UpperAt(n: nat)
    requires n < 26
    ensures |UPPER| == 26 && UPPER[n] == 'A' + n as char
  {
  }

  lemma LowerAt(n: nat)
    requires n < 26
    ensures |LOWER| == 26 && LOWER[n] == 'a' + n as char
  {
  }

  lemma OtherAt(n: nat)
    requires n < 12
    ensures |OTHER| == 12 && OTHER[n] == if n < 10 then '0' + n as char else if n == 10 then '-' else '_'
  {
  }

  lemma AlphabetAt(n: Sextet)
    ensures |ALPHABET| == 64 && SextetChar(n) == ALPHABET[n]
  {
    UpperAt(if n < 26 then n else 0);
    LowerAt(if 26 <= n < 52 then n - 26 else 0);
    OtherAt(if 52 <= n then n - 52 else 0);
  }

  /** The text is that of these places in the alphabet. */
  predicate Spells(s: string, places: seq<int>) {
    |s| == |places| && forall i | 0 <= i < |s| :: 0 <= places[i] < |ALPHABET| && s[i] == ALPHABET[places[i]]
  }

  lemma GroupSpells(a: Byte, b: Byte, c: Byte, places: seq<int>)
    requires |places| == 4 && places[0] == a / 4 && places[1] == a % 4 * 16 + b / 16
    requires places[2] == b % 16 * 4 + c / 64 && places[3] == c % 64
    ensures Spells(Group(a, b, c), places)
  {
    AlphabetAt(places[0]);
    AlphabetAt(places[1]);
    AlphabetAt(places[2]);
    AlphabetAt(places[3]);
  }

  lemma Places(a: Byte, b: Byte, c: Byte) returns (places: seq<int>)
    ensures Spells(Group(a, b, c), places) && |places| == 4
    ensures places[0] * 262144 + places[1] * 4096 + places[2] * 64 + places[3] == a * 65536 + b * 256 + c
    ensures c == 0 ==> places[3] == 0 && (b == 0 ==> places[2] == 0)
  {
    SplitBytes(a, b, c);
    places := [a / 4, a % 4 * 16 + b / 16, b % 16 * 4 + c / 64, c % 64];
    GroupSpells(a, b, c, places);
  }

  /** Three bytes are four characters with the same bits in order; */
  lemma ThreeBytes(a: Byte, b: Byte, c: Byte) returns (places: seq<int>)
    ensures Spells(Base64url([a, b, c]), places) && |places| == 4
    ensures places[0] * 262144 + places[1] * 4096 + places[2] * 64 + places[3] == a * 65536 + b * 256 + c
  {
    places := Places(a, b, c);
    assert [a, b, c][3..] == [];
    assert Base64url([a, b, c]) == Group(a, b, c) + Base64url([]);
  }

  /** two are three, with two zero bits at the end, and one is two, with four. */
  lemma FewBytes(a: Byte, b: Byte) returns (two: seq<int>, one: seq<int>)
    ensures Spells(Base64url([a, b]), two) && |two| == 3 && two[0] * 4096 + two[1] * 64 + two[2] == (a * 256 + b) * 4
    ensures Spells(Base64url([a]), one) && |one| == 2 && one[0] * 64 + one[1] == a * 16
  {
    two := Places(a, b, 0);
    one := Places(a, 0, 0);
    two, one := two[..3], one[..2];
  }

  /** Longer texts are those of three bytes at a time. */
  lemma MoreBytes(bs: seq<Byte>)
    requires |bs| > 3
    ensures Base64url(bs) == Base64url(bs[..3]) + Base64url(bs[3..])
  {
    var g := bs[..3];
    assert g[3..] == [];
    assert Base64url(g) == Group(g[0], g[1], g[2]) + Base64url([]);
  }
}
