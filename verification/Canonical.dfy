/** JavaScript values as the signing code sees them, the data they stand for, and the
    deterministic printer `canonicalize` of packages/ucan/src/canonical.ts. */
module Canonical {
  import opened Common

  /** A JavaScript value. `Obj` lists its entries in `Object.keys` order; `Alien` is anything the
      printer rejects: a non-finite number, a function, a symbol or a bigint. */
  datatype Json =
    | Undefined
    | Null
    | Bool(b: bool)
    | Num(n: int)
    | Str(s: string)
    | Arr(items: seq<Json>)
    | Obj(fields: seq<Field>)
    | Alien

  datatype Field = Field(key: string, value: Json)

  /** The data a value stands for once undefined entries, key order and key spelling are
      abstracted away. */
  datatype Doc =
    | DNull
    | DBool(b: bool)
    | DNum(n: int)
    | DStr(s: string)
    | DArr(items: seq<Doc>)
    | DObj(members: map<string, Doc>)

  datatype PrintError = UndefinedValue | UnsupportedValue

  /** Unicode normalisation form C is foreign code: every result holds for any such function. */
  type Nfc = string -> string

  // ---------------------------------------------------------------- scalars

  function Digit(d: int): char
    requires 0 <= d < 10
  {
    '0' + d as char
  }

  function NatText(n: nat): (t: string)
    ensures |t| >= 1
  {
    if n < 10 then [Digit(n)] else NatText(n / 10) + [Digit(n % 10)]
  }

  function IntText(n: int): string {
    if n < 0 then "-" + NatText(-n) else NatText(n)
  }

  function HexDigit(d: int): char
    requires 0 <= d < 16
  {
    if d < 10 then '0' + d as char else 'a' + (d - 10) as char
  }

  /** One character inside a string literal, as `JSON.stringify` writes it. */
  function EscapeChar(c: char): (e: string)
    ensures |e| >= 1
  {
    if c == '"' then "\\\""
    else if c == '\\' then "\\\\"
    else if c == 8 as char then "\\b"
    else if c == 9 as char then "\\t"
    else if c == 10 as char then "\\n"
    else if c == 12 as char then "\\f"
    else if c == 13 as char then "\\r"
    else if c < 32 as char then "\\u00" + [HexDigit(c as int / 16), HexDigit(c as int % 16)]
    else [c]
  }

  function Escape(s: string): string {
    if s == "" then "" else EscapeChar(s[0]) + Escape(s[1..])
  }

  function StringText(s: string): string {
    "\"" + Escape(s) + "\""
  }

  // ---------------------------------------------------------------- objects

  /** Strict code-point order on strings, the comparison in the sort. */
  predicate Less(a: string, b: string) {
    if b == "" then false
    else if a == "" then true
    else a[0] < b[0] || (a[0] == b[0] && Less(a[1..], b[1..]))
  }

  predicate Kept(nfc: Nfc, f: Field, seen: set<string>) {
    !f.value.Undefined? && nfc(f.key) !in seen
  }

  /** The entries that get printed, keys normalised: undefined values are skipped and of several
      keys with one normal form the first wins. */
  function KeptPairs(nfc: Nfc, fields: seq<Field>, seen: set<string>): (r: seq<Field>)
    ensures forall p :: p in r ==> p.key !in seen && exists f :: f in fields && p.value == f.value
  {
    if fields == [] then []
    else
      var f := fields[0];
      if Kept(nfc, f, seen) then
        [Field(nfc(f.key), f.value)] + KeptPairs(nfc, fields[1..], seen + {nfc(f.key)})
      else KeptPairs(nfc, fields[1..], seen)
  }

  function Insert(p: Field, s: seq<Field>): (r: seq<Field>)
    ensures forall x :: x in r <==> x == p || x in s
  {
    if s == [] || Less(p.key, s[0].key) then [p] + s
    else [s[0]] + Insert(p, s[1..])
  }

  /** `pairs.sort` by key. */
  function SortPairs(s: seq<Field>): (r: seq<Field>)
    ensures forall x :: x in r <==> x in s
  {
    if s == [] then [] else Insert(s[0], SortPairs(s[1..]))
  }

  function SortedPairs(nfc: Nfc, fields: seq<Field>): (r: seq<Field>)
    ensures forall p :: p in r ==> p.value < Obj(fields)
  {
    SortPairs(KeptPairs(nfc, fields, {}))
  }

  /** The loop that collects an object's entries before they are sorted. */
  method CollectPairs(nfc: Nfc, fields: seq<Field>) returns (pairs: seq<Field>)
    ensures pairs == KeptPairs(nfc, fields, {})
  {
    var seen: set<string> := {};
    pairs := [];
    for i := 0 to |fields|
      invariant KeptPairs(nfc, fields, {}) == pairs + KeptPairs(nfc, fields[i..], seen)
    {
      assert fields[i..][1..] == fields[i + 1..];
      if fields[i].value.Undefined? {
        continue;
      }
      var normalized := nfc(fields[i].key);
      if normalized in seen {
        continue;
      }
      seen := seen + {normalized};
      pairs := pairs + [Field(normalized, fields[i].value)];
    }
  }

  // ---------------------------------------------------------------- the printer

  /** `canonicalize` */
  function Canonicalize(nfc: Nfc, v: Json): Result<string, PrintError>
    decreases v, 0
  {
    match v
    case Undefined => Failure(UndefinedValue)
    case Alien => Failure(UnsupportedValue)
    case Null => Success("null")
    case Bool(b) => Success(if b then "true" else "false")
    case Num(n) => Success(IntText(n))
    case Str(s) => Success(StringText(s))
    case Arr(items) =>
      (match CanonicalItems(nfc, items)
       case Failure(e) => Failure(e)
       case Success(body) => Success("[" + body + "]"))
    case Obj(fields) =>
      (match CanonicalPairs(nfc, SortedPairs(nfc, fields), v)
       case Failure(e) => Failure(e)
       case Success(body) => Success("{" + body + "}"))
  }

  /** The printed elements of an array, joined by commas. */
  function CanonicalItems(nfc: Nfc, items: seq<Json>): Result<string, PrintError>
    decreases items, 1
  {
    if items == [] then Success("")
    else
      match Canonicalize(nfc, items[0])
      case Failure(e) => Failure(e)
      case Success(head) =>
        match CanonicalItems(nfc, items[1..])
        case Failure(e) => Failure(e)
        case Success(tail) => Success(if |items| == 1 then head else head + "," + tail)
  }

  /** The printed entries of an object, joined by commas. */
  function CanonicalPairs(nfc: Nfc, pairs: seq<Field>, bound: Json): Result<string, PrintError>
    requires forall p :: p in pairs ==> p.value < bound
    decreases bound, 0, |pairs|
  {
    if pairs == [] then Success("")
    else
      match Canonicalize(nfc, pairs[0].value)
      case Failure(e) => Failure(e)
      case Success(text) =>
        match CanonicalPairs(nfc, pairs[1..], bound)
        case Failure(e) => Failure(e)
        case Success(tail) =>
          var head := StringText(pairs[0].key) + ":" + text;
          Success(if |pairs| == 1 then head else head + "," + tail)
  }

  // ---------------------------------------------------------------- the meaning

  /** The normalised keys of the entries that have a value. */
  function DefinedKeys(nfc: Nfc, fields: seq<Field>): set<string> {
    set f | f in fields && !f.value.Undefined? :: nfc(f.key)
  }

  /** The value of the first entry whose key normalises to `k`. */
  function Entry(nfc: Nfc, fields: seq<Field>, k: string): (v: Json)
    requires k in DefinedKeys(nfc, fields)
    ensures exists f :: f in fields && v == f.value
  {
    if !fields[0].value.Undefined? && nfc(fields[0].key) == k then fields[0].value
    else Entry(nfc, fields[1..], k)
  }

  /** The data a value stands for; none when the printer rejects the value. */
  function Meaning(nfc: Nfc, v: Json): Option<Doc>
    decreases v
  {
    match v
    case Undefined => None
    case Alien => None
    case Null => Some(DNull)
    case Bool(b) => Some(DBool(b))
    case Num(n) => Some(DNum(n))
    case Str(s) => Some(DStr(s))
    case Arr(items) =>
      if forall i | 0 <= i < |items| :: Meaning(nfc, items[i]).Some? then
        Some(DArr(seq(|items|, i requires 0 <= i < |items| && Meaning(nfc, items[i]).Some? =>
                                   Meaning(nfc, items[i]).value)))
      else None
    case Obj(fields) =>
      var keys := DefinedKeys(nfc, fields);
      if forall k | k in keys :: Meaning(nfc, Entry(nfc, fields, k)).Some? then
        Some(DObj(map k | k in keys :: Meaning(nfc, Entry(nfc, fields, k)).value))
      else None
  }

  // ---------------------------------------------------------------- sorting

  predicate SortedKeys(s: seq<Field>) {
    forall i, j | 0 <= i < j < |s| :: Less(s[i].key, s[j].key)
  }

  function Keys(s: seq<Field>): set<string> {
    set p | p in s :: p.key
  }

  lemma {:induction false} LessTransitive(a: string, b: string, c: string)
    requires Less(a, b) && Less(b, c)
    ensures Less(a, c)
  {
    if a != "" && a[0] == b[0] && b[0] == c[0] {
      LessTransitive(a[1..], b[1..], c[1..]);
    }
  }

  lemma {:induction false} LessTotal(a: string, b: string)
    ensures Less(a, b) || Less(b, a) || a == b
    ensures !(Less(a, b) && Less(b, a)) && !Less(a, a)
  {
    if a != "" && b != "" {
      LessTotal(a[1..], b[1..]);
      LessTotal(a[1..], a[1..]);
      if a[0] == b[0] && a[1..] == b[1..] {
        assert a == [a[0]] + a[1..] && b == [b[0]] + b[1..];
      }
    } else if a != "" {
      LessTotal(a[1..], a[1..]);
    }
  }

  /** Collection keeps exactly the defined keys, each once, each with its first value. */
  lemma {:induction false} KeptPairsSpec(nfc: Nfc, fields: seq<Field>, seen: set<string>)
    ensures Keys(KeptPairs(nfc, fields, seen)) == DefinedKeys(nfc, fields) - seen
    ensures forall p | p in KeptPairs(nfc, fields, seen) ::
              p.key in DefinedKeys(nfc, fields) && p.value == Entry(nfc, fields, p.key)
    ensures forall i, j | 0 <= i < j < |KeptPairs(nfc, fields, seen)| ::
              KeptPairs(nfc, fields, seen)[i].key != KeptPairs(nfc, fields, seen)[j].key
  {
    var r := KeptPairs(nfc, fields, seen);
    if fields != [] {
      var f := fields[0];
      var rest := fields[1..];
      assert fields == [f] + rest;
      var seen' := if Kept(nfc, f, seen) then seen + {nfc(f.key)} else seen;
      var r' := KeptPairs(nfc, rest, seen');
      KeptPairsSpec(nfc, rest, seen');
      assert DefinedKeys(nfc, fields) ==
             DefinedKeys(nfc, rest) + (if f.value.Undefined? then {} else {nfc(f.key)});
      if Kept(nfc, f, seen) {
        assert r == [Field(nfc(f.key), f.value)] + r';
        assert Keys(r) == {nfc(f.key)} + Keys(r');
      }
    }
  }

  lemma {:induction false} InsertSorted(p: Field, s: seq<Field>)
    requires SortedKeys(s) && p.key !in Keys(s)
    ensures SortedKeys(Insert(p, s))
  {
    if s != [] {
      LessTotal(p.key, s[0].key);
      if Less(p.key, s[0].key) {
        forall j | 0 <= j < |s| ensures Less(p.key, s[j].key) {
          if j > 0 {
            LessTransitive(p.key, s[0].key, s[j].key);
          }
        }
      } else {
        assert s[0] in s;
        InsertSorted(p, s[1..]);
        var t := Insert(p, s[1..]);
        forall j | 0 <= j < |t| ensures Less(s[0].key, t[j].key) {
          assert t[j] in t;
          assert t[j] == p || t[j] in s[1..];
        }
      }
    }
  }

  /** Sorting pairs with distinct keys yields the same pairs in strictly increasing key order. */
  lemma {:induction false} SortPairsSorted(s: seq<Field>)
    requires forall i, j | 0 <= i < j < |s| :: s[i].key != s[j].key
    ensures SortedKeys(SortPairs(s)) && Keys(SortPairs(s)) == Keys(s)
  {
    if s != [] {
      SortPairsSorted(s[1..]);
      InsertSorted(s[0], SortPairs(s[1..]));
    }
  }

  lemma SortedPairsSpec(nfc: Nfc, fields: seq<Field>)
    ensures var r := SortedPairs(nfc, fields);
            SortedKeys(r) && Keys(r) == DefinedKeys(nfc, fields)
            && forall p | p in r :: p.key in DefinedKeys(nfc, fields) && p.value == Entry(nfc, fields, p.key)
  {
    KeptPairsSpec(nfc, fields, {});
    SortPairsSorted(KeptPairs(nfc, fields, {}));
  }

  /** A strictly sorted list is determined by the set of its keys. */
  lemma {:induction false} SortedUnique(s: seq<Field>, t: seq<Field>)
    requires SortedKeys(s) && SortedKeys(t) && Keys(s) == Keys(t)
    ensures |s| == |t| && forall i | 0 <= i < |s| :: s[i].key == t[i].key
  {
    NoKeys(s);
    NoKeys(t);
    if s != [] {
      HeadLeast(s, t);
      HeadLeast(t, s);
      LessTotal(s[0].key, t[0].key);
      TailKeys(s);
      TailKeys(t);
      SortedUnique(s[1..], t[1..]);
    }
  }

  lemma NoKeys(s: seq<Field>)
    ensures s == [] <==> Keys(s) == {}
  {
    if s != [] {
      assert s[0].key in Keys(s);
    }
  }

  lemma HeadLeast(s: seq<Field>, t: seq<Field>)
    requires s != [] && t != [] && SortedKeys(s) && Keys(t) <= Keys(s)
    ensures s[0].key == t[0].key || Less(s[0].key, t[0].key)
  {
    assert t[0] in t;
    assert t[0].key in Keys(s);
  }

  lemma TailKeys(s: seq<Field>)
    requires s != [] && SortedKeys(s)
    ensures Keys(s[1..]) == Keys(s) - {s[0].key}
  {
    assert s == [s[0]] + s[1..];
    forall p | p in s[1..] ensures p.key != s[0].key {
      LessTotal(p.key, s[0].key);
    }
  }
}
