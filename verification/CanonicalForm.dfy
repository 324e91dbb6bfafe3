/** What canonical text looks like: the order of an object's members, by the characters of their keys, and
    that no text of the same data is shorter. */
module CanonicalForm {
  import opened Common
  import opened Canonical
  import opened CanonicalTheorems
  import opened JsonText

  // ---------------------------------------------------------------- order

  /** Up to `n` the keys agree; there `a` ends or has the smaller character. */
  predicate DiffersAt(a: string, b: string, n: nat) {
    n <= |a| && n < |b| && a[..n] == b[..n] && (n == |a| || a[n] < b[n])
  }

  lemma DiffersLater(a: string, b: string, n: nat)
    requires a != "" && b != "" && a[0] == b[0] && DiffersAt(a[1..], b[1..], n)
    ensures DiffersAt(a, b, n + 1)
  {
    assert a[..n + 1] == [a[0]] + a[1..][..n] && b[..n + 1] == [b[0]] + b[1..][..n];
  }

  lemma DiffersSooner(a: string, b: string, n: nat)
    requires DiffersAt(a, b, n) && n > 0
    ensures a[0] == b[0] && DiffersAt(a[1..], b[1..], n - 1)
  {
    assert a[0] == a[..n][0] == b[..n][0];
    assert a[1..][..n - 1] == a[..n][1..] && b[1..][..n - 1] == b[..n][1..];
  }

  ghost predicate Before(a: string, b: string) {
    exists n: nat :: DiffersAt(a, b, n)
  }

  /** The comparison is the lexicographic order of the characters, a proper prefix before its extensions. */
  lemma {:induction false} LessIff(a: string, b: string)
    ensures Less(a, b) <==> Before(a, b)
  {
    if a != "" && b != "" {
      LessIff(a[1..], b[1..]);
      if Less(a, b) {
        if a[0] < b[0] {
          assert DiffersAt(a, b, 0);
        } else {
          var n: nat :| DiffersAt(a[1..], b[1..], n);
          DiffersLater(a, b, n);
        }
      }
      if n: nat :| DiffersAt(a, b, n) {
        if n > 0 {
          DiffersSooner(a, b, n);
        }
      }
    } else if b != "" {
      assert DiffersAt(a, b, 0);
    }
  }

  /** Entry `i` is printed: it has a value, and no earlier entry with a value has its normalised key. */
  predicate Wins(nfc: Nfc, fields: seq<Field>, i: nat)
    requires i < |fields|
  {
    !fields[i].value.Undefined?
    && forall j | 0 <= j < i :: fields[j].value.Undefined? || nfc(fields[j].key) != nfc(fields[i].key)
  }

  lemma {:induction false} EntryWins(nfc: Nfc, fields: seq<Field>, k: string) returns (i: nat)
    requires k in DefinedKeys(nfc, fields)
    ensures i < |fields| && Wins(nfc, fields, i) && nfc(fields[i].key) == k && Entry(nfc, fields, k) == fields[i].value
  {
    if !fields[0].value.Undefined? && nfc(fields[0].key) == k {
      i := 0;
    } else {
      var rest := fields[1..];
      var f :| f in fields && !f.value.Undefined? && nfc(f.key) == k;
      assert f in rest;
      var n := EntryWins(nfc, rest, k);
      i := n + 1;
      forall j | 0 <= j < i ensures fields[j].value.Undefined? || nfc(fields[j].key) != nfc(fields[i].key) {
        if j > 0 {
          assert fields[j] == rest[j - 1];
        }
      }
    }
  }

  lemma WinnerIsEntry(nfc: Nfc, fields: seq<Field>, i: nat)
    requires i < |fields| && Wins(nfc, fields, i)
    ensures nfc(fields[i].key) in DefinedKeys(nfc, fields)
    ensures Entry(nfc, fields, nfc(fields[i].key)) == fields[i].value
  {
    assert fields[i] in fields;
    var k := nfc(fields[i].key);
    var w := EntryWins(nfc, fields, k);
    assert w == i;
  }

  /** The keys ascend. */
  ghost predicate Ascending(pairs: seq<Field>) {
    forall i, j | 0 <= i < j < |pairs| :: Before(pairs[i].key, pairs[j].key)
  }

  /** The entries are the winners, with their keys normalised. */
  predicate AreWinners(nfc: Nfc, fields: seq<Field>, pairs: seq<Field>) {
    (forall p :: p in pairs ==> exists i :: 0 <= i < |fields| && IsWinner(nfc, fields, i, p))
    && (forall i | 0 <= i < |fields| && Wins(nfc, fields, i) :: Field(nfc(fields[i].key), fields[i].value) in pairs)
  }

  predicate IsWinner(nfc: Nfc, fields: seq<Field>, i: nat, p: Field)
    requires i < |fields|
  {
    Wins(nfc, fields, i) && p == Field(nfc(fields[i].key), fields[i].value)
  }

  lemma WinnerPrinted(nfc: Nfc, fields: seq<Field>, i: nat, r: seq<Field>)
    requires i < |fields| && Wins(nfc, fields, i) && r == SortedPairs(nfc, fields)
    ensures Field(nfc(fields[i].key), fields[i].value) in r
  {
    SortedPairsSpec(nfc, fields);
    WinnerIsEntry(nfc, fields, i);
    assert nfc(fields[i].key) in Keys(r);
    var p :| p in r && p.key == nfc(fields[i].key);
  }

  lemma PrintedWins(nfc: Nfc, fields: seq<Field>, r: seq<Field>, p: Field) returns (i: nat)
    requires r == SortedPairs(nfc, fields) && p in r
    ensures i < |fields| && IsWinner(nfc, fields, i, p)
  {
    SortedPairsSpec(nfc, fields);
    i := EntryWins(nfc, fields, p.key);
  }

  lemma SortedAscends(r: seq<Field>)
    requires SortedKeys(r)
    ensures Ascending(r)
  {
    forall i, j | 0 <= i < j < |r| ensures Before(r[i].key, r[j].key) {
      LessIff(r[i].key, r[j].key);
    }
  }

  lemma SortedWinners(nfc: Nfc, fields: seq<Field>, r: seq<Field>)
    requires r == SortedPairs(nfc, fields)
    ensures AreWinners(nfc, fields, r)
  {
    forall p | p in r ensures exists i :: 0 <= i < |fields| && IsWinner(nfc, fields, i, p) {
      var i := PrintedWins(nfc, fields, r, p);
    }
    forall i | 0 <= i < |fields| && Wins(nfc, fields, i) ensures Field(nfc(fields[i].key), fields[i].value) in r {
      WinnerPrinted(nfc, fields, i, r);
    }
  }

  /** The printed entries are exactly the winners, in the order of their keys. */
  lemma PrintedEntries(nfc: Nfc, fields: seq<Field>, r: seq<Field>)
    requires r == SortedPairs(nfc, fields)
    ensures AreWinners(nfc, fields, r) && Ascending(r)
  {
    SortedPairsSpec(nfc, fields);
    SortedAscends(r);
    SortedWinners(nfc, fields, r);
  }

  /** The text of each printed entry: the key as a string literal, a colon, the value. */
  predicate EntryTexts(nfc: Nfc, pairs: seq<Field>, texts: seq<string>) {
    |texts| == |pairs|
    && forall i | 0 <= i < |pairs| ::
         Canonicalize(nfc, pairs[i].value).Success?
         && texts[i] == "\"" + Escape(pairs[i].key) + "\":" + Canonicalize(nfc, pairs[i].value).value
  }

  lemma {:induction false} PairsJoined(nfc: Nfc, pairs: seq<Field>, bound: Json) returns (texts: seq<string>)
    requires forall p :: p in pairs ==> p.value < bound
    requires CanonicalPairs(nfc, pairs, bound).Success?
    ensures EntryTexts(nfc, pairs, texts) && CanonicalPairs(nfc, pairs, bound).value == Join(texts, ",")
    decreases |pairs|
  {
    if pairs == [] {
      texts := [];
    } else {
      var rest := PairsJoined(nfc, pairs[1..], bound);
      var text := Canonicalize(nfc, pairs[0].value).value;
      var first := "\"" + Escape(pairs[0].key) + "\":" + text;
      assert first == StringText(pairs[0].key) + ":" + text;
      texts := [first] + rest;
      assert texts[1..] == rest;
    }
  }

  /** The text of an object: in braces, between commas, its winning entries by ascending key. */
  lemma ObjectText(nfc: Nfc, fields: seq<Field>) returns (pairs: seq<Field>, texts: seq<string>)
    requires Canonicalize(nfc, Obj(fields)).Success?
    ensures Canonicalize(nfc, Obj(fields)).value == "{" + Join(texts, ",") + "}"
    ensures EntryTexts(nfc, pairs, texts) && AreWinners(nfc, fields, pairs) && Ascending(pairs)
  {
    pairs := SortedPairs(nfc, fields);
    texts := PairsJoined(nfc, pairs, Obj(fields));
    PrintedEntries(nfc, fields, pairs);
  }

  // ---------------------------------------------------------------- no shorter text

  lemma {:induction false} DigitsShortest(d: string)
    requires d != "" && forall c :: c in d ==> IsDigit(c)
    ensures |NatText(DigitsValue(d))| <= |d|
  {
    var init := d[..|d| - 1];
    if init == "" {
      assert d[|d| - 1] in d && DigitsValue(init) == 0 && DigitsValue(d) < 10;
    } else {
      DigitsShortest(init);
      assert d[|d| - 1] in d;
      NatTextStep(DigitsValue(init), DigitsValue(d));
    }
  }

  lemma NatTextStep(q: nat, n: nat)
    requires q * 10 <= n < q * 10 + 10
    ensures |NatText(n)| <= |NatText(q)| + 1
  {
    assert n >= 10 ==> n / 10 == q;
  }

  lemma NatShortest(s: string)
    requires ParseNat(s).Done?
    ensures |NatText(ParseNat(s).value)| <= |s| - |ParseNat(s).rest|
  {
    DigitRunDigits(s);
    DigitsShortest(s[..DigitRun(s)]);
  }

  lemma IntShortest(s: string)
    requires ParseInt(s).Done?
    ensures |IntText(ParseInt(s).value)| <= |s| - |ParseInt(s).rest|
  {
    NatShortest(if s != "" && s[0] == '-' then s[1..] else s);
  }

  lemma EscapeShortest(s: string)
    requires EscapeSequence(s).Done?
    ensures |EscapeChar(EscapeSequence(s).value)| <= 1 + |s| - |EscapeSequence(s).rest|
  {
    if s[0] == 'u' {
      assert |UnicodeEscape(s[1..]).rest| <= |s| - 5;
    }
  }

  lemma EscapeCons(c: char, t: string)
    ensures Escape([c] + t) == EscapeChar(c) + Escape(t)
  {
    assert ([c] + t)[1..] == t;
  }

  /** A string literal, with its closing quote. */
  lemma {:induction false} CharsShortest(s: string)
    requires ParseChars(s).Done?
    ensures |Escape(ParseChars(s).value)| + 1 <= |s| - |ParseChars(s).rest|
    decreases |s|
  {
    if s[0] == '\\' {
      var e := EscapeSequence(s[1..]);
      EscapeShortest(s[1..]);
      CharsShortest(e.rest);
      EscapeCons(e.value, ParseChars(e.rest).value);
    } else if s[0] != '"' {
      CharsShortest(s[1..]);
      EscapeCons(s[0], ParseChars(s[1..]).value);
    }
  }

  /** The length of entries, each with the comma or brace after it. */
  function EntriesLength(nfc: Nfc, ps: seq<Field>): nat
    requires forall p :: p in ps ==> Canonicalize(nfc, p.value).Success?
  {
    if ps == [] then 0
    else |StringText(ps[0].key)| + 1 + |Canonicalize(nfc, ps[0].value).value| + 1 + EntriesLength(nfc, ps[1..])
  }

  function Without<T>(xs: seq<T>, i: nat): seq<T>
    requires i < |xs|
  {
    xs[..i] + xs[i + 1..]
  }

  lemma {:induction false} EntriesLengthWithout(nfc: Nfc, ps: seq<Field>, i: nat)
    requires forall p :: p in ps ==> Canonicalize(nfc, p.value).Success?
    requires i < |ps|
    ensures forall p :: p in Without(ps, i) ==> p in ps
    ensures EntriesLength(nfc, ps)
            == EntriesLength(nfc, Without(ps, i))
               + |StringText(ps[i].key)| + 2 + |Canonicalize(nfc, ps[i].value).value|
  {
    if i == 0 {
      assert Without(ps, 0) == ps[1..];
    } else {
      EntriesLengthWithout(nfc, ps[1..], i - 1);
      var less := Without(ps, i);
      assert less[0] == ps[0] && less[1..] == Without(ps[1..], i - 1);
    }
  }

  lemma {:induction false} PairsLength(nfc: Nfc, pairs: seq<Field>, bound: Json)
    requires forall p :: p in pairs ==> p.value < bound
    requires CanonicalPairs(nfc, pairs, bound).Success?
    ensures forall p :: p in pairs ==> Canonicalize(nfc, p.value).Success?
    ensures |CanonicalPairs(nfc, pairs, bound).value| + (if pairs == [] then 0 else 1) == EntriesLength(nfc, pairs)
    decreases |pairs|
  {
    if pairs != [] {
      PairsLength(nfc, pairs[1..], bound);
      assert pairs == [pairs[0]] + pairs[1..];
    }
  }

  predicate KeysDiffer(ps: seq<Field>) {
    forall i, j | 0 <= i < j < |ps| :: ps[i].key != ps[j].key
  }

  /** The entries stand for the members: each is one, and there are no others. */
  predicate StandFor(nfc: Nfc, ps: seq<Field>, m: map<string, Doc>) {
    (forall p :: p in ps ==>
                   Canonicalize(nfc, p.value).Success? && p.key in m && Meaning(nfc, p.value) == Some(m[p.key]))
    && m.Keys == Keys(ps) && KeysDiffer(ps)
  }

  lemma WithoutKey(ps: seq<Field>, i: nat)
    requires i < |ps| && KeysDiffer(ps)
    ensures KeysDiffer(Without(ps, i))
    ensures forall p :: p in Without(ps, i) ==> p in ps && p.key != ps[i].key
  {
    var less := Without(ps, i);
    assert forall j | 0 <= j < |less| :: less[j] == ps[if j < i then j else j + 1];
  }

  lemma KeysWithout(ps: seq<Field>, i: nat)
    requires i < |ps| && KeysDiffer(ps)
    ensures Keys(Without(ps, i)) == Keys(ps) - {ps[i].key}
  {
    WithoutKey(ps, i);
    var less := Without(ps, i);
    forall p | p in ps && p.key != ps[i].key ensures p in less {
      var j :| 0 <= j < |ps| && ps[j] == p;
      assert less[if j < i then j else j - 1] == p;
    }
  }

  lemma FewerStandFor(nfc: Nfc, ps: seq<Field>, i: nat, d: Doc, more: map<string, Doc>)
    requires i < |ps| && ps[i].key !in more && StandFor(nfc, ps, map[ps[i].key := d] + more)
    ensures StandFor(nfc, Without(ps, i), more) && Meaning(nfc, ps[i].value) == Some(d)
  {
    assert ps[i] in ps;
    WithoutKey(ps, i);
    KeysWithout(ps, i);
    assert more.Keys == (map[ps[i].key := d] + more).Keys - {ps[i].key};
  }

  lemma SameStandFor(nfc: Nfc, ps: seq<Field>, key: string, d: Doc, more: map<string, Doc>)
    requires key in more && StandFor(nfc, ps, map[key := d] + more)
    ensures StandFor(nfc, ps, more)
  {
    assert map[key := d] + more == more;
  }

  lemma FirstTwoDiffer(ps: seq<Field>)
    requires KeysDiffer(ps) && |ps| >= 2
    ensures ps[0] in ps && ps[1] in ps && ps[0].key != ps[1].key
  {
  }

  lemma OneStandsFor(nfc: Nfc, ps: seq<Field>, key: string, d: Doc)
    requires StandFor(nfc, ps, map[key := d])
    ensures |ps| == 1 && ps[0].key == key && Meaning(nfc, ps[0].value) == Some(d)
  {
    if |ps| >= 2 {
      FirstTwoDiffer(ps);
    }
    assert key in Keys(ps);
    assert forall i | 0 <= i < |ps| :: ps[i] in ps && ps[i].key == key;
  }

  lemma EntryFor(ps: seq<Field>, key: string) returns (i: nat)
    requires key in Keys(ps)
    ensures i < |ps| && ps[i].key == key
  {
    var p :| p in ps && p.key == key;
    i :| 0 <= i < |ps| && ps[i] == p;
  }

  // ---------------------------------------------------------------- texts of values

  lemma KeyShortest(t: string)
    requires t != "" && t[0] == '"' && ParseChars(t[1..]).Done?
    ensures |StringText(ParseChars(t[1..]).value)| <= |t| - |ParseChars(t[1..]).rest|
  {
    CharsShortest(t[1..]);
  }

  lemma ScalarShortest(nfc: Nfc, v: Json, s: string)
    requires Canonicalize(nfc, v).Success? && ParseValue(s).Done? && Meaning(nfc, v) == Some(ParseValue(s).value)
    requires !v.Arr? && !v.Obj?
    ensures |Canonicalize(nfc, v).value| <= |s| - |ParseValue(s).rest|
  {
    var t := SkipSpace(s);
    if v.Num? {
      IntShortest(t);
    } else if v.Str? {
      KeyShortest(t);
    }
  }

  /** No text that is read as a value's data is shorter than its canonical text. */
  lemma {:induction false} ValueShortest(nfc: Nfc, v: Json, s: string)
    requires Canonicalize(nfc, v).Success? && ParseValue(s).Done? && Meaning(nfc, v) == Some(ParseValue(s).value)
    ensures |Canonicalize(nfc, v).value| <= |s| - |ParseValue(s).rest|
    decreases |s|, 4
  {
    if v.Arr? {
      ArrayShortest(nfc, v.items, s);
    } else if v.Obj? {
      ObjectShortest(nfc, v.fields, s);
    } else {
      ScalarShortest(nfc, v, s);
    }
  }

  /** The elements have the given data, in order. */
  predicate ItemsMean(nfc: Nfc, items: seq<Json>, ds: seq<Doc>) {
    |items| == |ds| && forall i | 0 <= i < |ds| :: Meaning(nfc, items[i]) == Some(ds[i])
  }

  lemma ArrayRead(s: string, ds: seq<Doc>) returns (t: string)
    requires ParseValue(s).Done? && ParseValue(s).value == DArr(ds)
    ensures |t| < |s|
    ensures if ds == [] then |ParseValue(s).rest| + 2 <= |s|
            else ParseElements(t) == Done(ds, ParseValue(s).rest)
  {
    t := SkipSpace(s)[1..];
  }

  lemma {:induction false} ArrayShortest(nfc: Nfc, items: seq<Json>, s: string)
    requires Canonicalize(nfc, Arr(items)).Success? && ParseValue(s).Done?
    requires Meaning(nfc, Arr(items)) == Some(ParseValue(s).value)
    ensures |Canonicalize(nfc, Arr(items)).value| <= |s| - |ParseValue(s).rest|
    decreases |s|, 3
  {
    var ds := ParseValue(s).value.items;
    var t := ArrayRead(s, ds);
    if items != [] {
      ItemsShortest(nfc, items, t);
    }
  }

  lemma ItemsTail(nfc: Nfc, items: seq<Json>, ds: seq<Doc>)
    requires ItemsMean(nfc, items, ds) && ds != []
    ensures Meaning(nfc, items[0]) == Some(ds[0]) && ItemsMean(nfc, items[1..], ds[1..])
  {
    assert forall i | 0 <= i < |ds| - 1 :: items[1..][i] == items[i + 1] && ds[1..][i] == ds[i + 1];
  }

  lemma {:induction false} ItemsShortest(nfc: Nfc, items: seq<Json>, s: string)
    requires CanonicalItems(nfc, items).Success? && ParseElements(s).Done?
    requires ItemsMean(nfc, items, ParseElements(s).value)
    ensures |CanonicalItems(nfc, items).value| + 1 <= |s| - |ParseElements(s).rest|
    decreases |s|, 5
  {
    var first := ParseValue(s);
    var t := SkipSpace(first.rest);
    var more := if t[0] == ']' then [] else ParseElements(t[1..]).value;
    assert ParseElements(s).value[1..] == more;
    ItemsTail(nfc, items, ParseElements(s).value);
    ValueShortest(nfc, items[0], s);
    if t[0] != ']' {
      ItemsShortest(nfc, items[1..], t[1..]);
    }
  }

  lemma ObjectRead(s: string, m: map<string, Doc>) returns (t: string)
    requires ParseValue(s).Done? && ParseValue(s).value == DObj(m)
    ensures |t| < |s|
    ensures if m == map[] then |ParseValue(s).rest| + 2 <= |s|
            else ParseMembers(t) == Done(m, ParseValue(s).rest)
  {
    t := SkipSpace(s)[1..];
  }

  lemma {:induction false} ObjectShortest(nfc: Nfc, fields: seq<Field>, s: string)
    requires Canonicalize(nfc, Obj(fields)).Success? && ParseValue(s).Done?
    requires Meaning(nfc, Obj(fields)) == Some(ParseValue(s).value)
    ensures |Canonicalize(nfc, Obj(fields)).value| <= |s| - |ParseValue(s).rest|
    decreases |s|, 3
  {
    var m := ParseValue(s).value.members;
    var pairs := SortedPairs(nfc, fields);
    var t := ObjectRead(s, m);
    PairsLength(nfc, pairs, Obj(fields));
    SortedStandFor(nfc, fields, pairs, m);
    if pairs != [] {
      assert pairs[0] in pairs && m != map[];
      MembersShortest(nfc, pairs, t);
    }
  }

  lemma SortedStandFor(nfc: Nfc, fields: seq<Field>, pairs: seq<Field>, m: map<string, Doc>)
    requires pairs == SortedPairs(nfc, fields) && Meaning(nfc, Obj(fields)) == Some(DObj(m))
    requires forall p :: p in pairs ==> Canonicalize(nfc, p.value).Success?
    ensures StandFor(nfc, pairs, m)
  {
    ObjectMembers(nfc, fields);
    SortedPairsSpec(nfc, fields);
    forall i, j | 0 <= i < j < |pairs| ensures pairs[i].key != pairs[j].key {
      LessTotal(pairs[i].key, pairs[j].key);
    }
  }

  lemma {:induction false} MembersShortest(nfc: Nfc, ps: seq<Field>, s: string)
    requires ParseMembers(s).Done? && StandFor(nfc, ps, ParseMembers(s).value)
    ensures EntriesLength(nfc, ps) <= |s| - |ParseMembers(s).rest|
    decreases |s|, 5
  {
    var t := SkipSpace(s);
    var key := ParseChars(t[1..]);
    var u := SkipSpace(key.rest);
    var first := ParseValue(u[1..]);
    var w := SkipSpace(first.rest);
    KeyShortest(t);
    if w[0] == '}' {
      OneStandsFor(nfc, ps, key.value, first.value);
      ValueShortest(nfc, ps[0].value, u[1..]);
    } else {
      var more := ParseMembers(w[1..]).value;
      if key.value in more {
        SameStandFor(nfc, ps, key.value, first.value, more);
        MembersShortest(nfc, ps, w[1..]);
      } else {
        assert key.value in (map[key.value := first.value] + more).Keys;
        var i := EntryFor(ps, key.value);
        FewerStandFor(nfc, ps, i, first.value, more);
        ValueShortest(nfc, ps[i].value, u[1..]);
        MembersShortest(nfc, Without(ps, i), w[1..]);
        EntriesLengthWithout(nfc, ps, i);
      }
    }
  }

  /** Canonical text is a shortest JSON text of its data: no blanks, no longer escapes, no spare digits. */
  lemma CanonicalShortest(nfc: Nfc, v: Json, text: string)
    requires Canonicalize(nfc, v).Success? && ParseJson(text) == Meaning(nfc, v)
    ensures |Canonicalize(nfc, v).value| <= |text|
  {
    CanonicalizeSucceeds(nfc, v);
    ValueShortest(nfc, v, text);
  }

  /** Of the two spellings of an escape's hex digits it is the one in small letters. */
  lemma EscapesSmall(c: char)
    requires c < 32 as char
    ensures forall x :: x in EscapeChar(c) ==> !('A' <= x <= 'Z')
  {
  }

  // ---------------------------------------------------------------- errors

  /** The first of the values that cannot be printed, and why. */
  ghost predicate FirstFailing(nfc: Nfc, items: seq<Json>, e: PrintError) {
    exists i :: 0 <= i < |items| && Canonicalize(nfc, items[i]) == Failure(e)
                && forall j | 0 <= j < i :: Canonicalize(nfc, items[j]).Success?
  }

  lemma FirstFailingTail(nfc: Nfc, items: seq<Json>, e: PrintError)
    requires items != []
    ensures FirstFailing(nfc, items, e)
            <==> Canonicalize(nfc, items[0]) == Failure(e)
                 || (Canonicalize(nfc, items[0]).Success? && FirstFailing(nfc, items[1..], e))
  {
    var tail := items[1..];
    if i :| 0 < i < |items| && Canonicalize(nfc, items[i]) == Failure(e)
            && forall j | 0 <= j < i :: Canonicalize(nfc, items[j]).Success? {
      assert tail[i - 1] == items[i] && forall j | 0 <= j < i - 1 :: tail[j] == items[j + 1];
    }
    if i :| 0 <= i < |tail| && Canonicalize(nfc, tail[i]) == Failure(e)
            && forall j | 0 <= j < i :: Canonicalize(nfc, tail[j]).Success? {
      assert items[i + 1] == tail[i] && forall j | 0 < j < i + 1 :: items[j] == tail[j - 1];
    }
  }

  lemma {:induction false} ItemsFail(nfc: Nfc, items: seq<Json>, e: PrintError)
    ensures CanonicalItems(nfc, items) == Failure(e) <==> FirstFailing(nfc, items, e)
  {
    if items != [] {
      FirstFailingTail(nfc, items, e);
      ItemsFail(nfc, items[1..], e);
    }
  }

  function Values(pairs: seq<Field>): (vs: seq<Json>)
    ensures |vs| == |pairs| && forall i | 0 <= i < |pairs| :: vs[i] == pairs[i].value
  {
    seq(|pairs|, i requires 0 <= i < |pairs| => pairs[i].value)
  }

  lemma {:induction false} PairsFail(nfc: Nfc, pairs: seq<Field>, bound: Json, e: PrintError)
    requires forall p :: p in pairs ==> p.value < bound
    ensures CanonicalPairs(nfc, pairs, bound) == Failure(e) <==> FirstFailing(nfc, Values(pairs), e)
    decreases |pairs|
  {
    if pairs != [] {
      FirstFailingTail(nfc, Values(pairs), e);
      PairsFail(nfc, pairs[1..], bound, e);
      assert Values(pairs)[1..] == Values(pairs[1..]);
    }
  }

  /** Printing fails on undefined with one error, on what is no JSON with the other, and on an array or an object with
      that of its first element that fails: of an object, by ascending key. */
  lemma PrintFails(nfc: Nfc, v: Json, e: PrintError)
    ensures Canonicalize(nfc, v) == Failure(e)
            <==> match v
                 case Undefined => e == UndefinedValue
                 case Alien => e == UnsupportedValue
                 case Arr(items) => FirstFailing(nfc, items, e)
                 case Obj(fields) => FirstFailing(nfc, Values(SortedPairs(nfc, fields)), e)
                 case _ => false
  {
    match v
    case Arr(items) => ItemsFail(nfc, items, e);
    case Obj(fields) => PairsFail(nfc, SortedPairs(nfc, fields), v, e);
    case _ =>
  }
}
