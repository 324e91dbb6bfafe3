/** The canonical printer is unambiguous: its text reads back as the data, so two values print alike
    exactly when they stand for the same data. */
module CanonicalTheorems {
  import opened Common
  import opened Canonical
  import opened JsonText

  // ---------------------------------------------------------------- scalars

  lemma {:induction false} NatTextDigits(n: nat)
    ensures forall c :: c in NatText(n) ==> IsDigit(c)
    ensures DigitsValue(NatText(n)) == n
    ensures |NatText(n)| > 1 ==> NatText(n)[0] != '0'
  {
    var t := NatText(n);
    if n < 10 {
      assert t[..|t| - 1] == "";
    } else {
      NatTextDigits(n / 10);
      assert t[..|t| - 1] == NatText(n / 10);
      if n / 10 < 10 {
        assert NatText(n / 10) == [Digit(n / 10)];
      }
    }
  }

  lemma {:induction false} DigitRunStops(a: string, rest: string)
    requires forall c :: c in a ==> IsDigit(c)
    requires EndsNumber(rest)
    ensures DigitRun(a + rest) == |a|
  {
    if a == "" {
      assert a + rest == rest;
    } else {
      DigitRunStops(a[1..], rest);
      assert (a + rest)[1..] == a[1..] + rest;
    }
  }

  lemma NatTextReads(n: nat, rest: string)
    requires EndsNumber(rest)
    ensures ParseNat(NatText(n) + rest) == Done(n, rest)
  {
    var t := NatText(n);
    NatTextDigits(n);
    DigitRunStops(t, rest);
    assert (t + rest)[..|t|] == t && (t + rest)[|t|..] == rest;
  }

  lemma ParseNegative(x: string, n: nat, rest: string)
    requires ParseNat(x) == Done(n, rest)
    ensures ParseInt(['-'] + x) == Done(0 - n as int, rest)
  {
    assert (['-'] + x)[1..] == x;
  }

  lemma IntTextStarts(n: int)
    ensures IntText(n) != "" && (IntText(n)[0] == '-' || IsDigit(IntText(n)[0]))
  {
    if n >= 0 {
      NatTextDigits(n);
      assert NatText(n)[0] in NatText(n);
    }
  }

  lemma IntTextReads(n: int, rest: string)
    requires EndsNumber(rest)
    ensures ParseInt(IntText(n) + rest) == Done(n, rest)
  {
    if n < 0 {
      NatTextReads(-n, rest);
      ParseNegative(NatText(-n) + rest, -n, rest);
      Regroup("-", NatText(-n), rest, "", "");
    } else {
      NatTextReads(n, rest);
      IntTextStarts(n);
      NatTextDigits(n);
      assert IsDigit((NatText(n) + rest)[0]);
    }
  }

  lemma EscapeCharReads(c: char, rest: string)
    ensures var e := EscapeChar(c);
            if e[0] == '\\' then EscapeSequence((e + rest)[1..]) == Done(c, rest)
            else e == [c] && c != '"' && c >= 32 as char
  {
    var e := EscapeChar(c);
    if e[0] == '\\' {
      if |e| == 2 {
        assert (e + rest)[1..] == [e[1]] + rest;
        assert ([e[1]] + rest)[1..] == rest;
      } else {
        var hi, lo := HexDigit(c as int / 16), HexDigit(c as int % 16);
        var digits := ['0', '0', hi, lo];
        assert (e + rest)[1..] == ['u'] + digits + rest;
        assert (['u'] + digits + rest)[1..] == digits + rest;
        assert (digits + rest)[..4] == digits && (digits + rest)[4..] == rest;
        assert HexValue(hi) == Some(c as int / 16) && HexValue(lo) == Some(c as int % 16);
        assert HexQuad(digits) == Some(c as int);
      }
    }
  }

  lemma ReadEscaped(c: char, more: string, s: string, rest: string)
    requires ParseChars(more) == Done(s, rest)
    ensures ParseChars(EscapeChar(c) + more) == Done([c] + s, rest)
  {
    EscapeCharReads(c, more);
    if EscapeChar(c) == [c] {
      assert ([c] + more)[1..] == more;
    }
  }

  lemma {:induction false} EscapeReads(s: string, rest: string)
    ensures ParseChars(Escape(s) + "\"" + rest) == Done(s, rest)
  {
    if s == "" {
      assert "" + "\"" + rest == ['"'] + rest;
      assert (['"'] + rest)[1..] == rest;
    } else {
      var more := Escape(s[1..]) + "\"" + rest;
      EscapeReads(s[1..], rest);
      ReadEscaped(s[0], more, s[1..], rest);
      Regroup(EscapeChar(s[0]), Escape(s[1..]), "\"", rest, "");
      assert s == [s[0]] + s[1..];
    }
  }

  lemma Regroup(a: string, b: string, c: string, d: string, e: string)
    ensures a + b + c + d + e == a + (b + (c + d + e))
    ensures a + b + c + d == a + (b + c + d) == a + (b + (c + d))
    ensures a + b + c == a + (b + c)
  {
  }

  // ---------------------------------------------------------------- the first character of a text

  predicate StartsValue(t: string) {
    t != "" && !IsSpace(t[0]) && t[0] != ']' && t[0] != '}' && t[0] != ','
  }

  lemma CanonicalStarts(nfc: Nfc, v: Json)
    requires Canonicalize(nfc, v).Success?
    ensures StartsValue(Canonicalize(nfc, v).value)
  {
    if v.Num? {
      IntTextStarts(v.n);
    }
  }

  // ---------------------------------------------------------------- what the printer rejects

  /** The printer succeeds exactly on the values that stand for data. */
  lemma {:induction false} CanonicalizeSucceeds(nfc: Nfc, v: Json)
    ensures Canonicalize(nfc, v).Success? <==> Meaning(nfc, v).Some?
    decreases v, 0
  {
    match v
    case Arr(items) =>
      CanonicalItemsSucceeds(nfc, items);
    case Obj(fields) =>
      SortedPairsSpec(nfc, fields);
      var pairs := SortedPairs(nfc, fields);
      CanonicalPairsSucceeds(nfc, pairs, v);
      forall k | k in DefinedKeys(nfc, fields)
        ensures exists p :: p in pairs && p.key == k && p.value == Entry(nfc, fields, k)
      {
        assert k in Keys(pairs);
      }
    case _ =>
  }

  lemma {:induction false} CanonicalItemsSucceeds(nfc: Nfc, items: seq<Json>)
    ensures CanonicalItems(nfc, items).Success? <==> forall i | 0 <= i < |items| :: Meaning(nfc, items[i]).Some?
    decreases items, 1
  {
    if items != [] {
      CanonicalizeSucceeds(nfc, items[0]);
      CanonicalItemsSucceeds(nfc, items[1..]);
      assert items == [items[0]] + items[1..];
    }
  }

  lemma {:induction false} CanonicalPairsSucceeds(nfc: Nfc, pairs: seq<Field>, bound: Json)
    requires forall p :: p in pairs ==> p.value < bound
    ensures CanonicalPairs(nfc, pairs, bound).Success? <==> forall p | p in pairs :: Meaning(nfc, p.value).Some?
    decreases bound, 0, |pairs|
  {
    if pairs != [] {
      CanonicalizeSucceeds(nfc, pairs[0].value);
      CanonicalPairsSucceeds(nfc, pairs[1..], bound);
      assert pairs == [pairs[0]] + pairs[1..];
    }
  }

  // ---------------------------------------------------------------- single reading steps

  lemma ReadWord(word: string, d: Doc, rest: string)
    requires (word == "null" && d == DNull) || (word == "true" && d == DBool(true))
             || (word == "false" && d == DBool(false))
    ensures ParseValue(word + rest) == Done(d, rest)
  {
    assert (word + rest)[..|word|] == word && (word + rest)[|word|..] == rest;
  }

  lemma ReadNumber(n: int, rest: string)
    requires EndsNumber(rest)
    ensures ParseValue(IntText(n) + rest) == Done(DNum(n), rest)
  {
    IntTextReads(n, rest);
    IntTextStarts(n);
    ReadNumberText(IntText(n) + rest, n, rest);
  }

  lemma StartsWithHead(t: string, w: string)
    requires w != "" && StartsWith(t, w)
    ensures t[0] == w[0]
  {
    assert t[..|w|][0] == t[0];
  }

  lemma NotWord(t: string, w: string)
    requires t != "" && (t[0] == '-' || IsDigit(t[0]))
    requires w == "null" || w == "true" || w == "false"
    ensures !StartsWith(t, w)
  {
    if StartsWith(t, w) {
      StartsWithHead(t, w);
    }
  }

  lemma NumberSkipsNothing(t: string)
    requires t != "" && (t[0] == '-' || IsDigit(t[0]))
    ensures SkipSpace(t) == t && t[0] != '{' && t[0] != '[' && t[0] != '"'
  {
  }

  lemma ReadNumberText(t: string, n: int, rest: string)
    requires t != "" && (t[0] == '-' || IsDigit(t[0])) && ParseInt(t) == Done(n, rest)
    ensures ParseValue(t) == Done(DNum(n), rest)
  {
    NumberSkipsNothing(t);
    NotWord(t, "null");
    NotWord(t, "true");
    NotWord(t, "false");
  }

  lemma AfterQuote(key: string, w: string)
    ensures (StringText(key) + w)[1..] == Escape(key) + "\"" + w
  {
    Regroup("\"", Escape(key), "\"", w, "");
  }

  lemma ReadStringText(t: string, s: string, rest: string)
    requires t != "" && t[0] == '"' && ParseChars(t[1..]) == Done(s, rest)
    ensures ParseValue(t) == Done(DStr(s), rest)
  {
  }

  lemma ReadString(s: string, rest: string)
    ensures ParseValue(StringText(s) + rest) == Done(DStr(s), rest)
  {
    EscapeReads(s, rest);
    AfterQuote(s, rest);
    ReadStringText(StringText(s) + rest, s, rest);
  }

  lemma ReadEmpty(rest: string)
    ensures ParseValue("[]" + rest) == Done(DArr([]), rest)
    ensures ParseValue("{}" + rest) == Done(DObj(map[]), rest)
  {
    assert ("[]" + rest)[1..] == "]" + rest && ("{}" + rest)[1..] == "}" + rest;
    assert ("]" + rest)[1..] == rest && ("}" + rest)[1..] == rest;
  }

  lemma ReadArray(inside: string, ds: seq<Doc>, rest: string)
    requires StartsValue(inside) && ParseElements(inside) == Done(ds, rest)
    ensures ParseValue("[" + inside) == Done(DArr(ds), rest)
  {
    assert ("[" + inside)[1..] == inside;
  }

  lemma ReadObject(inside: string, m: map<string, Doc>, rest: string)
    requires StartsValue(inside) && ParseMembers(inside) == Done(m, rest)
    ensures ParseValue("{" + inside) == Done(DObj(m), rest)
  {
    assert ("{" + inside)[1..] == inside;
  }

  lemma ReadElement(s: string, d: Doc, after: string)
    requires ParseValue(s) == Done(d, after)
    ensures forall rest :: after == "]" + rest ==> ParseElements(s) == Done([d], rest)
    ensures forall ds, rest, more ::
              after == "," + more && ParseElements(more) == Done(ds, rest) ==>
              ParseElements(s) == Done([d] + ds, rest)
  {
    if after != "" && (after[0] == ']' || after[0] == ',') {
      assert SkipSpace(after) == after;
    }
    forall rest | after == "]" + rest ensures ParseElements(s) == Done([d], rest) {
      assert after[1..] == rest;
    }
    forall ds, rest, more | after == "," + more && ParseElements(more) == Done(ds, rest)
      ensures ParseElements(s) == Done([d] + ds, rest)
    {
      assert after[1..] == more;
    }
  }

  lemma MemberText(a: string, b: string, c: string, d: string, e: string, f: string, g: string)
    ensures (a + b + c) + d + e + f + g == a + (b + (c + (d + (e + f + g))))
  {
  }

  /** Reading `"key":` leaves the value's text. */
  lemma ReadKey(key: string, valueText: string, w: string)
    requires w == ":" + valueText
    ensures SkipSpace(StringText(key) + w) == StringText(key) + w && (StringText(key) + w)[0] == '"'
    ensures ParseChars((StringText(key) + w)[1..]) == Done(key, w)
    ensures SkipSpace(w) == w && w[1..] == valueText
  {
    EscapeReads(key, w);
    AfterQuote(key, w);
    assert w[1..] == valueText;
  }

  lemma ReadLastMember(key: string, valueText: string, d: Doc, rest: string)
    requires ParseValue(valueText) == Done(d, "}" + rest)
    ensures ParseMembers(StringText(key) + (":" + valueText)) == Done(map[key := d], rest)
  {
    ReadKey(key, valueText, ":" + valueText);
    assert ("}" + rest)[1..] == rest;
  }

  lemma ReadMember(key: string, valueText: string, d: Doc, more: string, m: map<string, Doc>, rest: string)
    requires ParseValue(valueText) == Done(d, "," + more)
    requires ParseMembers(more) == Done(m, rest)
    ensures ParseMembers(StringText(key) + (":" + valueText)) == Done(map[key := d] + m, rest)
  {
    ReadKey(key, valueText, ":" + valueText);
    assert ("," + more)[1..] == more;
  }

  // ---------------------------------------------------------------- the text reads back

  /** Followed by anything that does not continue a number, canonical text reads back as the data
      of the printed value and leaves exactly what followed it. */
  lemma {:induction false} CanonicalReads(nfc: Nfc, v: Json, rest: string)
    requires Canonicalize(nfc, v).Success? && EndsNumber(rest)
    ensures Meaning(nfc, v).Some?
    ensures ParseValue(Canonicalize(nfc, v).value + rest) == Done(Meaning(nfc, v).value, rest)
    decreases v, 0
  {
    CanonicalizeSucceeds(nfc, v);
    match v
    case Null => ReadWord("null", DNull, rest);
    case Bool(b) => ReadWord(if b then "true" else "false", DBool(b), rest);
    case Num(n) => ReadNumber(n, rest);
    case Str(s) => ReadString(s, rest);
    case Arr(items) => CanonicalArrayReads(nfc, items, rest);
    case Obj(fields) => CanonicalObjectReads(nfc, fields, rest);
  }

  lemma {:induction false} CanonicalArrayReads(nfc: Nfc, items: seq<Json>, rest: string)
    requires CanonicalItems(nfc, items).Success? && Meaning(nfc, Arr(items)).Some?
    ensures ParseValue(Canonicalize(nfc, Arr(items)).value + rest) == Done(Meaning(nfc, Arr(items)).value, rest)
    decreases items, 3
  {
    var body := CanonicalItems(nfc, items).value;
    var inside := body + "]" + rest;
    assert "[" + body + "]" + rest == "[" + inside;
    if items == [] {
      ReadEmpty(rest);
      assert "[" + inside == "[]" + rest;
      assert Docs(nfc, items) == [];
    } else {
      CanonicalItemsReads(nfc, items, rest);
      CanonicalStarts(nfc, items[0]);
      assert body[0] == Canonicalize(nfc, items[0]).value[0];
      ReadArray(inside, Docs(nfc, items), rest);
    }
  }

  /** The data of a list of printable values. */
  function Docs(nfc: Nfc, items: seq<Json>): seq<Doc>
    requires forall i | 0 <= i < |items| :: Meaning(nfc, items[i]).Some?
  {
    seq(|items|, i requires 0 <= i < |items| && Meaning(nfc, items[i]).Some? => Meaning(nfc, items[i]).value)
  }

  lemma {:induction false} CanonicalItemsReads(nfc: Nfc, items: seq<Json>, rest: string)
    requires items != [] && CanonicalItems(nfc, items).Success?
    requires forall i | 0 <= i < |items| :: Meaning(nfc, items[i]).Some?
    ensures ParseElements(CanonicalItems(nfc, items).value + "]" + rest) == Done(Docs(nfc, items), rest)
    decreases items, 1
  {
    var head := Canonicalize(nfc, items[0]).value;
    var d := Meaning(nfc, items[0]).value;
    if |items| == 1 {
      CanonicalReads(nfc, items[0], "]" + rest);
      ReadElement(head + ("]" + rest), d, "]" + rest);
      Regroup(head, "]", rest, "", "");
      assert Docs(nfc, items) == [d];
    } else {
      var tail := CanonicalItems(nfc, items[1..]).value;
      var more := tail + "]" + rest;
      CanonicalReads(nfc, items[0], "," + more);
      CanonicalItemsReads(nfc, items[1..], rest);
      ReadElement(head + ("," + more), d, "," + more);
      Regroup(head, ",", tail, "]", rest);
      assert Docs(nfc, items) == [d] + Docs(nfc, items[1..]);
    }
  }

  type Reader = Json -> Option<Doc>

  /** Reading a value as its data. */
  function MeaningOf(nfc: Nfc): Reader {
    v => Meaning(nfc, v)
  }

  /** The members a list of printed entries reads back as. */
  function PairsDoc(read: Reader, pairs: seq<Field>): map<string, Doc>
    requires forall p :: p in pairs ==> read(p.value).Some?
  {
    if pairs == [] then map[]
    else map[pairs[0].key := read(pairs[0].value).value] + PairsDoc(read, pairs[1..])
  }

  lemma {:induction false} PairsDocSpec(read: Reader, pairs: seq<Field>)
    requires forall p :: p in pairs ==> read(p.value).Some?
    requires SortedKeys(pairs)
    ensures PairsDoc(read, pairs).Keys == Keys(pairs)
    ensures forall p | p in pairs :: PairsDoc(read, pairs)[p.key] == read(p.value).value
  {
    if pairs != [] {
      var m := PairsDoc(read, pairs[1..]);
      PairsDocSpec(read, pairs[1..]);
      MemberAdded(read, pairs, m, map[pairs[0].key := read(pairs[0].value).value] + m);
    }
  }

  /** One more member, under a smaller key. */
  lemma MemberAdded(read: Reader, pairs: seq<Field>, m: map<string, Doc>, more: map<string, Doc>)
    requires pairs != [] && SortedKeys(pairs) && forall p :: p in pairs ==> read(p.value).Some?
    requires m.Keys == Keys(pairs[1..]) && forall p | p in pairs[1..] :: m[p.key] == read(p.value).value
    requires more == map[pairs[0].key := read(pairs[0].value).value] + m
    ensures more.Keys == Keys(pairs) && forall p | p in pairs :: more[p.key] == read(p.value).value
  {
    TailKeys(pairs);
    assert pairs[0].key in Keys(pairs);
    forall p | p in pairs ensures p.key in more && more[p.key] == read(p.value).value {
      assert p == pairs[0] || p in pairs[1..];
      if p in pairs[1..] {
        assert p.key in Keys(pairs[1..]);
      }
    }
  }

  /** The members of an object, by its sorted entries. */
  lemma ObjectMembers(nfc: Nfc, fields: seq<Field>)
    requires Meaning(nfc, Obj(fields)).Some?
    ensures Meaning(nfc, Obj(fields)).value.members.Keys == Keys(SortedPairs(nfc, fields))
    ensures forall p | p in SortedPairs(nfc, fields) ::
              Meaning(nfc, p.value).Some? && p.key in Meaning(nfc, Obj(fields)).value.members
              && Meaning(nfc, Obj(fields)).value.members[p.key] == Meaning(nfc, p.value).value
  {
    SortedPairsSpec(nfc, fields);
    var keys := DefinedKeys(nfc, fields);
    assert forall k | k in keys :: Meaning(nfc, Entry(nfc, fields, k)).Some?;
  }

  /** The data of an object is what its sorted entries read back as. */
  lemma ObjectMeaning(nfc: Nfc, fields: seq<Field>)
    requires Meaning(nfc, Obj(fields)).Some?
    ensures forall p | p in SortedPairs(nfc, fields) :: Meaning(nfc, p.value).Some?
    ensures Meaning(nfc, Obj(fields)).value == DObj(PairsDoc(MeaningOf(nfc), SortedPairs(nfc, fields)))
  {
    var pairs := SortedPairs(nfc, fields);
    var m := Meaning(nfc, Obj(fields)).value.members;
    SortedPairsSpec(nfc, fields);
    ObjectMembers(nfc, fields);
    PairsDocSpec(MeaningOf(nfc), pairs);
    SameMap(pairs, m, PairsDoc(MeaningOf(nfc), pairs));
  }

  lemma SameMap(pairs: seq<Field>, m: map<string, Doc>, d: map<string, Doc>)
    requires m.Keys == Keys(pairs) == d.Keys
    requires forall p | p in pairs :: p.key in m && p.key in d && m[p.key] == d[p.key]
    ensures m == d
  {
    forall k | k in m.Keys ensures m[k] == d[k] {
      var p :| p in pairs && p.key == k;
    }
  }

  lemma {:induction false} CanonicalObjectReads(nfc: Nfc, fields: seq<Field>, rest: string)
    requires Canonicalize(nfc, Obj(fields)).Success? && Meaning(nfc, Obj(fields)).Some?
    ensures ParseValue(Canonicalize(nfc, Obj(fields)).value + rest) == Done(Meaning(nfc, Obj(fields)).value, rest)
    decreases Obj(fields), 0, |fields|
  {
    var v := Obj(fields);
    var pairs := SortedPairs(nfc, fields);
    var body := CanonicalPairs(nfc, pairs, v).value;
    ObjectMeaning(nfc, fields);
    if pairs == [] {
      ReadEmpty(rest);
      assert "{" + body + "}" == "{}";
      assert PairsDoc(MeaningOf(nfc), pairs) == map[];
    } else {
      Regroup("{", body, "}", rest, "");
      CanonicalPairsReads(nfc, pairs, v, rest);
      PairsStart(nfc, pairs, v, "}" + rest);
      Regroup(body, "}", rest, "", "");
      ReadObject(body + "}" + rest, PairsDoc(MeaningOf(nfc), pairs), rest);
    }
  }

  lemma PairsStart(nfc: Nfc, pairs: seq<Field>, bound: Json, rest: string)
    requires forall p :: p in pairs ==> p.value < bound
    requires pairs != [] && CanonicalPairs(nfc, pairs, bound).Success?
    ensures StartsValue(CanonicalPairs(nfc, pairs, bound).value + rest)
  {
    assert StringText(pairs[0].key)[0] == '"';
  }

  lemma {:induction false} CanonicalPairsReads(nfc: Nfc, pairs: seq<Field>, bound: Json, rest: string)
    requires forall p :: p in pairs ==> p.value < bound && Meaning(nfc, p.value).Some?
    requires pairs != [] && CanonicalPairs(nfc, pairs, bound).Success?
    ensures ParseMembers(CanonicalPairs(nfc, pairs, bound).value + "}" + rest)
            == Done(PairsDoc(MeaningOf(nfc), pairs), rest)
    decreases bound, -1, |pairs|
  {
    var key, v := pairs[0].key, pairs[0].value;
    var text := Canonicalize(nfc, v).value;
    var d := Meaning(nfc, v).value;
    var head := StringText(key) + ":" + text;
    if |pairs| == 1 {
      CanonicalReads(nfc, v, "}" + rest);
      ReadLastMember(key, text + ("}" + rest), d, rest);
      Regroup(StringText(key), ":", text, "}", rest);
      Regroup(text, "}", rest, "", "");
      assert PairsDoc(MeaningOf(nfc), pairs) == map[key := d];
    } else {
      var tail := CanonicalPairs(nfc, pairs[1..], bound).value;
      var more := tail + "}" + rest;
      CanonicalReads(nfc, v, "," + more);
      CanonicalPairsReads(nfc, pairs[1..], bound, rest);
      ReadMember(key, text + ("," + more), d, more, PairsDoc(MeaningOf(nfc), pairs[1..]), rest);
      MemberText(StringText(key), ":", text, ",", tail, "}", rest);
    }
  }

  // ---------------------------------------------------------------- same data, same text

  /** Values that stand for the same data print alike, whatever their key order, key spelling,
      shadowed keys and undefined entries. */
  lemma {:induction false} SameMeaningSameText(nfc: Nfc, v: Json, w: Json)
    requires Meaning(nfc, v).Some? && Meaning(nfc, v) == Meaning(nfc, w)
    ensures Canonicalize(nfc, v).Success? && Canonicalize(nfc, v) == Canonicalize(nfc, w)
    decreases v, 3
  {
    CanonicalizeSucceeds(nfc, v);
    CanonicalizeSucceeds(nfc, w);
    match v
    case Arr(items) =>
      SameMeaningItems(nfc, items, w.items);
      SameMeaningSameItems(nfc, items, w.items);
    case Obj(fields) =>
      SameMeaningPairs(nfc, fields, w.fields);
      SameMeaningSamePairs(nfc, SortedPairs(nfc, fields), SortedPairs(nfc, w.fields), v, w);
    case _ =>
  }

  lemma SameMeaningItems(nfc: Nfc, xs: seq<Json>, ys: seq<Json>)
    requires Meaning(nfc, Arr(xs)).Some? && Meaning(nfc, Arr(xs)) == Meaning(nfc, Arr(ys))
    ensures |xs| == |ys|
    ensures forall i | 0 <= i < |xs| :: Meaning(nfc, xs[i]).Some? && Meaning(nfc, xs[i]) == Meaning(nfc, ys[i])
  {
    var ds := Meaning(nfc, Arr(xs)).value.items;
    assert Meaning(nfc, Arr(ys)).value.items == ds && |ys| == |ds|;
    forall i | 0 <= i < |xs|
      ensures Meaning(nfc, xs[i]).Some? && Meaning(nfc, xs[i]) == Meaning(nfc, ys[i])
    {
      assert ds[i] == Meaning(nfc, xs[i]).value && ds[i] == Meaning(nfc, ys[i]).value;
    }
  }

  lemma SameMeaningPairs(nfc: Nfc, fs: seq<Field>, gs: seq<Field>)
    requires Meaning(nfc, Obj(fs)).Some? && Meaning(nfc, Obj(fs)) == Meaning(nfc, Obj(gs))
    ensures var ps, qs := SortedPairs(nfc, fs), SortedPairs(nfc, gs);
            |ps| == |qs|
            && forall i | 0 <= i < |ps| ::
                 ps[i].key == qs[i].key && Meaning(nfc, ps[i].value).Some?
                 && Meaning(nfc, ps[i].value) == Meaning(nfc, qs[i].value)
  {
    var ps, qs := SortedPairs(nfc, fs), SortedPairs(nfc, gs);
    SortedPairsSpec(nfc, fs);
    SortedPairsSpec(nfc, gs);
    ObjectMembers(nfc, fs);
    ObjectMembers(nfc, gs);
    SortedUnique(ps, qs);
    forall i | 0 <= i < |ps|
      ensures Meaning(nfc, ps[i].value).Some? && Meaning(nfc, ps[i].value) == Meaning(nfc, qs[i].value)
    {
      assert ps[i] in ps && qs[i] in qs;
    }
  }

  lemma {:induction false} SameMeaningSameItems(nfc: Nfc, xs: seq<Json>, ys: seq<Json>)
    requires |xs| == |ys|
    requires forall i | 0 <= i < |xs| ::
               Meaning(nfc, xs[i]).Some? && Meaning(nfc, ys[i]).Some? && Meaning(nfc, xs[i]) == Meaning(nfc, ys[i])
    ensures CanonicalItems(nfc, xs) == CanonicalItems(nfc, ys)
    decreases xs, 1
  {
    if xs != [] {
      SameMeaningSameText(nfc, xs[0], ys[0]);
      SameMeaningSameItems(nfc, xs[1..], ys[1..]);
    }
  }

  lemma {:induction false} SameMeaningSamePairs(nfc: Nfc, ps: seq<Field>, qs: seq<Field>, v: Json, w: Json)
    requires |ps| == |qs|
    requires forall p :: p in ps ==> p.value < v
    requires forall q :: q in qs ==> q.value < w
    requires forall i | 0 <= i < |ps| ::
               ps[i].key == qs[i].key && Meaning(nfc, ps[i].value).Some?
               && Meaning(nfc, ps[i].value) == Meaning(nfc, qs[i].value)
    ensures CanonicalPairs(nfc, ps, v) == CanonicalPairs(nfc, qs, w)
    decreases v, -1, |ps|
  {
    if ps != [] {
      SameMeaningSameText(nfc, ps[0].value, qs[0].value);
      SameMeaningSamePairs(nfc, ps[1..], qs[1..], v, w);
    }
  }

  // ---------------------------------------------------------------- main results

  /** `JSON.parse` of canonical text is the data of the printed value. */
  lemma ParseCanonical(nfc: Nfc, v: Json)
    requires Canonicalize(nfc, v).Success?
    ensures Meaning(nfc, v).Some? && ParseJson(Canonicalize(nfc, v).value) == Meaning(nfc, v)
  {
    CanonicalReads(nfc, v, "");
    assert Canonicalize(nfc, v).value + "" == Canonicalize(nfc, v).value;
  }

  /** Two values print alike exactly when they stand for the same data. */
  lemma CanonicalUnambiguous(nfc: Nfc, v: Json, w: Json)
    requires Canonicalize(nfc, v).Success? && Canonicalize(nfc, w).Success?
    ensures Canonicalize(nfc, v) == Canonicalize(nfc, w) <==> Meaning(nfc, v) == Meaning(nfc, w)
  {
    ParseCanonical(nfc, v);
    ParseCanonical(nfc, w);
    if Meaning(nfc, v) == Meaning(nfc, w) {
      SameMeaningSameText(nfc, v, w);
    }
  }

  /** Canonical text embedded in a longer text is still unambiguous: one text cannot be read as two
      different values followed by different remainders. */
  lemma CanonicalPrefixFree(nfc: Nfc, v: Json, w: Json, afterV: string, afterW: string)
    requires Canonicalize(nfc, v).Success? && Canonicalize(nfc, w).Success?
    requires EndsNumber(afterV) && EndsNumber(afterW)
    requires Canonicalize(nfc, v).value + afterV == Canonicalize(nfc, w).value + afterW
    ensures Meaning(nfc, v) == Meaning(nfc, w) && afterV == afterW
  {
    CanonicalReads(nfc, v, afterV);
    CanonicalReads(nfc, w, afterW);
  }
}
