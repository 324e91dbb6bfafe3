/** A token that was issued parses back to its payload and validates exactly inside its window. */
module UcanTheorems {
  import opened Common
  import opened Canonical
  import opened CanonicalTheorems
  import opened Ucan
  import Encoding
  import JsonText

  // ---------------------------------------------------------------- objects with plain keys

  predicate PlainKeys(nfc: Nfc, fields: seq<Field>) {
    && (forall f :: f in fields ==> nfc(f.key) == f.key)
    && (forall i, j | 0 <= i < j < |fields| :: fields[i].key != fields[j].key)
  }

  lemma {:induction false} EntryAt(nfc: Nfc, fields: seq<Field>, i: nat)
    requires PlainKeys(nfc, fields) && i < |fields| && !fields[i].value.Undefined?
    ensures fields[i].key in DefinedKeys(nfc, fields) && Entry(nfc, fields, fields[i].key) == fields[i].value
  {
    assert fields[i] in fields;
    if i > 0 {
      assert fields[0] in fields && fields[1..][i - 1] == fields[i];
      EntryAt(nfc, fields[1..], i - 1);
    }
  }

  predicate Describes(m: Members, nfc: Nfc, f: Field) {
    if f.value.Undefined? then f.key !in m
    else Meaning(nfc, f.value).Some? && f.key in m && m[f.key] == Meaning(nfc, f.value).value
  }

  /** An object whose keys are distinct and already normal means the members it lists. */
  lemma PlainMembers(nfc: Nfc, fields: seq<Field>)
    requires PlainKeys(nfc, fields)
    requires forall f :: f in fields ==> f.value.Undefined? || Meaning(nfc, f.value).Some?
    ensures Meaning(nfc, Obj(fields)).Some?
    ensures forall f :: f in fields ==> Describes(Meaning(nfc, Obj(fields)).value.members, nfc, f)
  {
    var keys := DefinedKeys(nfc, fields);
    forall k | k in keys ensures Meaning(nfc, Entry(nfc, fields, k)).Some? {
      var i :| 0 <= i < |fields| && !fields[i].value.Undefined? && nfc(fields[i].key) == k;
      EntryAt(nfc, fields, i);
    }
    var m := Meaning(nfc, Obj(fields)).value.members;
    forall i | 0 <= i < |fields| ensures Describes(m, nfc, fields[i]) {
      if fields[i].value.Undefined? {
        forall j | 0 <= j < |fields| && !fields[j].value.Undefined? ensures nfc(fields[j].key) != fields[i].key {
          assert fields[j] in fields;
        }
      } else {
        EntryAt(nfc, fields, i);
      }
    }
  }

  /** Conversely, such an object means something only if each listed value does. */
  lemma PlainMembersOnly(nfc: Nfc, fields: seq<Field>, i: nat)
    requires PlainKeys(nfc, fields) && Meaning(nfc, Obj(fields)).Some? && i < |fields|
    ensures fields[i].value.Undefined? || Meaning(nfc, fields[i].value).Some?
  {
    if !fields[i].value.Undefined? {
      EntryAt(nfc, fields, i);
    }
  }

  // ---------------------------------------------------------------- the parts of a payload

  lemma StringsMean(nfc: Nfc, ss: seq<string>)
    ensures Meaning(nfc, StrArr(ss)).Some? && Meaning(nfc, StrArr(ss)).value.DArr?
    ensures Strings(Meaning(nfc, StrArr(ss)).value.items) == Some(ss)
  {
    var items := StrArr(ss).items;
    assert forall i | 0 <= i < |items| :: Meaning(nfc, items[i]) == Some(DStr(ss[i]));
    var ds := Meaning(nfc, StrArr(ss)).value.items;
    assert forall i | 0 <= i < |ds| :: ds[i] == DStr(ss[i]);
    assert Strings(ds).value == ss;
  }

  lemma TripleMeans(nfc: Nfc, p: Predicate<Json>)
    ensures Meaning(nfc, PredicateJson(p)).Some? <==> Meaning(nfc, p.value).Some?
    ensures Meaning(nfc, p.value).Some? ==>
              Meaning(nfc, PredicateJson(p)) == Some(DArr([DStr(p.op), DStr(p.selector), Meaning(nfc, p.value).value]))
  {
    var items := PredicateJson(p).items;
    assert items[0] == Str(p.op) && items[1] == Str(p.selector) && items[2] == p.value;
    if Meaning(nfc, p.value).Some? {
      assert forall i | 0 <= i < |items| :: Meaning(nfc, items[i]).Some?;
      var ds := Meaning(nfc, PredicateJson(p)).value.items;
      assert ds == [DStr(p.op), DStr(p.selector), Meaning(nfc, p.value).value];
    }
  }

  lemma PredicatesMean(nfc: Nfc, ps: seq<Predicate<Json>>)
    ensures Meaning(nfc, PredicatesJson(ps)).Some? <==> forall i | 0 <= i < |ps| :: Meaning(nfc, ps[i].value).Some?
    ensures Meaning(nfc, PredicatesJson(ps)).Some? ==>
              && Meaning(nfc, PredicatesJson(ps)).value.DArr?
              && var ds := Meaning(nfc, PredicatesJson(ps)).value.items;
                 |ds| == |ps|
                 && forall i | 0 <= i < |ps| ::
                      IsTriple(ds[i]) && Meaning(nfc, ps[i].value).Some?
                      && Predicate(ds[i].items[0].s, ds[i].items[1].s, ds[i].items[2])
                         == Predicate(ps[i].op, ps[i].selector, Meaning(nfc, ps[i].value).value)
  {
    var items := PredicatesJson(ps).items;
    forall i | 0 <= i < |ps|
      ensures Meaning(nfc, items[i]).Some? <==> Meaning(nfc, ps[i].value).Some?
    {
      TripleMeans(nfc, ps[i]);
    }
    if Meaning(nfc, PredicatesJson(ps)).Some? {
      var ds := Meaning(nfc, PredicatesJson(ps)).value.items;
      forall i | 0 <= i < |ps|
        ensures Meaning(nfc, ps[i].value).Some?
        ensures ds[i] == DArr([DStr(ps[i].op), DStr(ps[i].selector), Meaning(nfc, ps[i].value).value])
      {
        TripleMeans(nfc, ps[i]);
        assert Meaning(nfc, items[i]).Some?;
      }
    }
  }

  lemma PayloadKeysDiffer()
    ensures var ks := ["iss", "aud", "cmd", "sub", "pol", "nonce", "meta", "nbf", "exp", "prf"];
            forall i, j | 0 <= i < j < |ks| :: ks[i] != ks[j]
  {
    var ks := ["iss", "aud", "cmd", "sub", "pol", "nonce", "meta", "nbf", "exp", "prf"];
    forall i, j | 0 <= i < j < |ks| ensures ks[i] != ks[j] {
      assert ks[i][0] != ks[j][0] || ks[i][1] != ks[j][1] || |ks[i]| != |ks[j]|;
    }
  }

  lemma PayloadPlain(nfc: Nfc, p: Payload<Json>)
    requires forall s :: Ascii(s) ==> nfc(s) == s
    ensures PlainKeys(nfc, PayloadFields(p))
  {
    PayloadKeysDiffer();
    var ks := ["iss", "aud", "cmd", "sub", "pol", "nonce", "meta", "nbf", "exp", "prf"];
    var fs := PayloadFields(p);
    assert forall i | 0 <= i < 10 :: fs[i].key == ks[i] && Ascii(ks[i]);
  }

  predicate Absent(v: Json, nfc: Nfc) {
    v.Undefined? || Meaning(nfc, v).Some?
  }

  /** Each entry of the payload object is absent or stands for data, given readable free-form parts. */
  lemma PayloadParts(nfc: Nfc, p: Payload<Json>)
    requires Readable(nfc, p)
    ensures forall f :: f in PayloadFields(p) ==> Absent(f.value, nfc)
  {
    PredicatesMean(nfc, p.pol);
    if p.prf.Some? {
      StringsMean(nfc, p.prf.value);
    }
    var fs := PayloadFields(p);
    assert Absent(fs[0].value, nfc) && Absent(fs[1].value, nfc) && Absent(fs[2].value, nfc) && Absent(fs[3].value, nfc);
    assert Absent(fs[4].value, nfc) && Absent(fs[5].value, nfc) && Absent(fs[6].value, nfc) && Absent(fs[7].value, nfc);
    assert Absent(fs[8].value, nfc) && Absent(fs[9].value, nfc);
  }

  lemma FreeFormValues(p: Payload<Json>, fs: seq<Field>)
    requires fs == PayloadFields(p)
    ensures fs[4].value == PredicatesJson(p.pol) && (p.meta.Some? ==> fs[6].value == p.meta.value)
  {
  }

  lemma ReadableFrom(nfc: Nfc, p: Payload<Json>, fs: seq<Field>)
    requires PlainKeys(nfc, fs) && Meaning(nfc, Obj(fs)).Some? && |fs| > 6
    requires fs[4].value == PredicatesJson(p.pol)
    requires p.meta.Some? ==> fs[6].value == p.meta.value && p.meta.value.Obj?
    ensures Readable(nfc, p)
  {
    PlainMembersOnly(nfc, fs, 4);
    PlainMembersOnly(nfc, fs, 6);
    PredicatesMean(nfc, p.pol);
  }

  /** A payload object can be printed exactly when its free-form parts stand for data. */
  lemma PayloadMeans(nfc: Nfc, p: Payload<Json>)
    requires forall s :: Ascii(s) ==> nfc(s) == s
    requires p.meta.Some? ==> p.meta.value.Obj?
    ensures Meaning(nfc, Obj(PayloadFields(p))).Some? <==> Readable(nfc, p)
  {
    var fs := PayloadFields(p);
    PayloadPlain(nfc, p);
    if Readable(nfc, p) {
      PayloadParts(nfc, p);
      assert forall f :: f in fs ==> f.value.Undefined? || Meaning(nfc, f.value).Some? by {
        assert forall f :: f in fs ==> Absent(f.value, nfc);
      }
      PlainMembers(nfc, fs);
    } else if Meaning(nfc, Obj(fs)).Some? {
      FreeFormValues(p, fs);
      ReadableFrom(nfc, p, fs);
    }
  }

  lemma TextMember(m: Members, nfc: Nfc, k: string, s: string)
    requires Describes(m, nfc, Field(k, Str(s)))
    ensures GetStr(m, k) == Some(s)
  {
  }

  lemma OptTextMember(m: Members, nfc: Nfc, k: string, s: Option<string>)
    requires Describes(m, nfc, Field(k, OptStr(s)))
    ensures GetOptStr(m, k) == Some(s)
  {
  }

  lemma NumberMember(m: Members, nfc: Nfc, k: string, n: int)
    requires Describes(m, nfc, Field(k, Num(n)))
    ensures GetNum(m, k) == Some(n)
  {
  }

  lemma PredicatesMember(m: Members, nfc: Nfc, k: string, p: Payload<Json>)
    requires Readable(nfc, p) && Describes(m, nfc, Field(k, PredicatesJson(p.pol)))
    ensures GetPredicates(m, k) == Some(Read(nfc, p).pol)
  {
    PredicatesMean(nfc, p.pol);
    assert GetPredicates(m, k).value == Read(nfc, p).pol;
  }

  lemma StringsMember(m: Members, nfc: Nfc, k: string, ss: Option<seq<string>>)
    requires Describes(m, nfc, Field(k, if ss.Some? then StrArr(ss.value) else Undefined))
    ensures GetOptStrings(m, k) == Some(ss)
  {
    if ss.Some? {
      StringsMean(nfc, ss.value);
    }
  }

  lemma RecordMember(m: Members, nfc: Nfc, k: string, p: Payload<Json>)
    requires Readable(nfc, p) && Describes(m, nfc, Field(k, if p.meta.Some? then p.meta.value else Undefined))
    ensures GetRecord(m, k) == Some(Read(nfc, p).meta)
  {
  }

  predicate ReadsAs(m: Members, p: Payload<Doc>) {
    && GetStr(m, "iss") == Some(p.iss) && GetStr(m, "aud") == Some(p.aud) && GetStr(m, "cmd") == Some(p.cmd)
    && GetOptStr(m, "sub") == Some(p.sub) && GetPredicates(m, "pol") == Some(p.pol)
    && GetStr(m, "nonce") == Some(p.nonce) && GetRecord(m, "meta") == Some(p.meta)
    && GetNum(m, "nbf") == Some(p.nbf) && GetNum(m, "exp") == Some(p.exp)
    && GetOptStrings(m, "prf") == Some(p.prf)
  }

  lemma ReadsAsPayload(m: Members, p: Payload<Doc>)
    requires ReadsAs(m, p) && ValidPayload(p)
    ensures PayloadOf(DObj(m)) == Some(p)
  {
  }

  predicate DescribesPayload(m: Members, nfc: Nfc, p: Payload<Json>) {
    && Describes(m, nfc, Field("iss", Str(p.iss)))
    && Describes(m, nfc, Field("aud", Str(p.aud)))
    && Describes(m, nfc, Field("cmd", Str(p.cmd)))
    && Describes(m, nfc, Field("sub", OptStr(p.sub)))
    && Describes(m, nfc, Field("pol", PredicatesJson(p.pol)))
    && Describes(m, nfc, Field("nonce", Str(p.nonce)))
    && Describes(m, nfc, Field("meta", if p.meta.Some? then p.meta.value else Undefined))
    && Describes(m, nfc, Field("nbf", Num(p.nbf)))
    && Describes(m, nfc, Field("exp", Num(p.exp)))
    && Describes(m, nfc, Field("prf", if p.prf.Some? then StrArr(p.prf.value) else Undefined))
  }

  lemma PayloadDescribed(m: Members, nfc: Nfc, p: Payload<Json>)
    requires forall f :: f in PayloadFields(p) ==> Describes(m, nfc, f)
    ensures DescribesPayload(m, nfc, p)
  {
    var fs := PayloadFields(p);
    assert forall i | 0 <= i < |fs| :: Describes(m, nfc, fs[i]);
    assert fs[0] in fs && fs[1] in fs && fs[2] in fs && fs[3] in fs && fs[4] in fs;
    assert fs[5] in fs && fs[6] in fs && fs[7] in fs && fs[8] in fs && fs[9] in fs;
  }

  /** Members that describe the payload's entries read back as the payload. */
  lemma MembersRead(nfc: Nfc, p: Payload<Json>, m: Members)
    requires Readable(nfc, p) && DescribesPayload(m, nfc, p)
    ensures ReadsAs(m, Read(nfc, p))
  {
    TextMember(m, nfc, "iss", p.iss);
    TextMember(m, nfc, "aud", p.aud);
    TextMember(m, nfc, "cmd", p.cmd);
    OptTextMember(m, nfc, "sub", p.sub);
    PredicatesMember(m, nfc, "pol", p);
    TextMember(m, nfc, "nonce", p.nonce);
    RecordMember(m, nfc, "meta", p);
    NumberMember(m, nfc, "nbf", p.nbf);
    NumberMember(m, nfc, "exp", p.exp);
    StringsMember(m, nfc, "prf", p.prf);
  }

  lemma PayloadMembers(nfc: Nfc, p: Payload<Json>)
    requires forall s :: Ascii(s) ==> nfc(s) == s
    requires Readable(nfc, p)
    ensures Meaning(nfc, Obj(PayloadFields(p))).Some?
    ensures forall f :: f in PayloadFields(p) ==> Describes(Meaning(nfc, Obj(PayloadFields(p))).value.members, nfc, f)
  {
    var fs := PayloadFields(p);
    PayloadPlain(nfc, p);
    PayloadParts(nfc, p);
    assert forall f :: f in fs ==> f.value.Undefined? || Meaning(nfc, f.value).Some? by {
      assert forall f :: f in fs ==> Absent(f.value, nfc);
    }
    PlainMembers(nfc, fs);
  }

  /** Reading the printed payload object back gives the payload. */
  lemma PayloadReadsBack(nfc: Nfc, p: Payload<Json>)
    requires forall s :: Ascii(s) ==> nfc(s) == s
    requires ValidPayload(p) && Readable(nfc, p)
    ensures Meaning(nfc, Obj(PayloadFields(p))).Some?
    ensures PayloadOf(Meaning(nfc, Obj(PayloadFields(p))).value) == Some(Read(nfc, p))
  {
    PayloadMembers(nfc, p);
    MembersReadBack(nfc, p, Meaning(nfc, Obj(PayloadFields(p))).value.members);
  }

  lemma MembersReadBack(nfc: Nfc, p: Payload<Json>, m: Members)
    requires ValidPayload(p) && Readable(nfc, p)
    requires forall f :: f in PayloadFields(p) ==> Describes(m, nfc, f)
    ensures PayloadOf(DObj(m)) == Some(Read(nfc, p))
  {
    PayloadDescribed(m, nfc, p);
    MembersRead(nfc, p, m);
    ReadsAsPayload(m, Read(nfc, p));
  }

  // ---------------------------------------------------------------- one part of a token

  /** A value as it travels inside a token. */
  function Packed(nfc: Nfc, v: Json): string
    requires Canonicalize(nfc, v).Success?
  {
    Encoding.EncodeText(Canonicalize(nfc, v).value)
  }

  /** A packed value has no dot and unpacks to the data it stands for. */
  lemma PackedUnpacks(nfc: Nfc, v: Json)
    requires Meaning(nfc, v).Some?
    ensures Canonicalize(nfc, v).Success? && '.' !in Packed(nfc, v)
    ensures Encoding.DecodeText(Packed(nfc, v)) == Some(Canonicalize(nfc, v).value)
    ensures JsonText.ParseJson(Canonicalize(nfc, v).value) == Meaning(nfc, v)
  {
    CanonicalizeSucceeds(nfc, v);
    ParseCanonical(nfc, v);
    Encoding.EncodeTextRoundTrip(Canonicalize(nfc, v).value);
  }

  lemma HeaderFrom(enc: string, text: string, m: Members, h: Header)
    requires Encoding.DecodeText(enc) == Some(text) && JsonText.ParseJson(text) == Some(DObj(m))
    requires GetStr(m, "alg") == Some(h.alg) && GetStr(m, "typ") == Some(h.typ) && GetStr(m, "ucv") == Some(h.ucv)
    ensures ParseHeader(enc) == Some(h)
  {
  }

  lemma PayloadFrom(enc: string, text: string, d: Doc, p: Payload<Doc>)
    requires Encoding.DecodeText(enc) == Some(text) && JsonText.ParseJson(text) == Some(d)
    requires PayloadOf(d) == Some(p)
    ensures ParsePayload(enc) == Some(p)
  {
  }

  lemma HeaderMembers(nfc: Nfc, m: Members)
    requires forall f :: f in HEADER.fields ==> Describes(m, nfc, f)
    ensures GetStr(m, "alg") == Some("EdDSA") && GetStr(m, "typ") == Some("JWT") && GetStr(m, "ucv") == Some("1.0.0-cb")
  {
    var fs := HEADER.fields;
    assert fs[0] in fs && fs[1] in fs && fs[2] in fs;
    TextMember(m, nfc, "alg", "EdDSA");
    TextMember(m, nfc, "typ", "JWT");
    TextMember(m, nfc, "ucv", "1.0.0-cb");
  }

  lemma HeaderMeans(nfc: Nfc)
    requires forall s :: Ascii(s) ==> nfc(s) == s
    ensures Meaning(nfc, HEADER).Some?
    ensures forall f :: f in HEADER.fields ==> Describes(Meaning(nfc, HEADER).value.members, nfc, f)
  {
    assert Ascii("alg") && Ascii("typ") && Ascii("ucv");
    PlainMembers(nfc, HEADER.fields);
  }

  lemma HeaderReadsBack(nfc: Nfc)
    requires forall s :: Ascii(s) ==> nfc(s) == s
    ensures Meaning(nfc, HEADER).Some? && Canonicalize(nfc, HEADER).Success? && '.' !in Packed(nfc, HEADER)
    ensures ParseHeader(Packed(nfc, HEADER)) == Some(Header("EdDSA", "JWT", "1.0.0-cb"))
  {
    HeaderMeans(nfc);
    PackedUnpacks(nfc, HEADER);
    var m := Meaning(nfc, HEADER).value.members;
    HeaderMembers(nfc, m);
    HeaderFrom(Packed(nfc, HEADER), Canonicalize(nfc, HEADER).value, m, Header("EdDSA", "JWT", "1.0.0-cb"));
  }

  lemma PackedPayloadReadsBack(nfc: Nfc, p: Payload<Json>)
    requires forall s :: Ascii(s) ==> nfc(s) == s
    requires ValidPayload(p) && Readable(nfc, p)
    ensures var v := Obj(PayloadFields(p));
            Canonicalize(nfc, v).Success? && '.' !in Packed(nfc, v)
            && ParsePayload(Packed(nfc, v)) == Some(Read(nfc, p))
  {
    var v := Obj(PayloadFields(p));
    PayloadReadsBack(nfc, p);
    PackedUnpacks(nfc, v);
    PayloadFrom(Packed(nfc, v), Canonicalize(nfc, v).value, Meaning(nfc, v).value, Read(nfc, p));
  }

  // ---------------------------------------------------------------- tokens

  /** The payload with its DIDs in canonical form. */
  function Normalized(c: Crypto, p: Payload<Json>): Payload<Json>
    requires c.CanonicalDid(p.iss).Some? && c.CanonicalDid(p.aud).Some?
  {
    p.(iss := c.CanonicalDid(p.iss).value, aud := c.CanonicalDid(p.aud).value)
  }

  /** What `issueUcan` accepts: DIDs it can decode, a payload the schema accepts, and free-form parts
      it can print. */
  predicate Issuable(c: Crypto, p: Payload<Json>) {
    && c.CanonicalDid(p.iss).Some? && c.CanonicalDid(p.aud).Some?
    && ValidPayload(Normalized(c, p))
    && Readable(c.nfc, p)
  }

  /** `issueUcan` succeeds exactly on what it accepts. */
  lemma IssueAccepts(c: Crypto, p: Payload<Json>, key: string)
    requires c.Correct()
    ensures IssueUcan(c, p, key).Success? <==> Issuable(c, p)
  {
    HeaderReadsBack(c.nfc);
    if c.CanonicalDid(p.iss).Some? && c.CanonicalDid(p.aud).Some? && (p.meta.Some? ==> p.meta.value.Obj?) {
      var n := Normalized(c, p);
      PayloadMeans(c.nfc, n);
      CanonicalizeSucceeds(c.nfc, Obj(PayloadFields(n)));
    }
  }

  /** The two signed parts of a token. */
  function HeaderPart(c: Crypto): string
    requires Canonicalize(c.nfc, HEADER).Success?
  {
    Packed(c.nfc, HEADER)
  }

  function PayloadPart(c: Crypto, p: Payload<Json>): string
    requires c.CanonicalDid(p.iss).Some? && c.CanonicalDid(p.aud).Some?
    requires Canonicalize(c.nfc, Obj(PayloadFields(Normalized(c, p)))).Success?
  {
    Packed(c.nfc, Obj(PayloadFields(Normalized(c, p))))
  }

  /** The three-part compact form of section 7.1 of RFC 7515. */
  function Compact(h: string, b: string, signature: Bytes): string {
    h + "." + b + "." + Encoding.Base64url(signature)
  }

  lemma IssuedShape(c: Crypto, p: Payload<Json>, key: string)
    requires IssueUcan(c, p, key).Success?
    ensures Canonicalize(c.nfc, HEADER).Success? && c.CanonicalDid(p.iss).Some? && c.CanonicalDid(p.aud).Some?
    ensures Canonicalize(c.nfc, Obj(PayloadFields(Normalized(c, p)))).Success?
    ensures var h, b := HeaderPart(c), PayloadPart(c, p);
            IssueUcan(c, p, key).value.jwt == Compact(h, b, c.sign(key, h + "." + b))
  {
  }

  lemma SplitThree(a: string, b: string, c: string)
    requires '.' !in a && '.' !in b && '.' !in c
    ensures Split(a + "." + b + "." + c, '.') == [a, b, c]
  {
    SplitWhole(c, '.');
    SplitPrefix(b, c, '.');
    SplitPrefix(a, b + "." + c, '.');
    assert a + "." + b + "." + c == a + "." + (b + "." + c);
  }

  lemma CompactParses(h: string, b: string, signature: Bytes, header: Header, payload: Payload<Doc>)
    requires '.' !in h && '.' !in b
    requires ParseHeader(h) == Some(header) && ParsePayload(b) == Some(payload)
    ensures ParseUcan(Compact(h, b, signature)) == Some(Parsed(header, payload, signature, h, b))
  {
    Encoding.Base64urlRoundTrip(signature);
    Encoding.Base64urlDotFree(signature);
    SplitThree(h, b, Encoding.Base64url(signature));
  }

  // ---------------------------------------------------------------- the texts of one token

  /** The text a token has when its signature is encoded the one way `issueUcan` does. */
  function TokenText(t: Parsed): string {
    Compact(t.headerEnc, t.payloadEnc, t.signature)
  }

  /** The same token with other low bits in the last character. */
  function TwinText(t: Parsed): string
    requires |t.signature| % 3 != 0
  {
    t.headerEnc + "." + t.payloadEnc + "." + Encoding.Twin(t.signature)
  }

  lemma JoinThree(a: string, b: string, c: string)
    ensures Join([a, b, c], ".") == a + "." + b + "." + c
  {
    JoinCons(a, [b, c], ".");
    JoinCons(b, [c], ".");
    assert [a] + [b, c] == [a, b, c] && [b] + [c] == [b, c];
    assert a + "." + (b + "." + c) == a + "." + b + "." + c;
  }

  /** A text that parses is made of the token's own two signed parts and some text of its signature. */
  lemma ParsedShape(jwt: string, t: Parsed) returns (sig: string)
    requires ParseUcan(jwt) == Some(t)
    ensures jwt == t.headerEnc + "." + t.payloadEnc + "." + sig
    ensures Encoding.Base64urlDecode(sig) == Some(t.signature)
    ensures '.' !in t.headerEnc && '.' !in t.payloadEnc
    ensures ParseHeader(t.headerEnc) == Some(t.header) && ParsePayload(t.payloadEnc) == Some(t.payload)
  {
    var parts := Split(jwt, '.');
    ThreeParts(jwt, t, parts);
    SplitParts(jwt, '.');
    JoinedParts(jwt, parts);
    sig := parts[2];
  }

  lemma ThreeParts(jwt: string, t: Parsed, parts: seq<string>)
    requires ParseUcan(jwt) == Some(t) && parts == Split(jwt, '.')
    ensures |parts| == 3 && t.headerEnc == parts[0] && t.payloadEnc == parts[1]
    ensures ParseHeader(parts[0]) == Some(t.header) && ParsePayload(parts[1]) == Some(t.payload)
    ensures Encoding.Base64urlDecode(parts[2]) == Some(t.signature)
  {
  }

  lemma JoinedParts(jwt: string, parts: seq<string>)
    requires parts == Split(jwt, '.') && |parts| == 3
    ensures jwt == parts[0] + "." + parts[1] + "." + parts[2]
  {
    JoinSplit(jwt, '.');
    assert parts == [parts[0], parts[1], parts[2]];
    JoinThree(parts[0], parts[1], parts[2]);
  }

  lemma TextParses(t: Parsed, sig: string)
    requires '.' !in t.headerEnc && '.' !in t.payloadEnc && '.' !in sig
    requires ParseHeader(t.headerEnc) == Some(t.header) && ParsePayload(t.payloadEnc) == Some(t.payload)
    requires Encoding.Base64urlDecode(sig) == Some(t.signature)
    ensures ParseUcan(t.headerEnc + "." + t.payloadEnc + "." + sig) == Some(t)
  {
    SplitThree(t.headerEnc, t.payloadEnc, sig);
  }

  /** Which texts parse to one token: its own text, and, exactly if the length of its signature is no
      multiple of three, a twin. */
  lemma TextsOfToken(jwt: string, t: Parsed)
    requires ParseUcan(jwt) == Some(t)
    ensures ParseUcan(TokenText(t)) == Some(t)
    ensures |t.signature| % 3 == 0 ==> jwt == TokenText(t)
    ensures |t.signature| % 3 != 0 ==> ParseUcan(TwinText(t)) == Some(t) && TwinText(t) != TokenText(t)
  {
    var sig := ParsedShape(jwt, t);
    Encoding.Base64urlRoundTrip(t.signature);
    Encoding.Base64urlDotFree(t.signature);
    TextParses(t, Encoding.Base64url(t.signature));
    if |t.signature| % 3 == 0 {
      Encoding.WholeGroupsOneText(sig, Encoding.Base64url(t.signature), t.signature);
    } else {
      Encoding.TwinDecodes(t.signature);
      TextParses(t, Encoding.Twin(t.signature));
      SignaturesDiffer(t.headerEnc + "." + t.payloadEnc + ".", Encoding.Twin(t.signature),
                       Encoding.Base64url(t.signature));
    }
  }

  /** So a token has one text exactly when the length of its signature is a multiple of three. */
  lemma OneTextIff(jwt: string, t: Parsed)
    requires ParseUcan(jwt) == Some(t)
    ensures (forall other :: ParseUcan(other) == Some(t) ==> other == TokenText(t)) <==> |t.signature| % 3 == 0
  {
    TextsOfToken(jwt, t);
    if |t.signature| % 3 == 0 {
      forall other | ParseUcan(other) == Some(t) ensures other == TokenText(t) {
        TextsOfToken(other, t);
      }
    }
  }

  lemma SignaturesDiffer(front: string, a: string, b: string)
    requires a != b
    ensures front + a != front + b
  {
    if front + a == front + b {
      Encoding.SamePrefix(front, a, b);
    }
  }

  /** Round trip: parsing an issued token recovers the header, the payload and the signature. */
  lemma TokenRoundTrip(c: Crypto, p: Payload<Json>, key: string, issued: Issued) returns (t: Parsed)
    requires c.Correct() && IssueUcan(c, p, key) == Success(issued)
    ensures Issuable(c, p)
    ensures ParseUcan(issued.jwt) == Some(t)
    ensures t.header == Header("EdDSA", "JWT", "1.0.0-cb")
    ensures t.payload == Read(c.nfc, Normalized(c, p))
    ensures t.signature == c.sign(key, t.headerEnc + "." + t.payloadEnc)
  {
    IssueAccepts(c, p, key);
    IssuedShape(c, p, key);
    HeaderReadsBack(c.nfc);
    PackedPayloadReadsBack(c.nfc, Normalized(c, p));
    var h, b := HeaderPart(c), PayloadPart(c, p);
    t := Parsed(Header("EdDSA", "JWT", "1.0.0-cb"), Read(c.nfc, Normalized(c, p)), c.sign(key, h + "." + b), h, b);
    CompactParses(h, b, t.signature, t.header, t.payload);
  }

  /** When a parsed and correctly signed token validates. */
  predicate Accepts(c: Crypto, p: Payload<Doc>, now: int, audience: Option<string>, expected: Option<string>) {
    && p.nbf <= now < p.exp
    && (audience.Some? ==> AudienceMatches(c, p.aud, audience.value))
    && (expected.Some? ==> ActionMatchesGranted(p.cmd, expected.value))
  }

  /** A parsed token whose header is the expected one and whose signature is its issuer's. */
  predicate Genuine(c: Crypto, t: Parsed) {
    && t.header.alg == "EdDSA" && t.header.typ == "JWT"
    && c.keyOfDid(t.payload.iss).Some?
    && c.verify(c.keyOfDid(t.payload.iss).value, t.headerEnc + "." + t.payloadEnc, t.signature)
  }

  /** One token validates exactly when it parses, is genuine and is accepted at that time. */
  lemma ValidatesIff(c: Crypto, t: Token, now: int, audience: Option<string>, expected: Option<string>)
    ensures var r := ValidateParsed(c, t, now, audience, expected);
            && (r.Success? <==> t.Some? && Genuine(c, t.value) && Accepts(c, t.value.payload, now, audience, expected))
            && (r.Success? ==> r.value == t.value.payload)
  {
  }

  lemma SignedByIssuer(c: Crypto, p: Payload<Json>, key: string, t: Parsed)
    requires c.Correct() && Issuable(c, p) && c.keyOfDid(p.iss) == Some(c.publicOf(key))
    requires t.header == Header("EdDSA", "JWT", "1.0.0-cb")
    requires t.payload == Read(c.nfc, Normalized(c, p))
    requires t.signature == c.sign(key, t.headerEnc + "." + t.payloadEnc)
    ensures Genuine(c, t)
  {
    assert c.keyOfDid(t.payload.iss) == c.keyOfDid(p.iss);
  }

  /** An issued token is genuine when it was signed with its issuer's key. */
  lemma IssuedGenuine(c: Crypto, p: Payload<Json>, key: string, issued: Issued) returns (t: Parsed)
    requires c.Correct() && IssueUcan(c, p, key) == Success(issued)
    requires c.keyOfDid(p.iss) == Some(c.publicOf(key))
    ensures Issuable(c, p) && ParseUcan(issued.jwt) == Some(t)
    ensures Genuine(c, t) && t.payload == Read(c.nfc, Normalized(c, p))
  {
    t := TokenRoundTrip(c, p, key, issued);
    SignedByIssuer(c, p, key, t);
  }

  /** A token signed with its issuer's key validates exactly inside its window, for a matching
      audience and a granted command, and yields the payload it was issued for. */
  lemma IssuedValidates(c: Crypto, p: Payload<Json>, key: string, issued: Issued,
                        now: int, audience: Option<string>, expected: Option<string>)
    requires c.Correct() && IssueUcan(c, p, key) == Success(issued)
    requires c.keyOfDid(p.iss) == Some(c.publicOf(key))
    ensures Issuable(c, p)
    ensures var r, q := ValidateUcan(c, issued.jwt, now, audience, expected), Read(c.nfc, Normalized(c, p));
            (r.Success? <==> Accepts(c, q, now, audience, expected)) && (r.Success? ==> r.value == q)
  {
    var t := IssuedGenuine(c, p, key, issued);
    ValidatesIff(c, Some(t), now, audience, expected);
  }
}
