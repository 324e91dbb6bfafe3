/** Capability tokens: issuing, parsing and validating one token
    (packages/ucan/src/issue.ts, parse.ts, validate.ts; packages/shared-types/src/ucan.ts). */
module Ucan {
  import opened Common
  import opened Canonical
  import opened Constraint
  import Encoding
  import JsonText

  type Bytes = seq<Encoding.Byte>

  /** The foreign primitives. Texts stand for their UTF-8 bytes; keys are opaque strings. */
  datatype Crypto = Crypto(
    nfc: Nfc,
    sha256Hex: string -> string,
    publicOf: string -> string,
    sign: (string, string) -> Bytes,
    verify: (string, string, Bytes) -> bool,
    keyOfDid: string -> Option<string>,
    didOfKey: string -> string
  ) {
    /** Signatures verify, DIDs made from keys decode to them and are well formed, and normalisation
        leaves ASCII alone. */
    ghost predicate Correct() {
      && (forall k, m :: verify(publicOf(k), m, sign(k, m)))
      && (forall k :: keyOfDid(didOfKey(k)) == Some(k) && IsDid(didOfKey(k)))
      && (forall s :: Ascii(s) ==> nfc(s) == s)
    }

    /** `canonicalizeDid` */
    function CanonicalDid(did: string): Option<string> {
      match keyOfDid(did)
      case None => None
      case Some(key) => Some(didOfKey(key))
    }
  }

  predicate Ascii(s: string) {
    forall c :: c in s ==> c < 128 as char
  }

  // ---------------------------------------------------------------- payloads

  datatype Predicate<V> = Predicate(op: string, selector: string, value: V)

  /** `UcanPayload`, over the values of its free-form parts: `Json` before signing, `Doc` after parsing. */
  datatype Payload<V> = Payload(
    iss: string,
    aud: string,
    cmd: string,
    sub: Option<string>,
    pol: seq<Predicate<V>>,
    nonce: string,
    meta: Option<V>,
    nbf: int,
    exp: int,
    prf: Option<seq<string>>
  )

  predicate LowerAlnum(c: char) {
    'a' <= c <= 'z' || '0' <= c <= '9'
  }

  predicate SegmentChar(c: char) {
    LowerAlnum(c) || c == '_' || c == '-'
  }

  predicate DidChar(c: char) {
    LowerAlnum(c) || 'A' <= c <= 'Z' || c == '.' || c == '_' || c == ':' || c == '-'
  }

  /** `/^did:[a-z0-9]+:[A-Za-z0-9._:-]+$/` */
  predicate IsDid(s: string) {
    StartsWith(s, "did:")
    && exists n :: 4 < n < |s| - 1 && s[n] == ':'
                   && (forall i | 4 <= i < n :: LowerAlnum(s[i])) && (forall i | n < i < |s| :: DidChar(s[i]))
  }

  predicate IsSegment(s: string) {
    s != "" && forall c :: c in s ==> SegmentChar(c)
  }

  /** `/^\/[a-z0-9_-]+(\/[a-z0-9_-]+)*$/`: a slash before each of one or more segments. */
  predicate IsCommand(s: string) {
    s != "" && s[0] == '/' && forall seg :: seg in Split(s[1..], '/') ==> IsSegment(seg)
  }

  /** What `UcanPayload.parse` checks beyond the field types. */
  predicate ValidPayload<V>(p: Payload<V>) {
    && IsDid(p.iss) && IsDid(p.aud) && IsCommand(p.cmd)
    && p.nonce != ""
    && p.nbf >= 0 && p.exp > 0
    && p.exp > p.nbf
  }

  function OptStr(s: Option<string>): Json {
    if s.Some? then Str(s.value) else Undefined
  }

  function StrArr(ss: seq<string>): Json {
    Arr(seq(|ss|, i requires 0 <= i < |ss| => Str(ss[i])))
  }

  function PredicateJson(p: Predicate<Json>): Json {
    Arr([Str(p.op), Str(p.selector), p.value])
  }

  function PredicatesJson(ps: seq<Predicate<Json>>): Json {
    Arr(seq(|ps|, i requires 0 <= i < |ps| => PredicateJson(ps[i])))
  }

  /** The validated payload object that gets printed. */
  function PayloadFields(p: Payload<Json>): (fs: seq<Field>)
    ensures |fs| == 10
  {
    [ Field("iss", Str(p.iss)),
      Field("aud", Str(p.aud)),
      Field("cmd", Str(p.cmd)),
      Field("sub", OptStr(p.sub)),
      Field("pol", PredicatesJson(p.pol)),
      Field("nonce", Str(p.nonce)),
      Field("meta", if p.meta.Some? then p.meta.value else Undefined),
      Field("nbf", Num(p.nbf)),
      Field("exp", Num(p.exp)),
      Field("prf", if p.prf.Some? then StrArr(p.prf.value) else Undefined) ]
  }

  // ---------------------------------------------------------------- reading a payload back

  type Members = map<string, Doc>

  function GetStr(m: Members, k: string): Option<string> {
    if k in m && m[k].DStr? then Some(m[k].s) else None
  }

  function GetNum(m: Members, k: string): Option<int> {
    if k in m && m[k].DNum? then Some(m[k].n) else None
  }

  /** An optional string: `None` outside means a value of the wrong type. */
  function GetOptStr(m: Members, k: string): Option<Option<string>> {
    if k !in m then Some(None)
    else if m[k].DStr? then Some(Some(m[k].s))
    else None
  }

  function Strings(ds: seq<Doc>): Option<seq<string>> {
    if forall d :: d in ds ==> d.DStr? then Some(seq(|ds|, i requires 0 <= i < |ds| && ds[i].DStr? => ds[i].s))
    else None
  }

  function GetOptStrings(m: Members, k: string): Option<Option<seq<string>>> {
    if k !in m then Some(None)
    else if m[k].DArr? && Strings(m[k].items).Some? then Some(Strings(m[k].items))
    else None
  }

  predicate IsTriple(d: Doc) {
    d.DArr? && |d.items| == 3 && d.items[0].DStr? && d.items[1].DStr?
  }

  function GetPredicates(m: Members, k: string): Option<seq<Predicate<Doc>>> {
    if k in m && m[k].DArr? && forall d :: d in m[k].items ==> IsTriple(d) then
      var ds := m[k].items;
      Some(seq(|ds|, i requires 0 <= i < |ds| && IsTriple(ds[i]) =>
                       Predicate(ds[i].items[0].s, ds[i].items[1].s, ds[i].items[2])))
    else None
  }

  function GetRecord(m: Members, k: string): Option<Option<Doc>> {
    if k !in m then Some(None)
    else if m[k].DObj? then Some(Some(m[k]))
    else None
  }

  /** `UcanPayload.safeParse` of parsed JSON: unknown members are dropped. */
  function PayloadOf(d: Doc): Option<Payload<Doc>> {
    if !d.DObj? then None
    else
      var m := d.members;
      match (GetStr(m, "iss"), GetStr(m, "aud"), GetStr(m, "cmd"), GetOptStr(m, "sub"), GetPredicates(m, "pol"))
      case (Some(iss), Some(aud), Some(cmd), Some(sub), Some(pol)) =>
        (match (GetStr(m, "nonce"), GetRecord(m, "meta"), GetNum(m, "nbf"), GetNum(m, "exp"), GetOptStrings(m, "prf"))
         case (Some(nonce), Some(meta), Some(nbf), Some(exp), Some(prf)) =>
           var p := Payload(iss, aud, cmd, sub, pol, nonce, meta, nbf, exp, prf);
           if ValidPayload(p) then Some(p) else None
         case _ => None)
      case _ => None
  }

  /** The payload as a reader gets it: free-form parts become the data they stand for. */
  function Read(nfc: Nfc, p: Payload<Json>): Payload<Doc>
    requires Readable(nfc, p)
  {
    Payload(p.iss, p.aud, p.cmd, p.sub,
            seq(|p.pol|, i requires 0 <= i < |p.pol| && Meaning(nfc, p.pol[i].value).Some? =>
                           Predicate(p.pol[i].op, p.pol[i].selector, Meaning(nfc, p.pol[i].value).value)),
            p.nonce,
            if p.meta.Some? then Some(Meaning(nfc, p.meta.value).value) else None,
            p.nbf, p.exp, p.prf)
  }

  /** Every free-form part stands for data, and the metadata is a record. */
  predicate Readable(nfc: Nfc, p: Payload<Json>) {
    && (forall i | 0 <= i < |p.pol| :: Meaning(nfc, p.pol[i].value).Some?)
    && (p.meta.Some? ==> p.meta.value.Obj? && Meaning(nfc, p.meta.value).Some?)
  }

  // ---------------------------------------------------------------- tokens

  datatype Issued = Issued(cid: string, jwt: string, payload: Payload<Json>)

  datatype IssueError = BadDid | BadPayload | Unprintable

  const HEADER := Obj([Field("alg", Str("EdDSA")), Field("typ", Str("JWT")), Field("ucv", Str("1.0.0-cb"))])

  /** `issueUcan` */
  function IssueUcan(c: Crypto, payload: Payload<Json>, privateKey: string): Result<Issued, IssueError> {
    match (c.CanonicalDid(payload.iss), c.CanonicalDid(payload.aud))
    case (Some(iss), Some(aud)) =>
      var normalized := payload.(iss := iss, aud := aud);
      if !ValidPayload(normalized) || !(normalized.meta.Some? ==> normalized.meta.value.Obj?) then Failure(BadPayload)
      else
        (match (Canonicalize(c.nfc, HEADER), Canonicalize(c.nfc, Obj(PayloadFields(normalized))))
         case (Success(header), Success(body)) =>
           var signingInput := Encoding.EncodeText(header) + "." + Encoding.EncodeText(body);
           var jwt := signingInput + "." + Encoding.Base64url(c.sign(privateKey, signingInput));
           Success(Issued(c.sha256Hex(jwt), jwt, normalized))
         case _ => Failure(Unprintable))
    case _ => Failure(BadDid)
  }

  datatype Header = Header(alg: string, typ: string, ucv: string)

  datatype Parsed = Parsed(header: Header, payload: Payload<Doc>, signature: Bytes, headerEnc: string,
                           payloadEnc: string)

  function ParseHeader(enc: string): Option<Header> {
    match Encoding.DecodeText(enc)
    case None => None
    case Some(text) =>
      match JsonText.ParseJson(text)
      case Some(DObj(m)) =>
        (match (GetStr(m, "alg"), GetStr(m, "typ"), GetStr(m, "ucv"))
         case (Some(alg), Some(typ), Some(ucv)) => Some(Header(alg, typ, ucv))
         case _ => None)
      case _ => None
  }

  function ParsePayload(enc: string): Option<Payload<Doc>> {
    match Encoding.DecodeText(enc)
    case None => None
    case Some(text) =>
      match JsonText.ParseJson(text)
      case None => None
      case Some(d) => PayloadOf(d)
  }

  /** `parseUcanJwt`; none is its `malformed_ucan`. */
  function ParseUcan(jwt: string): Option<Parsed> {
    var parts := Split(jwt, '.');
    if |parts| != 3 then None
    else
      match (ParseHeader(parts[0]), ParsePayload(parts[1]), Encoding.Base64urlDecode(parts[2]))
      case (Some(header), Some(payload), Some(signature)) =>
        Some(Parsed(header, payload, signature, parts[0], parts[1]))
      case _ => None
  }

  datatype ValidationError =
    | MalformedUcan
    | BadSignature
    | Expired
    | NotYetValid
    | AudienceMismatch
    | CommandMismatch
    | IssuerUnsupported

  /** `actionMatchesGranted` */
  predicate ActionMatchesGranted(granted: string, action: string) {
    action == granted || StartsWith(action, granted + "/")
  }

  predicate AudienceMatches(c: Crypto, aud: string, expected: string) {
    c.CanonicalDid(aud).Some? && c.CanonicalDid(aud) == c.CanonicalDid(expected)
  }

  /** The checks on a parsed token at time `now`. */
  function ValidateParsed(c: Crypto, parsed: Option<Parsed>, now: int, audience: Option<string>,
                          expected: Option<string>)
    : Result<Payload<Doc>, ValidationError>
  {
    match parsed
    case None => Failure(MalformedUcan)
    case Some(t) =>
      if t.header.alg != "EdDSA" || t.header.typ != "JWT" then Failure(MalformedUcan)
      else
        match c.keyOfDid(t.payload.iss)
        case None => Failure(IssuerUnsupported)
        case Some(publicKey) =>
          if !c.verify(publicKey, t.headerEnc + "." + t.payloadEnc, t.signature) then Failure(BadSignature)
          else if t.payload.nbf > now then Failure(NotYetValid)
          else if t.payload.exp <= now then Failure(Expired)
          else if audience.Some? && !AudienceMatches(c, t.payload.aud, audience.value) then Failure(AudienceMismatch)
          else if expected.Some? && !ActionMatchesGranted(t.payload.cmd, expected.value) then Failure(CommandMismatch)
          else Success(t.payload)
  }

  /** `validateUcan` */
  function ValidateUcan(c: Crypto, jwt: string, now: int, audience: Option<string>, expected: Option<string>)
    : Result<Payload<Doc>, ValidationError>
  {
    ValidateParsed(c, ParseUcan(jwt), now, audience, expected)
  }

  /** A token as far as it can be read. */
  type Token = Option<Parsed>

  /** A list of tokens, each read. */
  function ParseAll(jwts: seq<string>): (ts: seq<Token>)
    ensures |ts| == |jwts|
  {
    Map(ParseUcan, jwts)
  }

  lemma ParseAllAt(jwts: seq<string>, i: nat)
    requires i < |jwts|
    ensures ParseAll(jwts)[i] == ParseUcan(jwts[i])
  {
    MapAt(ParseUcan, jwts, i);
  }
}
