/** The audit chain: appending events, signing roots and anchors, and the bundle verifier
    (packages/audit-verify/src/verify.ts, apps/control-plane/src/services/audit-roots.ts,
    audit-genesis-anchor.ts, apps/pdp/src/audit/emit.ts). */
module Audit {
  import opened Common
  import opened Canonical
  import opened Encoding

  type Bytes = seq<Byte>

  /** The foreign primitives; texts stand for their UTF-8 bytes. */
  datatype Primitives = Primitives(
    nfc: Nfc,
    sha256Hex: string -> string,
    publicOf: Bytes -> Bytes,
    sign: (Bytes, string) -> Bytes,
    verify: (Bytes, string, Bytes) -> bool
  ) {
    /** Digests are 64 hex characters and signatures verify. Digests need not be collision-free. */
    ghost predicate Correct() {
      && (forall s :: IsDigest(sha256Hex(s)))
      && (forall k, m :: verify(publicOf(k), m, sign(k, m)))
    }
  }

  predicate IsHexDigit(c: char) {
    '0' <= c <= '9' || 'a' <= c <= 'f'
  }

  /** 64 hex characters. */
  predicate IsDigest(s: string) {
    |s| == 64 && forall c :: c in s ==> IsHexDigit(c)
  }

  // ---------------------------------------------------------------- hex

  function HexOf(bs: Bytes): string {
    if bs == [] then "" else [HexDigit(bs[0] / 16), HexDigit(bs[0] % 16)] + HexOf(bs[1..])
  }

  function HexValue(c: char): Option<int> {
    if '0' <= c <= '9' then Some(c as int - '0' as int)
    else if 'a' <= c <= 'f' then Some(c as int - 'a' as int + 10)
    else if 'A' <= c <= 'F' then Some(c as int - 'A' as int + 10)
    else None
  }

  /** `hexToBytes`; none is its exception. */
  function BytesOfHex(s: string): Option<Bytes> {
    if s == "" then Some([])
    else if |s| == 1 then None
    else
      match (HexValue(s[0]), HexValue(s[1]), BytesOfHex(s[2..]))
      case (Some(hi), Some(lo), Some(rest)) => Some([(hi * 16 + lo) % 256] + rest)
      case _ => None
  }

  lemma HexByte(b: Byte)
    ensures HexValue(HexDigit(b / 16)) == Some(b / 16) && HexValue(HexDigit(b % 16)) == Some(b % 16)
    ensures (b / 16 * 16 + b % 16) % 256 == b
  {
  }

  lemma ReadHexByte(b: Byte, more: string, rest: Bytes)
    requires BytesOfHex(more) == Some(rest)
    ensures BytesOfHex([HexDigit(b / 16), HexDigit(b % 16)] + more) == Some([b] + rest)
  {
    HexByte(b);
    assert ([HexDigit(b / 16), HexDigit(b % 16)] + more)[2..] == more;
  }

  lemma {:induction false} HexRoundTrip(bs: Bytes)
    ensures BytesOfHex(HexOf(bs)) == Some(bs)
  {
    if bs != [] {
      HexRoundTrip(bs[1..]);
      ReadHexByte(bs[0], HexOf(bs[1..]), bs[1..]);
      assert bs == [bs[0]] + bs[1..];
    }
  }

  // ---------------------------------------------------------------- bundles

  datatype Event = Event(id: string, customer: string, prevHash: string, hash: string, payload: Json)

  datatype Root = Root(eventId: string, rootHash: string, keyId: string, signature: string, signedAt: string,
                       version: Option<int>, signedAtMs: Option<int>)

  datatype Anchor = Anchor(customer: string, genesisHash: string, keyId: string, signature: string, signedAtMs: int)

  datatype Bundle = Bundle(eventId: string, events: seq<Event>, root: Option<Root>, anchor: Option<Anchor>)

  datatype Reason =
    | EmptyBundle
    | EventIdMismatch
    | HashMismatch
    | PrevHashMismatch
    | RootHashNotFoundInChain
    | RootSignatureInvalid
    | AnchorSignatureInvalid
    | AnchorGenesisMismatch
    | AnchorCustomerMismatch

  datatype VerifyError = VerifyError(index: Option<nat>, reason: Reason)

  datatype VerifyResult = VerifyResult(ok: bool, errors: seq<VerifyError>, signedAt: Option<string>,
                                       keyId: Option<string>)

  /** The text whose digest an event's hash is, when the payload can be printed. */
  function Preimage(nfc: Nfc, e: Event): Result<string, PrintError> {
    match Canonicalize(nfc, e.payload)
    case Failure(err) => Failure(err)
    case Success(text) => Success(e.prevHash + "|" + text)
  }

  /** `encodeSignedRoot` */
  function EncodeSignedRoot(customer: string, rootHash: string, signedAtMs: int): string {
    "nomos-audit-root|v2|" + customer + "|" + rootHash + "|" + IntText(signedAtMs)
  }

  /** `encodeGenesisAnchor` */
  function EncodeGenesisAnchor(customer: string, genesisHash: string, signedAtMs: int): string {
    "nomos-genesis-anchor|v1|" + customer + "|" + genesisHash + "|" + IntText(signedAtMs)
  }

  /** The message a root's signature is checked against; none when a version 2 root has no time. */
  function RootMessage(root: Root, customer: string): Option<string> {
    if root.version == Some(2) then
      if root.signedAtMs.None? then None
      else Some(EncodeSignedRoot(customer, root.rootHash, root.signedAtMs.value))
    else Some(root.rootHash)
  }

  predicate SignatureOk(p: Primitives, verifyKeyHex: string, message: Option<string>, signatureHex: string) {
    match (BytesOfHex(verifyKeyHex), BytesOfHex(signatureHex), message)
    case (Some(key), Some(signature), Some(m)) => p.verify(key, m, signature)
    case _ => false
  }

  // ---------------------------------------------------------------- the verdict as a function

  /** The errors of event `i`. */
  function EventErrors(p: Primitives, events: seq<Event>, i: nat): seq<VerifyError>
    requires i < |events| && Preimage(p.nfc, events[i]).Success?
  {
    (if p.sha256Hex(Preimage(p.nfc, events[i]).value) != events[i].hash then [VerifyError(Some(i), HashMismatch)]
     else [])
    + (if i > 0 && events[i].prevHash != events[i - 1].hash then [VerifyError(Some(i), PrevHashMismatch)] else [])
  }

  /** The errors of the first `n` events, or the exception of a payload that cannot be printed. */
  function WalkErrors(p: Primitives, events: seq<Event>, n: nat): Result<seq<VerifyError>, PrintError>
    requires n <= |events|
  {
    if n == 0 then Success([])
    else
      match WalkErrors(p, events, n - 1)
      case Failure(e) => Failure(e)
      case Success(errors) =>
        match Preimage(p.nfc, events[n - 1])
        case Failure(e) => Failure(e)
        case Success(_) => Success(errors + EventErrors(p, events, n - 1))
  }

  predicate RootInChain(events: seq<Event>, rootHash: string) {
    exists e :: e in events && e.hash == rootHash
  }

  function RootErrors(p: Primitives, events: seq<Event>, root: Root, verifyKeyHex: string): seq<VerifyError>
    requires events != []
  {
    (if RootInChain(events, root.rootHash) then [] else [VerifyError(None, RootHashNotFoundInChain)])
    + (if SignatureOk(p, verifyKeyHex, RootMessage(root, events[0].customer), root.signature) then []
       else [VerifyError(None, RootSignatureInvalid)])
  }

  function AnchorErrors(p: Primitives, first: Event, anchor: Anchor, verifyKeyHex: string): seq<VerifyError> {
    (if anchor.customer != first.customer then [VerifyError(None, AnchorCustomerMismatch)] else [])
    + (if first.prevHash != anchor.genesisHash then [VerifyError(None, AnchorGenesisMismatch)] else [])
    + (if SignatureOk(p, verifyKeyHex,
                      Some(EncodeGenesisAnchor(anchor.customer, anchor.genesisHash, anchor.signedAtMs)),
                      anchor.signature) then []
       else [VerifyError(None, AnchorSignatureInvalid)])
  }

  /** What `verifyBundle` returns, or the exception it throws. */
  function Verdict(p: Primitives, b: Bundle, verifyKeyHex: string): Result<VerifyResult, PrintError> {
    if b.events == [] then Success(VerifyResult(false, [VerifyError(None, EmptyBundle)], None, None))
    else
      match WalkErrors(p, b.events, |b.events|)
      case Failure(e) => Failure(e)
      case Success(walk) =>
        var errors :=
          (if b.events[0].id != b.eventId then [VerifyError(None, EventIdMismatch)] else [])
          + walk
          + (if b.root.Some? then RootErrors(p, b.events, b.root.value, verifyKeyHex) else [])
          + (if b.anchor.Some? then AnchorErrors(p, b.events[0], b.anchor.value, verifyKeyHex) else []);
        if errors != [] then Success(VerifyResult(false, errors, None, None))
        else if b.root.Some? then Success(VerifyResult(true, [], Some(b.root.value.signedAt), Some(b.root.value.keyId)))
        else Success(VerifyResult(true, [], None, None))
  }

  // ---------------------------------------------------------------- the verifier

  /** The pass over the events. */
  method Walk(p: Primitives, events: seq<Event>) returns (r: Result<seq<VerifyError>, PrintError>)
    ensures r == WalkErrors(p, events, |events|)
  {
    var errors: seq<VerifyError> := [];
    for i := 0 to |events|
      invariant WalkErrors(p, events, i) == Success(errors)
    {
      var preimage := Preimage(p.nfc, events[i]);
      if preimage.Failure? {
        WalkStops(p, events, i, |events|);
        return Failure(preimage.error);
      }
      ghost var before := errors;
      if p.sha256Hex(preimage.value) != events[i].hash {
        errors := errors + [VerifyError(Some(i), HashMismatch)];
      }
      if i > 0 && events[i].prevHash != events[i - 1].hash {
        errors := errors + [VerifyError(Some(i), PrevHashMismatch)];
      }
      assert errors == before + EventErrors(p, events, i);
    }
    return Success(errors);
  }

  lemma {:induction false} WalkStops(p: Primitives, events: seq<Event>, i: nat, n: nat)
    requires i < n <= |events| && WalkErrors(p, events, i).Success? && Preimage(p.nfc, events[i]).Failure?
    ensures WalkErrors(p, events, n) == Failure(Preimage(p.nfc, events[i]).error)
  {
    if i + 1 < n {
      WalkStops(p, events, i, n - 1);
    }
  }

  /** The checks of a signed root. */
  method CheckRoot(p: Primitives, events: seq<Event>, root: Root, verifyKeyHex: string)
    returns (errors: seq<VerifyError>)
    requires events != []
    ensures errors == RootErrors(p, events, root, verifyKeyHex)
  {
    errors := [];
    var found := false;
    for i := 0 to |events|
      invariant found <==> exists j :: 0 <= j < i && events[j].hash == root.rootHash
    {
      found := found || events[i].hash == root.rootHash;
    }
    assert found <==> RootInChain(events, root.rootHash);
    if !found {
      errors := errors + [VerifyError(None, RootHashNotFoundInChain)];
    }
    if !SignatureOk(p, verifyKeyHex, RootMessage(root, events[0].customer), root.signature) {
      errors := errors + [VerifyError(None, RootSignatureInvalid)];
    }
  }

  /** The checks of a genesis anchor. */
  method CheckAnchor(p: Primitives, first: Event, anchor: Anchor, verifyKeyHex: string)
    returns (errors: seq<VerifyError>)
    ensures errors == AnchorErrors(p, first, anchor, verifyKeyHex)
  {
    errors := [];
    if anchor.customer != first.customer {
      errors := errors + [VerifyError(None, AnchorCustomerMismatch)];
    }
    if first.prevHash != anchor.genesisHash {
      errors := errors + [VerifyError(None, AnchorGenesisMismatch)];
    }
    var message := EncodeGenesisAnchor(anchor.customer, anchor.genesisHash, anchor.signedAtMs);
    if !SignatureOk(p, verifyKeyHex, Some(message), anchor.signature) {
      errors := errors + [VerifyError(None, AnchorSignatureInvalid)];
    }
  }

  /** `verifyBundle`: errors are listed in the order they are found. */
  method VerifyBundle(p: Primitives, b: Bundle, verifyKeyHex: string) returns (r: Result<VerifyResult, PrintError>)
    ensures r == Verdict(p, b, verifyKeyHex)
  {
    if |b.events| == 0 {
      return Success(VerifyResult(false, [VerifyError(None, EmptyBundle)], None, None));
    }
    var errors: seq<VerifyError> := [];
    if b.events[0].id != b.eventId {
      errors := errors + [VerifyError(None, EventIdMismatch)];
    }
    assert errors == if b.events[0].id != b.eventId then [VerifyError(None, EventIdMismatch)] else [];
    var walk := Walk(p, b.events);
    if walk.Failure? {
      return Failure(walk.error);
    }
    errors := errors + walk.value;
    var rootErrors: seq<VerifyError> := [];
    if b.root.Some? {
      rootErrors := CheckRoot(p, b.events, b.root.value, verifyKeyHex);
    }
    errors := errors + rootErrors;
    var anchorErrors: seq<VerifyError> := [];
    if b.anchor.Some? {
      anchorErrors := CheckAnchor(p, b.events[0], b.anchor.value, verifyKeyHex);
    }
    errors := errors + anchorErrors;
    if |errors| > 0 {
      return Success(VerifyResult(false, errors, None, None));
    }
    if b.root.Some? {
      return Success(VerifyResult(true, [], Some(b.root.value.signedAt), Some(b.root.value.keyId)));
    }
    return Success(VerifyResult(true, [], None, None));
  }
}
