/** Which errors the bundle verifier lists, and in which order (packages/audit-verify/src/verify.ts). */
module AuditReasons {
  import opened Common
  import opened Canonical
  import opened Encoding
  import opened Audit

  /** The signature is over just this text. */
  predicate Signed(p: Primitives, key: string, text: string, signature: string) {
    match (BytesOfHex(key), BytesOfHex(signature))
    case (Some(k), Some(s)) => p.verify(k, text, s)
    case _ => false
  }

  /** The event's hash is that of its previous hash, a bar and its printed payload. */
  predicate Hashed(p: Primitives, e: Event) {
    match Canonicalize(p.nfc, e.payload)
    case Success(text) => p.sha256Hex(e.prevHash + "|" + text) == e.hash
    case Failure(_) => false
  }

  /** A root of version 2 is signed for the customer and a time, any other over its hash alone. */
  predicate RootSigned(p: Primitives, key: string, customer: string, root: Root) {
    if root.version == Some(2) then
      root.signedAtMs.Some?
      && Signed(p, key, "nomos-audit-root|v2|" + customer + "|" + root.rootHash + "|" + IntText(root.signedAtMs.value),
                root.signature)
    else Signed(p, key, root.rootHash, root.signature)
  }

  predicate AnchorSigned(p: Primitives, key: string, a: Anchor) {
    Signed(p, key, "nomos-genesis-anchor|v1|" + a.customer + "|" + a.genesisHash + "|" + IntText(a.signedAtMs),
           a.signature)
  }

  /** What is wrong with event `i`. */
  predicate EventWrong(p: Primitives, events: seq<Event>, i: nat, reason: Reason)
    requires i < |events|
  {
    (reason == HashMismatch && !Hashed(p, events[i]))
    || (reason == PrevHashMismatch && i > 0 && events[i].prevHash != events[i - 1].hash)
  }

  predicate RootWrong(p: Primitives, b: Bundle, key: string, reason: Reason)
    requires b.events != [] && b.root.Some?
  {
    (reason == RootHashNotFoundInChain && forall e :: e in b.events ==> e.hash != b.root.value.rootHash)
    || (reason == RootSignatureInvalid && !RootSigned(p, key, b.events[0].customer, b.root.value))
  }

  predicate AnchorWrong(p: Primitives, b: Bundle, key: string, reason: Reason)
    requires b.events != [] && b.anchor.Some?
  {
    (reason == AnchorCustomerMismatch && b.anchor.value.customer != b.events[0].customer)
    || (reason == AnchorGenesisMismatch && b.anchor.value.genesisHash != b.events[0].prevHash)
    || (reason == AnchorSignatureInvalid && !AnchorSigned(p, key, b.anchor.value))
  }

  /** What is wrong with a bundle: only faults of events have an index. */
  predicate Wrong(p: Primitives, b: Bundle, key: string, e: VerifyError) {
    if b.events == [] then e == VerifyError(None, EmptyBundle)
    else
      match e.index
      case Some(i) => i < |b.events| && EventWrong(p, b.events, i, e.reason)
      case None =>
        (e.reason == EventIdMismatch && b.events[0].id != b.eventId)
        || (b.root.Some? && RootWrong(p, b, key, e.reason))
        || (b.anchor.Some? && AnchorWrong(p, b, key, e.reason))
  }

  /** The place of an error in a list for `n` events: the event id, the events one after the other, each with its hash
      before its link, the root, the anchor. */
  function Place(n: nat, e: VerifyError): int {
    var i := if e.index.Some? then e.index.value else 0;
    match e.reason
    case EmptyBundle => -2
    case EventIdMismatch => -1
    case HashMismatch => 2 * i
    case PrevHashMismatch => 2 * i + 1
    case RootHashNotFoundInChain => 2 * n
    case RootSignatureInvalid => 2 * n + 1
    case AnchorCustomerMismatch => 2 * n + 2
    case AnchorGenesisMismatch => 2 * n + 3
    case AnchorSignatureInvalid => 2 * n + 4
  }

  predicate InPlace(n: nat, errors: seq<VerifyError>) {
    forall i, j | 0 <= i < j < |errors| :: Place(n, errors[i]) < Place(n, errors[j])
  }

  /** Every error has its place from `lo` up to `hi`. */
  predicate Between(n: nat, errors: seq<VerifyError>, lo: int, hi: int) {
    InPlace(n, errors) && forall e :: e in errors ==> lo <= Place(n, e) < hi
  }

  lemma BetweenAppend(n: nat, a: seq<VerifyError>, b: seq<VerifyError>, lo: int, mid: int, hi: int)
    requires Between(n, a, lo, mid) && Between(n, b, mid, hi) && lo <= mid <= hi
    ensures Between(n, a + b, lo, hi)
  {
    forall i, j | 0 <= i < j < |a + b| ensures Place(n, (a + b)[i]) < Place(n, (a + b)[j]) {
      if i < |a| <= j {
        assert (a + b)[i] in a && (a + b)[j] in b;
      }
    }
  }

  lemma EventErrorsAre(p: Primitives, events: seq<Event>, i: nat, n: nat)
    requires i < |events| && Preimage(p.nfc, events[i]).Success?
    ensures Between(n, EventErrors(p, events, i), 2 * i, 2 * i + 2)
    ensures forall e :: e in EventErrors(p, events, i) <==> e.index == Some(i) && EventWrong(p, events, i, e.reason)
  {
  }

  /** What the walk over the first `m` events lists. */
  ghost predicate WalkIs(p: Primitives, events: seq<Event>, m: nat, errors: seq<VerifyError>)
    requires m <= |events|
  {
    Between(|events|, errors, 0, 2 * m)
    && forall e :: e in errors <==> e.index.Some? && e.index.value < m && EventWrong(p, events, e.index.value, e.reason)
  }

  predicate Printable(p: Primitives, events: seq<Event>) {
    forall e :: e in events ==> Canonicalize(p.nfc, e.payload).Success?
  }

  lemma {:induction false} WalkErrorsAre(p: Primitives, events: seq<Event>, m: nat)
    requires m <= |events|
    ensures WalkErrors(p, events, m).Success? <==> Printable(p, events[..m])
    ensures WalkErrors(p, events, m).Success? ==> WalkIs(p, events, m, WalkErrors(p, events, m).value)
  {
    if m > 0 {
      WalkErrorsAre(p, events, m - 1);
      assert events[..m] == events[..m - 1] + [events[m - 1]];
      if WalkErrors(p, events, m).Success? {
        EventErrorsAre(p, events, m - 1, |events|);
        WalkMore(p, events, m - 1, WalkErrors(p, events, m - 1).value, EventErrors(p, events, m - 1));
      }
    }
  }

  lemma WalkMore(p: Primitives, events: seq<Event>, m: nat, before: seq<VerifyError>, more: seq<VerifyError>)
    requires m < |events| && WalkIs(p, events, m, before) && Between(|events|, more, 2 * m, 2 * m + 2)
    requires forall e :: e in more <==> e.index == Some(m) && EventWrong(p, events, m, e.reason)
    ensures WalkIs(p, events, m + 1, before + more)
  {
    BetweenAppend(|events|, before, more, 0, 2 * m, 2 * m + 2);
  }

  lemma RootErrorsAre(p: Primitives, b: Bundle, key: string)
    requires b.events != [] && b.root.Some?
    ensures var errors := RootErrors(p, b.events, b.root.value, key);
            Between(|b.events|, errors, 2 * |b.events|, 2 * |b.events| + 2)
            && forall e :: e in errors <==> e.index.None? && RootWrong(p, b, key, e.reason)
  {
  }

  lemma AnchorErrorsAre(p: Primitives, b: Bundle, key: string)
    requires b.events != [] && b.anchor.Some?
    ensures var errors := AnchorErrors(p, b.events[0], b.anchor.value, key);
            Between(|b.events|, errors, 2 * |b.events| + 2, 2 * |b.events| + 5)
            && forall e :: e in errors <==> e.index.None? && AnchorWrong(p, b, key, e.reason)
  {
  }

  lemma Four(n: nat, a: seq<VerifyError>, b: seq<VerifyError>, c: seq<VerifyError>, d: seq<VerifyError>)
    requires Between(n, a, -1, 0) && Between(n, b, 0, 2 * n)
    requires Between(n, c, 2 * n, 2 * n + 2) && Between(n, d, 2 * n + 2, 2 * n + 5)
    ensures Between(n, a + b + c + d, -1, 2 * n + 5)
  {
    BetweenAppend(n, a, b, -1, 0, 2 * n);
    BetweenAppend(n, a + b, c, -1, 2 * n, 2 * n + 2);
    BetweenAppend(n, a + b + c, d, -1, 2 * n + 2, 2 * n + 5);
  }

  /** The four parts of the list. */
  function IdPart(b: Bundle): seq<VerifyError>
    requires b.events != []
  {
    if b.events[0].id != b.eventId then [VerifyError(None, EventIdMismatch)] else []
  }

  function RootPart(p: Primitives, b: Bundle, key: string): seq<VerifyError>
    requires b.events != []
  {
    if b.root.Some? then RootErrors(p, b.events, b.root.value, key) else []
  }

  function AnchorPart(p: Primitives, b: Bundle, key: string): seq<VerifyError>
    requires b.events != []
  {
    if b.anchor.Some? then AnchorErrors(p, b.events[0], b.anchor.value, key) else []
  }

  lemma PartsListed(p: Primitives, b: Bundle, key: string, walk: seq<VerifyError>)
    requires b.events != [] && WalkErrors(p, b.events, |b.events|) == Success(walk)
    ensures Verdict(p, b, key).Success?
    ensures Verdict(p, b, key).value.errors == IdPart(b) + walk + RootPart(p, b, key) + AnchorPart(p, b, key)
  {
  }

  lemma RootPartIs(p: Primitives, b: Bundle, key: string)
    requires b.events != []
    ensures Between(|b.events|, RootPart(p, b, key), 2 * |b.events|, 2 * |b.events| + 2)
    ensures forall e :: e in RootPart(p, b, key) <==> e.index.None? && b.root.Some? && RootWrong(p, b, key, e.reason)
  {
    if b.root.Some? {
      RootErrorsAre(p, b, key);
    }
  }

  lemma AnchorPartIs(p: Primitives, b: Bundle, key: string)
    requires b.events != []
    ensures Between(|b.events|, AnchorPart(p, b, key), 2 * |b.events| + 2, 2 * |b.events| + 5)
    ensures forall e :: e in AnchorPart(p, b, key)
                        <==> e.index.None? && b.anchor.Some? && AnchorWrong(p, b, key, e.reason)
  {
    if b.anchor.Some? {
      AnchorErrorsAre(p, b, key);
    }
  }

  lemma PartsWrong(p: Primitives, b: Bundle, key: string, walk: seq<VerifyError>)
    requires b.events != [] && WalkIs(p, b.events, |b.events|, walk)
    ensures var errors := IdPart(b) + walk + RootPart(p, b, key) + AnchorPart(p, b, key);
            InPlace(|b.events|, errors) && forall e :: e in errors <==> Wrong(p, b, key, e)
  {
    RootPartIs(p, b, key);
    AnchorPartIs(p, b, key);
    Four(|b.events|, IdPart(b), walk, RootPart(p, b, key), AnchorPart(p, b, key));
  }

  /** The verifier throws exactly on a payload that cannot be printed; else it lists exactly what is wrong, each fault
      once, under its own reason and at its own index, in the order it looks. */
  lemma ErrorsExactly(p: Primitives, b: Bundle, key: string)
    ensures Verdict(p, b, key).Success? <==> Printable(p, b.events)
    ensures Verdict(p, b, key).Success? ==>
              var errors := Verdict(p, b, key).value.errors;
              InPlace(|b.events|, errors) && forall e :: e in errors <==> Wrong(p, b, key, e)
  {
    WalkErrorsAre(p, b.events, |b.events|);
    assert b.events[..|b.events|] == b.events;
    if b.events != [] && Printable(p, b.events) {
      PartsListed(p, b, key, WalkErrors(p, b.events, |b.events|).value);
      PartsWrong(p, b, key, WalkErrors(p, b.events, |b.events|).value);
    }
  }
}
