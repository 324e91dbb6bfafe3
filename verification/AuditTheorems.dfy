/** What a verified audit bundle proves: the exact meaning of its verdict, evidence of tampering,
    completeness for honestly kept logs, and soundness against a key that signed only honest roots. */
module AuditTheorems {
  import opened Common
  import opened Canonical
  import opened CanonicalBars
  import opened CanonicalTheorems
  import opened Encoding
  import opened Audit

  // ---------------------------------------------------------------- the meaning of the verdict

  /** The event's hash is the digest of its printed payload after the previous hash. */
  predicate SelfHashed(p: Primitives, e: Event) {
    Preimage(p.nfc, e).Success? && p.sha256Hex(Preimage(p.nfc, e).value) == e.hash
  }

  /** The chain walk: every event is self-hashed and points to the one before it. */
  predicate HashWalk(p: Primitives, events: seq<Event>) {
    && (forall i | 0 <= i < |events| :: SelfHashed(p, events[i]))
    && (forall i | 0 < i < |events| :: events[i].prevHash == events[i - 1].hash)
  }

  lemma HashWalkSnoc(p: Primitives, before: seq<Event>, e: Event)
    ensures HashWalk(p, before + [e])
            <==> HashWalk(p, before) && SelfHashed(p, e) && (before != [] ==> e.prevHash == before[|before| - 1].hash)
  {
    var all := before + [e];
    assert forall i | 0 <= i < |before| :: all[i] == before[i];
    assert all[|before|] == e;
    if HashWalk(p, all) {
      assert forall i | 0 <= i < |before| :: SelfHashed(p, all[i]);
      assert SelfHashed(p, all[|before|]);
    }
  }

  lemma {:induction false} WalkClean(p: Primitives, events: seq<Event>, n: nat)
    requires n <= |events|
    ensures WalkErrors(p, events, n) == Success([]) <==> HashWalk(p, events[..n])
  {
    if n > 0 {
      WalkClean(p, events, n - 1);
      assert events[..n] == events[..n - 1] + [events[n - 1]];
      HashWalkSnoc(p, events[..n - 1], events[n - 1]);
    }
  }

  /** The root's part of the verdict: its hash is some event's, and its signature checks out. */
  predicate RootOk(p: Primitives, events: seq<Event>, root: Root, key: string)
    requires events != []
  {
    RootInChain(events, root.rootHash) && SignatureOk(p, key, RootMessage(root, events[0].customer), root.signature)
  }

  /** The anchor's part: it names the first event's customer and previous hash, and is signed. */
  predicate AnchorOk(p: Primitives, first: Event, anchor: Anchor, key: string) {
    && anchor.customer == first.customer
    && anchor.genesisHash == first.prevHash
    && SignatureOk(p, key, Some(EncodeGenesisAnchor(anchor.customer, anchor.genesisHash, anchor.signedAtMs)),
                   anchor.signature)
  }

  predicate AllChecks(p: Primitives, b: Bundle, key: string) {
    && b.events != [] && b.events[0].id == b.eventId
    && HashWalk(p, b.events)
    && (b.root.Some? ==> RootOk(p, b.events, b.root.value, key))
    && (b.anchor.Some? ==> AnchorOk(p, b.events[0], b.anchor.value, key))
  }

  /** A bundle is found ok exactly when every stated check holds, and then without errors. */
  lemma OkIffAllChecks(p: Primitives, b: Bundle, key: string)
    ensures Verdict(p, b, key).Success? && Verdict(p, b, key).value.ok <==> AllChecks(p, b, key)
    ensures Verdict(p, b, key).Success? ==> (Verdict(p, b, key).value.ok <==> Verdict(p, b, key).value.errors == [])
    ensures AllChecks(p, b, key) && b.root.Some? ==>
              Verdict(p, b, key)
              == Success(VerifyResult(true, [], Some(b.root.value.signedAt), Some(b.root.value.keyId)))
  {
    WalkClean(p, b.events, |b.events|);
    assert b.events[..|b.events|] == b.events;
  }

  // ---------------------------------------------------------------- tamper evidence

  /** A pair of different texts with one digest. */
  ghost predicate Collide(p: Primitives, a: string, b: string) {
    a != b && p.sha256Hex(a) == p.sha256Hex(b)
  }

  /** Two histories exhibit a collision of the hash function. */
  ghost predicate Collision(p: Primitives, a: seq<Event>, b: seq<Event>) {
    exists e, f :: e in a && f in b && Preimage(p.nfc, e).Success? && Preimage(p.nfc, f).Success?
                   && Collide(p, Preimage(p.nfc, e).value, Preimage(p.nfc, f).value)
  }

  /** Everything the hash commits to is the same. */
  predicate SameEvent(nfc: Nfc, e: Event, f: Event) {
    e.hash == f.hash && e.prevHash == f.prevHash && Meaning(nfc, e.payload) == Meaning(nfc, f.payload)
  }

  lemma DigestHasNoBar(s: string)
    requires IsDigest(s)
    ensures '|' !in s
  {
    assert !IsHexDigit('|');
  }

  /** Equal hashes mean equal contents, or a collision. */
  lemma SameHashSameEvent(p: Primitives, e: Event, f: Event)
    requires SelfHashed(p, e) && SelfHashed(p, f) && e.hash == f.hash
    ensures SameEvent(p.nfc, e, f) || Collide(p, Preimage(p.nfc, e).value, Preimage(p.nfc, f).value)
  {
    if Preimage(p.nfc, e) == Preimage(p.nfc, f) {
      CanonicalAfterBar(p.nfc, e.prevHash, f.prevHash, e.payload, f.payload);
      CanonicalUnambiguous(p.nfc, e.payload, f.payload);
    }
  }

  /** Two stretches of events are the same, one by one. */
  predicate SameEvents(nfc: Nfc, a: seq<Event>, b: seq<Event>) {
    |a| == |b| && forall i | 0 <= i < |a| :: SameEvent(nfc, a[i], b[i])
  }

  lemma SameSnoc(nfc: Nfc, x: seq<Event>, y: seq<Event>, n: nat)
    requires |x| == |y| == n + 1 && SameEvents(nfc, x[..n], y[..n]) && SameEvent(nfc, x[n], y[n])
    ensures SameEvents(nfc, x, y)
  {
    forall i | 0 <= i < |x| ensures SameEvent(nfc, x[i], y[i]) {
      if i < n {
        assert SameEvent(nfc, x[..n][i], y[..n][i]);
      }
    }
  }

  lemma FewerCollisions(p: Primitives, x: seq<Event>, y: seq<Event>, a: seq<Event>, b: seq<Event>)
    requires (forall e :: e in x ==> e in a) && (forall e :: e in y ==> e in b)
    requires Collision(p, x, y)
    ensures Collision(p, a, b)
  {
    var e, f :| e in x && f in y && Preimage(p.nfc, e).Success? && Preimage(p.nfc, f).Success?
                && Collide(p, Preimage(p.nfc, e).value, Preimage(p.nfc, f).value);
    assert e in a && f in b;
  }

  /** Two stretches of one length that end in one hash are the same. */
  lemma {:induction false} BackwardsSame(p: Primitives, x: seq<Event>, y: seq<Event>, n: nat)
    requires |x| == |y| == n + 1 && HashWalk(p, x) && HashWalk(p, y) && !Collision(p, x, y)
    requires x[n].hash == y[n].hash
    ensures SameEvents(p.nfc, x, y)
  {
    assert SelfHashed(p, x[n]) && SelfHashed(p, y[n]) && x[n] in x && y[n] in y;
    SameHashSameEvent(p, x[n], y[n]);
    if n > 0 {
      WalkInit(p, x, n);
      WalkInit(p, y, n);
      if Collision(p, x[..n], y[..n]) {
        FewerCollisions(p, x[..n], y[..n], x, y);
      }
      BackwardsSame(p, x[..n], y[..n], n - 1);
    }
    SameSnoc(p.nfc, x, y, n);
  }

  lemma WalkInit(p: Primitives, x: seq<Event>, n: nat)
    requires 0 < n && |x| == n + 1 && HashWalk(p, x)
    ensures HashWalk(p, x[..n]) && x[n].prevHash == x[..n][n - 1].hash
  {
    assert x == x[..n] + [x[n]];
    HashWalkSnoc(p, x[..n], x[n]);
  }

  lemma SliceWalks(p: Primitives, events: seq<Event>, i: nat, j: nat)
    requires HashWalk(p, events) && i <= j < |events|
    ensures HashWalk(p, events[i..j + 1])
  {
    var s := events[i..j + 1];
    assert forall k | 0 <= k < |s| :: s[k] == events[i + k];
  }

  lemma SuffixWalks(p: Primitives, events: seq<Event>, i: nat)
    requires HashWalk(p, events) && i < |events|
    ensures var y := events[i..];
            HashWalk(p, y) && y[|y| - 1] == events[|events| - 1] && forall e :: e in y ==> e in events
  {
    var y := events[i..];
    assert forall k | 0 <= k < |y| :: y[k] == events[i + k];
  }

  /** Two chains that meet in one hash agree on everything before it, as far as both go. */
  lemma MeetingChainsAgree(p: Primitives, a: seq<Event>, b: seq<Event>, i: nat, m: nat, j: nat, n: nat)
    requires HashWalk(p, a) && HashWalk(p, b) && !Collision(p, a, b)
    requires i <= m < |a| && j <= n < |b| && m - i == n - j
    requires a[m].hash == b[n].hash
    ensures SameEvents(p.nfc, a[i..m + 1], b[j..n + 1])
  {
    var x, y := a[i..m + 1], b[j..n + 1];
    SliceWalks(p, a, i, m);
    SliceWalks(p, b, j, n);
    if Collision(p, x, y) {
      FewerCollisions(p, x, y, a, b);
    }
    BackwardsSame(p, x, y, m - i);
  }

  /** Tamper evidence: if two chains pass the walk and end in the same hash, the shorter one's payloads
      and hashes are a suffix of the longer one's, or the two exhibit a hash collision. */
  lemma CommonEndCommonSuffix(p: Primitives, a: seq<Event>, b: seq<Event>)
    requires HashWalk(p, a) && HashWalk(p, b)
    requires 0 < |a| <= |b|
    requires a[|a| - 1].hash == b[|b| - 1].hash
    ensures Collision(p, a, b) || SameEvents(p.nfc, a, b[|b| - |a|..])
  {
    var y := b[|b| - |a|..];
    SuffixWalks(p, b, |b| - |a|);
    if Collision(p, a, y) {
      FewerCollisions(p, a, y, a, b);
    } else {
      BackwardsSame(p, a, y, |a| - 1);
    }
  }

  // ---------------------------------------------------------------- honest logs

  function GenesisText(customer: string, secret: string): string {
    "audit-genesis|v1|" + customer + "|" + secret
  }

  /** `auditGenesisHash` */
  function Genesis(p: Primitives, customer: string, secret: string): string {
    p.sha256Hex(GenesisText(customer, secret))
  }

  /** One customer's log as the emitter keeps it: chained from the customer's genesis hash. */
  ghost predicate Honest(p: Primitives, customer: string, genesis: string, events: seq<Event>) {
    && HashWalk(p, events)
    && (forall e :: e in events ==> e.customer == customer)
    && (events != [] ==> events[0].prevHash == genesis)
  }

  function LastHash(genesis: string, events: seq<Event>): string {
    if events == [] then genesis else events[|events| - 1].hash
  }

  /** The event the emitter appends for a payload that can be printed. */
  function Emit(p: Primitives, customer: string, genesis: string, events: seq<Event>, id: string, payload: Json): Event
    requires Canonicalize(p.nfc, payload).Success?
  {
    var prev := LastHash(genesis, events);
    Event(id, customer, prev, p.sha256Hex(prev + "|" + Canonicalize(p.nfc, payload).value), payload)
  }

  /** Emitting keeps a log honest. */
  lemma EmitKeepsHonest(p: Primitives, customer: string, genesis: string, events: seq<Event>, id: string, payload: Json)
    requires Honest(p, customer, genesis, events) && Canonicalize(p.nfc, payload).Success?
    ensures Honest(p, customer, genesis, events + [Emit(p, customer, genesis, events, id, payload)])
  {
    var e := Emit(p, customer, genesis, events, id, payload);
    assert SelfHashed(p, e);
    HashWalkSnoc(p, events, e);
  }

  /** A root as the signing service stores it for the log's head. */
  function SignRoot(p: Primitives, key: Bytes, keyId: string, head: Event, signedAt: string, ms: int): Root {
    Root(head.id, head.hash, keyId, HexOf(p.sign(key, EncodeSignedRoot(head.customer, head.hash, ms))), signedAt,
         Some(2), Some(ms))
  }

  /** An anchor as the anchor service stores it. */
  function SignAnchor(p: Primitives, key: Bytes, keyId: string, customer: string, genesis: string, ms: int): Anchor {
    Anchor(customer, genesis, keyId, HexOf(p.sign(key, EncodeGenesisAnchor(customer, genesis, ms))), ms)
  }

  lemma SignedRootOk(p: Primitives, key: Bytes, keyId: string, events: seq<Event>, head: Event, signedAt: string,
                     ms: int)
    requires p.Correct() && head in events && events[0].customer == head.customer
    ensures RootOk(p, events, SignRoot(p, key, keyId, head, signedAt, ms), HexOf(p.publicOf(key)))
  {
    HexRoundTrip(p.publicOf(key));
    HexRoundTrip(p.sign(key, EncodeSignedRoot(head.customer, head.hash, ms)));
  }

  lemma SignedAnchorOk(p: Primitives, key: Bytes, keyId: string, first: Event, ms: int)
    requires p.Correct()
    ensures AnchorOk(p, first, SignAnchor(p, key, keyId, first.customer, first.prevHash, ms), HexOf(p.publicOf(key)))
  {
    HexRoundTrip(p.publicOf(key));
    HexRoundTrip(p.sign(key, EncodeGenesisAnchor(first.customer, first.prevHash, ms)));
  }

  /** The bundle of the slice `i..j`, with the root signed at `j` and, from the first event, the anchor. */
  function HonestBundle(p: Primitives, key: Bytes, keyId: string, genesis: string, events: seq<Event>, i: nat, j: nat,
                        signedAt: string, rootMs: int, anchorMs: int): Bundle
    requires i <= j < |events|
  {
    Bundle(events[i].id, events[i..j + 1], Some(SignRoot(p, key, keyId, events[j], signedAt, rootMs)),
           if i == 0 then Some(SignAnchor(p, key, keyId, events[0].customer, genesis, anchorMs)) else None)
  }

  lemma HonestSliceChecks(p: Primitives, key: Bytes, keyId: string, customer: string, genesis: string,
                          events: seq<Event>, i: nat, j: nat, signedAt: string, rootMs: int, anchorMs: int)
    requires p.Correct() && Honest(p, customer, genesis, events) && i <= j < |events|
    ensures AllChecks(p, HonestBundle(p, key, keyId, genesis, events, i, j, signedAt, rootMs, anchorMs),
                      HexOf(p.publicOf(key)))
  {
    var slice := events[i..j + 1];
    SliceWalks(p, events, i, j);
    assert slice[0] == events[i] && slice[|slice| - 1] == events[j] && events[j] in slice;
    assert events[i] in events && events[j] in events && events[0] in events;
    SignedRootOk(p, key, keyId, slice, events[j], signedAt, rootMs);
    if i == 0 {
      SignedAnchorOk(p, key, keyId, slice[0], anchorMs);
    }
  }

  /** Completeness: any slice of an honest log, with the root signed at its last event, and its genesis
      anchor when it starts at the first, is found ok and without errors. */
  lemma HonestSliceVerifies(p: Primitives, key: Bytes, keyId: string, customer: string, genesis: string,
                            events: seq<Event>, i: nat, j: nat, signedAt: string, rootMs: int, anchorMs: int)
    requires p.Correct() && Honest(p, customer, genesis, events) && i <= j < |events|
    ensures Verdict(p, HonestBundle(p, key, keyId, genesis, events, i, j, signedAt, rootMs, anchorMs),
                    HexOf(p.publicOf(key)))
            == Success(VerifyResult(true, [], Some(signedAt), Some(keyId)))
  {
    HonestSliceChecks(p, key, keyId, customer, genesis, events, i, j, signedAt, rootMs, anchorMs);
    OkIffAllChecks(p, HonestBundle(p, key, keyId, genesis, events, i, j, signedAt, rootMs, anchorMs),
                   HexOf(p.publicOf(key)));
  }

  // ---------------------------------------------------------------- soundness

  lemma LastBar(a: string, b: string, x: string, y: string)
    requires '|' !in x && '|' !in y && a + "|" + x == b + "|" + y
    ensures a == b && x == y
  {
    var s := a + "|" + x;
    if |x| == |y| {
      assert a == s[..|a|] && b == s[..|b|] && x == s[|a| + 1..] && y == s[|b| + 1..];
    } else if |x| < |y| {
      BarInside(b, y, |a|);
    } else {
      BarInside(a, x, |b|);
    }
  }

  lemma BarInside(b: string, y: string, at: nat)
    requires |b| < at < |b| + 1 + |y| && '|' !in y
    ensures (b + "|" + y)[at] != '|'
  {
    assert (b + "|" + y)[at] == y[at - |b| - 1];
    assert y[at - |b| - 1] in y;
  }

  lemma {:induction false} NatTextNoBar(n: nat)
    ensures '|' !in NatText(n)
  {
    if n >= 10 {
      NatTextNoBar(n / 10);
    }
  }

  lemma IntTextNoBar(n: int)
    ensures '|' !in IntText(n)
  {
    NatTextNoBar(if n < 0 then -n else n);
  }

  /** Signed root messages say unambiguously which customer and which hash they are about. */
  lemma RootMessageReads(c1: string, h1: string, t1: int, c2: string, h2: string, t2: int)
    requires '|' !in h1 && '|' !in h2
    requires EncodeSignedRoot(c1, h1, t1) == EncodeSignedRoot(c2, h2, t2)
    ensures c1 == c2 && h1 == h2
  {
    var head := "nomos-audit-root|v2|";
    IntTextNoBar(t1);
    IntTextNoBar(t2);
    LastBar(head + c1 + "|" + h1, head + c2 + "|" + h2, IntText(t1), IntText(t2));
    LastBar(head + c1, head + c2, h1, h2);
    assert c1 == (head + c1)[|head|..] && c2 == (head + c2)[|head|..];
  }

  /** The logs of all customers, and the texts the audit key has signed. */
  datatype Ledger = Ledger(logs: map<string, seq<Event>>, signed: set<string>)

  ghost predicate IsRootText(l: Ledger, text: string) {
    exists customer, j: nat, ms ::
      customer in l.logs && j < |l.logs[customer]| && text == EncodeSignedRoot(customer, l.logs[customer][j].hash, ms)
  }

  ghost predicate IsAnchorText(text: string) {
    exists customer, genesis, ms :: text == EncodeGenesisAnchor(customer, genesis, ms)
  }

  /** Every log is honest, and the key has signed only roots of the logs and anchors. */
  ghost predicate HonestLedger(p: Primitives, secret: string, l: Ledger) {
    && (forall customer :: customer in l.logs ==> Honest(p, customer, Genesis(p, customer, secret), l.logs[customer]))
    && (forall text :: text in l.signed ==> IsRootText(l, text) || IsAnchorText(text))
  }

  /** The bundle's root is a forgery: its signature verifies on a text the key was never used on. */
  predicate Forged(p: Primitives, signed: set<string>, key: string, b: Bundle) {
    b.events != [] && b.root.Some?
    && var message := RootMessage(b.root.value, b.events[0].customer);
       message.Some? && message.value !in signed && SignatureOk(p, key, message, b.root.value.signature)
  }

  lemma AnchorIsNoRoot(c1: string, g: string, t1: int, c2: string, h: string, t2: int)
    ensures EncodeGenesisAnchor(c1, g, t1) != EncodeSignedRoot(c2, h, t2)
  {
    assert EncodeGenesisAnchor(c1, g, t1)[6] == "nomos-genesis-anchor|v1|"[6];
    assert EncodeSignedRoot(c2, h, t2)[6] == "nomos-audit-root|v2|"[6];
  }

  lemma SignedTextsHaveBar(l: Ledger, text: string)
    requires IsRootText(l, text) || IsAnchorText(text)
    ensures '|' in text
  {
    if IsRootText(l, text) {
      assert text[16] == "nomos-audit-root|v2|"[16];
    } else {
      assert text[20] == "nomos-genesis-anchor|v1|"[20];
    }
  }

  /** A verified root that is no forgery is a root of the named customer's log. */
  lemma RootIsHonest(p: Primitives, secret: string, l: Ledger, key: string, b: Bundle) returns (j: nat)
    requires p.Correct() && HonestLedger(p, secret, l) && AllChecks(p, b, key) && b.root.Some?
    requires !Forged(p, l.signed, key, b)
    ensures b.events[0].customer in l.logs && j < |l.logs[b.events[0].customer]|
    ensures l.logs[b.events[0].customer][j].hash == b.root.value.rootHash
  {
    var root, customer := b.root.value, b.events[0].customer;
    var text := RootMessage(root, customer).value;
    assert text in l.signed;
    var e :| e in b.events && e.hash == root.rootHash;
    assert SelfHashed(p, e);
    DigestHasNoBar(root.rootHash);
    SignedTextsHaveBar(l, text);
    assert root.version == Some(2);
    if IsAnchorText(text) {
      var c1, g, t1 :| text == EncodeGenesisAnchor(c1, g, t1);
      AnchorIsNoRoot(c1, g, t1, customer, root.rootHash, root.signedAtMs.value);
    }
    var c, i: nat, ms :| c in l.logs && i < |l.logs[c]| && text == EncodeSignedRoot(c, l.logs[c][i].hash, ms);
    assert SelfHashed(p, l.logs[c][i]);
    DigestHasNoBar(l.logs[c][i].hash);
    RootMessageReads(customer, root.rootHash, root.signedAtMs.value, c, l.logs[c][i].hash, ms);
    j := i;
  }

  ghost predicate GenesisCollision(p: Primitives, events: seq<Event>, customer: string, secret: string) {
    exists e :: e in events && Preimage(p.nfc, e).Success?
                && Collide(p, Preimage(p.nfc, e).value, GenesisText(customer, secret))
  }

  /** The first event spells out the genesis text, secret included. */
  predicate GenesisSpelled(p: Primitives, events: seq<Event>, customer: string, secret: string) {
    events != [] && Preimage(p.nfc, events[0]) == Success(GenesisText(customer, secret))
  }

  /** It cannot, behind a previous hash of the form the emitter writes. */
  lemma DigestSpellsNoGenesis(p: Primitives, e: Event, customer: string, secret: string)
    requires IsDigest(e.prevHash) && Preimage(p.nfc, e).Success?
    ensures Preimage(p.nfc, e).value != GenesisText(customer, secret)
  {
    var text := GenesisText(customer, secret);
    assert Preimage(p.nfc, e).value[1] == e.prevHash[1];
    assert text[1] == "audit-genesis|v1|"[1] == 'u' && !IsHexDigit('u');
    assert e.prevHash[1] in e.prevHash;
  }

  /** An event cannot hash to a genesis unless it spells the genesis text or collides with it. */
  lemma GenesisHasNoEvent(p: Primitives, events: seq<Event>, i: nat, customer: string, secret: string)
    requires p.Correct() && HashWalk(p, events) && i < |events|
    requires events[i].hash == Genesis(p, customer, secret)
    ensures GenesisCollision(p, events, customer, secret) || GenesisSpelled(p, events, customer, secret)
  {
    var e := events[i];
    assert SelfHashed(p, e) && e in events;
    if i > 0 {
      assert SelfHashed(p, events[i - 1]);
      DigestSpellsNoGenesis(p, e, customer, secret);
    }
    if Preimage(p.nfc, e).value != GenesisText(customer, secret) {
      assert Collide(p, Preimage(p.nfc, e).value, GenesisText(customer, secret));
    }
  }

  /** A chain that meets an honest log cannot reach back beyond the log's first event. */
  lemma NoEventBeforeGenesis(p: Primitives, events: seq<Event>, log: seq<Event>, k: nat, j: nat, customer: string,
                             secret: string)
    requires p.Correct() && HashWalk(p, events) && !Collision(p, events, log)
    requires Honest(p, customer, Genesis(p, customer, secret), log)
    requires j < k < |events| && j < |log| && events[k].hash == log[j].hash
    ensures GenesisCollision(p, events, customer, secret) || GenesisSpelled(p, events, customer, secret)
  {
    MeetingChainsAgree(p, events, log, k - j, k, 0, j);
    assert SameEvent(p.nfc, events[k - j..k + 1][0], log[0..j + 1][0]);
    assert events[k - j].prevHash == events[k - j - 1].hash;
    GenesisHasNoEvent(p, events, k - j - 1, customer, secret);
  }

  /** Up to event `k` the events are, contents and all, those of the log that lead to its event `j`; or a
      hash collision, or the genesis secret, is at hand. */
  ghost predicate SameHistory(p: Primitives, events: seq<Event>, k: nat, log: seq<Event>, j: nat, customer: string,
                              secret: string)
    requires k < |events| && j < |log|
  {
    || Collision(p, events, log)
    || GenesisCollision(p, events, customer, secret)
    || GenesisSpelled(p, events, customer, secret)
    || (k <= j && SameEvents(p.nfc, events[..k + 1], log[j - k..j + 1]))
  }

  /** A chain that meets an honest log agrees with it from there back to the chain's first event. */
  lemma MeetingLogAgrees(p: Primitives, events: seq<Event>, log: seq<Event>, k: nat, j: nat, customer: string,
                         secret: string)
    requires p.Correct() && HashWalk(p, events)
    requires Honest(p, customer, Genesis(p, customer, secret), log)
    requires k < |events| && j < |log| && events[k].hash == log[j].hash
    ensures SameHistory(p, events, k, log, j, customer, secret)
  {
    if !Collision(p, events, log) {
      if k <= j {
        MeetingChainsAgree(p, events, log, 0, k, j - k, j);
        assert events[0..k + 1] == events[..k + 1];
      } else {
        NoEventBeforeGenesis(p, events, log, k, j, customer, secret);
      }
    }
  }

  /** Soundness: when the audit key has been used only on roots of honest logs and on anchors, a verified
      root is an event of the named customer's log, and every event of the bundle up to it is, contents and
      all, the event at its place in that log; or the bundle itself exhibits a forged signature, a hash
      collision or the genesis secret. */
  lemma VerifiedEventsAreHonest(p: Primitives, secret: string, l: Ledger, key: string, b: Bundle)
    returns (k: nat, j: nat)
    requires p.Correct() && HonestLedger(p, secret, l) && AllChecks(p, b, key) && b.root.Some?
    ensures Forged(p, l.signed, key, b) || LeadsToRoot(p, secret, l, b, k, j)
  {
    k, j := 0, 0;
    if !Forged(p, l.signed, key, b) {
      j := RootIsHonest(p, secret, l, key, b);
      k := RootIndex(b.events, b.root.value.rootHash);
      MeetingLogAgrees(p, b.events, l.logs[b.events[0].customer], k, j, b.events[0].customer, secret);
    }
  }

  /** Event `k` of the bundle has the root's hash, event `j` of the customer's log has it too, and up to there
      they are the same history. */
  ghost predicate LeadsToRoot(p: Primitives, secret: string, l: Ledger, b: Bundle, k: nat, j: nat)
    requires b.events != [] && b.root.Some?
  {
    var customer, hash := b.events[0].customer, b.root.value.rootHash;
    k < |b.events| && b.events[k].hash == hash
    && customer in l.logs && j < |l.logs[customer]| && l.logs[customer][j].hash == hash
    && SameHistory(p, b.events, k, l.logs[customer], j, customer, secret)
  }

  lemma RootIndex(events: seq<Event>, rootHash: string) returns (k: nat)
    requires RootInChain(events, rootHash)
    ensures k < |events| && events[k].hash == rootHash
  {
    var e :| e in events && e.hash == rootHash;
    k :| k < |events| && events[k] == e;
  }
}
