/** What each act on approvals does to the rows, row by row
    (apps/control-plane/src/services/stepup/create.ts and cosigner.ts, routes/internal.ts:196-215,
    services/notify/telegram-bot.ts:258-270). */
module ApprovalEffects {
  import opened Common
  import opened Canonical
  import opened Constraint
  import opened Ucan
  import opened UcanTheorems
  import opened MintTheorems
  import opened Approvals
  import Mint

  /** The one row that an act concerns, if there is one, is replaced; no other row changes. */
  ghost predicate Only(rows: Rows, t: Rows, id: string, concerned: Approval -> bool, becomes: Approval -> Approval) {
    |t| == |rows|
    && forall i | 0 <= i < |rows| ::
         t[i] == if rows[i].id == id && concerned(rows[i]) then becomes(rows[i]) else rows[i]
  }

  /** Denying: a pending row of that id and that customer is denied, by that user. */
  lemma Denying(d: Desk, rows: Rows, id: string, customer: string, user: string, now: int)
    requires Keyed(d, rows)
    ensures Only(rows, Acted(d, rows, Deny(id, customer, user), now), id,
                 (a: Approval) => a.customer == customer && a.status == Pending,
                 (a: Approval) => a.(status := Denied, decidedBy := user))
  {
    OneHit(d, rows, PendingOf(id, customer), id);
  }

  /** A tap: a pending row of that id is approved or denied, by nobody and with no cosigner token. */
  lemma Tapping(d: Desk, rows: Rows, id: string, approved: bool, now: int)
    requires Keyed(d, rows)
    ensures Only(rows, Acted(d, rows, Tap(id, approved), now), id,
                 (a: Approval) => a.status == Pending,
                 (a: Approval) => if approved then a.(status := Approved) else a.(status := Denied))
  {
    OneHit(d, rows, PendingById(id), id);
  }

  /** A claim: an approved row of that id that was not claimed is. */
  lemma Claiming(d: Desk, rows: Rows, id: string, now: int)
    requires Keyed(d, rows)
    ensures Only(rows, Acted(d, rows, Claim(id), now), id,
                 (a: Approval) => a.status == Approved && a.usedAt == None,
                 (a: Approval) => a.(usedAt := Some(now)))
  {
    OneHit(d, rows, Claimable(id), id);
  }

  lemma OneRowPerId(d: Desk, rows: Rows, i: nat, j: nat)
    requires Keyed(d, rows) && i < |rows| && j < |rows| && rows[i].id == rows[j].id
    ensures i == j
  {
  }

  /** What a query for one id hits is the one row it finds. */
  lemma OneHit(d: Desk, rows: Rows, q: Query, id: string)
    requires Keyed(d, rows) && forall a :: a in rows && Hits(q, a) ==> a.id == id
    ensures forall i | 0 <= i < |rows| :: Hits(q, rows[i]) <==> Where(q, rows) == Some(i)
  {
    forall i | 0 <= i < |rows| && Hits(q, rows[i]) ensures Where(q, rows) == Some(i) {
      assert rows[i] in rows;
      var j := Where(q, rows).value;
      assert rows[j] in rows;
      OneRowPerId(d, rows, j, i);
    }
  }

  // ---------------------------------------------------------------- cosigning

  /** A pending row of the customer's that has not lapsed, has a CID to cosign and an agent to sign for. */
  predicate MayCosign(d: Desk, a: Approval, decision: CosignInput, now: int) {
    a.id == decision.id && a.customer == decision.customer && a.status == Pending && now < a.expiresAt
    && a.originalCid.Some? && a.originalCid.value != "" && a.agent in d.agents
  }

  /** The token it takes. */
  function TokenFor(d: Desk, a: Approval, decision: CosignInput, now: int): Option<string>
    requires MayCosign(d, a, decision, now)
  {
    d.sign(Cosigner(agentDid := d.agents[a.agent].did, command := a.command, originalCid := a.originalCid.value,
                    approval := decision.id, user := decision.user, standing := decision.standing,
                    nonce := decision.nonce),
           now / 1000)
  }

  /** The customer's query finds the one row of the id, if it is the customer's. */
  lemma CosignFinds(d: Desk, rows: Rows, decision: CosignInput, i: nat)
    requires Keyed(d, rows) && i < |rows| && rows[i].id == decision.id
    ensures Where(OfCustomer(decision.id, decision.customer), rows)
            == if rows[i].customer == decision.customer then Some(i) else None
  {
    var q := OfCustomer(decision.id, decision.customer);
    OneHit(d, rows, q, decision.id);
    assert Hits(q, rows[i]) <==> rows[i].customer == decision.customer;
    if Where(q, rows).Some? {
      OneRowPerId(d, rows, Where(q, rows).value, i);
    }
  }

  /** Why a row is not cosigned. */
  function CosignRefusal(d: Desk, a: Approval, decision: CosignInput, now: int): Problem {
    if a.customer != decision.customer then ApprovalNotFound
    else if a.status != Pending then ApprovalNotPending
    else if a.expiresAt <= now then ApprovalExpired
    else if a.originalCid.None? || a.originalCid.value == "" then NoOriginalCid
    else if a.agent !in d.agents then AgentUnknown
    else NotSigned
  }

  /** Cosigning approves such a row, with its token, or changes nothing. */
  lemma Cosigning(d: Desk, rows: Rows, decision: CosignInput, now: int, i: nat)
    requires Keyed(d, rows) && i < |rows| && rows[i].id == decision.id
    ensures var a, after := rows[i], AfterCosign(d, rows, decision, now);
            if MayCosign(d, a, decision, now) && TokenFor(d, a, decision, now).Some? then
              var jwt := TokenFor(d, a, decision, now).value;
              after == Change(rows[i := a.(status := Approved, decidedBy := decision.user, attestation := Some(jwt))],
                              Success(jwt))
            else after == Change(rows, Failure(CosignRefusal(d, a, decision, now)))
  {
    CosignFinds(d, rows, decision, i);
  }

  /** Of an id that no row has nothing is cosigned. */
  lemma NothingToCosign(d: Desk, rows: Rows, decision: CosignInput, now: int)
    requires forall a :: a in rows ==> a.id != decision.id
    ensures AfterCosign(d, rows, decision, now) == Change(rows, Failure(ApprovalNotFound))
  {
  }

  // ---------------------------------------------------------------- opening

  /** A pending row for the same agent, command and resource. */
  predicate Asks(d: Desk, a: Approval, input: StepUpInput) {
    a.status == Pending && a.customer == input.customer && a.agent == input.agent && a.command == input.command
    && a.resourceHash == d.hash(input.resource)
  }

  function CidOf(s: Option<string>): Option<string> {
    if s == Some("") then None else s
  }

  /** The query for duplicates finds the one row there is. */
  lemma DuplicateFinds(d: Desk, rows: Rows, input: StepUpInput, i: nat)
    requires Keyed(d, rows) && i < |rows| && Asks(d, rows[i], input)
    ensures Where(Duplicate(input, d.hash(input.resource)), rows) == Some(i)
  {
    var q := Duplicate(input, d.hash(input.resource));
    assert rows[i] in rows && Hits(q, rows[i]);
    var j := Where(q, rows).value;
    assert Hits(q, rows[j]);
    assert j < i ==> SameKey(rows[j], rows[i]);
  }

  /** Opening what is pending answers with the row there is; if it has lapsed it is put up again, with the resource of
      the input, another lifetime, and the input's CID if it has one. */
  lemma OpeningAgain(d: Desk, rows: Rows, input: StepUpInput, id: string, now: int, i: nat)
    requires Keyed(d, rows) && input.agent in d.agents && d.agents[input.agent].customer == input.customer
    requires i < |rows| && Asks(d, rows[i], input)
    ensures var a := rows[i];
            var refreshed := a.(resource := input.resource, expiresAt := now + input.ttlSeconds * 1000,
                                originalCid := if CidOf(input.originalCid).Some? then input.originalCid
                                               else a.originalCid);
            AfterCreate(d, rows, input, id, now)
            == Change(if a.expiresAt <= now then rows[i := refreshed] else rows, Success(a.id))
  {
    DuplicateFinds(d, rows, input, i);
  }

  /** Opening anything else adds a pending row, under an id that is not taken, for an agent of the customer's. */
  lemma OpeningNew(d: Desk, rows: Rows, input: StepUpInput, id: string, now: int)
    requires forall a :: a in rows ==> !Asks(d, a, input)
    ensures var after := AfterCreate(d, rows, input, id, now);
            if !(input.agent in d.agents && d.agents[input.agent].customer == input.customer) then
              after == Change(rows, Failure(AgentUnknown))
            else if exists a :: a in rows && a.id == id then after == Change(rows, Failure(IdTaken))
            else
              after == Change(rows + [Approval(id := id, customer := input.customer, agent := input.agent,
                                               command := input.command, resource := input.resource,
                                               resourceHash := d.hash(input.resource),
                                               originalCid := CidOf(input.originalCid),
                                               expiresAt := now + input.ttlSeconds * 1000, status := Pending,
                                               attestation := None, decidedBy := "", usedAt := None)],
                              Success(id))
  {
    var q := Duplicate(input, d.hash(input.resource));
    forall a | a in rows ensures !Hits(q, a) {
      assert !Asks(d, a, input);
    }
    if exists a :: a in rows && a.id == id {
      assert !(forall a :: a in rows ==> !Hits(ById(id), a));
    }
  }

  // ---------------------------------------------------------------- reading cosigner tokens

  /** The metadata has this string. */
  predicate Tells(meta: Option<Doc>, key: string, s: string) {
    meta.Some? && meta.value.DObj? && key in meta.value.members && meta.value.members[key] == DStr(s)
  }

  /** A token in force for the envelope command. */
  predicate InForce(c: Crypto, t: Parsed, now: int) {
    Genuine(c, t) && t.payload.nbf <= now < t.payload.exp
    && (t.payload.cmd == "/__envelope__" || StartsWith("/__envelope__", t.payload.cmd + "/"))
  }

  /** Whatever the token, it reads as an approval exactly if it names one and is in force for the envelope command; it
      is called expired exactly if it names one, is genuine, and its window is over. */
  lemma ReadingToken(c: Crypto, parsed: Token, now: int, approval: string, standing: bool)
    requires approval != ""
    ensures var r := ReadParsed(c, parsed, now);
            && (r == Success(CosignerToken(approval, standing))
                <==> parsed.Some? && Tells(parsed.value.payload.meta, "approval_id", approval)
                     && (standing <==> Tells(parsed.value.payload.meta, "mode", "standing"))
                     && InForce(c, parsed.value, now))
            && (parsed.Some? && Tells(parsed.value.payload.meta, "approval_id", approval) ==>
                  (r == Failure(CosignerExpired)
                   <==> Genuine(c, parsed.value) && parsed.value.payload.nbf <= now
                        && parsed.value.payload.exp <= now)
                  && r != Failure(CosignerMismatch))
  {
    ValidatesIff(c, parsed, now, None, Some("/__envelope__"));
  }

  lemma CosignerFields(fields: seq<Field>, k: Cosigner)
    requires fields == CosignerMeta(k)
    ensures |fields| == 4
    ensures fields[0] == Field("cosigner_for", Str(k.originalCid)) && fields[1] == Field("approval_id", Str(k.approval))
    ensures fields[2] == Field("decided_by", Str(k.user))
    ensures fields[3] == Field("mode", Str(if k.standing then "standing" else "session"))
  {
  }

  lemma TellsText(m: Members, nfc: Nfc, key: string, s: string)
    requires Describes(m, nfc, Field(key, Str(s)))
    ensures Tells(Some(DObj(m)), key, s)
  {
  }

  lemma CosignerTells(nfc: Nfc, fields: seq<Field>, k: Cosigner)
    requires PlainKeys(nfc, fields) && Meaning(nfc, Obj(fields)).Some? && fields == CosignerMeta(k)
    ensures var meta := Meaning(nfc, Obj(fields));
            && Tells(meta, "cosigner_for", k.originalCid) && Tells(meta, "approval_id", k.approval)
            && Tells(meta, "decided_by", k.user)
            && Tells(meta, "mode", if k.standing then "standing" else "session")
  {
    CosignerFields(fields, k);
    MetaMembers(nfc, fields);
    var m := Meaning(nfc, Obj(fields)).value.members;
    assert fields[0] in fields && fields[1] in fields && fields[2] in fields && fields[3] in fields;
    TellsText(m, nfc, "cosigner_for", k.originalCid);
    TellsText(m, nfc, "approval_id", k.approval);
    TellsText(m, nfc, "decided_by", k.user);
    TellsText(m, nfc, "mode", if k.standing then "standing" else "session");
  }

  lemma CosignerIssued(c: Crypto, payload: Payload<Json>, key: string, jwt: string, k: Cosigner, fields: seq<Field>)
    requires c.Correct() && IssueUcan(c, payload, key).Success? && IssueUcan(c, payload, key).value.jwt == jwt
    requires payload.meta == Some(Obj(fields)) && fields == CosignerMeta(k)
    ensures ParseUcan(jwt).Some?
    ensures var q := ParseUcan(jwt).value.payload;
            && Tells(q.meta, "cosigner_for", k.originalCid) && Tells(q.meta, "approval_id", k.approval)
            && Tells(q.meta, "decided_by", k.user)
            && Tells(q.meta, "mode", if k.standing then "standing" else "session")
            && q.nonce == payload.nonce && c.CanonicalDid(payload.iss) == Some(q.iss)
            && c.CanonicalDid(payload.aud) == Some(q.aud)
  {
    var t := TokenRoundTrip(c, payload, key, IssueUcan(c, payload, key).value);
    CosignerPlain(c.nfc, k);
    CosignerTells(c.nfc, fields, k);
  }

  /** A cosigner token, as any reader parses it, says which token and which approval it is for, who decided and in which
      mode; it is the platform's, for the agent. */
  lemma CosignerSays(c: Crypto, p: Mint.Platform, k: Cosigner, at: int, jwt: string)
    requires c.Correct() && SignCosigner(c, p, k, at) == Some(jwt)
    ensures ParseUcan(jwt).Some?
    ensures var q := ParseUcan(jwt).value.payload;
            && Tells(q.meta, "cosigner_for", k.originalCid) && Tells(q.meta, "approval_id", k.approval)
            && Tells(q.meta, "decided_by", k.user)
            && Tells(q.meta, "mode", if k.standing then "standing" else "session")
            && q.nonce == k.nonce && c.CanonicalDid(p.signerDid) == Some(q.iss)
            && c.CanonicalDid(k.agentDid) == Some(q.aud)
  {
    CosignerIssued(c, CosignerPayload(p, k, at), p.signKey, jwt, k, CosignerMeta(k));
  }
}
