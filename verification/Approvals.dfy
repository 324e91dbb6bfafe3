/** Step-up approvals: putting one up, cosigning, denying and claiming it
    (apps/control-plane/src/services/stepup/create.ts and cosigner.ts, routes/internal.ts:196-215,
    services/notify/telegram-bot.ts:258-270), and what a cosigner token tells its reader. */
module Approvals {
  import opened Common
  import opened Canonical
  import opened Constraint
  import opened Ucan
  import opened UcanTheorems
  import opened MintTheorems
  import Envelope
  import Mint

  /** What a step-up proposes for approval. */
  datatype Spec = Spec(constraint: CheckedConstraint, actions: seq<string>)

  /** What else a resource says: lifetime and reason of a proposed envelope, or any other text. */
  datatype Detail = Proposed(ttl: int, reason: Envelope.StepUpReason) | Given(text: string)

  /** The resource to approve; it has a spec if it is of kind `envelope` and names a constraint. */
  datatype Resource = Resource(spec: Option<Spec>, detail: Detail)

  datatype Status = Pending | Approved | Denied

  /** A row of `push_approvals`; times are milliseconds. */
  datatype Approval = Approval(
    id: string,
    customer: string,
    agent: string,
    command: string,
    resource: Resource,
    resourceHash: string,
    originalCid: Option<string>,
    expiresAt: int,
    status: Status,
    attestation: Option<string>,
    decidedBy: string,
    usedAt: Option<int>
  )

  type Rows = seq<Approval>

  /** `StepUpCreateInput` */
  datatype StepUpInput = StepUpInput(
    customer: string,
    agent: string,
    command: string,
    resource: Resource,
    ttlSeconds: int,
    originalCid: Option<string>
  )

  /** `MintCosignerInput` */
  datatype CosignInput = CosignInput(id: string, customer: string, user: string, standing: bool, nonce: string)

  /** What a cosigner token is made for. */
  datatype Cosigner = Cosigner(
    agentDid: string,
    command: string,
    originalCid: string,
    approval: string,
    user: string,
    standing: bool,
    nonce: string
  )

  datatype Problem =
    | AgentUnknown
    | IdTaken
    | ApprovalNotFound
    | ApprovalNotPending
    | ApprovalExpired
    | NoOriginalCid
    | NotSigned

  /** What the operations use: the hash of a resource and the signing of cosigner tokens, at a time in
      seconds, over the agents there are. */
  datatype Desk = Desk(
    hash: Resource -> string,
    sign: (Cosigner, int) -> Option<string>,
    agents: map<string, Mint.Agent>
  )

  datatype Change = Change(rows: Rows, answer: Result<string, Problem>)

  // ---------------------------------------------------------------- queries

  /** The `where` clauses. */
  datatype Query =
    | ById(id: string)
    | OfCustomer(id: string, customer: string)
    | Duplicate(input: StepUpInput, hash: string)
    | PendingOf(id: string, customer: string)
    | PendingById(id: string)
    | Claimable(id: string)

  predicate Hits(q: Query, a: Approval) {
    match q
    case ById(id) => a.id == id
    case OfCustomer(id, customer) => a.id == id && a.customer == customer
    case Duplicate(input, hash) =>
      a.status.Pending? && a.customer == input.customer && a.agent == input.agent && a.command == input.command
      && a.resourceHash == hash
    case PendingOf(id, customer) => a.id == id && a.customer == customer && a.status.Pending?
    case PendingById(id) => a.id == id && a.status.Pending?
    case Claimable(id) => a.id == id && a.status.Approved? && a.usedAt.None?
  }

  /** The first row a query hits; a query by id hits at most one. */
  function Where(q: Query, rows: Rows): (found: Option<nat>)
    ensures match found
            case None => forall a :: a in rows ==> !Hits(q, a)
            case Some(i) => i < |rows| && Hits(q, rows[i]) && forall j | 0 <= j < i :: !Hits(q, rows[j])
  {
    if rows == [] then None
    else if Hits(q, rows[0]) then Some(0)
    else
      match Where(q, rows[1..])
      case None => None
      case Some(i) => Some(i + 1)
  }

  // ---------------------------------------------------------------- operations

  predicate Knows(agents: map<string, Mint.Agent>, agent: string, customer: string) {
    agent in agents && agents[agent].customer == customer
  }

  /** A pending row that lapsed, put up again. */
  function Refreshed(a: Approval, input: StepUpInput, now: int): Approval {
    a.(resource := input.resource, expiresAt := now + input.ttlSeconds * 1000,
       originalCid := if Truthy(input.originalCid) then input.originalCid else a.originalCid)
  }

  function Inserted(input: StepUpInput, hash: string, id: string, now: int): Approval {
    Approval(id, input.customer, input.agent, input.command, input.resource, hash,
             if Truthy(input.originalCid) then input.originalCid else None,
             now + input.ttlSeconds * 1000, Pending, None, "", None)
  }

  /** `createStepUpApproval`; `id` is the key a new row gets. */
  function AfterCreate(d: Desk, rows: Rows, input: StepUpInput, id: string, now: int): Change {
    if !Knows(d.agents, input.agent, input.customer) then Change(rows, Failure(AgentUnknown))
    else
      match Where(Duplicate(input, d.hash(input.resource)), rows)
      case Some(i) =>
        if rows[i].expiresAt > now then Change(rows, Success(rows[i].id))
        else Change(rows[i := Refreshed(rows[i], input, now)], Success(rows[i].id))
      case None =>
        if Where(ById(id), rows).Some? then Change(rows, Failure(IdTaken))
        else Change(rows + [Inserted(input, d.hash(input.resource), id, now)], Success(id))
  }

  function CosignerOf(d: Desk, a: Approval, decision: CosignInput): Cosigner
    requires a.agent in d.agents && a.originalCid.Some?
  {
    Cosigner(d.agents[a.agent].did, a.command, a.originalCid.value, a.id, decision.user, decision.standing,
             decision.nonce)
  }

  /** `mintCosignerForApproval` */
  function AfterCosign(d: Desk, rows: Rows, decision: CosignInput, now: int): Change {
    match Where(OfCustomer(decision.id, decision.customer), rows)
    case None => Change(rows, Failure(ApprovalNotFound))
    case Some(i) =>
      var a := rows[i];
      if !a.status.Pending? then Change(rows, Failure(ApprovalNotPending))
      else if a.expiresAt <= now then Change(rows, Failure(ApprovalExpired))
      else if !Truthy(a.originalCid) then Change(rows, Failure(NoOriginalCid))
      else if a.agent !in d.agents then Change(rows, Failure(AgentUnknown))
      else
        match d.sign(CosignerOf(d, a, decision), now / 1000)
        case None => Change(rows, Failure(NotSigned))
        case Some(jwt) =>
          Change(rows[i := a.(status := Approved, decidedBy := decision.user, attestation := Some(jwt))], Success(jwt))
  }

  /** `denyApproval` */
  function AfterDeny(rows: Rows, id: string, customer: string, user: string): Rows {
    match Where(PendingOf(id, customer), rows)
    case None => rows
    case Some(i) => rows[i := rows[i].(status := Denied, decidedBy := user)]
  }

  /** A tap in the chat: the state alone, without a cosigner token. */
  function AfterTap(rows: Rows, id: string, approved: bool): Rows {
    match Where(PendingById(id), rows)
    case None => rows
    case Some(i) => rows[i := rows[i].(status := if approved then Approved else Denied)]
  }

  /** The claim of the policy decision point: the one place that looks at `cosigner_used_at`. */
  function AfterClaim(rows: Rows, id: string, now: int): Rows {
    match Where(Claimable(id), rows)
    case None => rows
    case Some(i) => rows[i := rows[i].(usedAt := Some(now))]
  }

  class ApprovalStore {
    const desk: Desk
    var rows: Rows

    constructor (d: Desk)
      ensures desk == d && rows == []
    {
      desk, rows := d, [];
    }

    method CreateStepUpApproval(input: StepUpInput, id: string, now: int) returns (r: Result<string, Problem>)
      modifies this`rows
      ensures Change(rows, r) == AfterCreate(desk, old(rows), input, id, now)
    {
      if !Knows(desk.agents, input.agent, input.customer) {
        return Failure(AgentUnknown);
      }
      var hash := desk.hash(input.resource);
      var existing := Where(Duplicate(input, hash), rows);
      if existing.Some? {
        var row := rows[existing.value];
        if row.expiresAt <= now {
          rows := rows[existing.value := Refreshed(row, input, now)];
        }
        return Success(row.id);
      }
      if Where(ById(id), rows).Some? {
        return Failure(IdTaken);
      }
      rows := rows + [Inserted(input, hash, id, now)];
      return Success(id);
    }

    method MintCosigner(decision: CosignInput, now: int) returns (r: Result<string, Problem>)
      modifies this`rows
      ensures Change(rows, r) == AfterCosign(desk, old(rows), decision, now)
    {
      var found := Where(OfCustomer(decision.id, decision.customer), rows);
      if found.None? {
        return Failure(ApprovalNotFound);
      }
      var a := rows[found.value];
      if !a.status.Pending? {
        return Failure(ApprovalNotPending);
      }
      if a.expiresAt <= now {
        return Failure(ApprovalExpired);
      }
      if !Truthy(a.originalCid) {
        return Failure(NoOriginalCid);
      }
      if a.agent !in desk.agents {
        return Failure(AgentUnknown);
      }
      var jwt := desk.sign(CosignerOf(desk, a, decision), now / 1000);
      if jwt.None? {
        return Failure(NotSigned);
      }
      rows := rows[found.value := a.(status := Approved, decidedBy := decision.user, attestation := jwt)];
      return Success(jwt.value);
    }

    method Consume(id: string, now: int) returns (consumed: bool)
      modifies this`rows
      ensures rows == AfterClaim(old(rows), id, now)
      ensures consumed <==> exists a :: a in old(rows) && Hits(Claimable(id), a)
    {
      var found := Where(Claimable(id), rows);
      consumed := found.Some?;
      if consumed {
        rows := rows[found.value := rows[found.value].(usedAt := Some(now))];
      }
    }
  }

  // ---------------------------------------------------------------- runs

  /** Everything that is done to approvals outside the intent request. */
  datatype Act =
    | Open(input: StepUpInput, id: string)
    | Cosign(decision: CosignInput)
    | Deny(id: string, customer: string, user: string)
    | Tap(id: string, approved: bool)
    | Claim(id: string)

  function Acted(d: Desk, rows: Rows, act: Act, now: int): Rows {
    match act
    case Open(input, id) => AfterCreate(d, rows, input, id, now).rows
    case Cosign(decision) => AfterCosign(d, rows, decision, now).rows
    case Deny(id, customer, user) => AfterDeny(rows, id, customer, user)
    case Tap(id, approved) => AfterTap(rows, id, approved)
    case Claim(id) => AfterClaim(rows, id, now)
  }

  /** The keys of the table: one row per id, and one pending row per customer, agent, command and resource. */
  predicate Keyed(d: Desk, rows: Rows) {
    (forall i, j | 0 <= i < j < |rows| :: rows[i].id != rows[j].id)
    && (forall a :: a in rows ==> a.resourceHash == d.hash(a.resource))
    && (forall i, j | 0 <= i < j < |rows| :: !SameKey(rows[i], rows[j]))
  }

  /** A row only ever moves from pending to decided and from unclaimed to claimed. */
  predicate Follows(was: Approval, a: Approval) {
    a.id == was.id && a.customer == was.customer && a.agent == was.agent && a.command == was.command
    && a.resourceHash == was.resourceHash
    && (!was.status.Pending? ==> a.(usedAt := was.usedAt) == was)
    && (was.usedAt.Some? ==> a.usedAt == was.usedAt)
  }

  /** What an act does to the table: nothing, one row replaced by one that follows from it, or one row
      added that no row has the id or, while pending, the key of. */
  predicate OneRow(d: Desk, rows: Rows, t: Rows) {
    t == rows
    || (|t| == |rows| && exists i | 0 <= i < |rows| ::
          t == rows[i := t[i]] && Follows(rows[i], t[i])
          && (rows[i].resourceHash == d.hash(rows[i].resource) ==> t[i].resourceHash == d.hash(t[i].resource)))
    || (|t| == |rows| + 1 && t == rows + [t[|rows|]] && IsNew(d, rows, t[|rows|]))
  }

  predicate IsNew(d: Desk, rows: Rows, a: Approval) {
    a.attestation.None? && a.resourceHash == d.hash(a.resource)
    && forall b :: b in rows ==> b.id != a.id && !SameKey(a, b)
  }

  predicate SameKey(a: Approval, b: Approval) {
    a.status.Pending? && b.status.Pending? && a.customer == b.customer && a.agent == b.agent && a.command == b.command
    && a.resourceHash == b.resourceHash
  }

  lemma Replaced(d: Desk, rows: Rows, i: nat, a: Approval)
    requires i < |rows| && Follows(rows[i], a)
    requires rows[i].resourceHash == d.hash(rows[i].resource) ==> a.resourceHash == d.hash(a.resource)
    ensures OneRow(d, rows, rows[i := a])
  {
    var t := rows[i := a];
    assert t == rows[i := t[i]] && Follows(rows[i], t[i]);
  }

  /** An act replaces at most one row, by one that follows from it, or adds one. */
  lemma ActOneRow(d: Desk, rows: Rows, act: Act, now: int)
    ensures OneRow(d, rows, Acted(d, rows, act, now))
  {
    if act.Open? {
      OpenOneRow(d, rows, act.input, act.id, now);
    } else if act.Cosign? {
      CosignOneRow(d, rows, act.decision, now);
    } else {
      var q := if act.Deny? then PendingOf(act.id, act.customer)
               else if act.Tap? then PendingById(act.id)
               else Claimable(act.id);
      var found := Where(q, rows);
      if found.Some? {
        var t := Acted(d, rows, act, now);
        assert t == rows[found.value := t[found.value]];
        Replaced(d, rows, found.value, t[found.value]);
      }
    }
  }

  lemma CosignOneRow(d: Desk, rows: Rows, decision: CosignInput, now: int)
    ensures OneRow(d, rows, AfterCosign(d, rows, decision, now).rows)
  {
    var found, t := Where(OfCustomer(decision.id, decision.customer), rows), AfterCosign(d, rows, decision, now).rows;
    if found.Some? && t != rows {
      Replaced(d, rows, found.value, t[found.value]);
    }
  }

  lemma OpenOneRow(d: Desk, rows: Rows, input: StepUpInput, id: string, now: int)
    ensures OneRow(d, rows, AfterCreate(d, rows, input, id, now).rows)
  {
    var hash := d.hash(input.resource);
    var q, t := Duplicate(input, hash), AfterCreate(d, rows, input, id, now).rows;
    if Where(q, rows).Some? {
      var i := Where(q, rows).value;
      if t != rows {
        Replaced(d, rows, i, t[i]);
      }
    } else {
      assert forall a :: a in rows ==> !Hits(q, a);
      if |t| == |rows| + 1 {
        assert forall a :: a in rows ==> !Hits(ById(id), a);
        assert IsNew(d, rows, t[|rows|]);
      }
    }
  }

  /** So every row follows from what it was. */
  lemma ActFollows(d: Desk, rows: Rows, act: Act, now: int)
    ensures |rows| <= |Acted(d, rows, act, now)|
    ensures forall i | 0 <= i < |rows| :: Follows(rows[i], Acted(d, rows, act, now)[i])
  {
    ActOneRow(d, rows, act, now);
  }

  lemma OneRowKeepsKeys(d: Desk, rows: Rows, t: Rows)
    requires Keyed(d, rows) && OneRow(d, rows, t)
    ensures Keyed(d, t)
  {
    if |t| == |rows| && t != rows {
      var i :| 0 <= i < |rows| && t == rows[i := t[i]] && Follows(rows[i], t[i]);
      assert rows[i] in rows;
      assert forall a :: a in t ==> a == t[i] || a in rows;
    } else if t != rows {
      assert forall i | 0 <= i < |rows| :: rows[i] in rows && t[i] == rows[i];
    }
  }

  lemma ActKeepsKeys(d: Desk, rows: Rows, act: Act, now: int)
    requires Keyed(d, rows)
    ensures Keyed(d, Acted(d, rows, act, now))
  {
    ActOneRow(d, rows, act, now);
    OneRowKeepsKeys(d, rows, Acted(d, rows, act, now));
  }

  /** A query by id finds the one row that has it. */
  lemma FoundById(d: Desk, rows: Rows, i: nat)
    requires Keyed(d, rows) && i < |rows|
    ensures Where(ById(rows[i].id), rows) == Some(i)
  {
    var found := Where(ById(rows[i].id), rows);
    assert rows[i] in rows && Hits(ById(rows[i].id), rows[i]);
  }

  /** A row with a cosigner token was approved by signing that token, which takes an original CID. */
  ghost predicate Sealed(d: Desk, a: Approval) {
    (a.originalCid.Some? ==> Truthy(a.originalCid))
    && (a.status.Pending? ==> a.attestation.None?)
    && (a.attestation.Some? ==>
          a.status.Approved? && a.originalCid.Some? && a.agent in d.agents
          && exists decision, at :: d.sign(CosignerOf(d, a, decision), at) == a.attestation)
  }

  lemma FollowSealed(d: Desk, was: Approval, a: Approval)
    requires Sealed(d, was) && Follows(was, a) && (!was.status.Pending? || a.attestation.None?)
    requires a.originalCid.Some? ==> Truthy(a.originalCid)
    ensures Sealed(d, a)
  {
    if a.attestation.Some? {
      var decision, at :| d.sign(CosignerOf(d, was, decision), at) == was.attestation;
      assert CosignerOf(d, a, decision) == CosignerOf(d, was, decision);
    }
  }

  lemma ActKeepsSealed(d: Desk, rows: Rows, act: Act, now: int, i: nat)
    requires forall a :: a in rows ==> Sealed(d, a)
    requires i < |Acted(d, rows, act, now)|
    ensures Sealed(d, Acted(d, rows, act, now)[i])
  {
    var t := Acted(d, rows, act, now);
    ActFollows(d, rows, act, now);
    if i < |rows| {
      assert Sealed(d, rows[i]);
      if act.Cosign? && rows[i].status.Pending? && t[i] != rows[i] {
        assert d.sign(CosignerOf(d, rows[i], act.decision), now / 1000) == t[i].attestation;
        assert CosignerOf(d, t[i], act.decision) == CosignerOf(d, rows[i], act.decision);
      } else {
        FollowSealed(d, rows[i], t[i]);
      }
    }
  }

  /** An original CID is only ever given by an opening of that very approval. */
  lemma CidGiven(d: Desk, rows: Rows, act: Act, now: int, i: nat)
    requires i < |Acted(d, rows, act, now)|
    ensures var a := Acted(d, rows, act, now)[i];
            a.originalCid.Some? ==>
              (i < |rows| && rows[i].originalCid.Some?)
              || (act.Open? && Truthy(act.input.originalCid) && a.customer == act.input.customer
                  && a.agent == act.input.agent && a.command == act.input.command)
  {
  }

  // ---------------------------------------------------------------- cosigner tokens

  const ENVELOPE_COMMAND := "/__envelope__"

  const COSIGNER_TTL_SECONDS := 300

  function CosignerMeta(k: Cosigner): (fs: seq<Field>)
    ensures |fs| == 4
  {
    [ Field("cosigner_for", Str(k.originalCid)),
      Field("approval_id", Str(k.approval)),
      Field("decided_by", Str(k.user)),
      Field("mode", Str(if k.standing then "standing" else "session")) ]
  }

  function CosignerPayload(p: Mint.Platform, k: Cosigner, now: int): Payload<Json> {
    Payload(p.signerDid, k.agentDid, k.command, None, [], k.nonce, Some(Obj(CosignerMeta(k))),
            now - 60, now + COSIGNER_TTL_SECONDS, None)
  }

  /** The signing half of `mintCosignerForApproval`: the platform's token for the approval's agent. */
  function SignCosigner(c: Crypto, p: Mint.Platform, k: Cosigner, now: int): Option<string> {
    match IssueUcan(c, CosignerPayload(p, k, now), p.signKey)
    case Failure(_) => None
    case Success(issued) => Some(issued.jwt)
  }

  datatype CosignerError = CosignerInvalid | CosignerExpired | CosignerMismatch

  /** What a cosigner token says. */
  datatype CosignerToken = CosignerToken(approval: string, standing: bool)

  /** The token half of `validateCosignerForIntent` (routes/intent.ts:260-279) */
  function ReadParsed(c: Crypto, parsed: Token, now: int): Result<CosignerToken, CosignerError> {
    match parsed
    case None => Failure(CosignerInvalid)
    case Some(t) =>
      match (MetaText(t.payload.meta, "approval_id"), ValidateParsed(c, parsed, now, None, Some(ENVELOPE_COMMAND)))
      case (None, _) => Failure(CosignerInvalid)
      case (_, Failure(Expired)) => Failure(CosignerExpired)
      case (_, Failure(_)) => Failure(CosignerInvalid)
      case (Some(id), Success(_)) => Success(CosignerToken(id, MetaText(t.payload.meta, "mode") == Some("standing")))
  }

  function ReadCosigner(c: Crypto, jwt: string, now: int): Result<CosignerToken, CosignerError> {
    ReadParsed(c, ParseUcan(jwt), now)
  }

  lemma CosignerKeys()
    ensures GoodKeys(["cosigner_for", "approval_id", "decided_by", "mode"])
  {
    var ks := ["cosigner_for", "approval_id", "decided_by", "mode"];
    assert |ks[0]| == 12 && |ks[1]| == 11 && |ks[2]| == 10 && |ks[3]| == 4;
    assert Ascii(ks[0]) && Ascii(ks[1]);
    assert Ascii(ks[2]) && Ascii(ks[3]);
  }

  lemma CosignerPlain(nfc: Nfc, k: Cosigner)
    requires forall s :: Ascii(s) ==> nfc(s) == s
    ensures PlainKeys(nfc, CosignerMeta(k))
  {
    CosignerKeys();
    PlainFrom(nfc, CosignerMeta(k), ["cosigner_for", "approval_id", "decided_by", "mode"]);
  }

  lemma CosignerParts(nfc: Nfc, k: Cosigner)
    ensures forall f :: f in CosignerMeta(k) ==> Meaning(nfc, f.value).Some?
  {
    var fs := CosignerMeta(k);
    assert forall i | 0 <= i < |fs| :: fs[i].value.Str?;
  }

  lemma CosignerMembers(nfc: Nfc, k: Cosigner, m: Members)
    requires forall f :: f in CosignerMeta(k) ==> Describes(m, nfc, f)
    ensures MetaText(Some(DObj(m)), "approval_id") == if k.approval == "" then None else Some(k.approval)
    ensures MetaText(Some(DObj(m)), "mode") == Some("standing") <==> k.standing
  {
    var fs := CosignerMeta(k);
    assert fs[1] in fs && fs[3] in fs;
    MetaTextMember(m, nfc, "approval_id", k.approval);
    MetaTextMember(m, nfc, "mode", if k.standing then "standing" else "session");
    assert "standing"[1] != "session"[1];
  }

  /** The metadata of a cosigner token is recovered from it. */
  lemma CosignerMetaReads(nfc: Nfc, k: Cosigner)
    requires forall s :: Ascii(s) ==> nfc(s) == s
    ensures Meaning(nfc, Obj(CosignerMeta(k))).Some?
    ensures var meta := Meaning(nfc, Obj(CosignerMeta(k)));
            MetaText(meta, "approval_id") == (if k.approval == "" then None else Some(k.approval))
            && (MetaText(meta, "mode") == Some("standing") <==> k.standing)
  {
    CosignerPlain(nfc, k);
    CosignerParts(nfc, k);
    PlainMembers(nfc, CosignerMeta(k));
    CosignerMembers(nfc, k, Meaning(nfc, Obj(CosignerMeta(k))).value.members);
  }

  lemma ReadMeta(c: Crypto, t: Parsed, k: Cosigner, nbf: int, exp: int, now: int)
    requires Genuine(c, t) && t.payload.nbf == nbf && t.payload.exp == exp && t.payload.cmd == k.command
    requires MetaText(t.payload.meta, "approval_id") == (if k.approval == "" then None else Some(k.approval))
    requires MetaText(t.payload.meta, "mode") == Some("standing") <==> k.standing
    ensures var r := ReadParsed(c, Some(t), now);
            && (r.Success?
                <==> k.approval != "" && nbf <= now < exp && ActionMatchesGranted(k.command, ENVELOPE_COMMAND))
            && (r.Success? ==> r.value == CosignerToken(k.approval, k.standing))
  {
    ValidatesIff(c, Some(t), now, None, Some(ENVELOPE_COMMAND));
  }

  lemma SignedToken(c: Crypto, p: Mint.Platform, k: Cosigner, at: int, jwt: string) returns (t: Parsed)
    requires c.Correct() && c.keyOfDid(p.signerDid) == Some(c.publicOf(p.signKey))
    requires SignCosigner(c, p, k, at) == Some(jwt)
    ensures IsCommand(k.command) && ParseUcan(jwt) == Some(t) && Genuine(c, t)
    ensures t.payload.nbf == at - 60 && t.payload.exp == at + 300 && t.payload.cmd == k.command
    ensures t.payload.meta == Meaning(c.nfc, Obj(CosignerMeta(k)))
  {
    var payload := CosignerPayload(p, k, at);
    t := IssuedGenuine(c, payload, p.signKey, IssueUcan(c, payload, p.signKey).value);
  }

  /** Round trip: a cosigner token reads as the approval and mode it was signed for, exactly from a minute
      before the signing until five minutes after it and exactly if the approval is of the envelope command. */
  lemma CosignerReads(c: Crypto, p: Mint.Platform, k: Cosigner, at: int, jwt: string, now: int)
    requires c.Correct() && c.keyOfDid(p.signerDid) == Some(c.publicOf(p.signKey))
    requires SignCosigner(c, p, k, at) == Some(jwt)
    ensures IsCommand(k.command)
    ensures var r := ReadCosigner(c, jwt, now);
            && (r.Success? <==> k.approval != "" && at - 60 <= now < at + 300 && k.command == ENVELOPE_COMMAND)
            && (r.Success? ==> r.value == CosignerToken(k.approval, k.standing))
  {
    var t := SignedToken(c, p, k, at, jwt);
    CosignerMetaReads(c.nfc, k);
    ReadMeta(c, t, k, at - 60, at + 300, now);
    EnvelopeGrant(k.command);
  }

  lemma NoStart(s: string, p: string, i: nat)
    requires i < |p| && (i < |s| ==> s[i] != p[i])
    ensures !StartsWith(s, p)
  {
  }

  /** Of the commands a token can have, only the envelope command grants it. */
  lemma EnvelopeGrant(command: string)
    requires IsCommand(command)
    ensures ActionMatchesGranted(command, ENVELOPE_COMMAND) <==> command == ENVELOPE_COMMAND
  {
    assert forall i | 0 < i < |ENVELOPE_COMMAND| :: ENVELOPE_COMMAND[i] != '/';
    assert (command + "/")[|command|] == '/';
    NoStart(ENVELOPE_COMMAND, command + "/", |command|);
  }
}
