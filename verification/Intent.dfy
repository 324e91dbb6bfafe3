/** The intent request (apps/control-plane/src/routes/intent.ts) and every run of requests, acts on approvals,
    revocations and purges. One request is one step, at one clock reading in milliseconds. */
module Intent {
  import opened Common
  import opened Canonical
  import opened Constraint
  import opened Ucan
  import opened Chain
  import opened ChainTheorems
  import opened MintTheorems
  import opened Envelope
  import opened Approvals
  import Mint

  /** `Intent` of packages/shared-types/src/intent.ts. */
  datatype Intent = Intent(constraint: CheckedConstraint, actions: seq<string>, ttl: int, purpose: Option<string>)

  predicate ValidIntent(i: Intent) {
    i.actions != [] && (forall a :: a in i.actions ==> IsCommand(a))
    && 0 < i.ttl <= 3600
    && (i.purpose.Some? ==> 8 <= |i.purpose.value| <= 280)
  }

  datatype Request = Request(customer: string, agent: string, intent: Intent, cosigner: Option<string>)

  /** A token minted by the route, with the envelope it was minted in. */
  datatype Record = Record(envelope: Envelope, intent: Intent, at: int, issued: Issued, silent: bool)

  datatype State = State(envelopes: Table, nextId: nat, approvals: Rows, minted: seq<Record>)

  /** What the route is given: `mint` is `mintUcan` and `cosigner` reads a cosigner token, both at a time in
      seconds; `desk` is what approvals are handled with; `dynamic` are the agents switched to dynamic mode. */
  datatype Route = Route(
    mint: (Mint.MintInput, int) -> Result<Issued, Mint.MintError>,
    cosigner: (string, int) -> Result<CosignerToken, CosignerError>,
    desk: Desk,
    dynamic: set<string>,
    classifier: Classifier,
    approvalTtl: int
  )

  datatype Refusal =
    | InvalidBody
    | AgentMissing
    | AgentStatic
    | NotCosigned(reason: CosignerError)
    | MintFailed(error: Mint.MintError)
    | NotProposed

  datatype Response =
    | Minted(issued: Issued, envelope: nat, expiresAt: int)
    | StepUpNeeded(approval: string, spec: Spec)
    | Refused(why: Refusal)

  const ENVELOPE_DEFAULT_TTL_SECONDS := 24 * 60 * 60

  // ---------------------------------------------------------------- the cosigner check

  /** `matchesEnvelopeSpec`, for an approval that carries a spec */
  predicate MatchesSpec(stored: Spec, intent: Intent) {
    Covers(stored.constraint, intent.constraint) && Covers(intent.constraint, stored.constraint)
    && |stored.actions| == |intent.actions| && Within(intent.actions, stored.actions)
  }

  /** The route mints with the platform's key, over the tables its agents are in. */
  ghost predicate Wired(r: Route, c: Crypto, p: Mint.Platform, db: Mint.Tables) {
    r.desk.agents == db.agents && forall input, now :: r.mint(input, now) == Mint.RootMint(c, p, db, input, now)
  }

  /** Cosigner tokens are signed with the platform's key, which is the one of its DID, and are read as the
      rest of the system reads tokens. */
  ghost predicate Cosigns(r: Route, c: Crypto, p: Mint.Platform) {
    c.Correct() && c.keyOfDid(p.signerDid) == Some(c.publicOf(p.signKey))
    && (forall jwt, now :: r.cosigner(jwt, now) == ReadCosigner(c, jwt, now))
    && (forall k, now :: r.desk.sign(k, now) == SignCosigner(c, p, k, now))
  }

  datatype Cosigned = Cosigned(decidingUser: string, standing: bool)

  /** `validateCosignerForIntent`: the token, then the approval it names. */
  function CheckCosigner(r: Route, approvals: Rows, jwt: string, intent: Intent, now: int)
    : Result<Cosigned, CosignerError>
  {
    match r.cosigner(jwt, now / 1000)
    case Failure(error) => Failure(error)
    case Success(token) =>
      match Where(ById(token.approval), approvals)
      case None => Failure(CosignerInvalid)
      case Some(i) =>
        var a := approvals[i];
        if !a.status.Approved? then Failure(CosignerInvalid)
        else if a.attestation != Some(jwt) then Failure(CosignerMismatch)
        else if a.resource.spec.None? || !MatchesSpec(a.resource.spec.value, intent) then Failure(CosignerMismatch)
        else Success(Cosigned(a.decidedBy, token.standing))
  }

  // ---------------------------------------------------------------- the request

  /** The route's own `mintChildUcan`: a root token for the first action. */
  function IntentInput(req: Request, nonce: string): Mint.MintInput
    requires ValidIntent(req.intent)
  {
    Mint.MintInput(req.customer, req.agent, req.intent.actions[0], None, None, None, req.intent.ttl, nonce, None,
                   Some(req.intent.constraint), Some(Mint.Dynamic))
  }

  datatype Outcome = Outcome(state: State, response: Response)

  /** Mints in an envelope and records it; a failed mint leaves the state as it is. */
  function MintIn(r: Route, s: State, req: Request, e: Envelope, now: int, nonce: string, silent: bool): Outcome
    requires ValidIntent(req.intent)
  {
    match r.mint(IntentInput(req, nonce), now / 1000)
    case Failure(error) => Outcome(s, Refused(MintFailed(error)))
    case Success(issued) =>
      Outcome(s.(minted := s.minted + [Record(e, req.intent, now, issued, silent)]),
              Minted(issued, e.id, now / 1000 + req.intent.ttl))
  }

  /** The envelope a cosigned request creates. */
  function Granted(s: State, req: Request, cosigned: Cosigned, now: int): Envelope {
    if cosigned.standing then
      Standing(s.nextId, req.customer, req.agent, req.intent.constraint, req.intent.actions, cosigned.decidingUser, now)
    else
      Session(s.nextId, req.customer, req.agent, req.intent.constraint, req.intent.actions, cosigned.decidingUser,
              ENVELOPE_DEFAULT_TTL_SECONDS, now)
  }

  function WithEnvelope(s: State, e: Envelope): State {
    s.(envelopes := s.envelopes + [e], nextId := s.nextId + 1)
  }

  function Proposal(r: Route, req: Request, reason: StepUpReason): StepUpInput {
    StepUpInput(req.customer, req.agent, ENVELOPE_COMMAND,
                Resource(Some(Spec(req.intent.constraint, req.intent.actions)), Proposed(req.intent.ttl, reason)),
                r.approvalTtl, None)
  }

  /** The step-up branch: the proposal is put up for approval, under `approval` if it is a new one. */
  function Propose(r: Route, s: State, req: Request, reason: StepUpReason, approval: string, now: int): Outcome {
    var change := AfterCreate(r.desk, s.approvals, Proposal(r, req, reason), approval, now);
    Outcome(s.(approvals := change.rows),
            if change.answer.Failure? then Refused(NotProposed)
            else StepUpNeeded(change.answer.value, Spec(req.intent.constraint, req.intent.actions)))
  }

  predicate Registered(r: Route, req: Request) {
    Knows(r.desk.agents, req.agent, req.customer)
  }

  /** The checks before anything is looked up. */
  function Refusals(r: Route, req: Request): Option<Refusal> {
    if !ValidIntent(req.intent) || req.cosigner == Some("") then Some(InvalidBody)
    else if !Registered(r, req) then Some(AgentMissing)
    else if req.agent !in r.dynamic then Some(AgentStatic)
    else None
  }

  /** The handler of `POST /v1/intent`. */
  function Handle(r: Route, s: State, req: Request, now: int, nonce: string, approval: string): Outcome {
    match Refusals(r, req)
    case Some(why) => Outcome(s, Refused(why))
    case None =>
      if req.cosigner.Some? then
        match CheckCosigner(r, s.approvals, req.cosigner.value, req.intent, now)
        case Failure(error) => Outcome(s, Refused(NotCosigned(error)))
        case Success(cosigned) =>
          var e := Granted(s, req, cosigned, now);
          MintIn(r, WithEnvelope(s, e), req, e, now, nonce, false)
      else
        var active := ListActive(s.envelopes, req.customer, req.agent, now);
        match Classify(r.classifier, req.intent.constraint, req.intent.actions, req.intent.purpose, active)
        case Mint(e) => MintIn(r, s, req, e, now, nonce, true)
        case StepUp(reason) => Propose(r, s, req, reason, approval, now)
  }

  class IntentRoutes {
    const route: Route
    const store: EnvelopeStore
    const approvals: ApprovalStore
    var minted: seq<Record>

    constructor (r: Route)
      ensures route == r && approvals.desk == r.desk && fresh(store) && fresh(approvals)
              && Now() == State([], 0, [], [])
    {
      route, minted := r, [];
      store := new EnvelopeStore();
      approvals := new ApprovalStore(r.desk);
    }

    function Now(): State
      reads this, store, approvals
    {
      State(store.envelopes, store.nextId, approvals.rows, minted)
    }

    /** The request step; `approval` is the id a step-up row would get. */
    method PostIntent(req: Request, now: int, nonce: string, approval: string) returns (response: Response)
      requires approvals.desk == route.desk
      modifies this, store, approvals
      ensures Outcome(Now(), response) == Handle(route, old(Now()), req, now, nonce, approval)
    {
      if !ValidIntent(req.intent) || req.cosigner == Some("") {
        return Refused(InvalidBody);
      }
      if !Registered(route, req) {
        return Refused(AgentMissing);
      }
      if req.agent !in route.dynamic {
        return Refused(AgentStatic);
      }
      if req.cosigner.Some? {
        var check := CheckCosigner(route, approvals.rows, req.cosigner.value, req.intent, now);
        if check.Failure? {
          return Refused(NotCosigned(check.error));
        }
        var envelope;
        if check.value.standing {
          envelope := store.CreateStandingEnvelope(req.customer, req.agent, req.intent.constraint, req.intent.actions,
                                                   check.value.decidingUser, now);
        } else {
          envelope := store.CreateEnvelope(req.customer, req.agent, req.intent.constraint, req.intent.actions,
                                           check.value.decidingUser, ENVELOPE_DEFAULT_TTL_SECONDS, now);
        }
        response := MintChildUcan(req, envelope, now, nonce, false);
        return;
      }
      var active := ListActive(store.envelopes, req.customer, req.agent, now);
      var decision := Classify(route.classifier, req.intent.constraint, req.intent.actions, req.intent.purpose, active);
      if decision.Mint? {
        response := MintChildUcan(req, decision.envelope, now, nonce, true);
        return;
      }
      var proposed := approvals.CreateStepUpApproval(Proposal(route, req, decision.reason), approval, now);
      if proposed.Failure? {
        return Refused(NotProposed);
      }
      return StepUpNeeded(proposed.value, Spec(req.intent.constraint, req.intent.actions));
    }

    method MintChildUcan(req: Request, e: Envelope, now: int, nonce: string, silent: bool) returns (response: Response)
      requires ValidIntent(req.intent)
      modifies this`minted
      ensures Outcome(Now(), response) == MintIn(route, old(Now()), req, e, now, nonce, silent)
    {
      var result := route.mint(IntentInput(req, nonce), now / 1000);
      if result.Failure? {
        return Refused(MintFailed(result.error));
      }
      minted := minted + [Record(e, req.intent, now, result.value, silent)];
      return Minted(result.value, e.id, now / 1000 + req.intent.ttl);
    }
  }

  // ---------------------------------------------------------------- matching an approved spec

  function Actions(actions: seq<string>): set<string> {
    set a | a in actions
  }

  /** The mutual subset check accepts exactly constraints that are equal up to an empty host, of a provider
      the subset check knows, with as many actions, all of them approved. */
  lemma MatchesIff(stored: Spec, intent: Intent)
    ensures MatchesSpec(stored, intent)
            <==> !stored.constraint.Other? && Spelled(stored.constraint) == Spelled(intent.constraint)
                 && |stored.actions| == |intent.actions| && Actions(intent.actions) <= Actions(stored.actions)
  {
    MutualCoverIsEquality(stored.constraint, intent.constraint);
    if Actions(intent.actions) <= Actions(stored.actions) {
      forall a | a in intent.actions ensures a in stored.actions {
        assert a in Actions(intent.actions);
      }
    }
  }

  /** So a retry of the very intent that was proposed matches exactly when the provider is known. */
  lemma RetryMatches(intent: Intent)
    ensures MatchesSpec(Spec(intent.constraint, intent.actions), intent) <==> !intent.constraint.Other?
  {
    CoversReflexive(intent.constraint);
  }

  lemma {:induction false} ActionsBound(actions: seq<string>)
    ensures |Actions(actions)| <= |actions|
    ensures (forall i, j | 0 <= i < j < |actions| :: actions[i] != actions[j]) ==> |Actions(actions)| == |actions|
  {
    if actions == [] {
      assert Actions(actions) == {};
    } else {
      ActionsBound(actions[1..]);
      assert Actions(actions) == Actions(actions[1..]) + {actions[0]} by {
        assert forall a :: a in actions <==> a == actions[0] || a in actions[1..];
      }
      if forall i, j | 0 <= i < j < |actions| :: actions[i] != actions[j] {
        assert forall j | 0 <= j < |actions| - 1 :: actions[1..][j] == actions[j + 1];
        assert actions[0] !in Actions(actions[1..]);
      }
    }
  }

  lemma SubsetOfSameSize(a: set<string>, b: set<string>)
    requires a <= b && |a| >= |b|
    ensures a == b
  {
    assert b == a + (b - a);
    assert |b - a| == 0;
  }

  /** A match means the same set of actions exactly when both lists name equally many different actions;
      an intent that names no action twice always has them. */
  lemma MatchIsEquality(stored: Spec, intent: Intent)
    requires MatchesSpec(stored, intent)
    ensures Actions(stored.actions) == Actions(intent.actions)
            <==> |Actions(stored.actions)| == |Actions(intent.actions)|
    ensures (forall i, j | 0 <= i < j < |intent.actions| :: intent.actions[i] != intent.actions[j])
            ==> Actions(stored.actions) == Actions(intent.actions)
  {
    var a, b := Actions(intent.actions), Actions(stored.actions);
    assert a <= b;
    ActionsBound(intent.actions);
    ActionsBound(stored.actions);
    if |a| >= |b| {
      SubsetOfSameSize(a, b);
    }
  }

  /** It need not: an intent that names one of two approved actions twice matches. */
  lemma DuplicateMatches(c: CheckedConstraint, a: string, b: string, ttl: int)
    requires !c.Other? && a != b
    ensures var intent := Intent(c, [a, a], ttl, None);
            MatchesSpec(Spec(c, [a, b]), intent) && Actions([a, b]) != Actions(intent.actions)
  {
    CoversReflexive(c);
    assert b in Actions([a, b]) && b !in Actions([a, a]);
  }

  // ---------------------------------------------------------------- one step

  datatype Step =
    | Ask(req: Request, at: int, nonce: string, approval: string)
    | Manage(act: Act, at: int)
    | Revoke(customer: string, id: nat, at: int)
    | Purge(at: int)

  function Next(r: Route, s: State, step: Step): State {
    match step
    case Ask(req, at, nonce, approval) => Handle(r, s, req, at, nonce, approval).state
    case Manage(act, at) => s.(approvals := Acted(r.desk, s.approvals, act, at))
    case Revoke(customer, id, at) => s.(envelopes := Revoked(s.envelopes, customer, id, at))
    case Purge(at) => s.(envelopes := Purged(s.envelopes, at))
  }

  /** Whether the request passes the cosigner check. */
  predicate CosignedAsk(r: Route, s: State, step: Step) {
    step.Ask? && Refusals(r, step.req).None? && step.req.cosigner.Some?
    && CheckCosigner(r, s.approvals, step.req.cosigner.value, step.req.intent, step.at).Success?
  }

  /** How a step changes the table of envelopes: only a cosigned request adds a row, and only revoking and
      purging touch the others. */
  lemma EnvelopesNext(r: Route, s: State, step: Step)
    ensures var t := Next(r, s, step);
            match step
            case Revoke(customer, id, at) => t.envelopes == Revoked(s.envelopes, customer, id, at)
            case Purge(at) => t.envelopes == Purged(s.envelopes, at)
            case _ =>
              if CosignedAsk(r, s, step)
              then t.envelopes == s.envelopes + [GrantedBy(r, s, step)] && t.nextId == s.nextId + 1
              else t.envelopes == s.envelopes && t.nextId == s.nextId
  {
  }

  function GrantedBy(r: Route, s: State, step: Step): Envelope
    requires CosignedAsk(r, s, step)
  {
    Granted(s, step.req,
            CheckCosigner(r, s.approvals, step.req.cosigner.value, step.req.intent, step.at).value, step.at)
  }

  /** What makes an approval vouch for an intent. Whose approval it is and whether it was claimed is not
      part of it. */
  predicate Vouches(a: Approval, token: CosignerToken, jwt: string, intent: Intent) {
    a.id == token.approval && a.status.Approved? && a.attestation == Some(jwt)
    && a.resource.spec.Some? && MatchesSpec(a.resource.spec.value, intent)
  }

  /** A cosigned request is granted exactly when its token reads and an approval vouches for its intent. */
  lemma GrantIff(r: Route, approvals: Rows, jwt: string, intent: Intent, now: int)
    requires Keyed(r.desk, approvals)
    ensures var token := r.cosigner(jwt, now / 1000);
            CheckCosigner(r, approvals, jwt, intent, now).Success?
            <==> token.Success? && exists a :: a in approvals && Vouches(a, token.value, jwt, intent)
  {
    var token := r.cosigner(jwt, now / 1000);
    if token.Success? {
      forall a | a in approvals && Vouches(a, token.value, jwt, intent)
        ensures CheckCosigner(r, approvals, jwt, intent, now).Success?
      {
        var i :| 0 <= i < |approvals| && approvals[i] == a;
        FoundById(r.desk, approvals, i);
      }
      if CheckCosigner(r, approvals, jwt, intent, now).Success? {
        assert Vouches(approvals[Where(ById(token.value.approval), approvals).value], token.value, jwt, intent);
      }
    }
  }

  /** No authority without approval: a row that a step adds lies inside the spec of an approved approval
      whose attestation the request carried. It is the row of the agent approved exactly when the request
      came from that agent. */
  lemma NewEnvelopeApproved(r: Route, s: State, step: Step, e: Envelope) returns (a: Approval)
    requires CosignedAsk(r, s, step) && e == GrantedBy(r, s, step)
    ensures a in s.approvals && a.status.Approved? && a.attestation == step.req.cosigner
    ensures a.resource.spec.Some? && Covers(a.resource.spec.value.constraint, e.constraint)
            && Within(e.actions, a.resource.spec.value.actions)
    ensures e.customer == a.customer && e.agent == a.agent
            <==> step.req.customer == a.customer && step.req.agent == a.agent
  {
    var token := r.cosigner(step.req.cosigner.value, step.at / 1000).value;
    a := s.approvals[Where(ById(token.approval), s.approvals).value];
  }

  /** How long a granted envelope is active, if nobody revokes it: a standing one always, any other exactly
      until a day after the request. */
  lemma GrantLasts(s: State, req: Request, cosigned: Cosigned, now: int, at: int)
    ensures Active(Granted(s, req, cosigned, now), req.customer, req.agent, at)
            <==> cosigned.standing || at < now + 24 * 60 * 60 * 1000
  {
  }

  /** Every step but a cosigned request leaves at most the envelopes that were active before. */
  lemma OnlyCosignedWidens(r: Route, s: State, step: Step, customer: string, agent: string, now: int, e: Envelope)
    requires !CosignedAsk(r, s, step) && e in ListActive(Next(r, s, step).envelopes, customer, agent, now)
    ensures e in ListActive(s.envelopes, customer, agent, now)
  {
    EnvelopesNext(r, s, step);
    ListActiveSpec(s.envelopes, customer, agent, now);
    ListActiveSpec(Next(r, s, step).envelopes, customer, agent, now);
    if step.Revoke? {
      RevokeTakesOff(s.envelopes, step.customer, step.id, step.at, customer, agent, now, e);
    } else if step.Purge? {
      FilterMember((e: Envelope) => !Purgeable(e, step.at), s.envelopes, e);
    }
  }

  /** A record's token was minted for its intent, and its envelope allowed that at the time. */
  ghost predicate Inside(r: Route, rec: Record) {
    ValidIntent(rec.intent)
    && Active(rec.envelope, rec.envelope.customer, rec.envelope.agent, rec.at)
    && CoversIntent(rec.envelope, rec.intent.constraint, rec.intent.actions)
    && exists cosigner, nonce ::
         r.mint(IntentInput(Request(rec.envelope.customer, rec.envelope.agent, rec.intent, cosigner), nonce),
                rec.at / 1000)
         == Success(rec.issued)
  }

  lemma MintInRecords(r: Route, s: State, req: Request, e: Envelope, now: int, nonce: string, silent: bool)
    requires ValidIntent(req.intent) && Active(e, req.customer, req.agent, now)
    requires CoversIntent(e, req.intent.constraint, req.intent.actions)
    ensures var t := MintIn(r, s, req, e, now, nonce, silent).state;
            t.minted == s.minted
            || (t.minted == s.minted + [t.minted[|s.minted|]] && Inside(r, t.minted[|s.minted|])
                && t.minted[|s.minted|].envelope == e && t.minted[|s.minted|].at == now)
  {
    var result := r.mint(IntentInput(req, nonce), now / 1000);
    if result.Success? {
      var rec := Record(e, req.intent, now, result.value, silent);
      assert r.mint(IntentInput(Request(e.customer, e.agent, rec.intent, req.cosigner), nonce), rec.at / 1000)
             == Success(rec.issued);
      assert MintIn(r, s, req, e, now, nonce, silent).state.minted[|s.minted|] == rec;
    }
  }

  /** A step mints at most one token, in an active envelope of its table that covers the intent. */
  lemma MintedNext(r: Route, s: State, step: Step)
    ensures var t := Next(r, s, step);
            t.minted == s.minted
            || (t.minted == s.minted + [t.minted[|s.minted|]] && Inside(r, t.minted[|s.minted|])
                && t.minted[|s.minted|].envelope in t.envelopes && step.Ask? && t.minted[|s.minted|].at == step.at)
  {
    if step.Ask? && Refusals(r, step.req).None? {
      var req := step.req;
      if req.cosigner.Some? {
        if CosignedAsk(r, s, step) {
          var e := GrantedBy(r, s, step);
          CoversReflexive(e.constraint);
          MintInRecords(r, WithEnvelope(s, e), req, e, step.at, step.nonce, false);
        }
      } else {
        var active := ListActive(s.envelopes, req.customer, req.agent, step.at);
        var d := Classify(r.classifier, req.intent.constraint, req.intent.actions, req.intent.purpose, active);
        if d.Mint? {
          CoveringFound(active, req.intent.constraint, req.intent.actions);
          ListActiveSpec(s.envelopes, req.customer, req.agent, step.at);
          MintInRecords(r, s, req, d.envelope, step.at, step.nonce, true);
        }
      }
    }
  }

  // ---------------------------------------------------------------- runs

  function RunFrom(r: Route, s: State, steps: seq<Step>): State {
    if steps == [] then s else Next(r, RunFrom(r, s, steps[..|steps| - 1]), steps[|steps| - 1])
  }

  const START := State([], 0, [], [])

  function After(r: Route, steps: seq<Step>): State {
    RunFrom(r, START, steps)
  }

  /** The clock does not run backwards. */
  predicate Monotone(steps: seq<Step>) {
    forall i, j | 0 <= i <= j < |steps| :: steps[i].at <= steps[j].at
  }

  /** In every run, every token was minted inside an envelope that was active at that moment. */
  lemma {:induction false} EveryMintInside(r: Route, steps: seq<Step>, rec: Record)
    requires rec in After(r, steps).minted
    ensures Inside(r, rec)
  {
    if steps != [] {
      var before := steps[..|steps| - 1];
      MintedNext(r, After(r, before), steps[|steps| - 1]);
      if rec in After(r, before).minted {
        EveryMintInside(r, before, rec);
      }
    }
  }

  /** And what its bearer gets is what the envelope allows: the token, as anyone reads it, is the
      platform's for the envelope's agent, its command is one of the envelope's actions, its constraint
      lies inside the envelope's, and it ends at most an hour after the mint. */
  lemma MintedTokenInside(r: Route, c: Crypto, p: Mint.Platform, db: Mint.Tables, rec: Record)
    requires Wired(r, c, p, db) && c.Correct() && KeysRegistered(c, p, db) && Inside(r, rec)
    ensures rec.envelope.agent in db.agents && ValidIntent(rec.intent)
    ensures Produces(c, ParseUcan(rec.issued.jwt), p.signerDid, db.agents[rec.envelope.agent].did,
                     rec.intent.actions[0], rec.at / 1000 - 60, rec.at / 1000 + rec.intent.ttl,
                     Some(rec.intent.constraint))
    ensures rec.intent.actions[0] in rec.envelope.actions
    ensures Contains(rec.envelope.constraint, rec.intent.constraint)
    ensures (rec.at / 1000 + rec.intent.ttl) * 1000 <= rec.at + 3600 * 1000
  {
    var cosigner, nonce :|
      r.mint(IntentInput(Request(rec.envelope.customer, rec.envelope.agent, rec.intent, cosigner), nonce),
             rec.at / 1000)
      == Success(rec.issued);
    var req := Request(rec.envelope.customer, rec.envelope.agent, rec.intent, cosigner);
    RootMintProduces(c, p, db, IntentInput(req, nonce), rec.at / 1000, rec.issued);
    CoversContains(rec.envelope.constraint, rec.intent.constraint);
  }

  // ---------------------------------------------------------------- lifetimes

  /** Serial ids, each used once. */
  predicate Serial(s: State) {
    (forall e :: e in s.envelopes ==> e.id < s.nextId)
    && (forall rec :: rec in s.minted ==> rec.envelope.id < s.nextId)
    && (forall d, e | d in s.envelopes && e in s.envelopes && d.id == e.id :: d == e)
  }

  /** The row of a record's envelope is as it was when the token was minted, unless revoked since. */
  predicate Kept(rec: Record, e: Envelope) {
    e.id == rec.envelope.id ==>
      e.(revokedAt := None) == rec.envelope && (e.revokedAt.Some? ==> rec.at <= e.revokedAt.value)
  }

  predicate AllKept(s: State) {
    forall rec, e | rec in s.minted && e in s.envelopes :: Kept(rec, e)
  }

  predicate MintedBy(s: State, now: int) {
    forall rec :: rec in s.minted ==> rec.at <= now
  }

  /** What a step leaves of the rows: each is an old one, a revoked old one or the new one. */
  lemma RowOrigin(r: Route, s: State, step: Step, e: Envelope)
    requires e in Next(r, s, step).envelopes
    ensures e in s.envelopes
            || (step.Revoke? && exists was :: was in s.envelopes && was.revokedAt.None? && was.id == step.id
                                             && e == was.(revokedAt := Some(step.at)))
            || (CosignedAsk(r, s, step) && e == GrantedBy(r, s, step))
  {
    EnvelopesNext(r, s, step);
    if step.Revoke? {
      RevokedMember(s.envelopes, step.customer, step.id, step.at, e);
    } else if step.Purge? {
      FilterMember((e: Envelope) => !Purgeable(e, step.at), s.envelopes, e);
    }
  }

  lemma NextIdGrows(r: Route, s: State, step: Step)
    ensures Next(r, s, step).nextId == if CosignedAsk(r, s, step) then s.nextId + 1 else s.nextId
  {
    EnvelopesNext(r, s, step);
  }

  /** A step that revokes keeps no unrevoked row of that customer under that id. */
  lemma RevokedOnce(r: Route, s: State, step: Step, d: Envelope, e: Envelope)
    requires Serial(s) && step.Revoke?
    requires d in Next(r, s, step).envelopes && e in Next(r, s, step).envelopes && d.id == e.id
    ensures d == e
  {
    RevokedMember(s.envelopes, step.customer, step.id, step.at, d);
    RevokedMember(s.envelopes, step.customer, step.id, step.at, e);
  }

  lemma SerialNext(r: Route, s: State, step: Step)
    requires Serial(s)
    ensures Serial(Next(r, s, step))
  {
    var t := Next(r, s, step);
    NextIdGrows(r, s, step);
    MintedNext(r, s, step);
    forall e | e in t.envelopes ensures e.id < t.nextId {
      RowOrigin(r, s, step, e);
    }
    forall d, e | d in t.envelopes && e in t.envelopes && d.id == e.id ensures d == e {
      if step.Revoke? {
        RevokedOnce(r, s, step, d, e);
      } else {
        RowOrigin(r, s, step, d);
        RowOrigin(r, s, step, e);
      }
    }
  }

  lemma KeptOld(r: Route, s: State, step: Step, rec: Record, e: Envelope)
    requires Serial(s) && AllKept(s) && MintedBy(s, step.at) && rec in s.minted && e in Next(r, s, step).envelopes
    ensures Kept(rec, e)
  {
    RowOrigin(r, s, step, e);
    if e !in s.envelopes && step.Revoke? {
      var was :| was in s.envelopes && was.revokedAt.None? && e == was.(revokedAt := Some(step.at));
      assert Kept(rec, was);
    }
  }

  lemma KeptNext(r: Route, s: State, step: Step)
    requires Serial(s) && AllKept(s) && MintedBy(s, step.at)
    ensures AllKept(Next(r, s, step)) && MintedBy(Next(r, s, step), step.at)
  {
    var t := Next(r, s, step);
    SerialNext(r, s, step);
    MintedNext(r, s, step);
    forall rec, e | rec in t.minted && e in t.envelopes ensures Kept(rec, e) {
      if rec in s.minted {
        KeptOld(r, s, step, rec, e);
      } else {
        assert Inside(r, rec) && rec.envelope in t.envelopes;
      }
    }
  }

  lemma {:induction false} RunKeeps(r: Route, steps: seq<Step>)
    requires Monotone(steps)
    ensures Serial(After(r, steps)) && AllKept(After(r, steps))
    ensures steps != [] ==> MintedBy(After(r, steps), steps[|steps| - 1].at)
  {
    if steps != [] {
      var before, step := steps[..|steps| - 1], steps[|steps| - 1];
      RunKeeps(r, before);
      SerialNext(r, After(r, before), step);
      KeptNext(r, After(r, before), step);
    }
  }

  /** In every run with a forward clock, no token outlives its envelope by more than an hour: not the
      envelope's expiry, and not its revocation. */
  lemma NoTokenOutlives(r: Route, steps: seq<Step>, rec: Record)
    requires Monotone(steps) && rec in After(r, steps).minted
    ensures var expiry := (rec.at / 1000 + rec.intent.ttl) * 1000;
            && (rec.envelope.expiresAt.Some? ==> expiry < rec.envelope.expiresAt.value + 3600 * 1000)
            && forall e | e in After(r, steps).envelopes && e.id == rec.envelope.id && e.revokedAt.Some? ::
                 expiry <= e.revokedAt.value + 3600 * 1000
  {
    RunKeeps(r, steps);
    EveryMintInside(r, steps, rec);
    forall e | e in After(r, steps).envelopes && e.id == rec.envelope.id && e.revokedAt.Some?
      ensures rec.at <= e.revokedAt.value
    {
      assert Kept(rec, e);
    }
  }

  // ---------------------------------------------------------------- what becomes of approvals

  /** Requests and acts are all that changes approvals; a request only ever puts one up, without a CID. */
  lemma ApprovalsNext(r: Route, s: State, step: Step) returns (act: Option<Act>)
    ensures Next(r, s, step).approvals
            == if act.None? then s.approvals else Acted(r.desk, s.approvals, act.value, step.at)
    ensures act.Some? ==> (step.Manage? && step.act == act.value)
                          || (act.value.Open? && act.value.input.originalCid.None?)
  {
    act := None;
    if step.Manage? {
      act := Some(step.act);
    } else if step.Ask? && Refusals(r, step.req).None? && step.req.cosigner.None? {
      var active := ListActive(s.envelopes, step.req.customer, step.req.agent, step.at);
      var intent := step.req.intent;
      var d := Classify(r.classifier, intent.constraint, intent.actions, intent.purpose, active);
      if d.StepUp? {
        act := Some(Open(Proposal(r, step.req, d.reason), step.approval));
      }
    }
  }

  lemma RowsNext(r: Route, s: State, step: Step, i: nat)
    requires Keyed(r.desk, s.approvals) && i < |s.approvals|
    ensures Keyed(r.desk, Next(r, s, step).approvals) && i < |Next(r, s, step).approvals|
    ensures Follows(s.approvals[i], Next(r, s, step).approvals[i])
  {
    var act := ApprovalsNext(r, s, step);
    if act.Some? {
      ActKeepsKeys(r.desk, s.approvals, act.value, step.at);
      ActFollows(r.desk, s.approvals, act.value, step.at);
    }
  }

  /** Over any steps an approval only moves from pending to decided and from unclaimed to claimed. */
  lemma {:induction false} RowsStay(r: Route, s: State, steps: seq<Step>, i: nat)
    requires Keyed(r.desk, s.approvals) && i < |s.approvals|
    ensures var t := RunFrom(r, s, steps);
            Keyed(r.desk, t.approvals) && i < |t.approvals| && Follows(s.approvals[i], t.approvals[i])
            && s.nextId <= t.nextId
  {
    if steps != [] {
      var before := steps[..|steps| - 1];
      RowsStay(r, s, before, i);
      RowsNext(r, RunFrom(r, s, before), steps[|steps| - 1], i);
      NextIdGrows(r, RunFrom(r, s, before), steps[|steps| - 1]);
    }
  }

  /** One approval, any number of grants, to anyone: after a granted request, whatever happens in between
      (claims included), any dynamic agent of any customer that presents the same token for the same intent
      while the token still reads is granted an envelope of its own. */
  lemma GrantNeverSpent(r: Route, s: State, step: Step, between: seq<Step>, again: Step)
    requires Keyed(r.desk, s.approvals) && CosignedAsk(r, s, step)
    requires again.Ask? && Refusals(r, again.req).None?
    requires again.req.cosigner == step.req.cosigner && again.req.intent == step.req.intent
    requires var jwt := step.req.cosigner.value; r.cosigner(jwt, again.at / 1000) == r.cosigner(jwt, step.at / 1000)
    ensures var t := RunFrom(r, Next(r, s, step), between);
            && CosignedAsk(r, t, again)
            && var first, e := GrantedBy(r, s, step), GrantedBy(r, t, again);
               e.customer == again.req.customer && e.agent == again.req.agent && e.id > first.id
               && e.constraint == first.constraint && e.actions == first.actions
  {
    var jwt, t := step.req.cosigner.value, RunFrom(r, Next(r, s, step), between);
    var i := Where(ById(r.cosigner(jwt, step.at / 1000).value.approval), s.approvals).value;
    RowsNext(r, s, step, i);
    RowsStay(r, Next(r, s, step), between, i);
    NextIdGrows(r, s, step);
    FoundById(r.desk, t.approvals, i);
  }

  lemma GrantedBySigned(r: Route, rows: Rows, i: nat, jwt: string, standing: bool, legible: bool, intent: Intent,
                        now: int)
    requires Keyed(r.desk, rows) && i < |rows| && rows[i].status.Approved? && rows[i].attestation == Some(jwt)
    requires var token := r.cosigner(jwt, now / 1000);
             (token.Success? <==> legible) && (legible ==> token.value == CosignerToken(rows[i].id, standing))
    ensures CheckCosigner(r, rows, jwt, intent, now).Success?
            <==> legible && rows[i].resource.spec.Some? && MatchesSpec(rows[i].resource.spec.value, intent)
  {
    FoundById(r.desk, rows, i);
  }

  /** The token of a successful cosigning, as the route reads it. */
  lemma SignedReads(r: Route, c: Crypto, p: Mint.Platform, k: Cosigner, at: int, jwt: string, now: int)
    requires Cosigns(r, c, p) && r.desk.sign(k, at) == Some(jwt)
    ensures var token := r.cosigner(jwt, now);
            (token.Success? <==> k.approval != "" && at - 60 <= now < at + 300 && k.command == ENVELOPE_COMMAND)
            && (token.Success? ==> token.value == CosignerToken(k.approval, k.standing))
  {
    assert r.desk.sign(k, at) == SignCosigner(c, p, k, at);
    assert r.cosigner(jwt, now) == ReadCosigner(c, jwt, now);
    CosignerReads(c, p, k, at, jwt, now);
  }

  /** What a successful cosigning leaves. */
  lemma AfterSigning(r: Route, rows: Rows, input: CosignInput, at: int, jwt: string, i: nat)
    requires Keyed(r.desk, rows) && AfterCosign(r.desk, rows, input, at).answer == Success(jwt)
    requires Where(OfCustomer(input.id, input.customer), rows) == Some(i)
    ensures var t := AfterCosign(r.desk, rows, input, at).rows;
            && Keyed(r.desk, t) && i < |t| && t[i].status.Approved? && t[i].attestation == Some(jwt)
            && t[i].id == rows[i].id && t[i].resource == rows[i].resource
    ensures rows[i].agent in r.desk.agents && rows[i].originalCid.Some?
    ensures r.desk.sign(CosignerOf(r.desk, rows[i], input), at / 1000) == Some(jwt)
  {
    ActKeepsKeys(r.desk, rows, Cosign(input), at);
  }

  /** The loop closed: a request with the token of a successful cosigning is granted exactly in the token's
      window and if the approval is of the envelope command and its spec matches, whoever asks. */
  lemma ApprovalHonoured(r: Route, c: Crypto, p: Mint.Platform, rows: Rows, input: CosignInput,
                         at: int, jwt: string, intent: Intent, now: int, i: nat)
    requires Cosigns(r, c, p) && Keyed(r.desk, rows)
    requires AfterCosign(r.desk, rows, input, at).answer == Success(jwt)
    requires Where(OfCustomer(input.id, input.customer), rows) == Some(i)
    ensures CheckCosigner(r, AfterCosign(r.desk, rows, input, at).rows, jwt, intent, now).Success?
            <==> rows[i].id != "" && at / 1000 - 60 <= now / 1000 < at / 1000 + 300
                 && rows[i].command == ENVELOPE_COMMAND
                 && rows[i].resource.spec.Some? && MatchesSpec(rows[i].resource.spec.value, intent)
  {
    AfterSigning(r, rows, input, at, jwt, i);
    var k := CosignerOf(r.desk, rows[i], input);
    SignedReads(r, c, p, k, at / 1000, jwt, now / 1000);
    GrantedBySigned(r, AfterCosign(r.desk, rows, input, at).rows, i, jwt, k.standing,
                    r.cosigner(jwt, now / 1000).Success?, intent, now);
  }

  /** The rows of an opening and its cosigning, and the token that comes of them. */
  lemma OpenedAndSigned(r: Route, input: StepUpInput, id: string, openAt: int, user: string, standing: bool,
                        nonce: string, signAt: int)
    requires Knows(r.desk.agents, input.agent, input.customer) && Truthy(input.originalCid)
    requires openAt <= signAt < openAt + input.ttlSeconds * 1000
    ensures var row := Inserted(input, r.desk.hash(input.resource), id, openAt);
            var rows := AfterCreate(r.desk, [], input, id, openAt).rows;
            var cosign := CosignInput(id, input.customer, user, standing, nonce);
            && rows == [row] && Keyed(r.desk, rows) && Where(OfCustomer(id, input.customer), rows) == Some(0)
            && AfterCosign(r.desk, rows, cosign, signAt).answer
               == match r.desk.sign(CosignerOf(r.desk, row, cosign), signAt / 1000)
                  case None => Failure(NotSigned)
                  case Some(jwt) => Success(jwt)
  {
  }

  lemma GrantedRun(r: Route, first: Step, second: Step, ask: Step)
    requires first.Manage? && second.Manage? && ask.Ask? && Refusals(r, ask.req).None? && ask.req.cosigner.Some?
    requires CheckCosigner(r, Next(r, Next(r, START, first), second).approvals, ask.req.cosigner.value, ask.req.intent,
                           ask.at).Success?
    ensures var envelopes := After(r, [first, second, ask]).envelopes;
            |envelopes| == 1 && envelopes[0].customer == ask.req.customer && envelopes[0].agent == ask.req.agent
  {
    ThreeSteps(r, first, second, ask);
    EnvelopesNext(r, Next(r, Next(r, START, first), second), ask);
  }

  lemma TwoActs(r: Route, x: Act, xAt: int, y: Act, yAt: int)
    ensures Next(r, Next(r, START, Manage(x, xAt)), Manage(y, yAt)).approvals
            == Acted(r.desk, Acted(r.desk, [], x, xAt), y, yAt)
  {
  }

  /** A borrowed approval: the policy decision point opens an approval for one agent, it is cosigned, and
      another agent, of whatever customer, that presents the token is granted the envelope. */
  lemma BorrowedApproval(r: Route, c: Crypto, p: Mint.Platform, input: StepUpInput, id: string,
                         openAt: int, cosign: CosignInput, signAt: int, jwt: string, ask: Step)
    requires Cosigns(r, c, p)
    requires Knows(r.desk.agents, input.agent, input.customer) && Truthy(input.originalCid) && id != ""
    requires input.command == ENVELOPE_COMMAND && input.resource.spec.Some?
    requires cosign.id == id && cosign.customer == input.customer
    requires openAt <= signAt < openAt + input.ttlSeconds * 1000
    requires r.desk.sign(CosignerOf(r.desk, Inserted(input, r.desk.hash(input.resource), id, openAt), cosign),
                         signAt / 1000)
             == Some(jwt)
    requires ask.Ask? && Refusals(r, ask.req).None? && ask.req.cosigner == Some(jwt)
    requires signAt / 1000 <= ask.at / 1000 < signAt / 1000 + 300
    requires MatchesSpec(input.resource.spec.value, ask.req.intent)
    ensures var envelopes := After(r, [Manage(Open(input, id), openAt), Manage(Cosign(cosign), signAt), ask]).envelopes;
            |envelopes| == 1 && envelopes[0].customer == ask.req.customer && envelopes[0].agent == ask.req.agent
  {
    OpenedAndSigned(r, input, id, openAt, cosign.user, cosign.standing, cosign.nonce, signAt);
    var rows := AfterCreate(r.desk, [], input, id, openAt).rows;
    ApprovalHonoured(r, c, p, rows, cosign, signAt, jwt, ask.req.intent, ask.at, 0);
    TwoActs(r, Open(input, id), openAt, Cosign(cosign), signAt);
    GrantedRun(r, Manage(Open(input, id), openAt), Manage(Cosign(cosign), signAt), ask);
  }

  lemma ThreeSteps(r: Route, x: Step, y: Step, z: Step)
    ensures After(r, [x, y, z]) == Next(r, Next(r, Next(r, START, x), y), z)
  {
    assert [x, y, z][..2] == [x, y] && [x, y][..1] == [x] && [x][..0] == [];
    assert RunFrom(r, START, [x]) == Next(r, START, x);
    assert RunFrom(r, START, [x, y]) == Next(r, Next(r, START, x), y);
  }

  // ---------------------------------------------------------------- proposals of the route itself

  /** No opening with an original CID is of the envelope command. */
  predicate NoEnvelopeOpened(steps: seq<Step>) {
    forall step :: step in steps && step.Manage? && step.act.Open? && Truthy(step.act.input.originalCid) ==>
                     step.act.input.command != ENVELOPE_COMMAND
  }

  ghost predicate Unsigned(r: Route, rows: Rows) {
    (forall a :: a in rows ==> Sealed(r.desk, a))
    && (forall a :: a in rows && a.originalCid.Some? ==> a.command != ENVELOPE_COMMAND)
  }

  lemma UnsignedNext(r: Route, s: State, step: Step)
    requires Keyed(r.desk, s.approvals) && Unsigned(r, s.approvals) && NoEnvelopeOpened([step])
    ensures Keyed(r.desk, Next(r, s, step).approvals) && Unsigned(r, Next(r, s, step).approvals)
  {
    var act := ApprovalsNext(r, s, step);
    if act.Some? {
      var t := Acted(r.desk, s.approvals, act.value, step.at);
      ActKeepsKeys(r.desk, s.approvals, act.value, step.at);
      ActFollows(r.desk, s.approvals, act.value, step.at);
      assert step in [step];
      forall i | 0 <= i < |t|
        ensures Sealed(r.desk, t[i]) && (t[i].originalCid.Some? ==> t[i].command != ENVELOPE_COMMAND)
      {
        ActKeepsSealed(r.desk, s.approvals, act.value, step.at, i);
        CidGiven(r.desk, s.approvals, act.value, step.at, i);
      }
    }
  }

  lemma UnsignedRow(r: Route, c: Crypto, p: Mint.Platform, a: Approval, jwt: string, now: int)
    requires Cosigns(r, c, p) && Sealed(r.desk, a)
    requires a.attestation == Some(jwt) && a.command != ENVELOPE_COMMAND
    ensures r.cosigner(jwt, now).Failure?
  {
    var input, at :| r.desk.sign(CosignerOf(r.desk, a, input), at) == a.attestation;
    SignedReads(r, c, p, CosignerOf(r.desk, a, input), at, jwt, now);
  }

  lemma UnsignedRefuses(r: Route, c: Crypto, p: Mint.Platform, s: State, step: Step)
    requires Cosigns(r, c, p) && Unsigned(r, s.approvals)
    ensures !CosignedAsk(r, s, step)
  {
    if CosignedAsk(r, s, step) {
      var a := NewEnvelopeApproved(r, s, step, GrantedBy(r, s, step));
      UnsignedRow(r, c, p, a, step.req.cosigner.value, step.at / 1000);
    }
  }

  /** The route's own proposals lead nowhere: they carry no original CID, and without one no cosigner token is
      signed. In every run in which nobody else opens an approval of the envelope command with a CID, no
      envelope is ever created and no token minted. */
  lemma {:induction false} ProposalsLeadNowhere(r: Route, c: Crypto, p: Mint.Platform, steps: seq<Step>)
    requires Cosigns(r, c, p) && NoEnvelopeOpened(steps)
    ensures After(r, steps).envelopes == [] && After(r, steps).minted == []
    ensures Keyed(r.desk, After(r, steps).approvals) && Unsigned(r, After(r, steps).approvals)
  {
    if steps != [] {
      var before, step := steps[..|steps| - 1], steps[|steps| - 1];
      ProposalsLeadNowhere(r, c, p, before);
      var s := After(r, before);
      UnsignedRefuses(r, c, p, s, step);
      UnsignedNext(r, s, step);
      EnvelopesNext(r, s, step);
      MintedNext(r, s, step);
    }
  }
}
