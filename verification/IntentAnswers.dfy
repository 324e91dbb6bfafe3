/** What the intent request answers and leaves, case by case (apps/control-plane/src/routes/intent.ts). */
module IntentAnswers {
  import opened Common
  import opened Canonical
  import opened Constraint
  import opened Ucan
  import opened Envelope
  import opened Approvals
  import opened Intent
  import Mint

  // ---------------------------------------------------------------- refusals

  /** What the body's schema demands of the intent. */
  predicate Proper(i: Intent) {
    |i.actions| > 0 && (forall a :: a in i.actions ==> IsCommand(a))
    && 1 <= i.ttl <= 3600 && (i.purpose.Some? ==> 8 <= |i.purpose.value| <= 280)
  }

  /** The checks, each after the ones before it. */
  lemma RefusalsAre(r: Route, s: State, req: Request, now: int, nonce: string, approval: string)
    ensures var o := Handle(r, s, req, now, nonce, approval);
            var proper := Proper(req.intent) && req.cosigner != Some("");
            var known := req.agent in r.desk.agents && r.desk.agents[req.agent].customer == req.customer;
            && (o.response == Refused(InvalidBody) <==> !proper)
            && (o.response == Refused(AgentMissing) <==> proper && !known)
            && (o.response == Refused(AgentStatic) <==> proper && known && req.agent !in r.dynamic)
            && (Refusals(r, req).None? <==> proper && known && req.agent in r.dynamic)
            && (Refusals(r, req).Some? ==> o.state == s)
  {
  }

  // ---------------------------------------------------------------- minting

  /** A root token for the first action, of dynamic mode, under the constraint and for the time the intent asks for,
      recorded with the envelope; if it cannot be minted nothing is recorded. */
  predicate Mints(r: Route, s: State, o: Outcome, req: Request, e: Envelope, now: int, nonce: string, silent: bool)
    requires req.intent.actions != []
  {
    match r.mint(Mint.MintInput(customer := req.customer, agent := req.agent, command := req.intent.actions[0],
                                policy := None, oauth := None, cloud := None, ttl := req.intent.ttl, nonce := nonce,
                                hints := None, constraint := Some(req.intent.constraint), mode := Some(Mint.Dynamic)),
                 now / 1000)
    case Failure(error) => o == Outcome(s, Refused(MintFailed(error)))
    case Success(issued) =>
      && o.response == Minted(issued := issued, envelope := e.id, expiresAt := now / 1000 + req.intent.ttl)
      && o.state == s.(minted := s.minted + [Record(envelope := e, intent := req.intent, at := now, issued := issued,
                                                    silent := silent)])
  }

  /** Without a cosigner token the classifier decides; a silent mint is in the envelope it found. */
  lemma SilentAnswer(r: Route, s: State, req: Request, now: int, nonce: string, approval: string)
    requires Refusals(r, req).None? && req.cosigner.None?
    ensures var active := ListActive(s.envelopes, req.customer, req.agent, now);
            var d := Classify(r.classifier, req.intent.constraint, req.intent.actions, req.intent.purpose, active);
            d.Mint? ==>
              Mints(r, s, Handle(r, s, req, now, nonce, approval), req, d.envelope, now, nonce, true)
  {
  }

  // ---------------------------------------------------------------- stepping up

  /** The step-up puts the intent's constraint and actions up for approval under the envelope command, with the lifetime
      it asked for and the classifier's reason, and without a CID; the answer names the approval and the same spec. */
  lemma StepUpAnswer(r: Route, s: State, req: Request, now: int, nonce: string, approval: string)
    requires Refusals(r, req).None? && req.cosigner.None?
    ensures var active := ListActive(s.envelopes, req.customer, req.agent, now);
            var d := Classify(r.classifier, req.intent.constraint, req.intent.actions, req.intent.purpose, active);
            var spec := Spec(req.intent.constraint, req.intent.actions);
            d.StepUp? ==>
              var input := StepUpInput(customer := req.customer, agent := req.agent, command := "/__envelope__",
                                       resource := Resource(Some(spec), Proposed(req.intent.ttl, d.reason)),
                                       ttlSeconds := r.approvalTtl, originalCid := None);
              var change := AfterCreate(r.desk, s.approvals, input, approval, now);
              Handle(r, s, req, now, nonce, approval)
              == Outcome(s.(approvals := change.rows),
                         match change.answer
                         case Success(id) => StepUpNeeded(id, spec)
                         case Failure(_) => Refused(NotProposed))
  {
  }

  // ---------------------------------------------------------------- with a cosigner token

  /** The envelope of an approval: the agent's that asks, for its own constraint and actions, in the name of the user
      who approved, for a day or until revoked. */
  predicate IsGrant(e: Envelope, req: Request, user: string, standing: bool, id: nat, now: int) {
    e == Envelope(id := id, customer := req.customer, agent := req.agent, constraint := req.intent.constraint,
                  actions := req.intent.actions, createdBy := user, createdAt := now,
                  expiresAt := if standing then None else Some(now + 86_400_000), revokedAt := None,
                  standing := standing)
  }

  /** A cosigned request is refused with the reader's reason, refused as naming no approval in force, refused as not
      being what was approved, or adds that envelope and mints in it. */
  lemma CosignedAnswer(r: Route, s: State, req: Request, now: int, nonce: string, approval: string)
    requires Keyed(r.desk, s.approvals) && Refusals(r, req).None? && req.cosigner.Some?
    ensures var o, jwt := Handle(r, s, req, now, nonce, approval), req.cosigner.value;
            match r.cosigner(jwt, now / 1000)
            case Failure(error) => o == Outcome(s, Refused(NotCosigned(error)))
            case Success(token) =>
              && ((forall a :: a in s.approvals ==> a.id != token.approval || a.status != Approved) ==>
                    o == Outcome(s, Refused(NotCosigned(CosignerInvalid))))
              && forall a | a in s.approvals && a.id == token.approval && a.status == Approved ::
                   if Vouches(a, token, jwt, req.intent) then
                     exists e :: IsGrant(e, req, a.decidedBy, token.standing, s.nextId, now)
                                 && Mints(r, s.(envelopes := s.envelopes + [e], nextId := s.nextId + 1), o, req, e, now,
                                          nonce, false)
                   else o == Outcome(s, Refused(NotCosigned(CosignerMismatch)))
  {
    var jwt := req.cosigner.value;
    var read := r.cosigner(jwt, now / 1000);
    if read.Success? {
      forall a | a in s.approvals && a.id == read.value.approval
        ensures Where(ById(read.value.approval), s.approvals).Some?
                && s.approvals[Where(ById(read.value.approval), s.approvals).value] == a
      {
        var i :| 0 <= i < |s.approvals| && s.approvals[i] == a;
        FoundById(r.desk, s.approvals, i);
      }
      var check := CheckCosigner(r, s.approvals, jwt, req.intent, now);
      if check.Success? {
        GrantIs(s, req, check.value, now);
      }
    }
  }

  lemma GrantIs(s: State, req: Request, cosigned: Cosigned, now: int)
    ensures IsGrant(Granted(s, req, cosigned, now), req, cosigned.decidingUser, cosigned.standing, s.nextId, now)
  {
  }
}
