/** The decision point of packages/core/src/decide.ts: the gate that consumes delegation chains. */
module Decide {
  import opened Common
  import opened Canonical
  import opened CanonicalTheorems
  import opened Constraint
  import opened Ucan
  import opened UcanTheorems
  import opened Chain
  import opened ChainTheorems

  const DEFAULT_MAX_CHAIN_DEPTH := 8

  type Context = map<string, Doc>

  /** `whole` is the request object; the other members are what it says. */
  datatype Request = Request(command: string, resource: Resource, context: Context, whole: Json)

  /** The request's members are those of its object, whose keys are normal. */
  predicate Says(nfc: Nfc, request: Request) {
    match Meaning(nfc, request.whole)
    case Some(DObj(m)) =>
      "command" in m && m["command"] == DStr(request.command)
      && "resource" in m && m["resource"] == DObj(request.resource)
      && "context" in m && m["context"] == DObj(request.context)
    case _ => false
  }

  datatype DenyReason =
    | MalformedToken
    | SignatureBad
    | TokenExpired
    | TokenNotYetValid
    | WrongAudience
    | WrongCommand
    | ChainInvalid
    | ChainAttenuationViolation
    | ChainTooDeep
    | UntrustedIssuer
    | Revoked
    | ResourceOutOfScope
    | PolicyDenied

  datatype Summary = Summary(capabilityLost: seq<string>, resourcesNarrowed: seq<string>)

  datatype ChainFields = ChainFields(depth: nat, summary: Option<Summary>)

  datatype Decision = Decision(allow: bool, reason: Option<DenyReason>, receiptId: string, chain: Option<ChainFields>)

  /** `Threw` is the exception of a malformed resource constraint. */
  datatype Outcome = Decided(decision: Decision) | Threw

  /** What the Cedar policies see. */
  datatype Query = Query(
    principal: string,
    action: string,
    resource: Resource,
    context: Context,
    depth: nat,
    rootAgent: string,
    invokedBy: seq<string>
  )

  /** A decision point: the chain check, token reading, hashing and printing it uses, Cedar as a predicate, the object
      form of a constraint, the UTC hour of a time in seconds, and its configuration. An absent or empty set
      of revoked CIDs revokes nothing. */
  datatype Gate = Gate(
    chain: (seq<string>, int, string) -> Result<Accepted, ChainError>,
    read: string -> Token,
    sha256Hex: string -> string,
    canonicalize: Json -> string,
    policy: Query -> bool,
    constraintDoc: Constraint -> Doc,
    hourOf: int -> int,
    revoked: set<string>,
    trustedIssuer: Option<string>,
    maxChainDepth: Option<int>
  ) {
    function Depth(): int {
      if maxChainDepth.Some? then maxChainDepth.value else DEFAULT_MAX_CHAIN_DEPTH
    }
  }

  /** The gate checks and reads tokens as the rest of the system does. */
  ghost predicate Wired(g: Gate, c: Crypto) {
    g.sha256Hex == c.sha256Hex
    && (forall jwt :: g.read(jwt) == ParseUcan(jwt))
    && (forall jwts, now, command ::
          g.chain(jwts, now, command) == ChainVerdict(c, ParseAll(jwts), now, None, Some(command)))
  }

  /** `CHAIN_ERROR_TO_REASON`; none is the exception. */
  function ReasonOf(e: ChainError): Option<DenyReason> {
    match e
    case BadToken(MalformedUcan) => Some(MalformedToken)
    case BadToken(BadSignature) => Some(SignatureBad)
    case BadToken(Expired) => Some(TokenExpired)
    case BadToken(NotYetValid) => Some(TokenNotYetValid)
    case BadToken(AudienceMismatch) => Some(WrongAudience)
    case BadToken(CommandMismatch) => Some(WrongCommand)
    case BadToken(IssuerUnsupported) => Some(MalformedToken)
    case BrokenDelegation => Some(ChainInvalid)
    case OverAttenuated => Some(ChainAttenuationViolation)
    case EmptyChain => Some(MalformedToken)
    case ConstraintException => None
  }

  // ---------------------------------------------------------------- the context

  /** One source merged over what is there: objects under a common key are merged one level deep, anything
      else is replaced. */
  function MergeOne(below: Context, src: Context): Context {
    map k | k in below.Keys + src.Keys :: if k in src then Over(Entry(below, k), src[k]) else below[k]
  }

  function Entry(c: Context, k: string): Option<Doc> {
    if k in c then Some(c[k]) else None
  }

  function Over(below: Option<Doc>, v: Doc): Doc {
    if v.DObj? && below.Some? && below.value.DObj? then DObj(below.value.members + v.members) else v
  }

  function Merge(sources: seq<Option<Context>>): Context {
    if sources == [] then map[]
    else
      var below, last := Merge(sources[..|sources| - 1]), sources[|sources| - 1];
      if last.Some? then MergeOne(below, last.value) else below
  }

  /** `mergeContext` */
  method MergeContext(sources: seq<Option<Context>>) returns (merged: Context)
    ensures merged == Merge(sources)
  {
    merged := map[];
    for i := 0 to |sources|
      invariant merged == Merge(sources[..i])
    {
      assert sources[..i + 1][..i] == sources[..i];
      if sources[i].None? {
        continue;
      }
      merged := MergeSource(merged, sources[i].value);
    }
    assert sources[..|sources|] == sources;
  }

  /** The loop over the entries of one source. */
  method MergeSource(below: Context, src: Context) returns (merged: Context)
    ensures merged == MergeOne(below, src)
  {
    merged := below;
    var todo := src.Keys;
    ghost var done: set<string> := {};
    NoPart(below, src);
    while todo != {}
      invariant done !! todo && done + todo == src.Keys && merged == MergeOne(below, Part(src, done))
      decreases |todo|
    {
      var k :| k in todo;
      MergePart(below, src, done, k);
      todo, done := todo - {k}, done + {k};
      merged := MergeEntry(merged, k, src[k]);
    }
    WholePart(src, done);
  }

  /** The branches of the loop. */
  method MergeEntry(out: Context, k: string, v: Doc) returns (merged: Context)
    ensures merged == out[k := Over(Entry(out, k), v)]
  {
    if v.DObj? && k in out && out[k].DObj? {
      return out[k := DObj(out[k].members + v.members)];
    } else {
      return out[k := v];
    }
  }

  lemma WholePart(src: Context, keys: set<string>)
    requires keys == src.Keys
    ensures Part(src, keys) == src
  {
  }

  lemma NoPart(below: Context, src: Context)
    ensures MergeOne(below, Part(src, {})) == below
  {
  }

  /** The entries of a source under some of its keys. */
  ghost function Part(src: Context, keys: set<string>): Context {
    map k | k in src && k in keys :: src[k]
  }

  lemma MergePart(below: Context, src: Context, keys: set<string>, k: string)
    requires k in src && k !in keys
    ensures Entry(MergeOne(below, Part(src, keys)), k) == Entry(below, k)
    ensures MergeOne(below, Part(src, keys + {k}))
            == MergeOne(below, Part(src, keys))[k := Over(Entry(below, k), src[k])]
  {
  }

  /** `computeEphemeralContext` */
  function Ephemeral(g: Gate, now: int): Context {
    map["time" := DObj(map["hour" := DNum(g.hourOf(now)), "epoch" := DNum(now)])]
  }

  /** `extractContextHints` */
  function Hints(meta: Option<Doc>): Option<Context> {
    match meta
    case Some(DObj(m)) =>
      if "context_hints" in m && m["context_hints"].DObj? then Some(m["context_hints"].members) else None
    case _ => None
  }

  // ---------------------------------------------------------------- the decision

  function ReceiptId(g: Gate, jwts: seq<string>, request: Request): string
    requires jwts != []
  {
    g.sha256Hex(g.sha256Hex(jwts[|jwts| - 1]) + "|" + g.canonicalize(request.whole))
  }

  function Denied(g: Gate, reason: DenyReason, jwts: seq<string>, request: Request): Outcome
    requires jwts != []
  {
    Decided(Decision(false, Some(reason), ReceiptId(g, jwts, request), None))
  }

  function ConstraintContext(g: Gate, meta: Option<Doc>): Option<Context> {
    match ExtractConstraint(meta)
    case Found(c) => Some(map["resource_constraint" := g.constraintDoc(c)])
    case _ => None
  }

  /** What the policies are asked about an accepted chain. */
  function QueryOf(g: Gate, jwts: seq<string>, a: Accepted, request: Request, now: int): Query
    requires jwts != []
  {
    Query(a.leaf.aud, request.command, request.resource,
          Merge([Some(request.context), Some(Ephemeral(g, now)), Hints(a.leaf.meta),
                 ConstraintContext(g, a.leaf.meta)]),
          |jwts| - 1, a.root.aud, Audiences(g, jwts[..|jwts| - 1]))
  }

  function Audiences(g: Gate, jwts: seq<string>): seq<string> {
    Map((jwt: string) => match g.read(jwt) case None => "unknown" case Some(t) => t.payload.aud, jwts)
  }

  /** What was lost and narrowed between two payloads; failure is the exception. */
  function Compare(root: Claims, leaf: Claims): Result<Summary, ()> {
    var lost := if root.cmd != leaf.cmd && !StartsWith(leaf.cmd, root.cmd) then [root.cmd] else [];
    match (ExtractConstraint(root.meta), ExtractConstraint(leaf.meta))
    case (Malformed, _) => Failure(())
    case (_, Malformed) => Failure(())
    case (Found(rc), Found(lc)) => Success(Summary(lost, if rc != lc then ["resource_constraint"] else []))
    case _ => Success(Summary(lost, []))
  }

  /** `summarizeAttenuation` */
  function Summarize(g: Gate, jwts: seq<string>): Result<Option<Summary>, ()> {
    if |jwts| < 2 then Success(None)
    else
      match (g.read(jwts[0]), g.read(jwts[|jwts| - 1]))
      case (Some(root), Some(leaf)) =>
        (match Compare(root.payload, leaf.payload) case Failure(_) => Failure(()) case Success(s) => Success(Some(s)))
      case _ => Success(None)
  }

  predicate AnyRevoked(g: Gate, jwts: seq<string>) {
    exists jwt :: jwt in jwts && g.sha256Hex(jwt) in g.revoked
  }

  /** The policy question and the shape of its answer. */
  function Judged(g: Gate, jwts: seq<string>, a: Accepted, request: Request, now: int): Outcome
    requires jwts != []
  {
    var allow := g.policy(QueryOf(g, jwts, a, request, now));
    match Summarize(g, jwts)
    case Failure(_) => Threw
    case Success(summary) =>
      var fields := if |jwts| > 1 then Some(ChainFields(|jwts| - 1, summary)) else None;
      Decided(Decision(allow, if allow then None else Some(PolicyDenied), ReceiptId(g, jwts, request), fields))
  }

  /** `decide`, at `now` seconds */
  function DecisionOf(g: Gate, jwts: seq<string>, request: Request, now: int): Outcome {
    if jwts == [] then
      Decided(Decision(false, Some(MalformedToken), g.sha256Hex("empty|" + g.canonicalize(request.whole)), None))
    else if |jwts| > g.Depth() then Denied(g, ChainTooDeep, jwts, request)
    else
      match g.chain(jwts, now, request.command)
      case Failure(e) => (match ReasonOf(e) case None => Threw case Some(reason) => Denied(g, reason, jwts, request))
      case Success(a) =>
        if Truthy(g.trustedIssuer) && a.root.iss != g.trustedIssuer.value then Denied(g, UntrustedIssuer, jwts, request)
        else if AnyRevoked(g, jwts) then Denied(g, Revoked, jwts, request)
        else
          match ExtractConstraint(a.leaf.meta)
          case Malformed => Threw
          case Found(c) =>
            if Matches(c, request.resource) then Judged(g, jwts, a, request, now)
            else Denied(g, ResourceOutOfScope, jwts, request)
          case NoConstraint => Judged(g, jwts, a, request, now)
  }

  method Decide(g: Gate, jwts: seq<string>, request: Request, now: int) returns (o: Outcome)
    ensures o == DecisionOf(g, jwts, request, now)
  {
    if |jwts| == 0 {
      return Decided(Decision(false, Some(MalformedToken), g.sha256Hex("empty|" + g.canonicalize(request.whole)),
                              None));
    }
    if |jwts| > g.Depth() {
      return Denied(g, ChainTooDeep, jwts, request);
    }
    var chainResult := g.chain(jwts, now, request.command);
    if chainResult.Failure? {
      var reason := ReasonOf(chainResult.error);
      return if reason.Some? then Denied(g, reason.value, jwts, request) else Threw;
    }
    var a := chainResult.value;
    if Truthy(g.trustedIssuer) && a.root.iss != g.trustedIssuer.value {
      return Denied(g, UntrustedIssuer, jwts, request);
    }
    if |g.revoked| > 0 {
      for i := 0 to |jwts|
        invariant forall j | 0 <= j < i :: g.sha256Hex(jwts[j]) !in g.revoked
      {
        if g.sha256Hex(jwts[i]) in g.revoked {
          return Denied(g, Revoked, jwts, request);
        }
      }
    }
    var constraint := ExtractConstraint(a.leaf.meta);
    if constraint.Malformed? {
      return Threw;
    }
    if constraint.Found? && !Matches(constraint.constraint, request.resource) {
      return Denied(g, ResourceOutOfScope, jwts, request);
    }
    var context := MergeContext([Some(request.context), Some(Ephemeral(g, now)), Hints(a.leaf.meta),
                                 ConstraintContext(g, a.leaf.meta)]);
    var allow := g.policy(Query(a.leaf.aud, request.command, request.resource, context, |jwts| - 1, a.root.aud,
                                Audiences(g, jwts[..|jwts| - 1])));
    var attenuation := Summarize(g, jwts);
    if attenuation.Failure? {
      return Threw;
    }
    var fields := if |jwts| > 1 then Some(ChainFields(|jwts| - 1, attenuation.value)) else None;
    return Decided(Decision(allow, if allow then None else Some(PolicyDenied), ReceiptId(g, jwts, request), fields));
  }

  // ---------------------------------------------------------------- what a decision means

  predicate Allows(o: Outcome) {
    o.Decided? && o.decision.allow
  }

  lemma GateChain(g: Gate, c: Crypto, jwts: seq<string>, request: Request, now: int)
    requires Wired(g, c)
    ensures var v := g.chain(jwts, now, request.command);
            var ts := ParseAll(jwts);
            (v.Success? <==> Sound(c, ts, now, None, Some(request.command)))
            && (v.Success? ==> v.value == Accepted(AllClaims(ts)[0], AllClaims(ts)[|ts| - 1]))
  {
    AcceptedIff(c, ParseAll(jwts), now, None, Some(request.command));
  }

  /** The gate: a request is allowed exactly when its chain is short enough and sound for the request's
      command, is rooted at the trusted issuer if one is set, has no revoked token, carries no leaf
      constraint or one the resource matches, and the policies permit it. */
  lemma AllowsIff(g: Gate, c: Crypto, jwts: seq<string>, request: Request, now: int)
    requires Wired(g, c)
    ensures Allows(DecisionOf(g, jwts, request, now))
            <==> 0 < |jwts| <= g.Depth()
                 && var ts := ParseAll(jwts);
                    Sound(c, ts, now, None, Some(request.command))
                    && var root, leaf := AllClaims(ts)[0], AllClaims(ts)[|ts| - 1];
                       (Truthy(g.trustedIssuer) ==> root.iss == g.trustedIssuer.value)
                       && !AnyRevoked(g, jwts)
                       && (Carried(leaf).NoConstraint?
                           || (Carried(leaf).Found? && Matches(Carried(leaf).constraint, request.resource)))
                       && g.policy(QueryOf(g, jwts, Accepted(root, leaf), request, now))
  {
    GateChain(g, c, jwts, request, now);
    if jwts != [] && g.chain(jwts, now, request.command).Success? {
      SummaryFound(g, c, jwts, request, now);
    }
  }

  lemma ReadAt(g: Gate, c: Crypto, jwts: seq<string>, i: nat)
    requires Wired(g, c) && i < |jwts|
    ensures g.read(jwts[i]) == ParseAll(jwts)[i]
  {
    ParseAllAt(jwts, i);
  }

  /** Comparing the ends of linked payloads finds nothing lost. */
  lemma NothingLost(ps: seq<Claims>)
    requires |ps| >= 2 && Linked(ps)
    ensures Carried(ps[|ps| - 1]).Malformed?
            || (Compare(ps[0], ps[|ps| - 1]).Success? && Compare(ps[0], ps[|ps| - 1]).value.capabilityLost == [])
  {
    AncestorBounds(ps, 0, |ps| - 1);
    assert LinkError(ps[0], ps[0 + 1]).None?;
    var a, b := ps[0].cmd, ps[|ps| - 1].cmd;
    if a != b {
      assert b[..|a|] == b[..|a + "/"|][..|a|];
    }
  }

  /** The summary of a chain with linked payloads and a readable leaf. */
  predicate FineSummary(g: Gate, jwts: seq<string>) {
    Summarize(g, jwts).Success? && (Summarize(g, jwts).value.Some? <==> |jwts| >= 2)
    && (|jwts| >= 2 ==> Summarize(g, jwts).value.value.capabilityLost == [])
  }

  lemma LinkedSummary(g: Gate, jwts: seq<string>, ps: seq<Claims>)
    requires |ps| == |jwts| >= 1 && Linked(ps) && !Carried(ps[|ps| - 1]).Malformed?
    requires g.read(jwts[0]).Some? && g.read(jwts[0]).value.payload == ps[0]
    requires g.read(jwts[|jwts| - 1]).Some? && g.read(jwts[|jwts| - 1]).value.payload == ps[|ps| - 1]
    ensures FineSummary(g, jwts)
  {
    if |ps| >= 2 {
      NothingLost(ps);
    }
  }

  /** On an accepted chain the summary never throws for a readable leaf, and `capability_lost` is empty. */
  lemma SummaryFound(g: Gate, c: Crypto, jwts: seq<string>, request: Request, now: int)
    requires Wired(g, c) && jwts != [] && g.chain(jwts, now, request.command).Success?
    ensures Carried(g.chain(jwts, now, request.command).value.leaf).Malformed? || FineSummary(g, jwts)
  {
    GateChain(g, c, jwts, request, now);
    ReadAt(g, c, jwts, 0);
    ReadAt(g, c, jwts, |jwts| - 1);
    var ps := AllClaims(ParseAll(jwts));
    if !Carried(ps[|ps| - 1]).Malformed? {
      LinkedSummary(g, jwts, ps);
    }
  }

  predicate NothingLostIn(o: Outcome, n: nat) {
    o.Decided? && o.decision.chain.Some? ==>
      var chain := o.decision.chain.value;
      chain.summary.Some? && chain.summary.value.capabilityLost == [] && chain.depth == n - 1
  }

  lemma DecidedSummary(g: Gate, jwts: seq<string>, request: Request, now: int)
    requires jwts != [] && g.chain(jwts, now, request.command).Success? ==>
               Carried(g.chain(jwts, now, request.command).value.leaf).Malformed? || FineSummary(g, jwts)
    ensures NothingLostIn(DecisionOf(g, jwts, request, now), |jwts|)
  {
  }

  /** No decision, whatever it is, reports a lost capability. */
  lemma CapabilityLostAlwaysEmpty(g: Gate, c: Crypto, jwts: seq<string>, request: Request, now: int)
    requires Wired(g, c)
    ensures NothingLostIn(DecisionOf(g, jwts, request, now), |jwts|)
  {
    if jwts != [] && g.chain(jwts, now, request.command).Success? {
      SummaryFound(g, c, jwts, request, now);
    }
    DecidedSummary(g, jwts, request, now);
  }

  /** What an allow guarantees about every token of the chain: it is genuine and inside its window, and it
      grants the command; */
  lemma AllowedByEveryToken(g: Gate, c: Crypto, jwts: seq<string>, request: Request, now: int, i: nat)
    requires Wired(g, c) && Allows(DecisionOf(g, jwts, request, now)) && i < |jwts|
    ensures var t := ParseAll(jwts)[i];
            t.Some? && Genuine(c, t.value) && t.value.payload.nbf <= now < t.value.payload.exp
            && ActionMatchesGranted(t.value.payload.cmd, request.command)
  {
    AllowsIff(g, c, jwts, request, now);
    AllowedClaims(c, ParseAll(jwts), request, now, i);
  }

  /** and where every token from one on carries a constraint, the resource matches that one's. */
  lemma AllowedInsideEveryConstraint(g: Gate, c: Crypto, jwts: seq<string>, request: Request, now: int, i: nat)
    requires Wired(g, c) && Allows(DecisionOf(g, jwts, request, now)) && i < |jwts|
    requires forall t :: t in ParseAll(jwts) ==> t.Some?
    requires forall k | i <= k < |jwts| :: Carried(AllClaims(ParseAll(jwts))[k]).Found?
    ensures Matches(Carried(AllClaims(ParseAll(jwts))[i]).constraint, request.resource)
  {
    AllowsIff(g, c, jwts, request, now);
    ResourceInAll(AllClaims(ParseAll(jwts)), i, request.resource);
  }

  lemma AllowedClaims(c: Crypto, ts: seq<Token>, request: Request, now: int, i: nat)
    requires Sound(c, ts, now, None, Some(request.command)) && i < |ts|
    ensures var t := ts[i];
            t.Some? && Genuine(c, t.value) && t.value.payload.nbf <= now < t.value.payload.exp
            && ActionMatchesGranted(t.value.payload.cmd, request.command)
  {
    assert ts[i] in ts && AllClaims(ts)[i] in AllClaims(ts);
    CommandGrantedThroughout(c, ts, now, request.command, i);
  }

  lemma ResourceInAll(ps: seq<Claims>, i: nat, r: Resource)
    requires i < |ps| && Linked(ps) && forall k | i <= k < |ps| :: Carried(ps[k]).Found?
    requires Matches(Carried(ps[|ps| - 1]).constraint, r)
    ensures Matches(Carried(ps[i]).constraint, r)
  {
    if i < |ps| - 1 {
      ConstraintContains(ps, i, |ps| - 1, r);
    }
  }

  // ---------------------------------------------------------------- revocation

  ghost predicate Collide(g: Gate, a: string, b: string) {
    a != b && g.sha256Hex(a) == g.sha256Hex(b)
  }

  /** With one CID revoked, exactly those chains stop being allowed that hold the very text it is of. */
  lemma RevokesText(g: Gate, text: string, jwts: seq<string>, request: Request, now: int)
    requires g.revoked == {} && forall jwt :: jwt in jwts ==> !Collide(g, jwt, text)
    ensures Allows(DecisionOf(g.(revoked := {g.sha256Hex(text)}), jwts, request, now))
            <==> Allows(DecisionOf(g, jwts, request, now)) && text !in jwts
  {
    var h := g.(revoked := {g.sha256Hex(text)});
    assert forall jwt :: jwt in jwts ==> (h.sha256Hex(jwt) in h.revoked <==> jwt == text);
    if text !in jwts {
      SameUnderGate(g, h, jwts, request, now);
    }
  }

  /** Two gates that differ in what they revoke decide a chain that neither revokes the same way. */
  lemma SameUnderGate(g: Gate, h: Gate, jwts: seq<string>, request: Request, now: int)
    requires h == g.(revoked := h.revoked) && !AnyRevoked(g, jwts) && !AnyRevoked(h, jwts)
    ensures DecisionOf(g, jwts, request, now) == DecisionOf(h, jwts, request, now)
  {
    if jwts != [] && g.chain(jwts, now, request.command).Success? {
      var a := g.chain(jwts, now, request.command).value;
      AudiencesSame(g, h, jwts[..|jwts| - 1]);
      assert Ephemeral(g, now) == Ephemeral(h, now);
      assert ConstraintContext(g, a.leaf.meta) == ConstraintContext(h, a.leaf.meta);
      assert QueryOf(g, jwts, a, request, now) == QueryOf(h, jwts, a, request, now);
      assert Judged(g, jwts, a, request, now) == Judged(h, jwts, a, request, now);
    }
  }

  lemma OneText(g: Gate, c: Crypto, t: Parsed, jwt: string)
    requires Wired(g, c) && g.read(jwt) == Some(t) && |t.signature| % 3 == 0
    ensures jwt == TokenText(t)
  {
    TextsOfToken(jwt, t);
  }

  lemma TwinReads(g: Gate, c: Crypto, t: Parsed, jwt: string)
    requires Wired(g, c) && g.read(jwt) == Some(t) && |t.signature| % 3 != 0
    ensures g.read(TwinText(t)) == Some(t) && TwinText(t) != TokenText(t)
  {
    TextsOfToken(jwt, t);
  }

  lemma RevokedTextDenied(g: Gate, jwts: seq<string>, request: Request, now: int, i: nat)
    requires i < |jwts| && g.sha256Hex(jwts[i]) in g.revoked
    ensures !Allows(DecisionOf(g, jwts, request, now))
  {
    assert jwts[i] in jwts;
  }

  /** Revoking a token by the CID of its own text denies every request over a chain that holds the token
      in its own text: the one text it has if the length of its signature is a multiple of three. */
  lemma RevokedNeverAllowed(g: Gate, c: Crypto, t: Parsed, jwts: seq<string>, request: Request, now: int, i: nat)
    requires Wired(g, c) && i < |jwts| && g.read(jwts[i]) == Some(t) && g.sha256Hex(TokenText(t)) in g.revoked
    requires jwts[i] == TokenText(t) || |t.signature| % 3 == 0
    ensures !Allows(DecisionOf(g, jwts, request, now))
  {
    if |t.signature| % 3 == 0 {
      OneText(g, c, t, jwts[i]);
    }
    RevokedTextDenied(g, jwts, request, now, i);
  }

  lemma {:induction false} SameTokensSameAudiences(g: Gate, jwts: seq<string>, others: seq<string>)
    requires |jwts| == |others| && forall i | 0 <= i < |jwts| :: g.read(jwts[i]) == g.read(others[i])
    ensures Audiences(g, jwts) == Audiences(g, others)
  {
    if jwts != [] {
      SameTokensSameAudiences(g, jwts[1..], others[1..]);
    }
  }

  lemma SameTokens(g: Gate, c: Crypto, jwts: seq<string>, others: seq<string>)
    requires Wired(g, c) && |jwts| == |others| && forall i | 0 <= i < |jwts| :: g.read(jwts[i]) == g.read(others[i])
    ensures ParseAll(jwts) == ParseAll(others)
  {
    forall i | 0 <= i < |jwts| ensures ParseAll(jwts)[i] == ParseAll(others)[i] {
      ReadAt(g, c, jwts, i);
      ReadAt(g, c, others, i);
    }
  }

  /** A decision without revocation depends on what the texts of a chain are read as, not on the texts. */
  lemma SameTokensSameAnswer(g: Gate, c: Crypto, jwts: seq<string>, others: seq<string>, request: Request, now: int)
    requires Wired(g, c) && g.revoked == {}
    requires |jwts| == |others| && forall i | 0 <= i < |jwts| :: g.read(jwts[i]) == g.read(others[i])
    ensures Allows(DecisionOf(g, jwts, request, now)) <==> Allows(DecisionOf(g, others, request, now))
  {
    SameTokens(g, c, jwts, others);
    assert g.chain(jwts, now, request.command) == g.chain(others, now, request.command);
    SameReadsSameAnswer(g, jwts, others, request, now);
  }

  lemma SameReadsSameAnswer(g: Gate, jwts: seq<string>, others: seq<string>, request: Request, now: int)
    requires g.revoked == {} && g.chain(jwts, now, request.command) == g.chain(others, now, request.command)
    requires |jwts| == |others| && forall i | 0 <= i < |jwts| :: g.read(jwts[i]) == g.read(others[i])
    ensures Allows(DecisionOf(g, jwts, request, now)) <==> Allows(DecisionOf(g, others, request, now))
  {
    if jwts != [] && g.chain(jwts, now, request.command).Success? {
      var n := |jwts| - 1;
      assert forall i | 0 <= i < n :: g.read(jwts[..n][i]) == g.read(others[..n][i]);
      SameTokensSameAudiences(g, jwts[..n], others[..n]);
      var a := g.chain(jwts, now, request.command).value;
      assert QueryOf(g, jwts, a, request, now) == QueryOf(g, others, a, request, now);
      assert Summarize(g, jwts) == Summarize(g, others);
    }
  }

  /** In any other text it is not: while the length of the signature is no multiple of three (Ed25519
      signatures have 64 bytes), the token has a twin text, and a chain that was allowed before the revocation is
      still allowed with the twin in its place, unless two of the texts collide. */
  lemma TwinStaysAllowed(g: Gate, c: Crypto, t: Parsed, jwts: seq<string>, request: Request, now: int, i: nat)
    requires Wired(g, c) && g.revoked == {} && Allows(DecisionOf(g, jwts, request, now))
    requires i < |jwts| && g.read(jwts[i]) == Some(t) && |t.signature| % 3 != 0
    requires forall j | 0 <= j < |jwts| && j != i :: jwts[j] != TokenText(t)
    ensures var others := jwts[i := TwinText(t)];
            (exists jwt :: jwt in others && Collide(g, jwt, TokenText(t)))
            || Allows(DecisionOf(g.(revoked := {g.sha256Hex(TokenText(t))}), others, request, now))
  {
    var others := jwts[i := TwinText(t)];
    TwinReads(g, c, t, jwts[i]);
    SameTokensSameAnswer(g, c, jwts, others, request, now);
    if forall jwt :: jwt in others ==> !Collide(g, jwt, TokenText(t)) {
      RevokesText(g, TokenText(t), others, request, now);
    }
  }

  /** Revoking more never turns a denial into an allow, and what stays allowed is decided the same way. */
  lemma MoreRevokedNeverAllows(g: Gate, more: set<string>, jwts: seq<string>, request: Request, now: int)
    requires g.revoked <= more && Allows(DecisionOf(g.(revoked := more), jwts, request, now))
    ensures DecisionOf(g, jwts, request, now) == DecisionOf(g.(revoked := more), jwts, request, now)
  {
    var h := g.(revoked := more);
    assert AnyRevoked(g, jwts) ==> AnyRevoked(h, jwts);
    if !AnyRevoked(h, jwts) {
      SameUnderGate(g, h, jwts, request, now);
    }
  }

  lemma {:induction false} AudiencesSame(g: Gate, h: Gate, jwts: seq<string>)
    requires forall jwt :: g.read(jwt) == h.read(jwt)
    ensures Audiences(g, jwts) == Audiences(h, jwts)
  {
    if jwts != [] {
      AudiencesSame(g, h, jwts[1..]);
    }
  }

  // ---------------------------------------------------------------- receipts

  /** The gate prints requests as the rest of the system prints values. */
  ghost predicate Prints(g: Gate, nfc: Nfc) {
    forall v :: Canonicalize(nfc, v).Success? ==> g.canonicalize(v) == Canonicalize(nfc, v).value
  }

  lemma SameTextSameRequest(g: Gate, nfc: Nfc, request: Request, other: Request)
    requires Prints(g, nfc) && Says(nfc, request) && Says(nfc, other)
    requires g.canonicalize(request.whole) == g.canonicalize(other.whole)
    ensures Meaning(nfc, request.whole) == Meaning(nfc, other.whole)
    ensures (request.command, request.resource, request.context) == (other.command, other.resource, other.context)
  {
    CanonicalizeSucceeds(nfc, request.whole);
    CanonicalizeSucceeds(nfc, other.whole);
    CanonicalUnambiguous(nfc, request.whole, other.whole);
  }

  /** A receipt binds its leaf token and its request: two decisions with one receipt id are about the same
      leaf text and requests that say the same, or two of the texts involved collide. */
  lemma ReceiptBinds(g: Gate, nfc: Nfc, jwts: seq<string>, request: Request, others: seq<string>, other: Request)
    requires jwts != [] && others != [] && (forall s :: '|' !in g.sha256Hex(s))
    requires Prints(g, nfc) && Says(nfc, request) && Says(nfc, other)
    requires ReceiptId(g, jwts, request) == ReceiptId(g, others, other)
    ensures var leaf, cousin := jwts[|jwts| - 1], others[|others| - 1];
            var x, y := g.canonicalize(request.whole), g.canonicalize(other.whole);
            || (leaf == cousin && Meaning(nfc, request.whole) == Meaning(nfc, other.whole)
                && (request.command, request.resource, request.context)
                   == (other.command, other.resource, other.context))
            || Collide(g, leaf, cousin)
            || Collide(g, g.sha256Hex(leaf) + "|" + x, g.sha256Hex(cousin) + "|" + y)
  {
    var leaf, cousin := jwts[|jwts| - 1], others[|others| - 1];
    var x, y := g.canonicalize(request.whole), g.canonicalize(other.whole);
    if g.sha256Hex(leaf) + "|" + x == g.sha256Hex(cousin) + "|" + y {
      FirstBar(g.sha256Hex(leaf), g.sha256Hex(cousin), x, y);
      SameTextSameRequest(g, nfc, request, other);
    }
  }

  // ---------------------------------------------------------------- whose context counts

  /** A field of an object under a key. */
  function Field(c: Context, k: string, f: string): Option<Doc> {
    if k in c && c[k].DObj? && f in c[k].members then Some(c[k].members[f]) else None
  }

  /** What one merge does to a field: the source's own counts if it has one; an object of the source without
      it keeps what was there, anything else of the source hides it. */
  lemma FieldOfMerge(below: Context, src: Context, k: string, f: string)
    ensures Field(MergeOne(below, src), k, f)
            == if k !in src then Field(below, k, f)
               else if !src[k].DObj? then None
               else if f in src[k].members then Some(src[k].members[f])
               else Field(below, k, f)
  {
  }

  lemma MergeFour(a: Context, b: Context, c: Option<Context>, d: Option<Context>)
    ensures var two := MergeOne(MergeOne(map[], a), b);
            var three := if c.Some? then MergeOne(two, c.value) else two;
            Merge([Some(a), Some(b), c, d]) == if d.Some? then MergeOne(three, d.value) else three
  {
    assert [Some(a), Some(b), c, d][..3] == [Some(a), Some(b), c];
    assert [Some(a), Some(b), c][..2] == [Some(a), Some(b)];
    assert [Some(a), Some(b)][..1] == [Some(a)];
    assert [Some(a)][..0] == [];
    assert Merge([]) == map[];
    assert Merge([Some(a)]) == MergeOne(map[], a);
    assert Merge([Some(a), Some(b)]) == MergeOne(MergeOne(map[], a), b);
    assert Merge([Some(a), Some(b), c])
           == if c.Some? then MergeOne(Merge([Some(a), Some(b)]), c.value) else Merge([Some(a), Some(b)]);
  }

  /** Nothing the requester sends changes what the issuer vouched for, nor the time: a field that the
      leaf's hints give reaches the policies as given, whatever the request's own context, and so do the
      hour and the epoch of `now` where the hints do not speak of time. */
  lemma VouchedWins(g: Gate, jwts: seq<string>, a: Accepted, request: Request, now: int, k: string, f: string)
    requires jwts != [] && k != "resource_constraint"
    ensures var seen := QueryOf(g, jwts, a, request, now).context;
            var hints := if Hints(a.leaf.meta).Some? then Hints(a.leaf.meta).value else map[];
            (Field(hints, k, f).Some? ==> Field(seen, k, f) == Field(hints, k, f))
            && ("time" !in hints ==> Field(seen, "time", "hour") == Some(DNum(g.hourOf(now)))
                                     && Field(seen, "time", "epoch") == Some(DNum(now)))
  {
    var c, d := Hints(a.leaf.meta), ConstraintContext(g, a.leaf.meta);
    var eph := Ephemeral(g, now);
    MergeFour(request.context, eph, c, d);
    var two := MergeOne(MergeOne(map[], request.context), eph);
    var three := if c.Some? then MergeOne(two, c.value) else two;
    assert "hour" != "epoch" && "time" != "resource_constraint";
    FieldOfMerge(MergeOne(map[], request.context), eph, "time", "hour");
    FieldOfMerge(MergeOne(map[], request.context), eph, "time", "epoch");
    if c.Some? {
      FieldOfMerge(two, c.value, k, f);
      FieldOfMerge(two, c.value, "time", "hour");
      FieldOfMerge(two, c.value, "time", "epoch");
    }
    if d.Some? {
      FieldOfMerge(three, d.value, k, f);
      FieldOfMerge(three, d.value, "time", "hour");
      FieldOfMerge(three, d.value, "time", "epoch");
    }
  }
}
