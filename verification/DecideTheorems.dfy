/** What the policies are asked, what they are told, and which reason a denial gives
    (packages/core/src/decide.ts). */
module DecideTheorems {
  import opened Common
  import opened Canonical
  import opened Constraint
  import opened Ucan
  import opened UcanTheorems
  import opened Chain
  import opened ChainTheorems
  import opened Decide

  // ---------------------------------------------------------------- what the policies are told

  /** A field of a list of sources, later ones first: the first source on the way that has the key decides, unless it
      has an object there without the field. */
  function Told(sources: seq<Context>, k: string, f: string): Option<Doc> {
    if sources == [] then None
    else
      var last, rest := sources[|sources| - 1], sources[..|sources| - 1];
      if k !in last then Told(rest, k, f)
      else if !last[k].DObj? then None
      else if f in last[k].members then Some(last[k].members[f])
      else Told(rest, k, f)
  }

  /** The last source that has the key. */
  function LastWith(sources: seq<Context>, k: string): Option<Doc> {
    if sources == [] then None
    else if k in sources[|sources| - 1] then Some(sources[|sources| - 1][k])
    else LastWith(sources[..|sources| - 1], k)
  }

  function Somes(sources: seq<Option<Context>>): seq<Context> {
    if sources == [] then []
    else
      var last := sources[|sources| - 1];
      Somes(sources[..|sources| - 1]) + (if last.Some? then [last.value] else [])
  }

  /** A context has what its sources tell: every key of theirs, a value that is no object as the last source with
      the key has it, and of objects each field as the last source has it that has the field and that no later
      source hides. */
  ghost predicate Conveys(context: Context, sources: seq<Context>) {
    && (forall k :: k in context <==> LastWith(sources, k).Some?)
    && (forall k :: k in context ==> (context[k].DObj? <==> LastWith(sources, k).value.DObj?))
    && (forall k :: k in context && !context[k].DObj? ==> context[k] == LastWith(sources, k).value)
    && (forall k, f :: Decide.Field(context, k, f) == Told(sources, k, f))
  }

  /** Only one context does. */
  lemma ConveysOnce(a: Context, b: Context, sources: seq<Context>)
    requires Conveys(a, sources) && Conveys(b, sources)
    ensures a == b
  {
    forall k | k in a ensures k in b && a[k] == b[k] {
      if a[k].DObj? {
        forall f ensures f in a[k].members <==> f in b[k].members
                 ensures f in a[k].members ==> a[k].members[f] == b[k].members[f] {
          assert Decide.Field(a, k, f) == Decide.Field(b, k, f);
        }
        assert a[k].members == b[k].members;
      }
    }
  }

  lemma ConveysMore(context: Context, sources: seq<Context>, src: Context)
    requires Conveys(context, sources)
    ensures Conveys(MergeOne(context, src), sources + [src])
  {
    var all := sources + [src];
    assert all[..|sources|] == sources;
    forall k, f ensures Decide.Field(MergeOne(context, src), k, f) == Told(all, k, f) {
      FieldOfMerge(context, src, k, f);
    }
  }

  lemma {:induction false} MergeConveys(sources: seq<Option<Context>>)
    ensures Conveys(Merge(sources), Somes(sources))
  {
    if sources != [] {
      var before, last := sources[..|sources| - 1], sources[|sources| - 1];
      MergeConveys(before);
      if last.Some? {
        ConveysMore(Merge(before), Somes(before), last.value);
      } else {
        assert Somes(before) + [] == Somes(before);
      }
    }
  }

  /** What is told to the policies, least trusted first: the request's own context, the time, the hints that the
      issuer put into the leaf, and the leaf's constraint. */
  function Sources(g: Gate, leaf: Claims, request: Request, now: int): seq<Context> {
    [request.context, map["time" := DObj(map["hour" := DNum(g.hourOf(now)), "epoch" := DNum(now)])]]
    + (match leaf.meta
       case Some(DObj(m)) =>
         if "context_hints" in m && m["context_hints"].DObj? then [m["context_hints"].members] else []
       case _ => [])
    + (if Carried(leaf).Found? then [map["resource_constraint" := g.constraintDoc(Carried(leaf).constraint)]] else [])
  }

  lemma SomesFour(a: Context, b: Context, c: Option<Context>, d: Option<Context>)
    ensures Somes([Some(a), Some(b), c, d])
            == [a, b] + (if c.Some? then [c.value] else []) + (if d.Some? then [d.value] else [])
  {
    assert [Some(a), Some(b), c, d][..3] == [Some(a), Some(b), c];
    assert [Some(a), Some(b), c][..2] == [Some(a), Some(b)];
    assert [Some(a), Some(b)][..1] == [Some(a)];
    assert [Some(a)][..0] == [];
    assert Somes([Some(a)]) == [a];
    assert Somes([Some(a), Some(b)]) == [a, b];
    assert Somes([Some(a), Some(b), c]) == [a, b] + (if c.Some? then [c.value] else []);
  }

  lemma SourcesAre(g: Gate, leaf: Claims, request: Request, now: int)
    ensures Somes([Some(request.context), Some(Ephemeral(g, now)), Hints(leaf.meta), ConstraintContext(g, leaf.meta)])
            == Sources(g, leaf, request, now)
  {
    SomesFour(request.context, Ephemeral(g, now), Hints(leaf.meta), ConstraintContext(g, leaf.meta));
  }

  // ---------------------------------------------------------------- what the policies are asked

  /** The question about a chain of claims: may the leaf's audience do what is requested to what is requested, so
      many links away from the agent the root token is for, by way of the earlier tokens' audiences in order. */
  ghost predicate IsQuery(q: Query, g: Gate, ps: seq<Claims>, request: Request, now: int)
    requires ps != []
  {
    && q.principal == ps[|ps| - 1].aud && q.action == request.command && q.resource == request.resource
    && q.depth == |ps| - 1 && q.rootAgent == ps[0].aud
    && |q.invokedBy| == |ps| - 1 && (forall i | 0 <= i < |ps| - 1 :: q.invokedBy[i] == ps[i].aud)
    && Conveys(q.context, Sources(g, ps[|ps| - 1], request, now))
  }

  /** The texts read as tokens with these claims. */
  predicate ReadAs(g: Gate, jwts: seq<string>, ps: seq<Claims>) {
    |jwts| <= |ps| && forall i | 0 <= i < |jwts| :: g.read(jwts[i]).Some? && g.read(jwts[i]).value.payload == ps[i]
  }

  lemma {:induction false} AudiencesAre(g: Gate, jwts: seq<string>, ps: seq<Claims>)
    requires ReadAs(g, jwts, ps)
    ensures |Audiences(g, jwts)| == |jwts| && forall i | 0 <= i < |jwts| :: Audiences(g, jwts)[i] == ps[i].aud
  {
    if jwts != [] {
      AudiencesAre(g, jwts[1..], ps[1..]);
    }
  }

  lemma TextsReadAs(g: Gate, c: Crypto, jwts: seq<string>)
    requires Wired(g, c) && forall t :: t in ParseAll(jwts) ==> t.Some?
    ensures ReadAs(g, jwts, AllClaims(ParseAll(jwts)))
  {
    forall i | 0 <= i < |jwts|
      ensures g.read(jwts[i]).Some? && g.read(jwts[i]).value.payload == AllClaims(ParseAll(jwts))[i]
    {
      ReadAt(g, c, jwts, i);
      assert ParseAll(jwts)[i] in ParseAll(jwts);
    }
  }

  lemma ReadAsFirst(g: Gate, jwts: seq<string>, ps: seq<Claims>, n: nat)
    requires ReadAs(g, jwts, ps) && n <= |jwts|
    ensures ReadAs(g, jwts[..n], ps)
  {
  }

  lemma QueryIs(g: Gate, jwts: seq<string>, ps: seq<Claims>, request: Request, now: int)
    requires |ps| == |jwts| && jwts != [] && ReadAs(g, jwts, ps)
    ensures IsQuery(QueryOf(g, jwts, Accepted(ps[0], ps[|ps| - 1]), request, now), g, ps, request, now)
  {
    var leaf := ps[|ps| - 1];
    ReadAsFirst(g, jwts, ps, |ps| - 1);
    AudiencesAre(g, jwts[..|ps| - 1], ps);
    MergeConveys([Some(request.context), Some(Ephemeral(g, now)), Hints(leaf.meta), ConstraintContext(g, leaf.meta)]);
    SourcesAre(g, leaf, request, now);
  }

  lemma QueryOnce(p: Query, q: Query, g: Gate, ps: seq<Claims>, request: Request, now: int)
    requires ps != [] && IsQuery(p, g, ps, request, now) && IsQuery(q, g, ps, request, now)
    ensures p == q
  {
    ConveysOnce(p.context, q.context, Sources(g, ps[|ps| - 1], request, now));
  }

  // ---------------------------------------------------------------- when a request is allowed

  /** The resource lies in what the leaf carries, if it carries something. */
  predicate InScope(leaf: Claims, r: Resource) {
    Carried(leaf).NoConstraint? || (Carried(leaf).Found? && Matches(Carried(leaf).constraint, r))
  }

  predicate Trusted(g: Gate, root: Claims) {
    g.trustedIssuer.Some? && g.trustedIssuer.value != "" ==> root.iss == g.trustedIssuer.value
  }

  /** The policies say yes to the question. */
  ghost predicate Permitted(g: Gate, ps: seq<Claims>, request: Request, now: int)
    requires ps != []
  {
    exists q :: IsQuery(q, g, ps, request, now) && g.policy(q)
  }

  lemma PermittedIff(asked: Query, g: Gate, ps: seq<Claims>, request: Request, now: int)
    requires ps != [] && IsQuery(asked, g, ps, request, now)
    ensures Permitted(g, ps, request, now) <==> g.policy(asked)
  {
    if Permitted(g, ps, request, now) {
      var q :| IsQuery(q, g, ps, request, now) && g.policy(q);
      QueryOnce(q, asked, g, ps, request, now);
    }
  }

  lemma PolicyAsked(g: Gate, c: Crypto, jwts: seq<string>, request: Request, now: int)
    requires Wired(g, c) && jwts != [] && forall t :: t in ParseAll(jwts) ==> t.Some?
    ensures var ps := AllClaims(ParseAll(jwts));
            g.policy(QueryOf(g, jwts, Accepted(ps[0], ps[|ps| - 1]), request, now))
            <==> Permitted(g, ps, request, now)
  {
    var ps := AllClaims(ParseAll(jwts));
    TextsReadAs(g, c, jwts);
    QueryIs(g, jwts, ps, request, now);
    PermittedIff(QueryOf(g, jwts, Accepted(ps[0], ps[|ps| - 1]), request, now), g, ps, request, now);
  }

  /** Rooted at the trusted issuer, in scope, and permitted. */
  ghost predicate Cleared(g: Gate, ps: seq<Claims>, request: Request, now: int)
    requires ps != []
  {
    Trusted(g, ps[0]) && InScope(ps[|ps| - 1], request.resource) && Permitted(g, ps, request, now)
  }

  /** No longer than the gate allows: eight tokens, unless set otherwise. */
  predicate Short(g: Gate, jwts: seq<string>) {
    0 < |jwts| <= (if g.maxChainDepth.Some? then g.maxChainDepth.value else 8)
  }

  predicate SomeRevoked(g: Gate, jwts: seq<string>) {
    exists jwt :: jwt in jwts && g.sha256Hex(jwt) in g.revoked
  }

  /** What a sound chain still needs. */
  lemma AllowsSound(g: Gate, c: Crypto, jwts: seq<string>, request: Request, now: int)
    requires Wired(g, c) && Sound(c, ParseAll(jwts), now, None, Some(request.command))
    ensures Allows(DecisionOf(g, jwts, request, now))
            <==> Short(g, jwts) && !SomeRevoked(g, jwts) && Cleared(g, AllClaims(ParseAll(jwts)), request, now)
  {
    AllowsIff(g, c, jwts, request, now);
    PolicyAsked(g, c, jwts, request, now);
  }

  /** A request is allowed exactly when its chain is short enough, sound for its command, without a token whose text has
      a revoked CID, rooted at the trusted issuer if one is set, its resource in scope, and the policies answer yes
      to the one question about it. */
  lemma AllowsExactly(g: Gate, c: Crypto, jwts: seq<string>, request: Request, now: int)
    requires Wired(g, c)
    ensures Allows(DecisionOf(g, jwts, request, now))
            <==> && Short(g, jwts)
                 && Sound(c, ParseAll(jwts), now, None, Some(request.command))
                 && !SomeRevoked(g, jwts)
                 && Cleared(g, AllClaims(ParseAll(jwts)), request, now)
  {
    if Sound(c, ParseAll(jwts), now, None, Some(request.command)) {
      AllowsSound(g, c, jwts, request, now);
    } else {
      AllowsIff(g, c, jwts, request, now);
    }
  }

  /** So policies that permit one principal only let no chain through that ends in another agent's hands. */
  lemma OnlyForPrincipal(g: Gate, c: Crypto, jwts: seq<string>, request: Request, now: int, agent: string)
    requires Wired(g, c) && (forall q :: g.policy(q) ==> q.principal == agent)
    requires Allows(DecisionOf(g, jwts, request, now))
    ensures ParseAll(jwts) != [] && (forall t :: t in ParseAll(jwts) ==> t.Some?)
    ensures var ps := AllClaims(ParseAll(jwts)); ps[|ps| - 1].aud == agent
  {
    AllowsExactly(g, c, jwts, request, now);
  }

  // ---------------------------------------------------------------- why a request is denied

  /** A chain of claims that none of the chain checks stops. */
  predicate Stands(g: Gate, c: Crypto, jwts: seq<string>, request: Request, now: int) {
    Short(g, jwts) && Sound(c, ParseAll(jwts), now, None, Some(request.command))
  }

  /** Why a chain that stands is denied. */
  ghost predicate StandingDenial(g: Gate, jwts: seq<string>, ps: seq<Claims>, request: Request, now: int,
                                 reason: DenyReason)
    requires ps != []
  {
    var root, leaf := ps[0], ps[|ps| - 1];
    match reason
    case UntrustedIssuer => !Trusted(g, root)
    case Revoked => Trusted(g, root) && SomeRevoked(g, jwts)
    case ResourceOutOfScope =>
      Trusted(g, root) && !SomeRevoked(g, jwts) && Carried(leaf).Found? && !InScope(leaf, request.resource)
    case PolicyDenied =>
      Trusted(g, root) && !SomeRevoked(g, jwts) && InScope(leaf, request.resource)
      && !Permitted(g, ps, request, now)
    case _ => false
  }

  /** The reason for an error of the chain check. */
  predicate ErrorDenial(e: ChainError, reason: DenyReason) {
    match reason
    case MalformedToken => e in {BadToken(MalformedUcan), BadToken(IssuerUnsupported), EmptyChain}
    case SignatureBad => e == BadToken(BadSignature)
    case TokenExpired => e == BadToken(Expired)
    case TokenNotYetValid => e == BadToken(ValidationError.NotYetValid)
    case WrongAudience => e == BadToken(AudienceMismatch)
    case WrongCommand => e == BadToken(CommandMismatch)
    case ChainInvalid => e == BrokenDelegation
    case ChainAttenuationViolation => e == OverAttenuated
    case _ => false
  }

  /** Why a request is denied. */
  ghost predicate DeniedFor(g: Gate, c: Crypto, jwts: seq<string>, request: Request, now: int, reason: DenyReason) {
    var ts := ParseAll(jwts);
    if jwts == [] then reason == MalformedToken
    else if !Short(g, jwts) then reason == ChainTooDeep
    else if Sound(c, ts, now, None, Some(request.command)) then
      StandingDenial(g, jwts, AllClaims(ts), request, now, reason)
    else
      var verdict := ChainVerdict(c, ts, now, None, Some(request.command));
      verdict.Failure? && ErrorDenial(verdict.error, reason)
  }

  predicate Gives(o: Outcome, reason: DenyReason) {
    o.Decided? && o.decision.reason == Some(reason)
  }

  lemma JudgedReason(g: Gate, jwts: seq<string>, a: Accepted, request: Request, now: int, reason: DenyReason)
    requires jwts != [] && FineSummary(g, jwts)
    ensures Gives(Judged(g, jwts, a, request, now), reason)
            <==> reason == PolicyDenied && !g.policy(QueryOf(g, jwts, a, request, now))
  {
  }

  lemma UnderChain(g: Gate, jwts: seq<string>, request: Request, now: int, a: Accepted)
    requires Short(g, jwts) && g.chain(jwts, now, request.command) == Success(a)
    ensures DecisionOf(g, jwts, request, now)
            == if !Trusted(g, a.root) then Denied(g, UntrustedIssuer, jwts, request)
               else if SomeRevoked(g, jwts) then Denied(g, Revoked, jwts, request)
               else if Carried(a.leaf).Malformed? then Threw
               else if InScope(a.leaf, request.resource) then Judged(g, jwts, a, request, now)
               else Denied(g, ResourceOutOfScope, jwts, request)
  {
  }

  lemma ReasonUnderChain(g: Gate, jwts: seq<string>, ps: seq<Claims>, request: Request, now: int, reason: DenyReason)
    requires ps != [] && Short(g, jwts)
    requires g.chain(jwts, now, request.command) == Success(Accepted(ps[0], ps[|ps| - 1]))
    requires Carried(ps[|ps| - 1]).Malformed? || FineSummary(g, jwts)
    requires g.policy(QueryOf(g, jwts, Accepted(ps[0], ps[|ps| - 1]), request, now)) <==> Permitted(g, ps, request, now)
    ensures Gives(DecisionOf(g, jwts, request, now), reason) <==> StandingDenial(g, jwts, ps, request, now, reason)
  {
    var a := Accepted(ps[0], ps[|ps| - 1]);
    UnderChain(g, jwts, request, now, a);
    if !Carried(a.leaf).Malformed? {
      JudgedReason(g, jwts, a, request, now, reason);
    }
  }

  lemma ReasonOfError(g: Gate, jwts: seq<string>, request: Request, now: int, e: ChainError, reason: DenyReason)
    requires Short(g, jwts) && g.chain(jwts, now, request.command) == Failure(e)
    ensures Gives(DecisionOf(g, jwts, request, now), reason)
            <==> ErrorDenial(e, reason)
  {
  }

  lemma StandingReasons(g: Gate, c: Crypto, jwts: seq<string>, request: Request, now: int, reason: DenyReason)
    requires Wired(g, c) && Stands(g, c, jwts, request, now)
    ensures Gives(DecisionOf(g, jwts, request, now), reason)
            <==> StandingDenial(g, jwts, AllClaims(ParseAll(jwts)), request, now, reason)
  {
    GateChain(g, c, jwts, request, now);
    SummaryFound(g, c, jwts, request, now);
    PolicyAsked(g, c, jwts, request, now);
    ReasonUnderChain(g, jwts, AllClaims(ParseAll(jwts)), request, now, reason);
  }

  lemma ErrorDenied(g: Gate, c: Crypto, jwts: seq<string>, request: Request, now: int, reason: DenyReason)
    requires Wired(g, c) && !Stands(g, c, jwts, request, now)
    ensures Gives(DecisionOf(g, jwts, request, now), reason) <==> DeniedFor(g, c, jwts, request, now, reason)
  {
    if Short(g, jwts) {
      GateChain(g, c, jwts, request, now);
      ReasonOfError(g, jwts, request, now, g.chain(jwts, now, request.command).error, reason);
    }
  }

  /** Each reason is given in exactly these cases. */
  lemma DenialReasons(g: Gate, c: Crypto, jwts: seq<string>, request: Request, now: int, reason: DenyReason)
    requires Wired(g, c)
    ensures Gives(DecisionOf(g, jwts, request, now), reason) <==> DeniedFor(g, c, jwts, request, now, reason)
  {
    if Stands(g, c, jwts, request, now) {
      StandingReasons(g, c, jwts, request, now, reason);
    } else {
      ErrorDenied(g, c, jwts, request, now, reason);
    }
  }

  // ---------------------------------------------------------------- what a decision carries

  /** Every decision about a chain has the receipt of its leaf text and its request; what an allow and a denial by the
      policies add is how long the chain is, if it has a link, and whether its constraint was narrowed. */
  lemma DecisionCarries(g: Gate, jwts: seq<string>, request: Request, now: int)
    requires DecisionOf(g, jwts, request, now).Decided?
    ensures var d := DecisionOf(g, jwts, request, now).decision;
            && (d.allow <==> d.reason.None?)
            && d.receiptId == (if jwts == [] then g.sha256Hex("empty|" + g.canonicalize(request.whole))
                               else g.sha256Hex(g.sha256Hex(jwts[|jwts| - 1]) + "|" + g.canonicalize(request.whole)))
            && (d.chain.Some? <==> |jwts| > 1 && d.reason in {None, Some(PolicyDenied)})
            && (d.chain.Some? ==> d.chain.value.depth == |jwts| - 1)
  {
  }

  /** A narrowed constraint is reported exactly if both ends of the chain carry one and they differ. */
  lemma NarrowedIff(g: Gate, jwts: seq<string>, request: Request, now: int, root: Claims, leaf: Claims)
    requires DecisionOf(g, jwts, request, now).Decided? && DecisionOf(g, jwts, request, now).decision.chain.Some?
    requires g.read(jwts[0]).Some? && g.read(jwts[0]).value.payload == root
    requires g.read(jwts[|jwts| - 1]).Some? && g.read(jwts[|jwts| - 1]).value.payload == leaf
    ensures var summary := DecisionOf(g, jwts, request, now).decision.chain.value.summary;
            && summary.Some?
            && summary.value.resourcesNarrowed
               == (if Carried(root).Found? && Carried(leaf).Found? && Carried(root) != Carried(leaf)
                   then ["resource_constraint"] else [])
  {
  }
}
