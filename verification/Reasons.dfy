/** Which reason a token or a chain is refused for (packages/ucan/src/validate.ts, chain.ts). */
module Reasons {
  import opened Common
  import opened Canonical
  import opened Constraint
  import opened Ucan
  import opened UcanTheorems
  import opened Chain
  import opened ChainTheorems

  // ---------------------------------------------------------------- one token

  /** A token that parses, under the one header there is. */
  predicate Headed(t: Token) {
    t.Some? && t.value.header.alg == "EdDSA" && t.value.header.typ == "JWT"
  }

  /** Each error is given in exactly these cases; one that is not yet valid is not called expired, and the audience
      and the command are looked at inside the window only. */
  lemma TokenReasons(c: Crypto, t: Token, now: int, audience: Option<string>, expected: Option<string>,
                     e: ValidationError)
    ensures var genuine := Headed(t) && Genuine(c, t.value);
            var timely := genuine && t.value.payload.nbf <= now < t.value.payload.exp;
            var heard := timely && (audience.Some? ==> AudienceMatches(c, t.value.payload.aud, audience.value));
            ValidateParsed(c, t, now, audience, expected) == Failure(e)
            <==> match e
                 case MalformedUcan => !Headed(t)
                 case IssuerUnsupported => Headed(t) && c.keyOfDid(t.value.payload.iss).None?
                 case BadSignature => Headed(t) && c.keyOfDid(t.value.payload.iss).Some? && !genuine
                 case NotYetValid => genuine && now < t.value.payload.nbf
                 case Expired => genuine && t.value.payload.nbf <= now && t.value.payload.exp <= now
                 case AudienceMismatch => timely && !heard
                 case CommandMismatch =>
                   heard && expected.Some? && expected.value != t.value.payload.cmd
                   && !StartsWith(expected.value, t.value.payload.cmd + "/")
  {
  }

  /** Issuing fails on DIDs that cannot be decoded, then on a payload the schema refuses, then on one that cannot be
      printed. */
  lemma IssueReasons(c: Crypto, p: Payload<Json>, key: string, e: IssueError)
    requires c.Correct()
    ensures var decoded := c.CanonicalDid(p.iss).Some? && c.CanonicalDid(p.aud).Some?;
            var allowed := decoded && ValidPayload(Normalized(c, p)) && (p.meta.Some? ==> p.meta.value.Obj?);
            IssueUcan(c, p, key) == Failure(e)
            <==> match e
                 case BadDid => !decoded
                 case BadPayload => decoded && !allowed
                 case Unprintable => allowed && !Readable(c.nfc, p)
  {
    IssueAccepts(c, p, key);
  }

  // ---------------------------------------------------------------- one link

  /** The child asks for more than its parent has: another command, a longer life, or a constraint the parent's does
      not cover (its own, if the child has none). */
  predicate AsksMore(parent: Claims, child: Claims) {
    || (child.cmd != parent.cmd && !StartsWith(child.cmd, parent.cmd + "/"))
    || parent.exp < child.exp || child.nbf < parent.nbf
    || (Carried(parent).Found? && !Carried(child).Malformed?
        && !Covers(Carried(parent).constraint,
                   if Carried(child).Found? then Carried(child).constraint else Carried(parent).constraint))
  }

  predicate Unreadable(parent: Claims, child: Claims) {
    Carried(parent).Malformed? || (Carried(parent).Found? && Carried(child).Malformed?)
  }

  /** The reader of a malformed constraint throws only where the earlier checks of the link passed. */
  lemma LinkReasons(parent: Claims, child: Claims)
    ensures match LinkError(parent, child)
            case None => child.iss == parent.aud && !AsksMore(parent, child) && !Unreadable(parent, child)
            case Some(BrokenDelegation) => child.iss != parent.aud
            case Some(OverAttenuated) => child.iss == parent.aud && AsksMore(parent, child)
            case Some(ConstraintException) =>
              child.iss == parent.aud && !AsksMore(parent, child) && Unreadable(parent, child)
            case Some(_) => false
  {
  }

  // ---------------------------------------------------------------- a chain

  /** Token `i` is refused for `e`: the leaf alone must have the audience and the command. */
  predicate TokenRefused(c: Crypto, ts: seq<Token>, i: nat, now: int, audience: Option<string>,
                         expected: Option<string>, e: ValidationError)
    requires i < |ts|
  {
    var leaf := i == |ts| - 1;
    ValidateParsed(c, ts[i], now, if leaf then audience else None, if leaf then expected else None) == Failure(e)
  }

  /** The first token that is not in order is `i`. */
  predicate FirstRefused(c: Crypto, ts: seq<Token>, i: nat, now: int, audience: Option<string>,
                         expected: Option<string>, e: ValidationError)
    requires i < |ts|
  {
    TokenRefused(c, ts, i, now, audience, expected, e)
    && forall j: nat | j < i :: TokenOk(c, ts, j, now, audience, expected)
  }

  /** The first link that is not in order follows token `i`. */
  predicate FirstBroken(ps: seq<Claims>, i: nat, e: ChainError)
    requires i < |ps| - 1
  {
    LinkError(ps[i], ps[i + 1]) == Some(e) && forall j: nat | j < i :: LinkError(ps[j], ps[j + 1]).None?
  }

  /** A chain is refused for its first bad token, whatever its links; only if every token is in order for its first
      bad link. */
  lemma ChainReasons(c: Crypto, ts: seq<Token>, now: int, audience: Option<string>, expected: Option<string>)
    ensures ts == [] ==> ChainVerdict(c, ts, now, audience, expected) == Failure(EmptyChain)
    ensures forall i: nat, e | i < |ts| && FirstRefused(c, ts, i, now, audience, expected, e) ::
              ChainVerdict(c, ts, now, audience, expected) == Failure(BadToken(e))
    ensures ts != [] && AllOk(c, ts, now, audience, expected) && (forall t :: t in ts ==> t.Some?) ==>
              forall i: nat, e | i < |ts| - 1 && FirstBroken(AllClaims(ts), i, e) ::
                ChainVerdict(c, ts, now, audience, expected) == Failure(e)
  {
    var rs := TokenResults(c, ts, now, audience, expected);
    FirstBadTokenNone(rs);
    forall i: nat, e | i < |ts| && FirstRefused(c, ts, i, now, audience, expected, e)
      ensures ChainVerdict(c, ts, now, audience, expected) == Failure(BadToken(e))
    {
      TokenDecides(c, ts, i, now, audience, expected, e);
    }
    if ts != [] && AllOk(c, ts, now, audience, expected) {
      AllTokensIff(c, ts, now, audience, expected);
      forall i: nat, e | i < |ts| - 1 && FirstBroken(AllClaims(ts), i, e)
        ensures ChainVerdict(c, ts, now, audience, expected) == Failure(e)
      {
        FirstBadLinkAt(AllClaims(ts), i);
      }
    }
  }

  lemma TokenDecides(c: Crypto, ts: seq<Token>, i: nat, now: int, audience: Option<string>, expected: Option<string>,
                     e: ValidationError)
    requires i < |ts| && FirstRefused(c, ts, i, now, audience, expected, e)
    ensures ChainVerdict(c, ts, now, audience, expected) == Failure(BadToken(e))
  {
    var rs := TokenResults(c, ts, now, audience, expected);
    forall j: nat | j < i ensures rs[j].Success? {
      TokenResultIff(c, ts, j, now, audience, expected);
    }
    FirstBadTokenAt(rs, i);
  }
}
