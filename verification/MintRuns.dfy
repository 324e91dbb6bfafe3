/** Every chain a run of root and child mints produces. */
module MintRuns {
  import opened Common
  import opened Constraint
  import opened Ucan
  import opened UcanTheorems
  import opened Chain
  import opened ChainTheorems
  import opened Mint
  import opened MintTheorems

  /** A DID in the one form the issuer writes. */
  predicate CanonicalForm(c: Crypto, did: string) {
    c.CanonicalDid(did) == Some(did)
  }

  /** A link from this token can hold: its constraint, if any, is of a provider the subset check knows. */
  predicate Delegable(p: Claims) {
    Carried(p).NoConstraint? || (Carried(p).Found? && !Carried(p).constraint.Other?)
  }

  /** The link from a parent leaf to a token minted under it is in order exactly when the leaf's
      audience is in canonical form and the leaf is delegable. */
  lemma ChildLinkIff(c: Crypto, leaf: Claims, child: Claims, constraint: Option<CheckedConstraint>)
    requires c.CanonicalDid(leaf.aud) == Some(child.iss)
    requires Bounds(leaf, child)
    requires Carried(child) == (if constraint.Some? then Found(constraint.value) else NoConstraint)
    requires constraint.Some? ==>
               Carried(leaf).NoConstraint?
               || (Carried(leaf).Found? && Covers(Carried(leaf).constraint, constraint.value))
    ensures LinkError(leaf, child).None? <==> CanonicalForm(c, leaf.aud) && Delegable(leaf)
  {
    if Carried(leaf).Found? {
      CoversReflexive(Carried(leaf).constraint);
    }
  }

  /** The last payload of a list of readable tokens. */
  function Leaf(ts: seq<Token>): Claims
    requires ts != [] && forall t :: t in ts ==> t.Some?
  {
    AllClaims(ts)[|ts| - 1]
  }

  /** The chain passes the check for its leaf command at every moment of the leaf's window. */
  ghost predicate Usable(c: Crypto, ts: seq<Token>)
    requires ts != [] && forall t :: t in ts ==> t.Some?
  {
    forall now :: Leaf(ts).nbf <= now < Leaf(ts).exp ==>
      ChainVerdict(c, ts, now, None, Some(Leaf(ts).cmd)).Success?
  }

  /** Genuine tokens form a usable chain exactly when they are linked. */
  lemma UsableIffLinked(c: Crypto, ts: seq<Token>)
    requires ts != [] && AllGenuine(c, ts)
    requires forall i | 0 <= i < |ts| :: Bounds(AllClaims(ts)[i], Leaf(ts))
    requires Leaf(ts).nbf < Leaf(ts).exp
    ensures Usable(c, ts) <==> Linked(AllClaims(ts))
  {
    var leaf := Leaf(ts);
    if Linked(AllClaims(ts)) {
      forall now | leaf.nbf <= now < leaf.exp
        ensures ChainVerdict(c, ts, now, None, Some(leaf.cmd)).Success?
      {
        AcceptedIff(c, ts, now, None, Some(leaf.cmd));
        assert Sound(c, ts, now, None, Some(leaf.cmd));
      }
    } else {
      AcceptedIff(c, ts, leaf.nbf, None, Some(leaf.cmd));
    }
  }

  // ---------------------------------------------------------------- runs

  /** One mint, against the tables as they are at that moment. */
  datatype Step =
    | RootStep(db: Tables, input: MintInput, now: int)
    | ChildStep(db: Tables, child: ChildInput, now: int)

  /** The chains held after a step. A failed mint produces nothing; a child mint extends its parent. */
  function Next(c: Crypto, p: Platform, chains: set<seq<string>>, step: Step): set<seq<string>> {
    match step
    case RootStep(db, input, now) =>
      (match RootMint(c, p, db, input, now)
       case Success(issued) => chains + {[issued.jwt]}
       case Failure(_) => chains)
    case ChildStep(db, child, now) =>
      (match ChildMint(c, p, db, child, now)
       case Success(issued) => chains + {child.parentChain + [issued.jwt]}
       case Failure(_) => chains)
  }

  /** A step of a run: keys are registered and a child is minted under a chain the run produced. */
  ghost predicate Allowed(c: Crypto, p: Platform, chains: set<seq<string>>, step: Step) {
    && KeysRegistered(c, p, step.db)
    && (step.ChildStep? ==> step.child.parentChain in chains)
  }

  function After(c: Crypto, p: Platform, run: seq<Step>): set<seq<string>> {
    if run == [] then {} else Next(c, p, After(c, p, run[..|run| - 1]), run[|run| - 1])
  }

  ghost predicate Run(c: Crypto, p: Platform, run: seq<Step>) {
    run == []
    || (Run(c, p, run[..|run| - 1]) && Allowed(c, p, After(c, p, run[..|run| - 1]), run[|run| - 1]))
  }

  /** What holds of every produced chain: it starts with the platform signer, every token bounds the
      leaf, and it is usable unless its leaf's parent carries a constraint the subset check does not know. */
  ghost predicate GoodTokens(c: Crypto, p: Platform, ts: seq<Token>) {
    && 1 <= |ts| && (|ts| == 1 || |ts| <= p.maxChainDepth)
    && AllGenuine(c, ts)
    && var ps := AllClaims(ts);
       && Some(ps[0].iss) == c.CanonicalDid(p.signerDid)
       && CanonicalForm(c, Leaf(ts).aud)
       && Leaf(ts).nbf < Leaf(ts).exp
       && (forall i | 0 <= i < |ps| :: Bounds(ps[i], Leaf(ts)))
       && (Usable(c, ts) <==> |ps| == 1 || Delegable(ps[|ps| - 2]))
  }

  ghost predicate GoodChain(c: Crypto, p: Platform, chain: seq<string>) {
    GoodTokens(c, p, ParseAll(chain))
  }

  lemma CanonicalOnce(c: Crypto, did: string)
    requires c.Correct() && c.CanonicalDid(did).Some?
    ensures CanonicalForm(c, c.CanonicalDid(did).value)
  {
  }

  lemma SingleGood(c: Crypto, p: Platform, t: Token, aud: string, cmd: string, nbf: int, exp: int,
                   constraint: Option<CheckedConstraint>)
    requires c.Correct() && Produces(c, t, p.signerDid, aud, cmd, nbf, exp, constraint)
    ensures GoodTokens(c, p, [t])
  {
    CanonicalOnce(c, aud);
    UsableIffLinked(c, [t]);
  }

  lemma ExtendedClaims(c: Crypto, ts: seq<Token>, t: Token)
    requires AllGenuine(c, ts) && t.Some? && Genuine(c, t.value) && ts != []
    ensures AllGenuine(c, ts + [t])
    ensures AllClaims(ts + [t]) == AllClaims(ts) + [t.value.payload] && Leaf(ts + [t]) == t.value.payload
  {
    assert forall x :: x in ts + [t] ==> x.Some?;
    assert AllClaims(ts + [t]) == AllClaims(ts) + [t.value.payload];
  }

  lemma ExtendedBounds(ps: seq<Claims>, child: Claims)
    requires ps != [] && Bounds(ps[|ps| - 1], child)
    requires forall i | 0 <= i < |ps| :: Bounds(ps[i], ps[|ps| - 1])
    requires child.nbf < child.exp
    ensures forall i | 0 <= i < |ps| + 1 :: Bounds((ps + [child])[i], child)
  {
    var all := ps + [child];
    forall i | 0 <= i < |all| ensures Bounds(all[i], child) {
      if i < |ps| {
        assert all[i] == ps[i];
        GrantedTransitive(ps[i].cmd, ps[|ps| - 1].cmd, child.cmd);
      }
    }
  }

  /** What is known of a freshly minted child next to the leaf it was minted under. */
  ghost predicate MintedUnder(c: Crypto, leaf: Claims, t: Token, aud: string, constraint: Option<CheckedConstraint>)
  {
    && t.Some? && Genuine(c, t.value)
    && var child := t.value.payload;
       && c.CanonicalDid(leaf.aud) == Some(child.iss) && c.CanonicalDid(aud) == Some(child.aud)
       && Bounds(leaf, child) && child.nbf < child.exp
       && Carried(child) == (if constraint.Some? then Found(constraint.value) else NoConstraint)
       && (constraint.Some? ==>
             Carried(leaf).NoConstraint?
             || (Carried(leaf).Found? && Covers(Carried(leaf).constraint, constraint.value)))
  }

  lemma LinkedBounds(ps: seq<Claims>)
    requires ps != [] && Linked(ps)
    ensures forall i | 0 <= i < |ps| :: Bounds(ps[i], ps[|ps| - 1])
  {
    forall i | 0 <= i < |ps| ensures Bounds(ps[i], ps[|ps| - 1]) {
      AncestorBounds(ps, i, |ps| - 1);
    }
  }

  lemma ExtendedLinked(c: Crypto, ps: seq<Claims>, child: Claims, constraint: Option<CheckedConstraint>)
    requires ps != [] && Linked(ps)
    requires c.CanonicalDid(ps[|ps| - 1].aud) == Some(child.iss) && Bounds(ps[|ps| - 1], child)
    requires Carried(child) == (if constraint.Some? then Found(constraint.value) else NoConstraint)
    requires constraint.Some? ==>
               Carried(ps[|ps| - 1]).NoConstraint?
               || (Carried(ps[|ps| - 1]).Found? && Covers(Carried(ps[|ps| - 1]).constraint, constraint.value))
    ensures Linked(ps + [child]) <==> CanonicalForm(c, ps[|ps| - 1].aud) && Delegable(ps[|ps| - 1])
  {
    LinkedAppend(ps, child);
    ChildLinkIff(c, ps[|ps| - 1], child, constraint);
  }

  /** A chain extended by a token minted under its leaf is usable exactly when the leaf's audience is
      canonical and the leaf is delegable. This holds of any accepted parent chain. */
  lemma ExtendedUsable(c: Crypto, ts: seq<Token>, now: int, t: Token, aud: string,
                       constraint: Option<CheckedConstraint>)
    requires Sound(c, ts, now, None, None)
    requires MintedUnder(c, Leaf(ts), t, aud, constraint)
    ensures AllGenuine(c, ts + [t])
    ensures forall i | 0 <= i < |ts| + 1 :: Bounds(AllClaims(ts + [t])[i], Leaf(ts + [t]))
    ensures Usable(c, ts + [t]) <==> CanonicalForm(c, Leaf(ts).aud) && Delegable(Leaf(ts))
  {
    var ps, child := AllClaims(ts), t.value.payload;
    ExtendedClaims(c, ts, t);
    LinkedBounds(ps);
    ExtendedBounds(ps, child);
    ExtendedLinked(c, ps, child, constraint);
    UsableIffLinked(c, ts + [t]);
  }

  lemma ExtendedGood(c: Crypto, p: Platform, ts: seq<Token>, now: int, t: Token, aud: string,
                     constraint: Option<CheckedConstraint>)
    requires c.Correct() && GoodTokens(c, p, ts) && |ts| + 1 <= p.maxChainDepth
    requires Sound(c, ts, now, None, None)
    requires MintedUnder(c, Leaf(ts), t, aud, constraint)
    ensures GoodTokens(c, p, ts + [t])
  {
    CanonicalOnce(c, aud);
    ExtendedClaims(c, ts, t);
    ExtendedUsable(c, ts, now, t, aud, constraint);
    GoodFrom(c, p, ts + [t], AllClaims(ts), t.value.payload);
  }

  /** What makes a longer chain good, in terms of its payloads. */
  lemma GoodFrom(c: Crypto, p: Platform, ts: seq<Token>, ps: seq<Claims>, child: Claims)
    requires 1 < |ts| <= p.maxChainDepth && AllGenuine(c, ts) && AllClaims(ts) == ps + [child]
    requires Some(ps[0].iss) == c.CanonicalDid(p.signerDid) && CanonicalForm(c, child.aud) && child.nbf < child.exp
    requires forall i | 0 <= i < |ts| :: Bounds(AllClaims(ts)[i], child)
    requires Usable(c, ts) <==> Delegable(ps[|ps| - 1])
    ensures GoodTokens(c, p, ts)
  {
    var all := AllClaims(ts);
    assert all[0] == ps[0] && all[|all| - 1] == child && all[|all| - 2] == ps[|ps| - 1];
  }

  lemma ParseAllAppend(chain: seq<string>, jwt: string)
    ensures ParseAll(chain + [jwt]) == ParseAll(chain) + [ParseUcan(jwt)]
  {
    MapAppend(ParseUcan, chain, jwt);
  }

  lemma ParseAllSingle(jwt: string)
    ensures ParseAll([jwt]) == [ParseUcan(jwt)]
  {
    ParseAllAt([jwt], 0);
  }

  lemma SingleChainGood(c: Crypto, p: Platform, jwt: string, t: Token, aud: string, cmd: string, nbf: int, exp: int,
                        constraint: Option<CheckedConstraint>)
    requires ParseAll([jwt]) == [t]
    requires c.Correct() && Produces(c, t, p.signerDid, aud, cmd, nbf, exp, constraint)
    ensures GoodChain(c, p, [jwt])
  {
    SingleGood(c, p, t, aud, cmd, nbf, exp, constraint);
  }

  lemma RootStepGood(c: Crypto, p: Platform, db: Tables, input: MintInput, now: int, issued: Issued)
    requires c.Correct() && KeysRegistered(c, p, db) && RootMint(c, p, db, input, now) == Success(issued)
    ensures GoodChain(c, p, [issued.jwt])
  {
    RootMintProduces(c, p, db, input, now, issued);
    ParseAllSingle(issued.jwt);
    SingleChainGood(c, p, issued.jwt, ParseUcan(issued.jwt), db.agents[input.agent].did, input.command,
                    now - 60, now + input.ttl, input.constraint);
  }

  lemma ExtendedChainGood(c: Crypto, p: Platform, chain: seq<string>, jwt: string, now: int, aud: string,
                          constraint: Option<CheckedConstraint>)
    requires c.Correct() && GoodChain(c, p, chain) && |chain| + 1 <= p.maxChainDepth
    requires Sound(c, ParseAll(chain), now, None, None)
    requires MintedUnder(c, Leaf(ParseAll(chain)), ParseUcan(jwt), aud, constraint)
    ensures GoodChain(c, p, chain + [jwt])
  {
    ExtendedGood(c, p, ParseAll(chain), now, ParseUcan(jwt), aud, constraint);
    ParseAllAppend(chain, jwt);
  }

  /** A child mint extends an accepted chain by a token minted under its leaf. */
  lemma ChildMintedUnder(c: Crypto, p: Platform, db: Tables, input: ChildInput, now: int, issued: Issued)
    requires c.Correct() && KeysRegistered(c, p, db) && ChildMint(c, p, db, input, now) == Success(issued)
    ensures Sound(c, ParseAll(input.parentChain), now, None, None)
    ensures |input.parentChain| + 1 <= p.maxChainDepth && input.childAgent in db.agents
    ensures MintedUnder(c, Leaf(ParseAll(input.parentChain)), ParseUcan(issued.jwt),
                        db.agents[input.childAgent].did, input.constraint)
  {
    ChildMintProduces(c, p, db, input, now, issued);
    AcceptedIff(c, ParseAll(input.parentChain), now, None, None);
  }

  lemma ChildStepGood(c: Crypto, p: Platform, db: Tables, input: ChildInput, now: int, issued: Issued)
    requires c.Correct() && KeysRegistered(c, p, db) && ChildMint(c, p, db, input, now) == Success(issued)
    requires GoodChain(c, p, input.parentChain)
    ensures GoodChain(c, p, input.parentChain + [issued.jwt])
  {
    ChildMintedUnder(c, p, db, input, now, issued);
    ExtendedChainGood(c, p, input.parentChain, issued.jwt, now, db.agents[input.childAgent].did, input.constraint);
  }

  /** Over every run of root and child mints, every chain produced is a good chain. */
  lemma {:induction false} EveryProducedChainGood(c: Crypto, p: Platform, run: seq<Step>, chain: seq<string>)
    requires c.Correct() && Run(c, p, run) && chain in After(c, p, run)
    ensures GoodChain(c, p, chain)
    decreases |run|
  {
    if run != [] {
      var before, step := run[..|run| - 1], run[|run| - 1];
      if chain in After(c, p, before) {
        EveryProducedChainGood(c, p, before, chain);
      } else {
        match step
        case RootStep(db, input, now) =>
          RootStepGood(c, p, db, input, now, RootMint(c, p, db, input, now).value);
        case ChildStep(db, child, now) =>
          EveryProducedChainGood(c, p, before, child.parentChain);
          ChildStepGood(c, p, db, child, now, ChildMint(c, p, db, child, now).value);
      }
    }
  }
}
