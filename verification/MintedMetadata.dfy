/** What a mint accepts and what the metadata of its token says, as its reader gets it
    (apps/control-plane/src/services/ucan-mint.ts, ucan-mint-child.ts). */
module MintedMetadata {
  import opened Common
  import opened Canonical
  import opened Constraint
  import opened Ucan
  import opened UcanTheorems
  import opened Chain
  import opened ChainTheorems
  import opened Mint
  import opened MintTheorems

  /** A member of the metadata. */
  function Member(meta: Option<Doc>, key: string): Option<Doc> {
    match meta
    case Some(DObj(m)) => if key in m then Some(m[key]) else None
    case _ => None
  }

  /** A string, unless it is missing or empty. */
  function TextUnlessEmpty(s: Option<string>): Option<Doc> {
    if s.Some? && s.value != "" then Some(DStr(s.value)) else None
  }

  lemma MemberIs(m: Members, nfc: Nfc, key: string, v: Json)
    requires Describes(m, nfc, Field(key, v))
    ensures Member(Some(DObj(m)), key) == if v.Undefined? then None else Meaning(nfc, v)
  {
  }

  lemma TextIs(m: Members, nfc: Nfc, key: string, s: string)
    requires Describes(m, nfc, Field(key, Str(s)))
    ensures Member(Some(DObj(m)), key) == Some(DStr(s))
  {
  }

  lemma OptionalIs(m: Members, nfc: Nfc, key: string, s: Option<string>)
    requires Describes(m, nfc, Field(key, IfTruthy(s)))
    ensures Member(Some(DObj(m)), key) == TextUnlessEmpty(s)
  {
  }

  /** Metadata that means something is an object with every field as it is listed. */
  lemma MetaDescribed(nfc: Nfc, fields: seq<Field>) returns (m: Members)
    requires PlainKeys(nfc, fields) && Meaning(nfc, Obj(fields)).Some?
    ensures Meaning(nfc, Obj(fields)) == Some(DObj(m)) && DescribesAll(m, nfc, fields)
  {
    m := Meaning(nfc, Obj(fields)).value.members;
    MetaMembers(nfc, fields);
  }

  // ---------------------------------------------------------------- root tokens

  /** Whose token it is, */
  predicate SaysOwner(meta: Option<Doc>, customer: string, agent: string) {
    Member(meta, "customer_id") == Some(DStr(customer)) && Member(meta, "agent_id") == Some(DStr(agent))
  }

  /** what it goes with */
  predicate SaysLinks(meta: Option<Doc>, policy: Option<string>, oauth: Option<string>, cloud: Option<string>) {
    && Member(meta, "policy_id") == TextUnlessEmpty(policy)
    && Member(meta, "oauth_connection_id") == TextUnlessEmpty(oauth)
    && Member(meta, "cloud_connection_id") == TextUnlessEmpty(cloud)
  }

  /** and how it was minted. */
  predicate SaysHow(nfc: Nfc, meta: Option<Doc>, hints: Option<seq<Field>>, mode: Option<Mode>, pinned: bool) {
    && Member(meta, "context_hints")
       == (if hints.Some? && hints.value != [] then Meaning(nfc, Obj(hints.value)) else None)
    && Member(meta, "mode")
       == Some(DStr(if mode == Some(Static) || (mode.None? && !pinned) then "static" else "dynamic"))
  }

  lemma OwnerSaid(m: Members, nfc: Nfc, fields: seq<Field>, customer: string, agent: string)
    requires DescribesAll(m, nfc, fields) && |fields| > 1
    requires fields[0] == Field("agent_id", Str(agent)) && fields[1] == Field("customer_id", Str(customer))
    ensures SaysOwner(Some(DObj(m)), customer, agent)
  {
    TextIs(m, nfc, "agent_id", agent);
    TextIs(m, nfc, "customer_id", customer);
  }

  lemma LinksSaid(m: Members, nfc: Nfc, fields: seq<Field>, policy: Option<string>, oauth: Option<string>,
                  cloud: Option<string>)
    requires DescribesAll(m, nfc, fields) && |fields| > 4
    requires fields[2] == Field("policy_id", IfTruthy(policy))
    requires fields[3] == Field("oauth_connection_id", IfTruthy(oauth))
    requires fields[4] == Field("cloud_connection_id", IfTruthy(cloud))
    ensures SaysLinks(Some(DObj(m)), policy, oauth, cloud)
  {
    OptionalIs(m, nfc, "policy_id", policy);
    OptionalIs(m, nfc, "oauth_connection_id", oauth);
    OptionalIs(m, nfc, "cloud_connection_id", cloud);
  }

  lemma HowSaid(m: Members, nfc: Nfc, fields: seq<Field>, hints: Option<seq<Field>>, mode: Option<Mode>, pinned: bool)
    requires DescribesAll(m, nfc, fields) && |fields| > 7
    requires fields[5] == Field("context_hints",
                                if hints.Some? && hints.value != [] then Obj(hints.value) else Undefined)
    requires fields[7] == Field("mode", Str(if mode == Some(Static) || (mode.None? && !pinned) then "static"
                                            else "dynamic"))
    ensures SaysHow(nfc, Some(DObj(m)), hints, mode, pinned)
  {
    MemberIs(m, nfc, "context_hints", fields[5].value);
    TextIs(m, nfc, "mode", fields[7].value.s);
  }

  lemma RootFields(fields: seq<Field>, input: MintInput)
    requires fields == RootMeta(input)
    ensures |fields| == 8
    ensures fields[0] == Field("agent_id", Str(input.agent)) && fields[1] == Field("customer_id", Str(input.customer))
    ensures fields[2] == Field("policy_id", IfTruthy(input.policy))
    ensures fields[3] == Field("oauth_connection_id", IfTruthy(input.oauth))
    ensures fields[4] == Field("cloud_connection_id", IfTruthy(input.cloud))
    ensures fields[5] == Field("context_hints", if input.hints.Some? && input.hints.value != []
                                                then Obj(input.hints.value) else Undefined)
    ensures fields[7] == Field("mode", Str(if input.mode == Some(Static)
                                              || (input.mode.None? && !input.constraint.Some?)
                                           then "static" else "dynamic"))
  {
  }

  ghost predicate SaysRoot(nfc: Nfc, meta: Option<Doc>, input: MintInput) {
    && SaysOwner(meta, input.customer, input.agent)
    && SaysLinks(meta, input.policy, input.oauth, input.cloud)
    && SaysHow(nfc, meta, input.hints, input.mode, input.constraint.Some?)
  }

  lemma RootFieldsSay(nfc: Nfc, fields: seq<Field>, input: MintInput)
    requires PlainKeys(nfc, fields) && Meaning(nfc, Obj(fields)).Some? && fields == RootMeta(input)
    ensures SaysRoot(nfc, Meaning(nfc, Obj(fields)), input)
  {
    RootFields(fields, input);
    var m := MetaDescribed(nfc, fields);
    OwnerSaid(m, nfc, fields, input.customer, input.agent);
    LinksSaid(m, nfc, fields, input.policy, input.oauth, input.cloud);
    HowSaid(m, nfc, fields, input.hints, input.mode, input.constraint.Some?);
  }

  /** What an issued token's reader gets of the parts that no guard looks at. */
  lemma IssuedParts(c: Crypto, p: Payload<Json>, key: string, issued: Issued, fields: seq<Field>)
    requires c.Correct() && IssueUcan(c, p, key) == Success(issued) && p.meta == Some(Obj(fields))
    ensures ParseUcan(issued.jwt).Some? && issued.cid == c.sha256Hex(issued.jwt)
    ensures var q := ParseUcan(issued.jwt).value.payload;
            && q.meta == Meaning(c.nfc, Obj(fields)) && q.meta.Some?
            && q.nonce == p.nonce && q.sub == p.sub && q.prf == p.prf && |q.pol| == |p.pol|
  {
    var t := TokenRoundTrip(c, p, key, issued);
  }

  /** What a root token says of itself beyond what its reader enforces: its nonce, no proofs, and in its metadata
      the customer and the agent it was minted for, what it goes with, the hints, and how it was minted. */
  lemma RootMintSays(c: Crypto, p: Platform, db: Tables, input: MintInput, now: int, issued: Issued)
    requires c.Correct() && RootMint(c, p, db, input, now) == Success(issued)
    ensures ParseUcan(issued.jwt).Some? && issued.cid == c.sha256Hex(issued.jwt)
    ensures var q := ParseUcan(issued.jwt).value.payload;
            && SaysRoot(c.nfc, q.meta, input)
            && q.nonce == input.nonce && q.sub == None && q.pol == [] && q.prf == None
  {
    var payload := RootPayload(p, db.agents[input.agent].did, input, now);
    RootMetaPlain(c.nfc, input);
    var fields := RootMeta(input);
    IssuedParts(c, payload, p.signKey, issued, fields);
    RootFieldsSay(c.nfc, fields, input);
  }

  // ---------------------------------------------------------------- child tokens

  predicate SaysChild(meta: Option<Doc>, input: ChildInput) {
    && SaysOwner(meta, input.customer, input.childAgent)
    && Member(meta, "chain_depth") == Some(DNum(|input.parentChain|))
    && Member(meta, "mode") == Some(DStr("static"))
    && Member(meta, "oauth_connection_id") == TextUnlessEmpty(input.oauth)
  }

  lemma ChildFields(fields: seq<Field>, input: ChildInput)
    requires fields == ChildMeta(input)
    ensures |fields| == 6
    ensures fields[0] == Field("agent_id", Str(input.childAgent))
    ensures fields[1] == Field("customer_id", Str(input.customer))
    ensures fields[2] == Field("chain_depth", Num(|input.parentChain|))
    ensures fields[3] == Field("mode", Str("static"))
    ensures fields[4] == Field("oauth_connection_id", IfTruthy(input.oauth))
  {
  }

  lemma ChainSaid(m: Members, nfc: Nfc, fields: seq<Field>, depth: nat, oauth: Option<string>)
    requires DescribesAll(m, nfc, fields) && |fields| > 4
    requires fields[2] == Field("chain_depth", Num(depth)) && fields[3] == Field("mode", Str("static"))
    requires fields[4] == Field("oauth_connection_id", IfTruthy(oauth))
    ensures var meta := Some(DObj(m));
            && Member(meta, "chain_depth") == Some(DNum(depth)) && Member(meta, "mode") == Some(DStr("static"))
            && Member(meta, "oauth_connection_id") == TextUnlessEmpty(oauth)
  {
    MemberIs(m, nfc, "chain_depth", Num(depth));
    TextIs(m, nfc, "mode", "static");
    OptionalIs(m, nfc, "oauth_connection_id", oauth);
  }

  lemma ChildFieldsSay(nfc: Nfc, fields: seq<Field>, input: ChildInput)
    requires PlainKeys(nfc, fields) && Meaning(nfc, Obj(fields)).Some? && fields == ChildMeta(input)
    ensures SaysChild(Meaning(nfc, Obj(fields)), input)
  {
    ChildFields(fields, input);
    var m := MetaDescribed(nfc, fields);
    OwnerSaid(m, nfc, fields, input.customer, input.childAgent);
    ChainSaid(m, nfc, fields, |input.parentChain|, input.oauth);
  }

  /** What a child mint signs. */
  lemma ChildMintIssues(c: Crypto, p: Platform, db: Tables, input: ChildInput, now: int, issued: Issued)
    returns (payload: Payload<Json>, key: string)
    requires ChildMint(c, p, db, input, now) == Success(issued)
    ensures input.parentChain != [] && IssueUcan(c, payload, key) == Success(issued)
    ensures payload.meta == Some(Obj(ChildMeta(input))) && payload.nonce == input.nonce && payload.sub == None
    ensures payload.pol == [] && payload.prf == Some([c.sha256Hex(input.parentChain[|input.parentChain| - 1])])
  {
    var leaf := ChainVerdict(c, ParseAll(input.parentChain), now, None, None).value.leaf;
    var parent, child := db.agents[input.parentAgent], db.agents[input.childAgent];
    payload := ChildPayload(c, input, leaf, parent.did, child.did, now);
    key := parent.signingKey.value;
  }

  lemma ChildPayloadSays(c: Crypto, input: ChildInput, payload: Payload<Json>, key: string, issued: Issued,
                         fields: seq<Field>)
    requires c.Correct() && IssueUcan(c, payload, key) == Success(issued)
    requires payload.meta == Some(Obj(fields)) && fields == ChildMeta(input)
    ensures ParseUcan(issued.jwt).Some? && issued.cid == c.sha256Hex(issued.jwt)
    ensures var q := ParseUcan(issued.jwt).value.payload;
            SaysChild(q.meta, input) && q.nonce == payload.nonce && q.sub == payload.sub && |q.pol| == |payload.pol|
            && q.prf == payload.prf
  {
    ChildMetaPlain(c.nfc, input);
    IssuedParts(c, payload, key, issued, fields);
    ChildFieldsSay(c.nfc, fields, input);
  }

  /** A child token says its customer and its agent, how long its parent chain was and, as its one proof, the CID of
      that chain's leaf text. */
  lemma ChildMintSays(c: Crypto, p: Platform, db: Tables, input: ChildInput, now: int, issued: Issued)
    requires c.Correct() && ChildMint(c, p, db, input, now) == Success(issued)
    ensures input.parentChain != []
    ensures ParseUcan(issued.jwt).Some? && issued.cid == c.sha256Hex(issued.jwt)
    ensures var q := ParseUcan(issued.jwt).value.payload;
            && SaysChild(q.meta, input)
            && q.nonce == input.nonce && q.sub == None && q.pol == []
            && q.prf == Some([c.sha256Hex(input.parentChain[|input.parentChain| - 1])])
  {
    var payload, key := ChildMintIssues(c, p, db, input, now, issued);
    ChildPayloadSays(c, input, payload, key, issued, payload.meta.value.fields);
  }

  // ---------------------------------------------------------------- who may mint

  predicate Registered(db: Tables, id: string, customer: string) {
    id in db.agents && db.agents[id].customer == customer
  }

  /** A string that is there and not empty. */
  predicate Given(s: Option<string>) {
    s.Some? && s.value != ""
  }

  /** An active agent of the customer, with a policy of the customer's and at most one connection, of the customer's
      and, for a cloud, verified. */
  predicate MayMintRoot(db: Tables, input: MintInput) {
    && Registered(db, input.agent, input.customer) && db.agents[input.agent].active
    && (Given(input.policy) ==>
          input.policy.value in db.policies && db.policies[input.policy.value] == input.customer)
    && (Given(input.oauth) ==>
          && !Given(input.cloud)
          && input.oauth.value in db.oauthConnections && db.oauthConnections[input.oauth.value] == input.customer)
    && (Given(input.cloud) ==>
          && input.cloud.value in db.cloudConnections
          && db.cloudConnections[input.cloud.value] == CloudConnection(input.customer, true))
  }

  /** A root mint succeeds exactly in that case and if its payload can be issued. */
  lemma RootMintAccepts(c: Crypto, p: Platform, db: Tables, input: MintInput, now: int)
    requires c.Correct()
    ensures RootMint(c, p, db, input, now).Success?
            <==> MayMintRoot(db, input) && Issuable(c, RootPayload(p, db.agents[input.agent].did, input, now))
  {
    if MayMintRoot(db, input) {
      IssueAccepts(c, RootPayload(p, db.agents[input.agent].did, input, now), p.signKey);
    }
  }

  /** Every refusal gives a true reason. */
  lemma RootRefusal(db: Tables, input: MintInput)
    ensures match RootGuards(db, input)
            case None => true
            case Some(AgentNotFound) => !Registered(db, input.agent, input.customer)
            case Some(AgentNotActive) =>
              Registered(db, input.agent, input.customer) && !db.agents[input.agent].active
            case Some(PolicyNotFound) =>
              Given(input.policy)
              && (input.policy.value in db.policies ==> db.policies[input.policy.value] != input.customer)
            case Some(ConnectionKindConflict) => Given(input.oauth) && Given(input.cloud)
            case Some(OauthConnectionNotFound) => Given(input.oauth) && input.oauth.value !in db.oauthConnections
            case Some(OauthConnectionOtherCustomer) =>
              Given(input.oauth) && input.oauth.value in db.oauthConnections
              && db.oauthConnections[input.oauth.value] != input.customer
            case Some(CloudConnectionNotFound) => Given(input.cloud) && input.cloud.value !in db.cloudConnections
            case Some(CloudConnectionOtherCustomer) =>
              Given(input.cloud) && input.cloud.value in db.cloudConnections
              && db.cloudConnections[input.cloud.value].customer != input.customer
            case Some(CloudConnectionNotVerified) =>
              Given(input.cloud) && input.cloud.value in db.cloudConnections
              && !db.cloudConnections[input.cloud.value].verified
            case Some(NotIssued(_)) => false
  {
  }

  /** The chain has room, its leaf's audience is the calling agent with a key of its own, the child is the same
      customer's, and the command, the life and the constraint asked for lie within the leaf's. */
  predicate MayMintChild(p: Platform, db: Tables, input: ChildInput, leaf: Claims, now: int) {
    && |input.parentChain| < p.maxChainDepth
    && Registered(db, input.parentAgent, input.customer)
    && db.agents[input.parentAgent].did == leaf.aud && db.agents[input.parentAgent].signingKey.Some?
    && Registered(db, input.childAgent, input.customer)
    && (input.command == leaf.cmd || StartsWith(input.command, leaf.cmd + "/"))
    && now + input.ttl <= leaf.exp
    && (input.constraint.Some? ==>
          Carried(leaf).NoConstraint?
          || (Carried(leaf).Found? && Covers(Carried(leaf).constraint, input.constraint.value)))
  }

  lemma MayMintChildIff(p: Platform, db: Tables, input: ChildInput, leaf: Claims, now: int)
    ensures ChildGuards(p, db, input, leaf, now).None? <==> MayMintChild(p, db, input, leaf, now)
  {
  }

  /** What is signed for a child under this leaf can be issued. */
  predicate ChildIssuable(c: Crypto, db: Tables, input: ChildInput, leaf: Claims, now: int)
    requires input.parentAgent in db.agents && input.childAgent in db.agents && input.parentChain != []
  {
    Issuable(c, ChildPayload(c, input, leaf, db.agents[input.parentAgent].did, db.agents[input.childAgent].did, now))
  }

  lemma ChildMintUnder(c: Crypto, p: Platform, db: Tables, input: ChildInput, now: int, a: Accepted)
    requires c.Correct() && ChainVerdict(c, ParseAll(input.parentChain), now, None, None) == Success(a)
    ensures ChildMint(c, p, db, input, now).Success?
            <==> MayMintChild(p, db, input, a.leaf, now) && ChildIssuable(c, db, input, a.leaf, now)
  {
    MayMintChildIff(p, db, input, a.leaf, now);
    if MayMintChild(p, db, input, a.leaf, now) {
      var parent, child := db.agents[input.parentAgent], db.agents[input.childAgent];
      IssueAccepts(c, ChildPayload(c, input, a.leaf, parent.did, child.did, now), parent.signingKey.value);
    }
  }

  /** A child mint succeeds exactly on a sound chain, in that case, and if its payload can be issued. */
  lemma ChildMintAccepts(c: Crypto, p: Platform, db: Tables, input: ChildInput, now: int)
    requires c.Correct()
    ensures var ts := ParseAll(input.parentChain);
            ChildMint(c, p, db, input, now).Success?
            <==> Sound(c, ts, now, None, None)
                 && MayMintChild(p, db, input, AllClaims(ts)[|ts| - 1], now)
                 && ChildIssuable(c, db, input, AllClaims(ts)[|ts| - 1], now)
  {
    var ts := ParseAll(input.parentChain);
    AcceptedIff(c, ts, now, None, None);
    var verdict := ChainVerdict(c, ts, now, None, None);
    if verdict.Success? {
      ChildMintUnder(c, p, db, input, now, verdict.value);
    }
  }

  /** A parent chain that is refused is refused as over-attenuated, as malformed or as invalid. */
  lemma ChildChainRefusal(c: Crypto, p: Platform, db: Tables, input: ChildInput, now: int, e: ChainError)
    requires ChainVerdict(c, ParseAll(input.parentChain), now, None, None) == Failure(e)
    ensures ChildMint(c, p, db, input, now)
            == Failure(if e == OverAttenuated then ParentChainAttenuationViolation
                       else if e == ConstraintException then MalformedParentConstraint else ParentChainInvalid)
  {
  }

  /** Every refusal gives a true reason. */
  lemma ChildRefusal(p: Platform, db: Tables, input: ChildInput, leaf: Claims, now: int)
    ensures match ChildGuards(p, db, input, leaf, now)
            case None => true
            case Some(ParentChainTooDeep) => |input.parentChain| >= p.maxChainDepth
            case Some(ParentAgentNotFound) => !Registered(db, input.parentAgent, input.customer)
            case Some(ParentAudMismatch) =>
              Registered(db, input.parentAgent, input.customer) && db.agents[input.parentAgent].did != leaf.aud
            case Some(AgentNoSigningKey) =>
              Registered(db, input.parentAgent, input.customer) && db.agents[input.parentAgent].signingKey.None?
            case Some(ChildAgentNotFound) => !Registered(db, input.childAgent, input.customer)
            case Some(CommandNotSubset) => !(input.command == leaf.cmd || StartsWith(input.command, leaf.cmd + "/"))
            case Some(TtlExceedsParent) => now + input.ttl > leaf.exp
            case Some(MalformedParentConstraint) => input.constraint.Some? && Carried(leaf).Malformed?
            case Some(ResourceConstraintBroader) =>
              input.constraint.Some? && Carried(leaf).Found?
              && !Covers(Carried(leaf).constraint, input.constraint.value)
            case Some(_) => false
  {
  }
}
