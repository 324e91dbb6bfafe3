/** The two operations that create tokens: root minting with the platform's key and child minting
    with the parent agent's key (apps/control-plane/src/services/ucan-mint.ts, ucan-mint-child.ts). */
module Mint {
  import opened Common
  import opened Canonical
  import opened Constraint
  import opened Ucan
  import opened UcanTheorems
  import opened Chain

  datatype Agent = Agent(customer: string, did: string, active: bool, signingKey: Option<string>)

  datatype CloudConnection = CloudConnection(customer: string, verified: bool)

  /** The tables minting reads. */
  datatype Tables = Tables(
    agents: map<string, Agent>,
    policies: map<string, string>,
    oauthConnections: map<string, string>,
    cloudConnections: map<string, CloudConnection>
  ) {
    /** `agents.findFirst` by id and customer. */
    function FindAgent(id: string, customer: string): Option<Agent> {
      if id in agents && agents[id].customer == customer then Some(agents[id]) else None
    }
  }

  datatype Platform = Platform(signerDid: string, signKey: string, maxChainDepth: nat)

  /** A row of `ucan_issues`. */
  datatype IssueRow = IssueRow(cid: string, customer: string, agent: string, payload: Payload<Json>, jwt: string,
                               expiresAt: int)

  // ---------------------------------------------------------------- root minting

  datatype Mode = Static | Dynamic

  datatype MintInput = MintInput(
    customer: string,
    agent: string,
    command: string,
    policy: Option<string>,
    oauth: Option<string>,
    cloud: Option<string>,
    ttl: int,
    nonce: string,
    hints: Option<seq<Field>>,
    constraint: Option<CheckedConstraint>,
    mode: Option<Mode>
  )

  datatype MintError =
    | AgentNotFound
    | AgentNotActive
    | PolicyNotFound
    | ConnectionKindConflict
    | OauthConnectionNotFound
    | OauthConnectionOtherCustomer
    | CloudConnectionNotFound
    | CloudConnectionOtherCustomer
    | CloudConnectionNotVerified
    | NotIssued(error: IssueError)

  /** The guards, in order. */
  function RootGuards(db: Tables, input: MintInput): Option<MintError> {
    var agent := db.FindAgent(input.agent, input.customer);
    if agent.None? then Some(AgentNotFound)
    else if !agent.value.active then Some(AgentNotActive)
    else if Truthy(input.policy)
            && !(input.policy.value in db.policies && db.policies[input.policy.value] == input.customer)
    then Some(PolicyNotFound)
    else if Truthy(input.oauth) && Truthy(input.cloud) then Some(ConnectionKindConflict)
    else if Truthy(input.oauth) && input.oauth.value !in db.oauthConnections then Some(OauthConnectionNotFound)
    else if Truthy(input.oauth) && db.oauthConnections[input.oauth.value] != input.customer
    then Some(OauthConnectionOtherCustomer)
    else if Truthy(input.cloud) && input.cloud.value !in db.cloudConnections then Some(CloudConnectionNotFound)
    else if Truthy(input.cloud) && db.cloudConnections[input.cloud.value].customer != input.customer
    then Some(CloudConnectionOtherCustomer)
    else if Truthy(input.cloud) && !db.cloudConnections[input.cloud.value].verified
    then Some(CloudConnectionNotVerified)
    else None
  }

  function IfTruthy(s: Option<string>): Json {
    if Truthy(s) then Str(s.value) else Undefined
  }

  function ConstraintValue(c: Option<CheckedConstraint>): Json {
    if c.Some? then Obj(ConstraintFields(c.value)) else Undefined
  }

  function ModeText(m: Mode): string {
    if m.Static? then "static" else "dynamic"
  }

  function RootMeta(input: MintInput): (fs: seq<Field>)
    ensures |fs| == 8
  {
    [ Field("agent_id", Str(input.agent)),
      Field("customer_id", Str(input.customer)),
      Field("policy_id", IfTruthy(input.policy)),
      Field("oauth_connection_id", IfTruthy(input.oauth)),
      Field("cloud_connection_id", IfTruthy(input.cloud)),
      Field("context_hints",
            if input.hints.Some? && input.hints.value != [] then Obj(input.hints.value) else Undefined),
      Field("resource_constraint", ConstraintValue(input.constraint)),
      Field("mode", Str(ModeText(if input.mode.Some? then input.mode.value
                                 else if input.constraint.Some? then Dynamic else Static))) ]
  }

  function RootPayload(p: Platform, agentDid: string, input: MintInput, now: int): Payload<Json> {
    Payload(p.signerDid, agentDid, input.command, None, [], input.nonce, Some(Obj(RootMeta(input))),
            now - 60, now + input.ttl, None)
  }

  /** `mintUcan` as a function of the tables, at `now` seconds. */
  function RootMint(c: Crypto, p: Platform, db: Tables, input: MintInput, now: int): Result<Issued, MintError> {
    match RootGuards(db, input)
    case Some(e) => Failure(e)
    case None =>
      match IssueUcan(c, RootPayload(p, db.agents[input.agent].did, input, now), p.signKey)
      case Failure(e) => Failure(NotIssued(e))
      case Success(issued) => Success(issued)
  }

  // ---------------------------------------------------------------- child minting

  datatype ChildInput = ChildInput(
    customer: string,
    parentAgent: string,
    parentChain: seq<string>,
    childAgent: string,
    command: string,
    ttl: int,
    nonce: string,
    constraint: Option<CheckedConstraint>,
    oauth: Option<string>
  )

  datatype ChildError =
    | ParentChainInvalid
    | ParentChainAttenuationViolation
    | ParentChainTooDeep
    | ParentAudMismatch
    | ParentAgentNotFound
    | AgentNoSigningKey
    | ChildAgentNotFound
    | CommandNotSubset
    | TtlExceedsParent
    | ResourceConstraintBroader
    | MalformedParentConstraint
    | ChildNotIssued(error: IssueError)

  function ChainErrorCode(e: ChainError): ChildError {
    match e
    case BrokenDelegation => ParentChainInvalid
    case OverAttenuated => ParentChainAttenuationViolation
    case ConstraintException => MalformedParentConstraint
    case _ => ParentChainInvalid
  }

  /** The guards that follow chain validation, in order. */
  function ChildGuards(p: Platform, db: Tables, input: ChildInput, leaf: Claims, now: int): Option<ChildError> {
    var parent := db.FindAgent(input.parentAgent, input.customer);
    if |input.parentChain| + 1 > p.maxChainDepth then Some(ParentChainTooDeep)
    else if parent.None? then Some(ParentAgentNotFound)
    else if leaf.aud != parent.value.did then Some(ParentAudMismatch)
    else if parent.value.signingKey.None? then Some(AgentNoSigningKey)
    else if db.FindAgent(input.childAgent, input.customer).None? then Some(ChildAgentNotFound)
    else if !ActionMatchesGranted(leaf.cmd, input.command) then Some(CommandNotSubset)
    else if now + input.ttl > leaf.exp then Some(TtlExceedsParent)
    else if input.constraint.None? then None
    else
      match ExtractConstraint(leaf.meta)
      case NoConstraint => None
      case Malformed => Some(MalformedParentConstraint)
      case Found(pc) => if Covers(pc, input.constraint.value) then None else Some(ResourceConstraintBroader)
  }

  function ChildMeta(input: ChildInput): (fs: seq<Field>)
    ensures |fs| == 6
  {
    [ Field("agent_id", Str(input.childAgent)),
      Field("customer_id", Str(input.customer)),
      Field("chain_depth", Num(|input.parentChain|)),
      Field("mode", Str("static")),
      Field("oauth_connection_id", IfTruthy(input.oauth)),
      Field("resource_constraint", ConstraintValue(input.constraint)) ]
  }

  function ChildPayload(c: Crypto, input: ChildInput, leaf: Claims, parentDid: string, childDid: string, now: int)
    : Payload<Json>
    requires input.parentChain != []
  {
    Payload(parentDid, childDid, input.command, None, [], input.nonce, Some(Obj(ChildMeta(input))),
            if leaf.nbf >= now - 60 then leaf.nbf else now - 60, now + input.ttl,
            Some([c.sha256Hex(input.parentChain[|input.parentChain| - 1])]))
  }

  /** `mintChildUcan` as a function of the tables, at `now` seconds. */
  function ChildMint(c: Crypto, p: Platform, db: Tables, input: ChildInput, now: int): Result<Issued, ChildError> {
    match ChainVerdict(c, ParseAll(input.parentChain), now, None, None)
    case Failure(e) => Failure(ChainErrorCode(e))
    case Success(accepted) =>
      match ChildGuards(p, db, input, accepted.leaf, now)
      case Some(e) => Failure(e)
      case None =>
        var parent, child := db.agents[input.parentAgent], db.agents[input.childAgent];
        match IssueUcan(c, ChildPayload(c, input, accepted.leaf, parent.did, child.did, now), parent.signingKey.value)
        case Failure(e) => Failure(ChildNotIssued(e))
        case Success(issued) => Success(issued)
  }

  // ---------------------------------------------------------------- the service

  /** The mint operations over their tables; both append to `ucan_issues` and change nothing else. */
  class MintService {
    const crypto: Crypto
    const platform: Platform
    const db: Tables
    var issues: seq<IssueRow>

    constructor (c: Crypto, p: Platform, tables: Tables)
      ensures crypto == c && platform == p && db == tables && issues == []
    {
      crypto, platform, db, issues := c, p, tables, [];
    }

    /** `mintUcan` */
    method MintUcan(input: MintInput, now: int) returns (r: Result<Issued, MintError>)
      modifies this
      ensures r == RootMint(crypto, platform, db, input, now)
      ensures r.Failure? ==> issues == old(issues)
      ensures r.Success? ==>
                issues == old(issues) + [IssueRow(r.value.cid, input.customer, input.agent,
                                                  RootPayload(platform, db.agents[input.agent].did, input, now),
                                                  r.value.jwt, (now + input.ttl) * 1000)]
    {
      var refused := CheckRootGuards(input);
      if refused.Some? {
        return Failure(refused.value);
      }
      var agent := db.agents[input.agent];
      var meta := BuildRootMeta(input);
      var payload := Payload(platform.signerDid, agent.did, input.command, None, [], input.nonce,
                             Some(Obj(meta)), now - 60, now + input.ttl, None);
      assert payload == RootPayload(platform, agent.did, input, now);
      var issued := IssueUcan(crypto, payload, platform.signKey);
      if issued.Failure? {
        return Failure(NotIssued(issued.error));
      }
      issues := issues + [IssueRow(issued.value.cid, input.customer, input.agent, payload, issued.value.jwt,
                                   (now + input.ttl) * 1000)];
      return Success(issued.value);
    }

    /** The guards, in order. */
    method CheckRootGuards(input: MintInput) returns (refused: Option<MintError>)
      ensures refused == RootGuards(db, input)
    {
      var agent := db.FindAgent(input.agent, input.customer);
      if agent.None? {
        return Some(AgentNotFound);
      }
      if !agent.value.active {
        return Some(AgentNotActive);
      }
      if Truthy(input.policy) {
        if !(input.policy.value in db.policies && db.policies[input.policy.value] == input.customer) {
          return Some(PolicyNotFound);
        }
      }
      if Truthy(input.oauth) && Truthy(input.cloud) {
        return Some(ConnectionKindConflict);
      }
      if Truthy(input.oauth) {
        if input.oauth.value !in db.oauthConnections {
          return Some(OauthConnectionNotFound);
        }
        if db.oauthConnections[input.oauth.value] != input.customer {
          return Some(OauthConnectionOtherCustomer);
        }
      }
      if Truthy(input.cloud) {
        if input.cloud.value !in db.cloudConnections {
          return Some(CloudConnectionNotFound);
        }
        var connection := db.cloudConnections[input.cloud.value];
        if connection.customer != input.customer {
          return Some(CloudConnectionOtherCustomer);
        }
        if !connection.verified {
          return Some(CloudConnectionNotVerified);
        }
      }
      return None;
    }

    /** The assignments to `meta`, one entry at a time. */
    static method BuildRootMeta(input: MintInput) returns (meta: seq<Field>)
      ensures meta == RootMeta(input)
    {
      meta := [ Field("agent_id", Str(input.agent)), Field("customer_id", Str(input.customer)),
                Field("policy_id", Undefined), Field("oauth_connection_id", Undefined),
                Field("cloud_connection_id", Undefined), Field("context_hints", Undefined),
                Field("resource_constraint", Undefined), Field("mode", Undefined) ];
      if Truthy(input.policy) {
        meta := meta[2 := Field("policy_id", Str(input.policy.value))];
      }
      if Truthy(input.oauth) {
        meta := meta[3 := Field("oauth_connection_id", Str(input.oauth.value))];
      }
      if Truthy(input.cloud) {
        meta := meta[4 := Field("cloud_connection_id", Str(input.cloud.value))];
      }
      if input.hints.Some? && |input.hints.value| > 0 {
        meta := meta[5 := Field("context_hints", Obj(input.hints.value))];
      }
      if input.constraint.Some? {
        meta := meta[6 := Field("resource_constraint", Obj(ConstraintFields(input.constraint.value)))];
      }
      var mode := if input.mode.Some? then input.mode.value else if input.constraint.Some? then Dynamic else Static;
      meta := meta[7 := Field("mode", Str(ModeText(mode)))];
    }

    /** `mintChildUcan` */
    method MintChildUcan(input: ChildInput, now: int) returns (r: Result<Issued, ChildError>, newChain: seq<string>)
      modifies this
      ensures r == ChildMint(crypto, platform, db, input, now)
      ensures r.Failure? ==> issues == old(issues) && newChain == []
      ensures r.Success? ==>
                && newChain == input.parentChain + [r.value.jwt]
                && |issues| == |old(issues)| + 1 && issues[..|old(issues)|] == old(issues)
                && issues[|old(issues)|].cid == r.value.cid && issues[|old(issues)|].jwt == r.value.jwt
                && issues[|old(issues)|].customer == input.customer && issues[|old(issues)|].agent == input.childAgent
                && issues[|old(issues)|].expiresAt == (now + input.ttl) * 1000
    {
      newChain := [];
      var parentLeaf := CheckParentChain(input, now);
      if parentLeaf.Failure? {
        return Failure(parentLeaf.error), [];
      }
      var leaf := parentLeaf.value;
      var refused := CheckChildGuards(input, leaf, now);
      if refused.Some? {
        return Failure(refused.value), [];
      }
      var issued := IssueChild(input, leaf, now);
      if issued.Failure? {
        return Failure(ChildNotIssued(issued.error)), [];
      }
      return Success(issued.value), input.parentChain + [issued.value.jwt];
    }

    /** The validation of the parent chain: its leaf, or the code of its error. */
    method CheckParentChain(input: ChildInput, now: int) returns (r: Result<Claims, ChildError>)
      ensures r == match ChainVerdict(crypto, ParseAll(input.parentChain), now, None, None)
                   case Failure(e) => Failure(ChainErrorCode(e))
                   case Success(accepted) => Success(accepted.leaf)
    {
      var validation := ValidateChain(crypto, input.parentChain, now, None, None);
      if validation.Failure? {
        if validation.error.OverAttenuated? {
          return Failure(ParentChainAttenuationViolation);
        }
        if validation.error.ConstraintException? {
          return Failure(MalformedParentConstraint);
        }
        return Failure(ParentChainInvalid);
      }
      return Success(validation.value.leaf);
    }

    /** Signing with the parent's key, and the row. */
    method IssueChild(input: ChildInput, leaf: Claims, now: int) returns (issued: Result<Issued, IssueError>)
      requires ChildGuards(platform, db, input, leaf, now).None? && input.parentChain != []
      modifies this
      ensures issued == IssueUcan(crypto, ChildPayload(crypto, input, leaf, db.agents[input.parentAgent].did,
                                                       db.agents[input.childAgent].did, now),
                                  db.agents[input.parentAgent].signingKey.value)
      ensures issued.Failure? ==> issues == old(issues)
      ensures issued.Success? ==>
                && |issues| == |old(issues)| + 1 && issues[..|old(issues)|] == old(issues)
                && issues[|old(issues)|].cid == issued.value.cid && issues[|old(issues)|].jwt == issued.value.jwt
                && issues[|old(issues)|].customer == input.customer && issues[|old(issues)|].agent == input.childAgent
                && issues[|old(issues)|].expiresAt == (now + input.ttl) * 1000
    {
      var parent, child := db.agents[input.parentAgent], db.agents[input.childAgent];
      var payload := ChildPayload(crypto, input, leaf, parent.did, child.did, now);
      issued := IssueUcan(crypto, payload, parent.signingKey.value);
      if issued.Success? {
        issues := issues + [IssueRow(issued.value.cid, input.customer, input.childAgent, payload, issued.value.jwt,
                                     (now + input.ttl) * 1000)];
      }
    }

    /** The guards between chain validation and signing. */
    method CheckChildGuards(input: ChildInput, leaf: Claims, now: int) returns (refused: Option<ChildError>)
      ensures refused == ChildGuards(platform, db, input, leaf, now)
    {
      if |input.parentChain| + 1 > platform.maxChainDepth {
        return Some(ParentChainTooDeep);
      }
      var parent := db.FindAgent(input.parentAgent, input.customer);
      if parent.None? {
        return Some(ParentAgentNotFound);
      }
      if leaf.aud != parent.value.did {
        return Some(ParentAudMismatch);
      }
      if parent.value.signingKey.None? {
        return Some(AgentNoSigningKey);
      }
      var child := db.FindAgent(input.childAgent, input.customer);
      if child.None? {
        return Some(ChildAgentNotFound);
      }
      if !ActionMatchesGranted(leaf.cmd, input.command) {
        return Some(CommandNotSubset);
      }
      if now + input.ttl > leaf.exp {
        return Some(TtlExceedsParent);
      }
      if input.constraint.Some? {
        var parentConstraint := ExtractConstraint(leaf.meta);
        if parentConstraint.Malformed? {
          return Some(MalformedParentConstraint);
        }
        if parentConstraint.Found? && !Covers(parentConstraint.constraint, input.constraint.value) {
          return Some(ResourceConstraintBroader);
        }
      }
      return None;
    }
  }
}
