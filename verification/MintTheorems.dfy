/** What minting guarantees: every chain a run of root and child mints produces. */
module MintTheorems {
  import opened Common
  import opened Canonical
  import opened Constraint
  import opened Ucan
  import opened UcanTheorems
  import opened Chain
  import opened ChainTheorems
  import opened Mint

  // ---------------------------------------------------------------- constraints survive the token

  lemma TextRead(m: Members, nfc: Nfc, k: string, s: Option<string>)
    requires Describes(m, nfc, Field(k, TextOrNone(s))) && NotEmpty(s)
    ensures OptText(m, k) == Some(s)
  {
  }

  lemma NumberRead(m: Members, nfc: Nfc, k: string, n: Option<int>)
    requires Describes(m, nfc, Field(k, NumberOrNone(n))) && PositiveOrNone(n)
    ensures OptPositive(m, k) == Some(n)
  {
  }

  predicate DescribesAll(m: Members, nfc: Nfc, fields: seq<Field>) {
    forall i | 0 <= i < |fields| :: Describes(m, nfc, fields[i])
  }

  lemma FilesystemRead(m: Members, nfc: Nfc, c: CheckedConstraint)
    requires c.Filesystem? && DescribesAll(m, nfc, ConstraintFields(c))
    ensures ParseFilesystem(m) == Some(c)
  {
    var fs := ConstraintFields(c);
    assert Describes(m, nfc, fs[1]) && Describes(m, nfc, fs[2]);
    TextRead(m, nfc, "path_prefix", Some(c.pathPrefix));
  }

  lemma GithubRead(m: Members, nfc: Nfc, c: CheckedConstraint)
    requires c.Github? && DescribesAll(m, nfc, ConstraintFields(c))
    ensures ParseGithub(m) == Some(c)
  {
    var fs := ConstraintFields(c);
    assert Describes(m, nfc, fs[1]) && Describes(m, nfc, fs[2]) && Describes(m, nfc, fs[3]);
    assert Describes(m, nfc, fs[4]) && Describes(m, nfc, fs[5]) && Describes(m, nfc, fs[6]);
    TextRead(m, nfc, "owner", Some(c.owner));
    TextRead(m, nfc, "repo", c.repo);
    TextRead(m, nfc, "ref", c.ref);
    TextRead(m, nfc, "path_prefix", c.ghPrefix);
    NumberRead(m, nfc, "issue_number", c.issue);
    NumberRead(m, nfc, "pr_number", c.pr);
  }

  lemma AzureRead(m: Members, nfc: Nfc, c: CheckedConstraint)
    requires c.Azure? && DescribesAll(m, nfc, ConstraintFields(c))
    ensures ParseAzure(m) == Some(c)
  {
    var fs := ConstraintFields(c);
    assert Describes(m, nfc, fs[1]) && Describes(m, nfc, fs[2]) && Describes(m, nfc, fs[3]);
    assert Describes(m, nfc, fs[4]) && Describes(m, nfc, fs[5]);
    TextRead(m, nfc, "tenant_id", c.tenant);
    TextRead(m, nfc, "subscription_id", c.subscription);
    TextRead(m, nfc, "resource_group", c.group);
    TextRead(m, nfc, "resource_type", c.kind);
    TextRead(m, nfc, "name", c.name);
  }

  lemma AwsRead(m: Members, nfc: Nfc, c: CheckedConstraint)
    requires c.Aws? && DescribesAll(m, nfc, ConstraintFields(c))
    ensures ParseAws(m) == Some(c)
  {
    var fs := ConstraintFields(c);
    assert Describes(m, nfc, fs[1]) && Describes(m, nfc, fs[2]) && Describes(m, nfc, fs[3]) && Describes(m, nfc, fs[4]);
    TextRead(m, nfc, "account_id", c.account);
    TextRead(m, nfc, "region", c.region);
    TextRead(m, nfc, "service", c.awsService);
    TextRead(m, nfc, "arn", c.arn);
  }

  lemma GcpRead(m: Members, nfc: Nfc, c: CheckedConstraint)
    requires c.Gcp? && DescribesAll(m, nfc, ConstraintFields(c))
    ensures ParseGcp(m) == Some(c)
  {
    var fs := ConstraintFields(c);
    assert Describes(m, nfc, fs[1]) && Describes(m, nfc, fs[2]) && Describes(m, nfc, fs[3]) && Describes(m, nfc, fs[4]);
    TextRead(m, nfc, "project_id", c.project);
    TextRead(m, nfc, "location", c.location);
    TextRead(m, nfc, "service", c.gcpService);
    TextRead(m, nfc, "resource_id", c.resourceId);
  }

  function ProviderName(c: Constraint): string {
    match c
    case Filesystem(_, _) => "filesystem"
    case Github(_, _, _, _, _, _) => "github"
    case Azure(_, _, _, _, _) => "azure"
    case Aws(_, _, _, _) => "aws"
    case Gcp(_, _, _, _) => "gcp"
    case Other(provider) => provider
  }

  lemma OtherRead(m: Members, c: CheckedConstraint)
    requires c.Other? && "provider" in m && m["provider"] == DStr(c.provider)
    ensures ParseConstraint(DObj(m)) == Some(c)
  {
    assert "filesystem" !in OTHER_PROVIDERS && "github" !in OTHER_PROVIDERS && "azure" !in OTHER_PROVIDERS;
    assert "aws" !in OTHER_PROVIDERS && "gcp" !in OTHER_PROVIDERS;
  }

  lemma ProvidersDiffer()
    ensures "filesystem" != "github" && "filesystem" != "azure" && "filesystem" != "aws" && "filesystem" != "gcp"
    ensures "github" != "azure" && "github" != "aws" && "github" != "gcp"
    ensures "azure" != "aws" && "azure" != "gcp" && "aws" != "gcp"
  {
    assert "aws"[0] != "gcp"[0];
  }

  lemma ConstraintRead(m: Members, nfc: Nfc, c: CheckedConstraint)
    requires DescribesAll(m, nfc, ConstraintFields(c))
    ensures ParseConstraint(DObj(m)) == Some(c)
  {
    assert Describes(m, nfc, ConstraintFields(c)[0]);
    assert m["provider"] == DStr(ProviderName(c));
    ProvidersDiffer();
    match c
    case Filesystem(_, _) => FilesystemRead(m, nfc, c);
    case Github(_, _, _, _, _, _) => GithubRead(m, nfc, c);
    case Azure(_, _, _, _, _) => AzureRead(m, nfc, c);
    case Aws(_, _, _, _) => AwsRead(m, nfc, c);
    case Gcp(_, _, _, _) => GcpRead(m, nfc, c);
    case Other(_) => OtherRead(m, c);
  }

  // ---------------------------------------------------------------- keys

  /** Pairwise different ASCII keys. */
  predicate GoodKeys(ks: seq<string>) {
    (forall k :: k in ks ==> Ascii(k)) && (forall i, j | 0 <= i < j < |ks| :: ks[i] != ks[j])
  }

  lemma PlainFrom(nfc: Nfc, fields: seq<Field>, ks: seq<string>)
    requires forall s :: Ascii(s) ==> nfc(s) == s
    requires GoodKeys(ks) && |ks| == |fields| && forall i | 0 <= i < |ks| :: fields[i].key == ks[i]
    ensures PlainKeys(nfc, fields)
  {
  }

  lemma AsciiFilesystem()
    ensures Ascii("provider") && Ascii("path_prefix") && Ascii("host")
  {
  }

  lemma AsciiGithubText()
    ensures Ascii("owner") && Ascii("repo") && Ascii("ref")
  {
  }

  lemma AsciiGithubNumbers()
    ensures Ascii("issue_number") && Ascii("pr_number")
  {
  }

  lemma AsciiAzureIds()
    ensures Ascii("tenant_id") && Ascii("subscription_id")
  {
  }

  lemma AsciiAzureNames()
    ensures Ascii("resource_group") && Ascii("resource_type") && Ascii("name")
  {
  }

  lemma AsciiAws()
    ensures Ascii("account_id") && Ascii("region") && Ascii("service") && Ascii("arn")
  {
  }

  lemma AsciiGcp()
    ensures Ascii("project_id") && Ascii("location") && Ascii("resource_id")
  {
  }

  lemma AsciiOwners()
    ensures Ascii("agent_id") && Ascii("customer_id") && Ascii("policy_id")
  {
  }

  lemma AsciiConnections()
    ensures Ascii("oauth_connection_id") && Ascii("cloud_connection_id")
  {
  }

  lemma AsciiScope()
    ensures Ascii("context_hints") && Ascii("resource_constraint")
  {
  }

  lemma AsciiChain()
    ensures Ascii("mode") && Ascii("chain_depth")
  {
  }

  lemma FilesystemKeys()
    ensures GoodKeys(["provider", "path_prefix", "host"])
  {
    AsciiFilesystem();
    var ks := ["provider", "path_prefix", "host"];
    assert |ks[0]| == 8 && |ks[1]| == 11 && |ks[2]| == 4;
  }

  lemma GithubKeys()
    ensures GoodKeys(["provider", "owner", "repo", "ref", "path_prefix", "issue_number", "pr_number"])
  {
    AsciiFilesystem();
    AsciiGithubText();
    AsciiGithubNumbers();
    var ks := ["provider", "owner", "repo", "ref", "path_prefix", "issue_number", "pr_number"];
    assert |ks[0]| == 8 && |ks[1]| == 5 && |ks[2]| == 4 && |ks[3]| == 3 && |ks[4]| == 11 && |ks[5]| == 12
           && |ks[6]| == 9;
  }

  lemma AzureKeys()
    ensures GoodKeys(["provider", "tenant_id", "subscription_id", "resource_group", "resource_type", "name"])
  {
    AsciiFilesystem();
    AsciiAzureIds();
    AsciiAzureNames();
    var ks := ["provider", "tenant_id", "subscription_id", "resource_group", "resource_type", "name"];
    assert |ks[0]| == 8 && |ks[1]| == 9 && |ks[2]| == 15 && |ks[3]| == 14 && |ks[4]| == 13 && |ks[5]| == 4;
  }

  lemma AwsKeys()
    ensures GoodKeys(["provider", "account_id", "region", "service", "arn"])
  {
    AsciiFilesystem();
    AsciiAws();
    var ks := ["provider", "account_id", "region", "service", "arn"];
    assert |ks[0]| == 8 && |ks[1]| == 10 && |ks[2]| == 6 && |ks[3]| == 7 && |ks[4]| == 3;
  }

  lemma GcpKeys()
    ensures GoodKeys(["provider", "project_id", "location", "service", "resource_id"])
  {
    AsciiFilesystem();
    AsciiAws();
    AsciiGcp();
    var ks := ["provider", "project_id", "location", "service", "resource_id"];
    assert |ks[0]| == 8 && |ks[1]| == 10 && |ks[2]| == 8 && |ks[3]| == 7 && |ks[4]| == 11;
    assert ks[0][0] != ks[2][0];
  }

  lemma RootMetaKeys()
    ensures GoodKeys(["agent_id", "customer_id", "policy_id", "oauth_connection_id", "cloud_connection_id",
                      "context_hints", "resource_constraint", "mode"])
  {
    AsciiOwners();
    AsciiConnections();
    AsciiScope();
    AsciiChain();
    var ks := ["agent_id", "customer_id", "policy_id", "oauth_connection_id", "cloud_connection_id", "context_hints",
               "resource_constraint", "mode"];
    assert |ks[0]| == 8 && |ks[1]| == 11 && |ks[2]| == 9 && |ks[3]| == 19 && |ks[4]| == 19 && |ks[5]| == 13
           && |ks[6]| == 19 && |ks[7]| == 4;
    assert ks[3][0] != ks[4][0];
    assert ks[3][0] != ks[6][0];
    assert ks[4][0] != ks[6][0];
  }

  lemma ChildMetaKeys()
    ensures GoodKeys(["agent_id", "customer_id", "chain_depth", "mode", "oauth_connection_id", "resource_constraint"])
  {
    AsciiOwners();
    AsciiConnections();
    AsciiScope();
    AsciiChain();
    var ks := ["agent_id", "customer_id", "chain_depth", "mode", "oauth_connection_id", "resource_constraint"];
    assert |ks[0]| == 8 && |ks[1]| == 11 && |ks[2]| == 11 && |ks[3]| == 4 && |ks[4]| == 19 && |ks[5]| == 19;
    assert ks[1][1] != ks[2][1];
    assert ks[4][0] != ks[5][0];
  }

  lemma ConstraintPlain(nfc: Nfc, c: Constraint)
    requires forall s :: Ascii(s) ==> nfc(s) == s
    ensures PlainKeys(nfc, ConstraintFields(c))
  {
    var fs := ConstraintFields(c);
    match c
    case Filesystem(_, _) =>
      FilesystemKeys();
      PlainFrom(nfc, fs, ["provider", "path_prefix", "host"]);
    case Github(_, _, _, _, _, _) =>
      GithubKeys();
      PlainFrom(nfc, fs, ["provider", "owner", "repo", "ref", "path_prefix", "issue_number", "pr_number"]);
    case Azure(_, _, _, _, _) =>
      AzureKeys();
      PlainFrom(nfc, fs, ["provider", "tenant_id", "subscription_id", "resource_group", "resource_type", "name"]);
    case Aws(_, _, _, _) =>
      AwsKeys();
      PlainFrom(nfc, fs, ["provider", "account_id", "region", "service", "arn"]);
    case Gcp(_, _, _, _) =>
      GcpKeys();
      PlainFrom(nfc, fs, ["provider", "project_id", "location", "service", "resource_id"]);
    case Other(_) =>
      AsciiFilesystem();
      PlainFrom(nfc, fs, ["provider"]);
  }

  lemma RootMetaPlain(nfc: Nfc, input: MintInput)
    requires forall s :: Ascii(s) ==> nfc(s) == s
    ensures PlainKeys(nfc, RootMeta(input))
  {
    RootMetaKeys();
    PlainFrom(nfc, RootMeta(input), ["agent_id", "customer_id", "policy_id", "oauth_connection_id",
                                     "cloud_connection_id", "context_hints", "resource_constraint", "mode"]);
  }

  lemma ChildMetaPlain(nfc: Nfc, input: ChildInput)
    requires forall s :: Ascii(s) ==> nfc(s) == s
    ensures PlainKeys(nfc, ChildMeta(input))
  {
    ChildMetaKeys();
    PlainFrom(nfc, ChildMeta(input), ["agent_id", "customer_id", "chain_depth", "mode",
                                      "oauth_connection_id", "resource_constraint"]);
  }

  // ---------------------------------------------------------------- metadata read back

  lemma ConstraintParts(nfc: Nfc, c: Constraint)
    ensures forall f :: f in ConstraintFields(c) ==> f.value.Undefined? || Meaning(nfc, f.value).Some?
  {
    var fs := ConstraintFields(c);
    assert forall i | 0 <= i < |fs| :: fs[i].value.Undefined? || fs[i].value.Str? || fs[i].value.Num?;
  }

  /** A constraint stamped into metadata is recovered from it. */
  lemma ConstraintReadsBack(nfc: Nfc, c: CheckedConstraint)
    requires forall s :: Ascii(s) ==> nfc(s) == s
    ensures Meaning(nfc, Obj(ConstraintFields(c))).Some?
    ensures ParseConstraint(Meaning(nfc, Obj(ConstraintFields(c))).value) == Some(c)
  {
    var fs := ConstraintFields(c);
    ConstraintPlain(nfc, c);
    ConstraintParts(nfc, c);
    PlainMembers(nfc, fs);
    var m := Meaning(nfc, Obj(fs)).value.members;
    assert DescribesAll(m, nfc, fs);
    ConstraintRead(m, nfc, c);
  }

  /** Metadata that means something has the members it lists. */
  lemma MetaMembers(nfc: Nfc, fields: seq<Field>)
    requires PlainKeys(nfc, fields) && Meaning(nfc, Obj(fields)).Some?
    ensures forall f :: f in fields ==> Describes(Meaning(nfc, Obj(fields)).value.members, nfc, f)
  {
    forall j | 0 <= j < |fields| ensures fields[j].value.Undefined? || Meaning(nfc, fields[j].value).Some? {
      PlainMembersOnly(nfc, fields, j);
    }
    PlainMembers(nfc, fields);
  }

  lemma CarriesMember(nfc: Nfc, m: Members, c: Option<CheckedConstraint>)
    requires forall s :: Ascii(s) ==> nfc(s) == s
    requires Describes(m, nfc, Field("resource_constraint", ConstraintValue(c)))
    ensures ExtractConstraint(Some(DObj(m))) == if c.Some? then Found(c.value) else NoConstraint
  {
    if c.Some? {
      ConstraintReadsBack(nfc, c.value);
    }
  }

  /** Metadata with a constraint entry carries exactly that constraint. */
  lemma MetaCarries(nfc: Nfc, fields: seq<Field>, i: nat, c: Option<CheckedConstraint>)
    requires forall s :: Ascii(s) ==> nfc(s) == s
    requires PlainKeys(nfc, fields) && Meaning(nfc, Obj(fields)).Some?
    requires i < |fields| && fields[i] == Field("resource_constraint", ConstraintValue(c))
    ensures ExtractConstraint(Meaning(nfc, Obj(fields))) == if c.Some? then Found(c.value) else NoConstraint
  {
    MetaMembers(nfc, fields);
    assert fields[i] in fields;
    CarriesMember(nfc, Meaning(nfc, Obj(fields)).value.members, c);
  }

  /** A truthy string member of the metadata. */
  function MetaText(meta: Option<Doc>, key: string): Option<string> {
    match meta
    case Some(DObj(m)) => if key in m && m[key].DStr? && m[key].s != "" then Some(m[key].s) else None
    case _ => None
  }

  lemma MetaTextMember(m: Members, nfc: Nfc, key: string, s: string)
    requires Describes(m, nfc, Field(key, Str(s)))
    ensures MetaText(Some(DObj(m)), key) == if s == "" then None else Some(s)
  {
  }

  lemma MetaTextIfTruthy(m: Members, nfc: Nfc, key: string, s: Option<string>)
    requires Describes(m, nfc, Field(key, IfTruthy(s)))
    ensures MetaText(Some(DObj(m)), key) == if Truthy(s) then s else None
  {
  }

  // ---------------------------------------------------------------- one mint

  /** Keys belong to the DIDs they are registered for. */
  ghost predicate KeysRegistered(c: Crypto, p: Platform, db: Tables) {
    && c.keyOfDid(p.signerDid) == Some(c.publicOf(p.signKey))
    && forall id | id in db.agents && db.agents[id].signingKey.Some? ::
         c.keyOfDid(db.agents[id].did) == Some(c.publicOf(db.agents[id].signingKey.value))
  }

  /** What a produced token says of itself: its issuer and audience in canonical form, the command and
      window asked for, and exactly the constraint asked for. */
  ghost predicate Produces(c: Crypto, token: Token, iss: string, aud: string, cmd: string, nbf: int, exp: int,
                           constraint: Option<CheckedConstraint>)
  {
    && token.Some? && Genuine(c, token.value)
    && var q := token.value.payload;
       && c.CanonicalDid(iss) == Some(q.iss)
       && c.CanonicalDid(aud) == Some(q.aud)
       && q.cmd == cmd && q.nbf == nbf && q.exp == exp && nbf < exp
       && Carried(q) == (if constraint.Some? then Found(constraint.value) else NoConstraint)
  }

  /** An issued token whose metadata has a constraint entry produces what it was issued for. */
  lemma IssuedProduces(c: Crypto, p: Payload<Json>, key: string, issued: Issued,
                       fields: seq<Field>, i: nat, constraint: Option<CheckedConstraint>)
    requires c.Correct() && IssueUcan(c, p, key) == Success(issued)
    requires c.keyOfDid(p.iss) == Some(c.publicOf(key))
    requires p.meta == Some(Obj(fields)) && PlainKeys(c.nfc, fields)
    requires i < |fields| && fields[i] == Field("resource_constraint", ConstraintValue(constraint))
    ensures Produces(c, ParseUcan(issued.jwt), p.iss, p.aud, p.cmd, p.nbf, p.exp, constraint)
  {
    var t := IssuedGenuine(c, p, key, issued);
    MetaCarries(c.nfc, fields, i, constraint);
  }

  /** Entries of the metadata of a root token. */
  predicate RootEntries(fields: seq<Field>, input: MintInput) {
    |fields| > 6
    && fields[2] == Field("policy_id", IfTruthy(input.policy))
    && fields[3] == Field("oauth_connection_id", IfTruthy(input.oauth))
    && fields[4] == Field("cloud_connection_id", IfTruthy(input.cloud))
    && fields[6] == Field("resource_constraint", ConstraintValue(input.constraint))
  }

  lemma RootMetaEntries(fields: seq<Field>, input: MintInput)
    requires fields == RootMeta(input)
    ensures RootEntries(fields, input)
  {
  }

  /** What a root mint signs. */
  lemma RootMintIssues(c: Crypto, p: Platform, db: Tables, input: MintInput, now: int, issued: Issued)
    returns (payload: Payload<Json>)
    requires c.Correct() && RootMint(c, p, db, input, now) == Success(issued)
    ensures RootGuards(db, input).None? && db.FindAgent(input.agent, input.customer).Some?
    ensures db.agents[input.agent].active
    ensures IssueUcan(c, payload, p.signKey) == Success(issued)
    ensures payload.meta.Some? && payload.meta.value.Obj?
    ensures PlainKeys(c.nfc, payload.meta.value.fields) && RootEntries(payload.meta.value.fields, input)
    ensures payload.iss == p.signerDid && payload.aud == db.agents[input.agent].did && payload.cmd == input.command
    ensures payload.nbf == now - 60 && payload.exp == now + input.ttl
  {
    payload := RootPayload(p, db.agents[input.agent].did, input, now);
    RootMetaPlain(c.nfc, input);
    RootMetaEntries(RootMeta(input), input);
  }

  /** A root mint produces a token of the platform signer for the agent. */
  lemma RootMintProduces(c: Crypto, p: Platform, db: Tables, input: MintInput, now: int, issued: Issued)
    requires c.Correct() && KeysRegistered(c, p, db) && RootMint(c, p, db, input, now) == Success(issued)
    ensures input.agent in db.agents && db.agents[input.agent].active
            && db.agents[input.agent].customer == input.customer
    ensures Produces(c, ParseUcan(issued.jwt), p.signerDid, db.agents[input.agent].did, input.command,
                     now - 60, now + input.ttl, input.constraint)
  {
    var payload := RootMintIssues(c, p, db, input, now, issued);
    IssuedProduces(c, payload, p.signKey, issued, payload.meta.value.fields, 6, input.constraint);
  }

  /** What the metadata of a root token names. */
  predicate Names(meta: Option<Doc>, input: MintInput) {
    && MetaText(meta, "policy_id") == (if Truthy(input.policy) then input.policy else None)
    && MetaText(meta, "oauth_connection_id") == (if Truthy(input.oauth) then input.oauth else None)
    && MetaText(meta, "cloud_connection_id") == (if Truthy(input.cloud) then input.cloud else None)
  }

  /** Metadata with those entries names those things. */
  lemma FieldsName(nfc: Nfc, fields: seq<Field>, input: MintInput)
    requires PlainKeys(nfc, fields) && Meaning(nfc, Obj(fields)).Some? && |fields| > 4
    requires fields[2] == Field("policy_id", IfTruthy(input.policy))
    requires fields[3] == Field("oauth_connection_id", IfTruthy(input.oauth))
    requires fields[4] == Field("cloud_connection_id", IfTruthy(input.cloud))
    ensures Names(Meaning(nfc, Obj(fields)), input)
  {
    MetaMembers(nfc, fields);
    var m := Meaning(nfc, Obj(fields)).value.members;
    assert fields[2] in fields && fields[3] in fields && fields[4] in fields;
    MetaTextIfTruthy(m, nfc, "policy_id", input.policy);
    MetaTextIfTruthy(m, nfc, "oauth_connection_id", input.oauth);
    MetaTextIfTruthy(m, nfc, "cloud_connection_id", input.cloud);
  }

  lemma IssuedNames(c: Crypto, p: Payload<Json>, key: string, issued: Issued, fields: seq<Field>, input: MintInput)
    requires c.Correct() && IssueUcan(c, p, key) == Success(issued)
    requires p.meta == Some(Obj(fields)) && PlainKeys(c.nfc, fields) && |fields| > 4
    requires fields[2] == Field("policy_id", IfTruthy(input.policy))
    requires fields[3] == Field("oauth_connection_id", IfTruthy(input.oauth))
    requires fields[4] == Field("cloud_connection_id", IfTruthy(input.cloud))
    ensures ParseUcan(issued.jwt).Some? && Names(ParseUcan(issued.jwt).value.payload.meta, input)
  {
    var t := TokenRoundTrip(c, p, key, issued);
    FieldsName(c.nfc, fields, input);
  }

  /** What the metadata names is the customer's: the policy, the one connection (never two), and a cloud
      connection is verified. */
  predicate Owned(db: Tables, customer: string, meta: Option<Doc>) {
    var policy, oauth, cloud :=
      MetaText(meta, "policy_id"), MetaText(meta, "oauth_connection_id"), MetaText(meta, "cloud_connection_id");
    && (policy.Some? ==> policy.value in db.policies && db.policies[policy.value] == customer)
    && (oauth.Some? ==> oauth.value in db.oauthConnections && db.oauthConnections[oauth.value] == customer)
    && (cloud.Some? ==> cloud.value in db.cloudConnections
                        && db.cloudConnections[cloud.value] == CloudConnection(customer, true))
    && !(oauth.Some? && cloud.Some?)
  }

  lemma NamesOwned(db: Tables, input: MintInput, meta: Option<Doc>)
    requires RootGuards(db, input).None? && Names(meta, input)
    ensures Owned(db, input.customer, meta)
  {
  }

  lemma RootMintNames(c: Crypto, p: Platform, db: Tables, input: MintInput, now: int, issued: Issued)
    requires c.Correct() && RootMint(c, p, db, input, now) == Success(issued)
    ensures RootGuards(db, input).None?
    ensures ParseUcan(issued.jwt).Some? && Names(ParseUcan(issued.jwt).value.payload.meta, input)
  {
    var payload := RootMintIssues(c, p, db, input, now, issued);
    IssuedNames(c, payload, p.signKey, issued, payload.meta.value.fields, input);
  }

  /** Everything a root token names is its customer's. */
  lemma RootMintOwned(c: Crypto, p: Platform, db: Tables, input: MintInput, now: int, issued: Issued)
    requires c.Correct() && RootMint(c, p, db, input, now) == Success(issued)
    ensures ParseUcan(issued.jwt).Some? && Owned(db, input.customer, ParseUcan(issued.jwt).value.payload.meta)
  {
    RootMintNames(c, p, db, input, now, issued);
    NamesOwned(db, input, ParseUcan(issued.jwt).value.payload.meta);
  }

  /** A child mint succeeds only on an accepted parent chain whose leaf belongs to the caller, and then
      produces a token of the parent agent for the child agent inside the leaf's bounds. */
  lemma ChildMintProduces(c: Crypto, p: Platform, db: Tables, input: ChildInput, now: int, issued: Issued)
    requires c.Correct() && KeysRegistered(c, p, db) && ChildMint(c, p, db, input, now) == Success(issued)
    ensures ChainVerdict(c, ParseAll(input.parentChain), now, None, None).Success?
    ensures |input.parentChain| + 1 <= p.maxChainDepth && input.childAgent in db.agents
    ensures var leaf := ChainVerdict(c, ParseAll(input.parentChain), now, None, None).value.leaf;
            && ActionMatchesGranted(leaf.cmd, input.command) && now + input.ttl <= leaf.exp
            && Produces(c, ParseUcan(issued.jwt), leaf.aud, db.agents[input.childAgent].did, input.command,
                        if leaf.nbf >= now - 60 then leaf.nbf else now - 60, now + input.ttl, input.constraint)
            && (input.constraint.Some? ==>
                  Carried(leaf).NoConstraint?
                  || (Carried(leaf).Found? && Covers(Carried(leaf).constraint, input.constraint.value)))
  {
    var leaf := ChainVerdict(c, ParseAll(input.parentChain), now, None, None).value.leaf;
    var parent, child := db.agents[input.parentAgent], db.agents[input.childAgent];
    ChildMetaPlain(c.nfc, input);
    var fields := ChildMeta(input);
    assert fields[5] == Field("resource_constraint", ConstraintValue(input.constraint));
    IssuedProduces(c, ChildPayload(c, input, leaf, parent.did, child.did, now), parent.signingKey.value, issued,
                   fields, 5, input.constraint);
  }
}
