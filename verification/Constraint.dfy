/** Resource constraints: the syntactic subset check and the semantic match of
    packages/ucan/src/constraint.ts. */
module Constraint {
  import opened Common
  import opened Canonical

  /** `ResourceConstraint`. The five providers that the two checks know have their own variants; the
      thirteen others, whose fields neither check reads, share `Other`. */
  datatype Constraint =
    | Filesystem(pathPrefix: string, host: Option<string>)
    | Github(owner: string, repo: Option<string>, ref: Option<string>, ghPrefix: Option<string>,
             issue: Option<int>, pr: Option<int>)
    | Azure(tenant: Option<string>, subscription: Option<string>, group: Option<string>,
            kind: Option<string>, name: Option<string>)
    | Aws(account: Option<string>, region: Option<string>, awsService: Option<string>, arn: Option<string>)
    | Gcp(project: Option<string>, location: Option<string>, gcpService: Option<string>, resourceId: Option<string>)
    | Other(provider: string)

  /** A free-form `request.resource`. */
  type Resource = map<string, Doc>

  predicate SameProvider(p: Constraint, c: Constraint) {
    match (p, c)
    case (Filesystem(_, _), Filesystem(_, _)) => true
    case (Github(_, _, _, _, _, _), Github(_, _, _, _, _, _)) => true
    case (Azure(_, _, _, _, _), Azure(_, _, _, _, _)) => true
    case (Aws(_, _, _, _), Aws(_, _, _, _)) => true
    case (Gcp(_, _, _, _), Gcp(_, _, _, _)) => true
    case (Other(a), Other(b)) => a == b
    case _ => false
  }

  /** An optional host counts as set only when it is not the empty string. */
  predicate Truthy(s: Option<string>) {
    s.Some? && s.value != ""
  }

  /** `parent === undefined || child === parent` */
  predicate Pinned<T(==)>(parent: Option<T>, child: Option<T>) {
    parent.None? || child == parent
  }

  /** `constraintCovers` */
  predicate Covers(parent: Constraint, child: Constraint) {
    if !SameProvider(parent, child) then false
    else
      match parent
      case Filesystem(prefix, host) =>
        if Truthy(host) && Truthy(child.host) && host != child.host then false
        else if Truthy(host) && !Truthy(child.host) then false
        else StartsWith(child.pathPrefix, prefix)
      case Github(owner, repo, ref, prefix, issue, pr) =>
        && owner == child.owner
        && Pinned(repo, child.repo)
        && Pinned(ref, child.ref)
        && (prefix.Some? ==> child.ghPrefix.Some? && StartsWith(child.ghPrefix.value, prefix.value))
        && Pinned(issue, child.issue)
        && Pinned(pr, child.pr)
      case Azure(tenant, subscription, group, kind, name) =>
        && Pinned(tenant, child.tenant)
        && Pinned(subscription, child.subscription)
        && Pinned(group, child.group)
        && Pinned(kind, child.kind)
        && Pinned(name, child.name)
      case Aws(account, region, service, arn) =>
        && Pinned(account, child.account)
        && Pinned(region, child.region)
        && Pinned(service, child.awsService)
        && Pinned(arn, child.arn)
      case Gcp(project, location, service, id) =>
        && Pinned(project, child.project)
        && Pinned(location, child.location)
        && Pinned(service, child.gcpService)
        && Pinned(id, child.resourceId)
      case Other(_) => false
  }

  /** The resource has a string under `key`, and it equals the pinned value if there is one. */
  predicate Holds(r: Resource, key: string, want: Option<string>) {
    want.Some? ==> key in r && r[key] == DStr(want.value)
  }

  predicate HoldsNumber(r: Resource, key: string, want: Option<int>) {
    want.Some? ==> key in r && r[key] == DNum(want.value)
  }

  predicate HoldsPrefix(r: Resource, key: string, want: Option<string>) {
    want.Some? ==> key in r && r[key].DStr? && StartsWith(r[key].s, want.value)
  }

  /** `constraintMatchesResource` */
  predicate Matches(c: Constraint, r: Resource) {
    match c
    case Filesystem(prefix, host) =>
      if !("path" in r && r["path"].DStr?) then false
      else if Truthy(host) && !Holds(r, "host", host) then false
      else StartsWith(r["path"].s, prefix)
    case Github(owner, repo, ref, prefix, issue, pr) =>
      && Holds(r, "owner", Some(owner))
      && Holds(r, "repo", repo)
      && Holds(r, "ref", ref)
      && HoldsNumber(r, "issue_number", issue)
      && HoldsNumber(r, "pr_number", pr)
      && HoldsPrefix(r, "path", prefix)
    case Azure(_, subscription, group, kind, name) =>
      && Holds(r, "subscription_id", subscription)
      && Holds(r, "resource_group", group)
      && Holds(r, "resource_type", kind)
      && Holds(r, "name", name)
    case Aws(account, region, service, arn) =>
      && Holds(r, "account_id", account)
      && Holds(r, "region", region)
      && Holds(r, "service", service)
      && Holds(r, "arn", arn)
    case Gcp(project, location, service, id) =>
      && Holds(r, "project_id", project)
      && Holds(r, "location", location)
      && Holds(r, "service", service)
      && Holds(r, "resource_id", id)
    case Other(_) => false
  }

  // ---------------------------------------------------------------- the JSON form

  const OTHER_PROVIDERS: set<string> :=
    {"slack", "stripe", "linear", "notion", "google_drive", "google_gmail", "google_calendar", "google_docs",
     "google_sheets", "google_tasks", "google_contacts", "ssh", "discord"}

  /** An optional non-empty string: `None` outside means a value of the wrong shape. */
  function OptText(m: map<string, Doc>, k: string): Option<Option<string>> {
    if k !in m then Some(None)
    else if m[k].DStr? && m[k].s != "" then Some(Some(m[k].s))
    else None
  }

  /** An optional positive integer. */
  function OptPositive(m: map<string, Doc>, k: string): Option<Option<int>> {
    if k !in m then Some(None)
    else if m[k].DNum? && m[k].n > 0 then Some(Some(m[k].n))
    else None
  }

  function ParseFilesystem(m: map<string, Doc>): Option<Constraint> {
    var host := if "host" in m && m["host"].DStr? then Some(m["host"].s) else None;
    match OptText(m, "path_prefix")
    case Some(Some(prefix)) => if "host" in m && host.None? then None else Some(Filesystem(prefix, host))
    case _ => None
  }

  function ParseGithub(m: map<string, Doc>): Option<Constraint> {
    match (OptText(m, "owner"), OptText(m, "repo"), OptText(m, "ref"))
    case (Some(Some(owner)), Some(repo), Some(ref)) =>
      (match (OptText(m, "path_prefix"), OptPositive(m, "issue_number"), OptPositive(m, "pr_number"))
       case (Some(prefix), Some(issue), Some(pr)) => Some(Github(owner, repo, ref, prefix, issue, pr))
       case _ => None)
    case _ => None
  }

  function ParseAzure(m: map<string, Doc>): Option<Constraint> {
    match (OptText(m, "tenant_id"), OptText(m, "subscription_id"), OptText(m, "resource_group"))
    case (Some(tenant), Some(subscription), Some(group)) =>
      (match (OptText(m, "resource_type"), OptText(m, "name"))
       case (Some(kind), Some(name)) => Some(Azure(tenant, subscription, group, kind, name))
       case _ => None)
    case _ => None
  }

  function ParseAws(m: map<string, Doc>): Option<Constraint> {
    match (OptText(m, "account_id"), OptText(m, "region"), OptText(m, "service"), OptText(m, "arn"))
    case (Some(account), Some(region), Some(service), Some(arn)) => Some(Aws(account, region, service, arn))
    case _ => None
  }

  function ParseGcp(m: map<string, Doc>): Option<Constraint> {
    match (OptText(m, "project_id"), OptText(m, "location"), OptText(m, "service"), OptText(m, "resource_id"))
    case (Some(project), Some(location), Some(service), Some(id)) => Some(Gcp(project, location, service, id))
    case _ => None
  }

  /** `ResourceConstraint.parse`; none is its exception. */
  function ParseConstraint(d: Doc): Option<Constraint> {
    if !(d.DObj? && "provider" in d.members && d.members["provider"].DStr?) then None
    else
      var m := d.members;
      var provider := m["provider"].s;
      if provider == "filesystem" then ParseFilesystem(m)
      else if provider == "github" then ParseGithub(m)
      else if provider == "azure" then ParseAzure(m)
      else if provider == "aws" then ParseAws(m)
      else if provider == "gcp" then ParseGcp(m)
      else if provider in OTHER_PROVIDERS then Some(Other(provider))
      else None
  }

  function TextOrNone(s: Option<string>): Json {
    if s.Some? then Str(s.value) else Undefined
  }

  function NumberOrNone(n: Option<int>): Json {
    if n.Some? then Num(n.value) else Undefined
  }

  /** The object a constraint is, as it is stamped into a token's metadata. */
  function ConstraintFields(c: Constraint): seq<Field> {
    match c
    case Filesystem(prefix, host) =>
      [Field("provider", Str("filesystem")), Field("path_prefix", Str(prefix)), Field("host", TextOrNone(host))]
    case Github(owner, repo, ref, prefix, issue, pr) =>
      [Field("provider", Str("github")), Field("owner", Str(owner)), Field("repo", TextOrNone(repo)),
       Field("ref", TextOrNone(ref)), Field("path_prefix", TextOrNone(prefix)),
       Field("issue_number", NumberOrNone(issue)), Field("pr_number", NumberOrNone(pr))]
    case Azure(tenant, subscription, group, kind, name) =>
      [Field("provider", Str("azure")), Field("tenant_id", TextOrNone(tenant)),
       Field("subscription_id", TextOrNone(subscription)), Field("resource_group", TextOrNone(group)),
       Field("resource_type", TextOrNone(kind)), Field("name", TextOrNone(name))]
    case Aws(account, region, service, arn) =>
      [Field("provider", Str("aws")), Field("account_id", TextOrNone(account)), Field("region", TextOrNone(region)),
       Field("service", TextOrNone(service)), Field("arn", TextOrNone(arn))]
    case Gcp(project, location, service, id) =>
      [Field("provider", Str("gcp")), Field("project_id", TextOrNone(project)), Field("location", TextOrNone(location)),
       Field("service", TextOrNone(service)), Field("resource_id", TextOrNone(id))]
    case Other(provider) =>
      [Field("provider", Str(provider))]
  }

  predicate NotEmpty(s: Option<string>) {
    s != Some("")
  }

  predicate PositiveOrNone(n: Option<int>) {
    n.Some? ==> n.value > 0
  }

  /** What the schema demands of a constraint's fields. */
  predicate WellFormed(c: Constraint) {
    match c
    case Filesystem(prefix, _) => prefix != ""
    case Github(owner, repo, ref, prefix, issue, pr) =>
      owner != "" && NotEmpty(repo) && NotEmpty(ref) && NotEmpty(prefix) && PositiveOrNone(issue) && PositiveOrNone(pr)
    case Azure(tenant, subscription, group, kind, name) =>
      NotEmpty(tenant) && NotEmpty(subscription) && NotEmpty(group) && NotEmpty(kind) && NotEmpty(name)
    case Aws(account, region, service, arn) =>
      NotEmpty(account) && NotEmpty(region) && NotEmpty(service) && NotEmpty(arn)
    case Gcp(project, location, service, id) =>
      NotEmpty(project) && NotEmpty(location) && NotEmpty(service) && NotEmpty(id)
    case Other(provider) => provider in OTHER_PROVIDERS
  }

  /** A constraint that has passed the schema. */
  type CheckedConstraint = c: Constraint | WellFormed(c) witness Aws(None, None, None, None)

  datatype Extracted = NoConstraint | Found(constraint: Constraint) | Malformed

  /** `extractResourceConstraint`; `Malformed` is its exception. */
  function ExtractConstraint(meta: Option<Doc>): Extracted {
    if meta.None? || !meta.value.DObj? then NoConstraint
    else
      var m := meta.value.members;
      if "resource_constraint" !in m || m["resource_constraint"].DNull? then NoConstraint
      else
        match ParseConstraint(m["resource_constraint"])
        case None => Malformed
        case Some(c) => Found(c)
  }

  // ---------------------------------------------------------------- order laws

  /** A covered constraint's constraints are covered too. */
  lemma CoversTransitive(a: Constraint, b: Constraint, c: Constraint)
    requires Covers(a, b) && Covers(b, c)
    ensures Covers(a, c)
  {
    if a.Filesystem? {
      StartsWithTransitive(a.pathPrefix, b.pathPrefix, c.pathPrefix);
    } else if a.Github? && a.ghPrefix.Some? {
      StartsWithTransitive(a.ghPrefix.value, b.ghPrefix.value, c.ghPrefix.value);
    }
  }

  /** A constraint covers itself exactly when its provider is one of the five known ones. */
  lemma CoversReflexive(c: Constraint)
    ensures Covers(c, c) <==> !c.Other?
  {
  }

  /** The one spelling variation the checks ignore: an empty host is no host. */
  function Spelled(c: Constraint): Constraint {
    if c.Filesystem? && !Truthy(c.host) then c.(host := None) else c
  }

  /** Covering both ways is equality up to an empty filesystem host. */
  lemma MutualCoverIsEquality(a: Constraint, b: Constraint)
    ensures Covers(a, b) && Covers(b, a) <==> !a.Other? && Spelled(a) == Spelled(b)
  {
    if Covers(a, b) && Covers(b, a) {
      if a.Filesystem? {
        StartsWithAntisymmetric(a.pathPrefix, b.pathPrefix);
      } else if a.Github? && a.ghPrefix.Some? {
        StartsWithAntisymmetric(a.ghPrefix.value, b.ghPrefix.value);
      }
    }
  }

  // ---------------------------------------------------------------- covering is containment

  /** Every resource that matches the child matches the parent. */
  ghost predicate Contains(parent: Constraint, child: Constraint) {
    forall r: Resource :: Matches(child, r) ==> Matches(parent, r)
  }

  /** A covered constraint admits no resource outside its parent. */
  lemma CoversContains(parent: Constraint, child: Constraint)
    requires Covers(parent, child)
    ensures Contains(parent, child)
  {
    forall r: Resource | Matches(child, r) ensures Matches(parent, r) {
      if parent.Filesystem? {
        StartsWithTransitive(parent.pathPrefix, child.pathPrefix, r["path"].s);
      } else if parent.Github? && parent.ghPrefix.Some? {
        StartsWithTransitive(parent.ghPrefix.value, child.ghPrefix.value, r["path"].s);
      }
    }
  }

  function Pin(key: string, v: Option<string>): Resource {
    if v.Some? then map[key := DStr(v.value)] else map[]
  }

  function PinNumber(key: string, v: Option<int>): Resource {
    if v.Some? then map[key := DNum(v.value)] else map[]
  }

  predicate Same(r: Resource, s: Resource, k: string) {
    (k in r <==> k in s) && (k in r ==> r[k] == s[k])
  }

  /** The smallest resource a constraint matches: exactly the pinned fields, at their pinned values. */
  function Tightest(c: Constraint): Resource {
    match c
    case Filesystem(prefix, host) =>
      Pin("host", if Truthy(host) then host else None) + Pin("path", Some(prefix))
    case Github(owner, repo, ref, prefix, issue, pr) =>
      (Pin("owner", Some(owner)) + Pin("repo", repo) + Pin("ref", ref) + Pin("path", prefix))
      + (PinNumber("issue_number", issue) + PinNumber("pr_number", pr))
    case Azure(_, subscription, group, kind, name) =>
      Pin("subscription_id", subscription) + Pin("resource_group", group) + Pin("resource_type", kind)
        + Pin("name", name)
    case Aws(account, region, service, arn) =>
      Pin("account_id", account) + Pin("region", region) + Pin("service", service) + Pin("arn", arn)
    case Gcp(project, location, service, id) =>
      Pin("project_id", project) + Pin("location", location) + Pin("service", service) + Pin("resource_id", id)
    case Other(_) => map[]
  }

  lemma KeysDiffer()
    ensures "owner" != "repo" && "owner" != "ref" && "owner" != "path"
    ensures "repo" != "ref" && "repo" != "path" && "ref" != "path" && "host" != "path"
    ensures "issue_number" != "pr_number"
    ensures "subscription_id" != "resource_group" && "subscription_id" != "resource_type" && "subscription_id" != "name"
    ensures "resource_group" != "resource_type" && "resource_group" != "name" && "resource_type" != "name"
    ensures "account_id" != "region" && "account_id" != "service" && "account_id" != "arn"
    ensures "region" != "service" && "region" != "arn" && "service" != "arn"
    ensures "project_id" != "location" && "project_id" != "service" && "project_id" != "resource_id"
    ensures "location" != "service" && "location" != "resource_id" && "service" != "resource_id"
  {
    assert "resource_group"[9] != "resource_type"[9];
    assert "host"[0] != "path"[0] && "repo"[0] != "path"[0];
  }

  lemma TwoPins(k1: string, p1: Resource, k2: string, p2: Resource)
    requires k1 != k2 && p1.Keys <= {k1} && p2.Keys <= {k2}
    ensures Same(p1 + p2, p1, k1) && Same(p1 + p2, p2, k2) && (p1 + p2).Keys <= {k1, k2}
  {
  }

  /** Each of four pinned keys keeps its own pin. */
  lemma FourPins(k1: string, p1: Resource, k2: string, p2: Resource,
                 k3: string, p3: Resource, k4: string, p4: Resource)
    requires k1 != k2 && k1 != k3 && k1 != k4 && k2 != k3 && k2 != k4 && k3 != k4
    requires p1.Keys <= {k1} && p2.Keys <= {k2} && p3.Keys <= {k3} && p4.Keys <= {k4}
    ensures var r := p1 + p2 + p3 + p4;
            Same(r, p1, k1) && Same(r, p2, k2) && Same(r, p3, k3) && Same(r, p4, k4)
            && r.Keys <= {k1, k2, k3, k4}
  {
  }

  lemma DisjointPins(a: Resource, b: Resource)
    requires a.Keys !! b.Keys
    ensures forall k | k in a :: Same(a + b, a, k)
    ensures forall k | k in b :: Same(a + b, b, k)
    ensures (a + b).Keys == a.Keys + b.Keys
  {
  }

  /** The tightest resource of a github constraint has exactly the pinned fields. */
  lemma GithubPins(c: Constraint)
    requires c.Github?
    ensures var r := Tightest(c);
            && Same(r, Pin("owner", Some(c.owner)), "owner") && Same(r, Pin("repo", c.repo), "repo")
            && Same(r, Pin("ref", c.ref), "ref") && Same(r, Pin("path", c.ghPrefix), "path")
            && Same(r, PinNumber("issue_number", c.issue), "issue_number")
            && Same(r, PinNumber("pr_number", c.pr), "pr_number")
  {
    KeysDiffer();
    GithubKeysDiffer();
    var a1, a2, a3, a4 := Pin("owner", Some(c.owner)), Pin("repo", c.repo), Pin("ref", c.ref), Pin("path", c.ghPrefix);
    var b1, b2 := PinNumber("issue_number", c.issue), PinNumber("pr_number", c.pr);
    FourPins("owner", a1, "repo", a2, "ref", a3, "path", a4);
    TwoPins("issue_number", b1, "pr_number", b2);
    DisjointPins(a1 + a2 + a3 + a4, b1 + b2);
  }

  lemma GithubKeysDiffer()
    ensures "owner" != "issue_number" && "repo" != "issue_number" && "ref" != "issue_number" && "path" != "issue_number"
    ensures "owner" != "pr_number" && "repo" != "pr_number" && "ref" != "pr_number" && "path" != "pr_number"
    ensures "issue_number" != "pr_number"
  {
  }

  lemma PinHolds(r: Resource, key: string, v: Option<string>)
    requires Same(r, Pin(key, v), key)
    ensures forall w :: Holds(r, key, w) <==> Pinned(w, v)
    ensures forall w :: HoldsPrefix(r, key, w) <==> (w.Some? ==> v.Some? && StartsWith(v.value, w.value))
  {
  }

  lemma PinNumberHolds(r: Resource, key: string, v: Option<int>)
    requires Same(r, PinNumber(key, v), key)
    ensures forall w :: HoldsNumber(r, key, w) <==> Pinned(w, v)
  {
  }

  lemma FourPinsHold(k1: string, v1: Option<string>, k2: string, v2: Option<string>,
                     k3: string, v3: Option<string>, k4: string, v4: Option<string>)
    requires k1 != k2 && k1 != k3 && k1 != k4 && k2 != k3 && k2 != k4 && k3 != k4
    ensures var r := Pin(k1, v1) + Pin(k2, v2) + Pin(k3, v3) + Pin(k4, v4);
            forall w ::
              && (Holds(r, k1, w) <==> Pinned(w, v1)) && (Holds(r, k2, w) <==> Pinned(w, v2))
              && (Holds(r, k3, w) <==> Pinned(w, v3)) && (Holds(r, k4, w) <==> Pinned(w, v4))
  {
    var r := Pin(k1, v1) + Pin(k2, v2) + Pin(k3, v3) + Pin(k4, v4);
    FourPins(k1, Pin(k1, v1), k2, Pin(k2, v2), k3, Pin(k3, v3), k4, Pin(k4, v4));
    PinHolds(r, k1, v1);
    PinHolds(r, k2, v2);
    PinHolds(r, k3, v3);
    PinHolds(r, k4, v4);
  }

  lemma GithubMatchesTightest(parent: Constraint, child: Constraint)
    requires parent.Github? && child.Github?
    ensures Matches(parent, Tightest(child)) <==> Covers(parent, child)
  {
    var r := Tightest(child);
    GithubPins(child);
    PinHolds(r, "owner", Some(child.owner));
    PinHolds(r, "repo", child.repo);
    PinHolds(r, "ref", child.ref);
    PinHolds(r, "path", child.ghPrefix);
    PinNumberHolds(r, "issue_number", child.issue);
    PinNumberHolds(r, "pr_number", child.pr);
  }

  lemma FilesystemMatchesTightest(parent: Constraint, child: Constraint)
    requires parent.Filesystem? && child.Filesystem?
    ensures Matches(parent, Tightest(child)) <==> Covers(parent, child)
  {
    KeysDiffer();
    var host := if Truthy(child.host) then child.host else None;
    var r := Tightest(child);
    TwoPins("host", Pin("host", host), "path", Pin("path", Some(child.pathPrefix)));
    PinHolds(r, "host", host);
  }

  /** Matching the child's tightest resource is covering the child, up to an Azure tenant. */
  lemma MatchesTightest(parent: Constraint, child: Constraint)
    requires SameProvider(parent, child) && !parent.Other?
    ensures Matches(parent, Tightest(child))
            <==> Covers(if parent.Azure? then parent.(tenant := None) else parent, child)
  {
    KeysDiffer();
    match child
    case Filesystem(_, _) => FilesystemMatchesTightest(parent, child);
    case Github(_, _, _, _, _, _) => GithubMatchesTightest(parent, child);
    case Azure(_, subscription, group, kind, name) =>
      FourPinsHold("subscription_id", subscription, "resource_group", group, "resource_type", kind, "name", name);
    case Aws(account, region, service, arn) =>
      FourPinsHold("account_id", account, "region", region, "service", service, "arn", arn);
    case Gcp(project, location, service, id) =>
      FourPinsHold("project_id", project, "location", location, "service", service, "resource_id", id);
    case Other(_) =>
  }

  /** Between constraints of one provider other than azure, covering is exactly containment of
      matched resources. */
  lemma CoversIffContains(parent: Constraint, child: Constraint)
    requires SameProvider(parent, child) && !parent.Other? && !parent.Azure?
    ensures Covers(parent, child) <==> Contains(parent, child)
  {
    if Covers(parent, child) {
      CoversContains(parent, child);
    } else if Contains(parent, child) {
      MatchesTightest(child, child);
      MatchesTightest(parent, child);
    }
  }

  /** Azure containment ignores the tenant, which covering compares and matching does not. */
  lemma AzureContainsIff(parent: Constraint, child: Constraint)
    requires parent.Azure? && child.Azure?
    ensures Contains(parent, child) <==> Covers(parent.(tenant := None), child)
    ensures Covers(parent, child) <==> Contains(parent, child) && Pinned(parent.tenant, child.tenant)
  {
    var anyTenant := parent.(tenant := None);
    if Covers(anyTenant, child) {
      CoversContains(anyTenant, child);
      assert forall r: Resource :: Matches(anyTenant, r) == Matches(parent, r);
    }
    if Contains(parent, child) {
      MatchesTightest(child, child);
      MatchesTightest(parent, child);
    }
  }
}
