/** How constraints are written and read, and what each written field demands of a resource
    (packages/shared-types/src/ucan.ts, packages/ucan/src/constraint.ts). */
module ConstraintForms {
  import opened Common
  import opened Canonical
  import opened Constraint

  // ---------------------------------------------------------------- reading

  /** An object has a field as it is written, or does not have one that is left out. */
  predicate Has(m: map<string, Doc>, f: Field) {
    match f.value
    case Str(s) => f.key in m && m[f.key] == DStr(s)
    case Num(n) => f.key in m && m[f.key] == DNum(n)
    case _ => f.key !in m
  }

  /** An object with all the fields. */
  predicate Written(m: map<string, Doc>, c: Constraint) {
    forall i | 0 <= i < |ConstraintFields(c)| :: Has(m, ConstraintFields(c)[i])
  }

  lemma TextReads(m: map<string, Doc>, k: string, s: Option<string>)
    ensures OptText(m, k) == Some(s) <==> NotEmpty(s) && Has(m, Field(k, TextOrNone(s)))
  {
  }

  lemma NumberReads(m: map<string, Doc>, k: string, n: Option<int>)
    ensures OptPositive(m, k) == Some(n) <==> PositiveOrNone(n) && Has(m, Field(k, NumberOrNone(n)))
  {
  }

  lemma FilesystemReads(m: map<string, Doc>, c: Constraint)
    requires c.Filesystem? && Has(m, Field("provider", Str("filesystem")))
    ensures ParseFilesystem(m) == Some(c) <==> WellFormed(c) && Written(m, c)
  {
    TextReads(m, "path_prefix", Some(c.pathPrefix));
    assert Written(m, c) <==> Has(m, ConstraintFields(c)[0]) && Has(m, ConstraintFields(c)[1])
                              && Has(m, ConstraintFields(c)[2]);
  }

  lemma GithubReads(m: map<string, Doc>, c: Constraint)
    requires c.Github? && Has(m, Field("provider", Str("github")))
    ensures ParseGithub(m) == Some(c) <==> WellFormed(c) && Written(m, c)
  {
    TextReads(m, "owner", Some(c.owner));
    TextReads(m, "repo", c.repo);
    TextReads(m, "ref", c.ref);
    TextReads(m, "path_prefix", c.ghPrefix);
    NumberReads(m, "issue_number", c.issue);
    NumberReads(m, "pr_number", c.pr);
    var fs := ConstraintFields(c);
    assert Written(m, c) <==> Has(m, fs[0]) && Has(m, fs[1]) && Has(m, fs[2]) && Has(m, fs[3]) && Has(m, fs[4])
                              && Has(m, fs[5]) && Has(m, fs[6]);
  }

  lemma AzureReads(m: map<string, Doc>, c: Constraint)
    requires c.Azure? && Has(m, Field("provider", Str("azure")))
    ensures ParseAzure(m) == Some(c) <==> WellFormed(c) && Written(m, c)
  {
    TextReads(m, "tenant_id", c.tenant);
    TextReads(m, "subscription_id", c.subscription);
    TextReads(m, "resource_group", c.group);
    TextReads(m, "resource_type", c.kind);
    TextReads(m, "name", c.name);
    var fs := ConstraintFields(c);
    assert Written(m, c) <==> Has(m, fs[0]) && Has(m, fs[1]) && Has(m, fs[2]) && Has(m, fs[3]) && Has(m, fs[4])
                              && Has(m, fs[5]);
  }

  lemma AwsReads(m: map<string, Doc>, c: Constraint)
    requires c.Aws? && Has(m, Field("provider", Str("aws")))
    ensures ParseAws(m) == Some(c) <==> WellFormed(c) && Written(m, c)
  {
    TextReads(m, "account_id", c.account);
    TextReads(m, "region", c.region);
    TextReads(m, "service", c.awsService);
    TextReads(m, "arn", c.arn);
    var fs := ConstraintFields(c);
    assert Written(m, c) <==> Has(m, fs[0]) && Has(m, fs[1]) && Has(m, fs[2]) && Has(m, fs[3]) && Has(m, fs[4]);
  }

  lemma GcpReads(m: map<string, Doc>, c: Constraint)
    requires c.Gcp? && Has(m, Field("provider", Str("gcp")))
    ensures ParseGcp(m) == Some(c) <==> WellFormed(c) && Written(m, c)
  {
    TextReads(m, "project_id", c.project);
    TextReads(m, "location", c.location);
    TextReads(m, "service", c.gcpService);
    TextReads(m, "resource_id", c.resourceId);
    var fs := ConstraintFields(c);
    assert Written(m, c) <==> Has(m, fs[0]) && Has(m, fs[1]) && Has(m, fs[2]) && Has(m, fs[3]) && Has(m, fs[4]);
  }

  /** The name a provider is written under. */
  predicate Named(provider: string, c: Constraint) {
    match c
    case Filesystem(_, _) => provider == "filesystem"
    case Github(_, _, _, _, _, _) => provider == "github"
    case Azure(_, _, _, _, _) => provider == "azure"
    case Aws(_, _, _, _) => provider == "aws"
    case Gcp(_, _, _, _) => provider == "gcp"
    case Other(name) => provider == name
  }

  /** The thirteen other providers. */
  predicate OtherProvider(p: string) {
    p == "slack" || p == "stripe" || p == "linear" || p == "notion" || p == "google_drive" || p == "google_gmail"
    || p == "google_calendar" || p == "google_docs" || p == "google_sheets" || p == "google_tasks"
    || p == "google_contacts" || p == "ssh" || p == "discord"
  }

  lemma OtherProviderIff(p: string)
    ensures OtherProvider(p) <==> p in OTHER_PROVIDERS
    ensures OtherProvider(p) ==> p != "filesystem" && p != "github" && p != "azure" && p != "aws" && p != "gcp"
  {
  }

  lemma NamesApart()
    ensures "filesystem" != "github" && "filesystem" != "azure" && "filesystem" != "aws" && "filesystem" != "gcp"
    ensures "github" != "azure" && "github" != "aws" && "github" != "gcp"
    ensures "azure" != "aws" && "azure" != "gcp" && "aws" != "gcp"
  {
    assert "aws"[0] != "gcp"[0];
  }

  lemma WrittenNamed(m: map<string, Doc>, c: Constraint)
    requires Written(m, c)
    ensures "provider" in m && m["provider"].DStr? && Named(m["provider"].s, c)
  {
    assert Has(m, ConstraintFields(c)[0]);
  }

  lemma OtherWritten(m: map<string, Doc>, c: Constraint)
    requires c.Other?
    ensures Written(m, c) <==> Has(m, Field("provider", Str(c.provider)))
  {
    assert Written(m, c) <==> Has(m, ConstraintFields(c)[0]);
  }

  lemma NamedRead(m: map<string, Doc>, c: Constraint)
    requires "provider" in m && m["provider"].DStr? && Named(m["provider"].s, c)
    ensures ParseConstraint(DObj(m)) == Some(c) <==> WellFormed(c) && Written(m, c)
  {
    NamesApart();
    match c
    case Filesystem(_, _) => FilesystemReads(m, c);
    case Github(_, _, _, _, _, _) => GithubReads(m, c);
    case Azure(_, _, _, _, _) => AzureReads(m, c);
    case Aws(_, _, _, _) => AwsReads(m, c);
    case Gcp(_, _, _, _) => GcpReads(m, c);
    case Other(name) =>
      OtherProviderIff(name);
      OtherWritten(m, c);
  }

  lemma ReadNamed(d: Doc, c: Constraint)
    requires ParseConstraint(d) == Some(c)
    ensures d.DObj? && "provider" in d.members && d.members["provider"].DStr? && Named(d.members["provider"].s, c)
  {
  }

  /** A constraint is read exactly from the objects that have its fields as it is written, and only if the schema
      allows it. */
  lemma ReadIff(d: Doc, c: Constraint)
    ensures ParseConstraint(d) == Some(c) <==> d.DObj? && WellFormed(c) && Written(d.members, c)
  {
    if ParseConstraint(d) == Some(c) {
      ReadNamed(d, c);
      NamedRead(d.members, c);
    } else if d.DObj? && Written(d.members, c) {
      WrittenNamed(d.members, c);
      NamedRead(d.members, c);
    }
  }

  /** What metadata carries: nothing if it has no constraint or null for one, else what is read, which may fail. */
  lemma CarriesIff(meta: Option<Doc>, c: Constraint)
    ensures var given := meta.Some? && meta.value.DObj? && "resource_constraint" in meta.value.members
                         && meta.value.members["resource_constraint"] != DNull;
            && (ExtractConstraint(meta) == NoConstraint <==> !given)
            && (ExtractConstraint(meta) == Found(c)
                <==> given && var d := meta.value.members["resource_constraint"];
                              d.DObj? && WellFormed(c) && Written(d.members, c))
  {
    if meta.Some? && meta.value.DObj? && "resource_constraint" in meta.value.members {
      ReadIff(meta.value.members["resource_constraint"], c);
    }
  }

  // ---------------------------------------------------------------- matching

  /** What a written field demands of a resource: the same value under the same key, except that a path prefix speaks of
      the path and an empty host, the tenant and the provider demand nothing. */
  predicate Obeys(r: Resource, f: Field) {
    match f.value
    case Str(s) =>
      if f.key == "provider" || f.key == "tenant_id" || (f.key == "host" && s == "") then true
      else if f.key == "path_prefix" then "path" in r && r["path"].DStr? && StartsWith(r["path"].s, s)
      else f.key in r && r[f.key] == DStr(s)
    case Num(n) => f.key in r && r[f.key] == DNum(n)
    case _ => true
  }

  lemma PlainObeys(r: Resource, k: string, s: Option<string>)
    requires k != "provider" && k != "tenant_id" && k != "host" && k != "path_prefix"
    ensures Obeys(r, Field(k, TextOrNone(s))) <==> Holds(r, k, s)
  {
  }

  lemma NumberObeys(r: Resource, k: string, n: Option<int>)
    ensures Obeys(r, Field(k, NumberOrNone(n))) <==> HoldsNumber(r, k, n)
  {
  }

  predicate ObeysAll(r: Resource, c: Constraint) {
    forall i | 0 <= i < |ConstraintFields(c)| :: Obeys(r, ConstraintFields(c)[i])
  }

  lemma PathAndHost(r: Resource, prefix: Option<string>, host: Option<string>)
    ensures Obeys(r, Field("path_prefix", TextOrNone(prefix))) <==> HoldsPrefix(r, "path", prefix)
    ensures Obeys(r, Field("host", TextOrNone(host))) <==> (Truthy(host) ==> Holds(r, "host", host))
    ensures forall s :: Obeys(r, Field("provider", Str(s)))
    ensures Obeys(r, Field("tenant_id", TextOrNone(prefix)))
  {
    assert "host" != "provider" && "host" != "tenant_id" && "host" != "path_prefix";
    assert "path_prefix" != "provider" && "path_prefix" != "tenant_id";
  }

  lemma FilesystemObeys(c: Constraint, r: Resource)
    requires c.Filesystem?
    ensures Matches(c, r) <==> ObeysAll(r, c)
  {
    PathAndHost(r, Some(c.pathPrefix), c.host);
    var fs := ConstraintFields(c);
    assert ObeysAll(r, c) <==> Obeys(r, fs[0]) && Obeys(r, fs[1]) && Obeys(r, fs[2]);
  }

  lemma GithubObeys(c: Constraint, r: Resource)
    requires c.Github?
    ensures Matches(c, r) <==> ObeysAll(r, c)
  {
    PathAndHost(r, c.ghPrefix, None);
    PlainObeys(r, "owner", Some(c.owner));
    PlainObeys(r, "repo", c.repo);
    PlainObeys(r, "ref", c.ref);
    NumberObeys(r, "issue_number", c.issue);
    NumberObeys(r, "pr_number", c.pr);
    var fs := ConstraintFields(c);
    assert ObeysAll(r, c) <==> Obeys(r, fs[0]) && Obeys(r, fs[1]) && Obeys(r, fs[2]) && Obeys(r, fs[3])
                               && Obeys(r, fs[4]) && Obeys(r, fs[5]) && Obeys(r, fs[6]);
  }

  lemma AzureObeys(c: Constraint, r: Resource)
    requires c.Azure?
    ensures Matches(c, r) <==> ObeysAll(r, c)
  {
    PathAndHost(r, c.tenant, None);
    PlainObeys(r, "subscription_id", c.subscription);
    PlainObeys(r, "resource_group", c.group);
    PlainObeys(r, "resource_type", c.kind);
    PlainObeys(r, "name", c.name);
    var fs := ConstraintFields(c);
    assert ObeysAll(r, c) <==> Obeys(r, fs[0]) && Obeys(r, fs[1]) && Obeys(r, fs[2]) && Obeys(r, fs[3])
                               && Obeys(r, fs[4]) && Obeys(r, fs[5]);
  }

  lemma AwsObeys(c: Constraint, r: Resource)
    requires c.Aws?
    ensures Matches(c, r) <==> ObeysAll(r, c)
  {
    PathAndHost(r, None, None);
    PlainObeys(r, "account_id", c.account);
    PlainObeys(r, "region", c.region);
    PlainObeys(r, "service", c.awsService);
    PlainObeys(r, "arn", c.arn);
    var fs := ConstraintFields(c);
    assert ObeysAll(r, c) <==> Obeys(r, fs[0]) && Obeys(r, fs[1]) && Obeys(r, fs[2]) && Obeys(r, fs[3])
                               && Obeys(r, fs[4]);
  }

  lemma GcpObeys(c: Constraint, r: Resource)
    requires c.Gcp?
    ensures Matches(c, r) <==> ObeysAll(r, c)
  {
    PathAndHost(r, None, None);
    PlainObeys(r, "project_id", c.project);
    PlainObeys(r, "location", c.location);
    PlainObeys(r, "service", c.gcpService);
    PlainObeys(r, "resource_id", c.resourceId);
    var fs := ConstraintFields(c);
    assert ObeysAll(r, c) <==> Obeys(r, fs[0]) && Obeys(r, fs[1]) && Obeys(r, fs[2]) && Obeys(r, fs[3])
                               && Obeys(r, fs[4]);
  }

  /** A resource matches a constraint exactly if it obeys every field the constraint is written with; none matches one
      of another provider. */
  lemma MatchesByFields(c: Constraint, r: Resource)
    ensures Matches(c, r) <==> !c.Other? && ObeysAll(r, c)
  {
    match c
    case Filesystem(_, _) => FilesystemObeys(c, r);
    case Github(_, _, _, _, _, _) => GithubObeys(c, r);
    case Azure(_, _, _, _, _) => AzureObeys(c, r);
    case Aws(_, _, _, _) => AwsObeys(c, r);
    case Gcp(_, _, _, _) => GcpObeys(c, r);
    case Other(_) =>
  }
}
