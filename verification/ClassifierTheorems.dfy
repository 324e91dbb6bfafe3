/** What the intent classifier answers, in terms of the texts it looks at
    (apps/control-plane/src/services/intent-classifier.ts). */
module ClassifierTheorems {
  import opened Common
  import opened Constraint
  import opened Envelope

  // ---------------------------------------------------------------- the last segment

  /** `v` is what stands after the last slash of `a`. */
  predicate EndsIn(a: string, v: string) {
    '/' !in v && (a == v || (|v| < |a| && a == a[..|a| - |v| - 1] + "/" + v))
  }

  lemma {:induction false} VerbAfterSlash(p: string, v: string)
    requires '/' !in v
    ensures |Split(p + "/" + v, '/')| >= 2 && Verb(p + "/" + v) == v
  {
    var a := p + "/" + v;
    SplitWhole(v, '/');
    if p == "" {
      assert a[1..] == v;
    } else {
      VerbAfterSlash(p[1..], v);
      assert a[1..] == p[1..] + "/" + v;
    }
  }

  lemma {:induction false} Cut(a: string) returns (v: string)
    ensures EndsIn(a, v)
  {
    if a == "" || a[|a| - 1] == '/' {
      v := "";
    } else {
      var n := |a| - 1;
      var w := Cut(a[..n]);
      v := w + [a[n]];
    }
  }

  lemma VerbIff(a: string, v: string)
    ensures Verb(a) == v <==> EndsIn(a, v)
  {
    var w := Cut(a);
    VerbOfEnd(a, w);
    if EndsIn(a, v) {
      VerbOfEnd(a, v);
    }
  }

  lemma VerbOfEnd(a: string, v: string)
    requires EndsIn(a, v)
    ensures Verb(a) == v
  {
    if a == v {
      SplitWhole(v, '/');
    } else {
      VerbAfterSlash(a[..|a| - |v| - 1], v);
    }
  }

  // ---------------------------------------------------------------- what is risky

  /** The eight mutating verbs. */
  predicate Mutates(v: string) {
    v == "write" || v == "create" || v == "update" || v == "delete"
    || v == "execute" || v == "send" || v == "merge" || v == "force-push"
  }

  lemma MutatesIff(v: string)
    ensures Mutates(v) <==> v in HIGH_RISK_VERBS
  {
  }

  /** Some action ends in a mutating verb. */
  ghost predicate Risky(actions: seq<string>) {
    exists a, v | a in actions && Mutates(v) :: EndsIn(a, v)
  }

  lemma RiskyIff(actions: seq<string>)
    ensures Risky(actions) <==> HasHighRiskAction(actions)
  {
    forall a, v ensures Verb(a) == v <==> EndsIn(a, v) {
      VerbIff(a, v);
    }
    forall v ensures Mutates(v) <==> v in HIGH_RISK_VERBS {
      MutatesIff(v);
    }
  }

  /** The places of credentials. */
  predicate CredentialPlace(f: string) {
    f == "/.ssh" || f == "/.aws" || f == "/.gnupg" || f == "/.env" || f == "/secrets" || f == "/credentials"
    || f == "/private_key" || f == "/id_rsa" || f == "/id_ed25519"
  }

  lemma CredentialPlaceIff(f: string)
    ensures CredentialPlace(f) <==> f in SENSITIVE_PATH_FRAGMENTS
  {
  }

  /** The repositories an organisation is run from. */
  predicate HomeRepo(repo: string) {
    repo == ".github" || repo == "secrets" || repo == "terraform" || repo == "infrastructure" || repo == "vault"
    || (|repo| >= 6 && repo == "infra-" + repo[6..])
  }

  lemma HomeRepoIff(repo: string)
    ensures HomeRepo(repo) <==> repo != "" && (StartsWith(repo, "infra-") || repo in SENSITIVE_GITHUB_REPOS)
  {
    assert |repo| >= 6 ==> repo == repo[..6] + repo[6..];
  }

  /** `f` stands somewhere in `s`. */
  ghost predicate Holds(s: string, f: string) {
    exists u, w :: s == u + f + w
  }

  lemma HoldsIff(s: string, f: string)
    ensures Holds(s, f) <==> Includes(s, f)
  {
    if Includes(s, f) {
      var i :| 0 <= i <= |s| && StartsWith(s[i..], f);
      assert s == s[..i] + f + s[i..][|f|..];
    }
    if Holds(s, f) {
      var u, w :| s == u + f + w;
      assert s[|u|..] == f + w;
      assert StartsWith(s[|u|..], f);
    }
  }

  /** The lowered path prefix holds a place of credentials, or the lowered repository is an organisation's home. */
  ghost predicate Sensitive(k: Classifier, c: Constraint) {
    match c
    case Filesystem(prefix, _) => exists f | CredentialPlace(f) :: Holds(k.lower(prefix), f)
    case Github(_, repo, _, _, _, _) => repo.Some? && repo.value != "" && HomeRepo(k.lower(repo.value))
    case _ => false
  }

  lemma SensitiveIff(k: Classifier, c: Constraint)
    ensures Sensitive(k, c) <==> HasSensitivePath(k, c)
  {
    if c.Filesystem? {
      forall f ensures Holds(k.lower(c.pathPrefix), f) <==> Includes(k.lower(c.pathPrefix), f) {
        HoldsIff(k.lower(c.pathPrefix), f);
      }
      forall f ensures CredentialPlace(f) <==> f in SENSITIVE_PATH_FRAGMENTS {
        CredentialPlaceIff(f);
      }
    } else if c.Github? && Truthy(c.repo) {
      HomeRepoIff(k.lower(c.repo.value));
    }
  }

  // ---------------------------------------------------------------- the answer

  /** The envelope is the agent's, is in force, covers the constraint and lists every action. */
  predicate Grants(e: Envelope, customer: string, agent: string, now: int, c: Constraint, actions: seq<string>) {
    && e.customer == customer && e.agent == agent
    && e.revokedAt.None? && (e.expiresAt.Some? ==> now < e.expiresAt.value)
    && Covers(e.constraint, c) && forall a :: a in actions ==> a in e.actions
  }

  /** Each answer is given in exactly these cases. */
  lemma ClassifyIff(k: Classifier, table: Table, customer: string, agent: string, now: int, c: Constraint,
                    actions: seq<string>, purpose: Option<string>)
    ensures var d := Classify(k, c, actions, purpose, ListActive(table, customer, agent, now));
            var wide := c.Github? && c.repo.None?;
            var granted := exists e :: e in table && Grants(e, customer, agent, now, c, actions);
            var odd := k.verifier.Some? && purpose.Some? && purpose.value != ""
                       && !k.verifier.value(purpose.value, c, actions);
            && (d == StepUp(SensitivePath) <==> Sensitive(k, c))
            && (d == StepUp(OrgAdminAction) <==> !Sensitive(k, c) && Risky(actions) && wide)
            && (d == StepUp(HighRiskAction) <==> !Sensitive(k, c) && Risky(actions) && !wide)
            && (d == StepUp(NoCoveringEnvelope) <==> !Sensitive(k, c) && !Risky(actions) && !granted)
            && (d == StepUp(CoherenceMismatch) <==> !Sensitive(k, c) && !Risky(actions) && granted && odd)
            && (d.Mint? <==> !Sensitive(k, c) && !Risky(actions) && granted && !odd)
            && (d.Mint? ==> d.envelope in table && Grants(d.envelope, customer, agent, now, c, actions))
  {
    SensitiveIff(k, c);
    RiskyIff(actions);
    NewestActiveCover(table, customer, agent, now, c, actions);
    GrantsIff(table, customer, agent, now, c, actions);
  }

  lemma GrantsIff(table: Table, customer: string, agent: string, now: int, c: Constraint, actions: seq<string>)
    ensures forall e :: Grants(e, customer, agent, now, c, actions)
                        <==> Active(e, customer, agent, now) && CoversIntent(e, c, actions)
  {
  }

  /** Whatever envelopes there are, an action that ends in a mutating verb is never minted silently; */
  lemma VerbStepsUp(k: Classifier, es: seq<Envelope>, c: Constraint, actions: seq<string>, purpose: Option<string>,
                    p: string, v: string)
    requires p + "/" + v in actions && Mutates(v)
    ensures Classify(k, c, actions, purpose, es)
            == StepUp(if Sensitive(k, c) then SensitivePath
                      else if c.Github? && c.repo.None? then OrgAdminAction else HighRiskAction)
  {
    MutatesIff(v);
    SensitiveIff(k, c);
    assert '/' !in v;
    VerbAfterSlash(p, v);
  }

  /** nor is a path through a place of credentials, */
  lemma PathStepsUp(k: Classifier, es: seq<Envelope>, c: Constraint, actions: seq<string>, purpose: Option<string>,
                    u: string, f: string, w: string)
    requires c.Filesystem? && CredentialPlace(f) && k.lower(c.pathPrefix) == u + f + w
    ensures Classify(k, c, actions, purpose, es) == StepUp(SensitivePath)
  {
    assert Holds(k.lower(c.pathPrefix), f);
    SensitiveIff(k, c);
  }

  /** nor a repository an organisation is run from. */
  lemma RepoStepsUp(k: Classifier, es: seq<Envelope>, c: Constraint, actions: seq<string>, purpose: Option<string>)
    requires c.Github? && c.repo.Some? && c.repo.value != "" && HomeRepo(k.lower(c.repo.value))
    ensures Classify(k, c, actions, purpose, es) == StepUp(SensitivePath)
  {
    SensitiveIff(k, c);
  }
}
