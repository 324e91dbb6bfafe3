/** Approval envelopes: the table and its queries (apps/control-plane/src/services/envelope-store.ts)
    and the intent classifier (apps/control-plane/src/services/intent-classifier.ts). */
module Envelope {
  import opened Common
  import opened Constraint

  /** A row of `envelopes`. Ids are serial numbers, times are milliseconds. */
  datatype Envelope = Envelope(
    id: nat,
    customer: string,
    agent: string,
    constraint: CheckedConstraint,
    actions: seq<string>,
    createdBy: string,
    createdAt: int,
    expiresAt: Option<int>,
    revokedAt: Option<int>,
    standing: bool
  )

  /** The table, in insertion order. */
  type Table = seq<Envelope>

  function Filter<T>(keep: T -> bool, xs: seq<T>): seq<T> {
    if xs == [] then [] else (if keep(xs[0]) then [xs[0]] else []) + Filter(keep, xs[1..])
  }

  lemma {:induction false} FilterMember<T>(keep: T -> bool, xs: seq<T>, x: T)
    ensures x in Filter(keep, xs) <==> x in xs && keep(x)
  {
    if xs != [] {
      FilterMember(keep, xs[1..], x);
      assert x in xs <==> x == xs[0] || x in xs[1..];
    }
  }

  /** Dropping what would be filtered out anyway changes nothing. */
  lemma {:induction false} FilterTwice<T>(keep: T -> bool, first: T -> bool, xs: seq<T>)
    requires forall x | x in xs && keep(x) :: first(x)
    ensures Filter(keep, Filter(first, xs)) == Filter(keep, xs)
  {
    if xs != [] {
      FilterTwice(keep, first, xs[1..]);
      var rest := Filter(first, xs[1..]);
      assert ([xs[0]] + rest)[1..] == rest;
      assert [] + rest == rest;
    }
  }

  lemma {:induction false} FilterAppend<T>(keep: T -> bool, xs: seq<T>, x: T)
    ensures Filter(keep, xs + [x]) == Filter(keep, xs) + (if keep(x) then [x] else [])
  {
    if xs == [] {
      assert xs + [x] == [x] && [x][1..] == [];
    } else {
      FilterAppend(keep, xs[1..], x);
      assert (xs + [x])[1..] == xs[1..] + [x];
    }
  }

  // ---------------------------------------------------------------- the queries

  /** Active for this agent: unrevoked, and without an expiry or with one still ahead. */
  predicate Active(e: Envelope, customer: string, agent: string, now: int) {
    e.customer == customer && e.agent == agent && e.revokedAt.None?
    && (e.expiresAt.None? || e.expiresAt.value > now)
  }

  /** `ORDER BY created_at DESC`: before the first row not newer than it. */
  function InsertByAge(e: Envelope, es: seq<Envelope>): seq<Envelope> {
    if es == [] || es[0].createdAt <= e.createdAt then [e] + es else [es[0]] + InsertByAge(e, es[1..])
  }

  function NewestFirst(es: seq<Envelope>): seq<Envelope> {
    if es == [] then [] else InsertByAge(es[0], NewestFirst(es[1..]))
  }

  /** `listActiveEnvelopes` */
  function ListActive(table: Table, customer: string, agent: string, now: int): seq<Envelope> {
    NewestFirst(Filter((e: Envelope) => Active(e, customer, agent, now), table))
  }

  predicate Within(actions: seq<string>, granted: seq<string>) {
    forall a :: a in actions ==> a in granted
  }

  /** The envelope allows the constraint and every action. */
  predicate CoversIntent(e: Envelope, constraint: Constraint, actions: seq<string>) {
    Covers(e.constraint, constraint) && Within(actions, e.actions)
  }

  /** `findCoveringEnvelope` */
  function FindCovering(es: seq<Envelope>, constraint: Constraint, actions: seq<string>): Option<Envelope> {
    if es == [] then None
    else if CoversIntent(es[0], constraint, actions) then Some(es[0])
    else FindCovering(es[1..], constraint, actions)
  }

  /** The rows `purgeExpired` deletes: expired and never revoked. */
  predicate Purgeable(e: Envelope, now: int) {
    e.expiresAt.Some? && e.expiresAt.value <= now && e.revokedAt.None?
  }

  function Purged(table: Table, now: int): Table {
    Filter((e: Envelope) => !Purgeable(e, now), table)
  }

  predicate Revocable(e: Envelope, customer: string, id: nat) {
    e.id == id && e.customer == customer && e.revokedAt.None?
  }

  function Revoked(table: Table, customer: string, id: nat, now: int): Table {
    Map((e: Envelope) => if Revocable(e, customer, id) then e.(revokedAt := Some(now)) else e, table)
  }

  /** A new row that lasts `ttlSeconds`. */
  function Session(id: nat, customer: string, agent: string, constraint: CheckedConstraint, actions: seq<string>,
                   createdBy: string, ttlSeconds: int, now: int): Envelope {
    Envelope(id, customer, agent, constraint, actions, createdBy, now, Some(now + ttlSeconds * 1000), None, false)
  }

  /** A new row that lasts until revoked. */
  function Standing(id: nat, customer: string, agent: string, constraint: CheckedConstraint, actions: seq<string>,
                    createdBy: string, now: int): Envelope {
    Envelope(id, customer, agent, constraint, actions, createdBy, now, None, None, true)
  }

  class EnvelopeStore {
    var envelopes: Table
    var nextId: nat

    constructor ()
      ensures envelopes == [] && nextId == 0
    {
      envelopes, nextId := [], 0;
    }

    /** `createEnvelope` */
    method CreateEnvelope(customer: string, agent: string, constraint: CheckedConstraint, actions: seq<string>,
                          createdBy: string, ttlSeconds: int, now: int) returns (e: Envelope)
      modifies this
      ensures envelopes == old(envelopes) + [e] && e.id == old(nextId) && nextId == old(nextId) + 1
      ensures e == Session(e.id, customer, agent, constraint, actions, createdBy, ttlSeconds, now)
      ensures forall u | now <= u :: Active(e, customer, agent, u) <==> u < now + ttlSeconds * 1000
    {
      e := Envelope(nextId, customer, agent, constraint, actions, createdBy, now,
                    Some(now + ttlSeconds * 1000), None, false);
      envelopes, nextId := envelopes + [e], nextId + 1;
    }

    /** `createStandingEnvelope` */
    method CreateStandingEnvelope(customer: string, agent: string, constraint: CheckedConstraint, actions: seq<string>,
                                  createdBy: string, now: int) returns (e: Envelope)
      modifies this
      ensures envelopes == old(envelopes) + [e] && e.id == old(nextId) && nextId == old(nextId) + 1
      ensures e == Standing(e.id, customer, agent, constraint, actions, createdBy, now)
      ensures forall u :: Active(e, customer, agent, u)
    {
      e := Envelope(nextId, customer, agent, constraint, actions, createdBy, now, None, None, true);
      envelopes, nextId := envelopes + [e], nextId + 1;
    }

    /** `revokeEnvelope`: the row it revoked, if there was one. */
    method RevokeEnvelope(customer: string, id: nat, now: int) returns (revoked: bool)
      modifies this`envelopes
      ensures envelopes == Revoked(old(envelopes), customer, id, now)
      ensures revoked
              <==> exists e :: e in old(envelopes) && e.id == id && e.customer == customer && e.revokedAt == None
    {
      revoked := false;
      var all, out: Table := envelopes, [];
      for i := 0 to |all|
        invariant out == Revoked(all[..i], customer, id, now)
        invariant revoked <==> exists j :: 0 <= j < i && Revocable(all[j], customer, id)
      {
        var e := all[i];
        assert all[..i + 1] == all[..i] + [e];
        MapAppend((e: Envelope) => if Revocable(e, customer, id) then e.(revokedAt := Some(now)) else e, all[..i], e);
        if Revocable(e, customer, id) {
          out := out + [e.(revokedAt := Some(now))];
          revoked := true;
        } else {
          out := out + [e];
        }
      }
      assert all[..|all|] == all;
      envelopes := out;
    }

    /** `purgeExpired`: how many rows went. */
    method PurgeExpired(now: int) returns (count: nat)
      modifies this`envelopes
      ensures envelopes == Purged(old(envelopes), now) && count == |old(envelopes)| - |envelopes|
      ensures forall e :: e in envelopes
                          <==> e in old(envelopes)
                               && !(e.expiresAt.Some? && e.expiresAt.value <= now && e.revokedAt == None)
    {
      var all, kept: Table := envelopes, [];
      count := 0;
      for i := 0 to |all|
        invariant kept == Purged(all[..i], now) && count == i - |kept|
      {
        assert all[..i + 1] == all[..i] + [all[i]];
        FilterAppend((e: Envelope) => !Purgeable(e, now), all[..i], all[i]);
        if Purgeable(all[i], now) {
          count := count + 1;
        } else {
          kept := kept + [all[i]];
        }
      }
      assert all[..|all|] == all;
      forall e ensures e in kept <==> e in all && !Purgeable(e, now) {
        FilterMember((e: Envelope) => !Purgeable(e, now), all, e);
      }
      envelopes := kept;
    }
  }

  // ---------------------------------------------------------------- what a lookup finds

  predicate Descending(es: seq<Envelope>) {
    forall i, j | 0 <= i <= j < |es| :: es[i].createdAt >= es[j].createdAt
  }

  lemma {:induction false} InsertKeepsOrder(e: Envelope, es: seq<Envelope>)
    requires Descending(es)
    ensures Descending(InsertByAge(e, es))
    ensures forall x :: x in InsertByAge(e, es) <==> x == e || x in es
  {
    if es != [] && es[0].createdAt > e.createdAt {
      InsertKeepsOrder(e, es[1..]);
      var rest := InsertByAge(e, es[1..]);
      forall j | 0 <= j < |rest| ensures es[0].createdAt >= rest[j].createdAt {
        assert rest[j] in rest;
      }
      assert forall x :: x in es <==> x == es[0] || x in es[1..];
    }
  }

  lemma {:induction false} NewestFirstSorts(es: seq<Envelope>)
    ensures Descending(NewestFirst(es))
    ensures forall x :: x in NewestFirst(es) <==> x in es
  {
    if es != [] {
      NewestFirstSorts(es[1..]);
      InsertKeepsOrder(es[0], NewestFirst(es[1..]));
      assert forall x :: x in es <==> x == es[0] || x in es[1..];
    }
  }

  lemma ListActiveSpec(table: Table, customer: string, agent: string, now: int)
    ensures Descending(ListActive(table, customer, agent, now))
    ensures forall e :: e in ListActive(table, customer, agent, now) <==> e in table && Active(e, customer, agent, now)
  {
    var keep := (e: Envelope) => Active(e, customer, agent, now);
    NewestFirstSorts(Filter(keep, table));
    forall e ensures e in Filter(keep, table) <==> e in table && Active(e, customer, agent, now) {
      FilterMember(keep, table, e);
    }
  }

  lemma {:induction false} FindCoveringSpec(es: seq<Envelope>, constraint: Constraint, actions: seq<string>)
    requires Descending(es)
    ensures match FindCovering(es, constraint, actions)
            case None => forall e :: e in es ==> !CoversIntent(e, constraint, actions)
            case Some(found) => found in es && CoversIntent(found, constraint, actions)
                                && forall e | e in es && CoversIntent(e, constraint, actions) ::
                                     e.createdAt <= found.createdAt
  {
    if es != [] && !CoversIntent(es[0], constraint, actions) {
      FindCoveringSpec(es[1..], constraint, actions);
      assert forall x :: x in es <==> x == es[0] || x in es[1..];
    }
  }

  /** The lookup finds an envelope exactly when an active one covers the intent, and then the most
      recently created of those. */
  lemma NewestActiveCover(table: Table, customer: string, agent: string, now: int, constraint: Constraint,
                          actions: seq<string>)
    ensures match FindCovering(ListActive(table, customer, agent, now), constraint, actions)
            case None =>
              forall e | e in table && Active(e, customer, agent, now) :: !CoversIntent(e, constraint, actions)
            case Some(found) =>
              && found in table && Active(found, customer, agent, now) && CoversIntent(found, constraint, actions)
              && forall e | e in table && Active(e, customer, agent, now) && CoversIntent(e, constraint, actions) ::
                   e.createdAt <= found.createdAt
  {
    ListActiveSpec(table, customer, agent, now);
    FindCoveringSpec(ListActive(table, customer, agent, now), constraint, actions);
  }

  /** Purging never changes what a later lookup lists. */
  lemma PurgeInvisible(table: Table, at: int, customer: string, agent: string, now: int)
    requires at <= now
    ensures ListActive(Purged(table, at), customer, agent, now) == ListActive(table, customer, agent, now)
  {
    FilterTwice((e: Envelope) => Active(e, customer, agent, now), (e: Envelope) => !Purgeable(e, at), table);
  }

  /** Before the purge's own time it can: the row it deleted was active then. */
  lemma PurgeVisibleEarlier(table: Table, e: Envelope, at: int, customer: string, agent: string, now: int)
    requires e in table && Active(e, customer, agent, now) && Purgeable(e, at)
    ensures now < at
    ensures e in ListActive(table, customer, agent, now) && e !in ListActive(Purged(table, at), customer, agent, now)
  {
    ListActiveSpec(table, customer, agent, now);
    ListActiveSpec(Purged(table, at), customer, agent, now);
    FilterMember((e: Envelope) => !Purgeable(e, at), table, e);
  }

  lemma {:induction false} RevokedMember(table: Table, customer: string, id: nat, now: int, e: Envelope)
    ensures e in Revoked(table, customer, id, now)
            <==> (e in table && !Revocable(e, customer, id))
                 || exists was :: was in table && Revocable(was, customer, id) && e == was.(revokedAt := Some(now))
  {
    if table != [] {
      RevokedMember(table[1..], customer, id, now, e);
      assert forall x :: x in table <==> x == table[0] || x in table[1..];
    }
  }

  /** Revoking takes exactly that customer's envelope off every list, whoever asks and whenever. */
  lemma RevokeTakesOff(table: Table, customer: string, id: nat, at: int, owner: string, agent: string, now: int,
                       e: Envelope)
    ensures e in ListActive(Revoked(table, customer, id, at), owner, agent, now)
            <==> e in ListActive(table, owner, agent, now) && !(e.id == id && e.customer == customer)
  {
    ListActiveSpec(table, owner, agent, now);
    ListActiveSpec(Revoked(table, customer, id, at), owner, agent, now);
    RevokedMember(table, customer, id, at, e);
  }

  /** Narrowing a covered intent keeps it covered. */
  lemma NarrowingStaysCovered(table: Table, customer: string, agent: string, now: int,
                              constraint: Constraint, actions: seq<string>, narrower: Constraint, fewer: seq<string>)
    requires FindCovering(ListActive(table, customer, agent, now), constraint, actions).Some?
    requires Covers(constraint, narrower) && Within(fewer, actions)
    ensures FindCovering(ListActive(table, customer, agent, now), narrower, fewer).Some?
  {
    NewestActiveCover(table, customer, agent, now, constraint, actions);
    NewestActiveCover(table, customer, agent, now, narrower, fewer);
    var e := FindCovering(ListActive(table, customer, agent, now), constraint, actions).value;
    CoversTransitive(e.constraint, constraint, narrower);
    assert CoversIntent(e, narrower, fewer);
  }

  // ---------------------------------------------------------------- the classifier

  const SENSITIVE_PATH_FRAGMENTS :=
    ["/.ssh", "/.aws", "/.gnupg", "/.env", "/secrets", "/credentials", "/private_key", "/id_rsa", "/id_ed25519"]

  const SENSITIVE_GITHUB_REPOS := [".github", "secrets", "terraform", "infrastructure", "vault"]

  const HIGH_RISK_VERBS := ["write", "create", "update", "delete", "execute", "send", "merge", "force-push"]

  /** `toLowerCase`, and the optional coherence verifier over purpose, constraint and actions. */
  datatype Classifier = Classifier(
    lower: string -> string,
    verifier: Option<(string, Constraint, seq<string>) -> bool>
  )

  datatype StepUpReason = NoCoveringEnvelope | SensitivePath | HighRiskAction | OrgAdminAction | CoherenceMismatch

  datatype Decision = Mint(envelope: Envelope) | StepUp(reason: StepUpReason)

  /** `s.includes(fragment)` */
  predicate Includes(s: string, fragment: string) {
    exists i | 0 <= i <= |s| :: StartsWith(s[i..], fragment)
  }

  predicate HasSensitivePath(k: Classifier, c: Constraint) {
    if c.Filesystem? then
      exists fragment :: fragment in SENSITIVE_PATH_FRAGMENTS && Includes(k.lower(c.pathPrefix), fragment)
    else if c.Github? && Truthy(c.repo) then
      var repo := k.lower(c.repo.value);
      repo != "" && (StartsWith(repo, "infra-") || repo in SENSITIVE_GITHUB_REPOS)
    else false
  }

  /** The last segment of an action. */
  function Verb(action: string): string {
    var parts := Split(action, '/');
    parts[|parts| - 1]
  }

  predicate HasHighRiskAction(actions: seq<string>) {
    exists a :: a in actions && Verb(a) in HIGH_RISK_VERBS
  }

  predicate IsOrgAdminAction(c: Constraint, actions: seq<string>) {
    c.Github? && c.repo.None? && HasHighRiskAction(actions)
  }

  /** The verifier, if there is one and a purpose is given, finds the request incoherent. */
  predicate Incoherent(k: Classifier, purpose: Option<string>, c: Constraint, actions: seq<string>) {
    k.verifier.Some? && Truthy(purpose) && !k.verifier.value(purpose.value, c, actions)
  }

  /** `classifyIntent` */
  function Classify(k: Classifier, c: Constraint, actions: seq<string>, purpose: Option<string>,
                    envelopes: seq<Envelope>): Decision {
    if HasSensitivePath(k, c) then StepUp(SensitivePath)
    else if IsOrgAdminAction(c, actions) then StepUp(OrgAdminAction)
    else if HasHighRiskAction(actions) then StepUp(HighRiskAction)
    else
      match FindCovering(envelopes, c, actions)
      case None => StepUp(NoCoveringEnvelope)
      case Some(covering) =>
        if Incoherent(k, purpose, c, actions) then StepUp(CoherenceMismatch) else Mint(covering)
  }

  /** A silent mint is decided exactly when nothing is sensitive or high-risk, the verifier does not
      object, and some active envelope of the agent covers the intent; the org-admin check never changes
      that, only the reason given. */
  lemma SilentIff(k: Classifier, table: Table, customer: string, agent: string, now: int,
                  c: Constraint, actions: seq<string>, purpose: Option<string>)
    ensures Classify(k, c, actions, purpose, ListActive(table, customer, agent, now)).Mint?
            <==> !HasSensitivePath(k, c) && !HasHighRiskAction(actions) && !Incoherent(k, purpose, c, actions)
                 && exists e :: e in table && Active(e, customer, agent, now) && CoversIntent(e, c, actions)
  {
    NewestActiveCover(table, customer, agent, now, c, actions);
  }

  const SIGMA := '\U{03C3}'

  const FINAL_SIGMA := '\U{03C2}'

  /** What a longer text adds does not change how its start is lowered, except that a sigma that was final may
      no longer be: the one mapping of `toLowerCase` that looks at the letters around. */
  ghost predicate KeepsPrefixes(lower: string -> string) {
    forall s, p | StartsWith(s, p) :: SameUpToSigma(lower(s), lower(p))
  }

  /** `s` starts like `p`, taking the two sigmas for one letter. */
  predicate SameUpToSigma(s: string, p: string) {
    |p| <= |s|
    && forall i | 0 <= i < |p| :: s[i] == p[i] || (s[i] in {SIGMA, FINAL_SIGMA} && p[i] in {SIGMA, FINAL_SIGMA})
  }

  lemma FragmentHasNoSigma(fragment: string)
    requires fragment in SENSITIVE_PATH_FRAGMENTS
    ensures SIGMA !in fragment && FINAL_SIGMA !in fragment
  {
  }

  lemma IncludesLonger(s: string, p: string, fragment: string)
    requires SameUpToSigma(s, p) && Includes(p, fragment) && SIGMA !in fragment && FINAL_SIGMA !in fragment
    ensures Includes(s, fragment)
  {
    var i :| 0 <= i <= |p| && StartsWith(p[i..], fragment);
    forall j | 0 <= j < |fragment| ensures s[i..][j] == fragment[j] {
      assert p[i..][..|fragment|][j] == p[i + j] && fragment[j] in fragment;
    }
    assert s[i..][..|fragment|] == fragment;
    assert StartsWith(s[i..], fragment);
  }

  /** Narrowing never makes a sensitive constraint harmless. */
  lemma SensitiveStaysSensitive(k: Classifier, outer: Constraint, inner: Constraint)
    requires KeepsPrefixes(k.lower) && Covers(outer, inner) && HasSensitivePath(k, outer)
    ensures HasSensitivePath(k, inner)
  {
    if outer.Filesystem? {
      var fragment :| fragment in SENSITIVE_PATH_FRAGMENTS && Includes(k.lower(outer.pathPrefix), fragment);
      assert StartsWith(inner.pathPrefix, outer.pathPrefix);
      FragmentHasNoSigma(fragment);
      IncludesLonger(k.lower(inner.pathPrefix), k.lower(outer.pathPrefix), fragment);
    }
  }

  /** So an envelope over something sensitive is never minted from silently. */
  lemma SensitiveEnvelopeNeverSilent(k: Classifier, es: seq<Envelope>, c: Constraint, actions: seq<string>,
                                     purpose: Option<string>)
    requires KeepsPrefixes(k.lower)
    ensures var d := Classify(k, c, actions, purpose, es); d.Mint? ==> !HasSensitivePath(k, d.envelope.constraint)
    ensures var d := Classify(k, c, actions, purpose, es);
            d.Mint? ==> d.envelope in es && CoversIntent(d.envelope, c, actions)
  {
    var d := Classify(k, c, actions, purpose, es);
    if d.Mint? {
      CoveringFound(es, c, actions);
      if HasSensitivePath(k, d.envelope.constraint) {
        SensitiveStaysSensitive(k, d.envelope.constraint, c);
      }
    }
  }

  lemma {:induction false} CoveringFound(es: seq<Envelope>, c: Constraint, actions: seq<string>)
    ensures var f := FindCovering(es, c, actions); f.Some? ==> f.value in es && CoversIntent(f.value, c, actions)
  {
    if es != [] && !CoversIntent(es[0], c, actions) {
      CoveringFound(es[1..], c, actions);
    }
  }
}
