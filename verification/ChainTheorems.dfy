/** What link-by-link checking adds up to over a whole chain. */
module ChainTheorems {
  import opened Common
  import opened Canonical
  import opened Constraint
  import opened Ucan
  import opened UcanTheorems
  import opened Chain

  // ---------------------------------------------------------------- commands

  /** Granting is transitive. */
  lemma GrantedTransitive(a: string, b: string, c: string)
    requires ActionMatchesGranted(a, b) && ActionMatchesGranted(b, c)
    ensures ActionMatchesGranted(a, c)
  {
    if a != b && b != c {
      StartsWithTransitive(a + "/", b, b + "/");
      StartsWithTransitive(a + "/", b + "/", c);
    }
  }

  /** The segments of a command. */
  function Segments(cmd: string): seq<string>
    requires IsCommand(cmd)
  {
    Split(cmd[1..], '/')
  }

  /** A text continues another past a slash exactly when its parts extend the other's parts. */
  lemma {:induction false} PrefixOfParts(a: string, b: string)
    ensures (a == b || StartsWith(b, a + "/")) <==> Split(a, '/') <= Split(b, '/')
  {
    if a == "" {
      assert Split(a, '/') == [""];
      if b != "" && b[0] != '/' {
        assert Split(b, '/')[0] != "";
      }
    } else if b == "" {
      assert Split(b, '/') == [""];
    } else {
      PrefixOfParts(a[1..], b[1..]);
      assert (a + "/")[1..] == a[1..] + "/";
      StartsWithTail(b, a + "/");
      var p, q := Split(a[1..], '/'), Split(b[1..], '/');
      assert a == b <==> a[0] == b[0] && a[1..] == b[1..] by {
        assert a == [a[0]] + a[1..] && b == [b[0]] + b[1..];
      }
      HeadedPrefix(a[0], b[0], p, q);
    }
  }

  lemma StartsWithTail(b: string, p: string)
    requires b != "" && p != ""
    ensures StartsWith(b, p) <==> b[0] == p[0] && StartsWith(b[1..], p[1..])
  {
    if |p| <= |b| {
      assert b[..|p|] == [b[0]] + b[1..][..|p| - 1];
      assert p == [p[0]] + p[1..];
    }
  }

  function Headed(c: char, parts: seq<string>): seq<string>
    requires parts != []
  {
    if c == '/' then [""] + parts else [[c] + parts[0]] + parts[1..]
  }

  lemma HeadedPrefix(c: char, d: char, p: seq<string>, q: seq<string>)
    requires p != [] && q != []
    ensures Headed(c, p) <= Headed(d, q) <==> c == d && p <= q
  {
    var x, y := Headed(c, p), Headed(d, q);
    assert (c == '/' <==> x[0] == "") && (d == '/' <==> y[0] == "");
    assert (c != '/' ==> x[0][0] == c) && (d != '/' ==> y[0][0] == d);
    if x <= y {
      assert x[0] == y[0];
      if c == '/' {
        assert forall i | 0 <= i < |p| :: p[i] == x[i + 1] && q[i] == y[i + 1];
      } else {
        assert p[0] == x[0][1..] && q[0] == y[0][1..];
        assert forall i | 1 <= i < |p| :: p[i] == x[i] && q[i] == y[i];
      }
    }
  }

  /** On well-formed commands granting is exactly prefix order on segment lists. */
  lemma GrantedIffPrefix(granted: string, action: string)
    requires IsCommand(granted) && IsCommand(action)
    ensures ActionMatchesGranted(granted, action) <==> Segments(granted) <= Segments(action)
  {
    PrefixOfParts(granted[1..], action[1..]);
    assert granted == ["/"[0]] + granted[1..] && action == ["/"[0]] + action[1..];
    StartsWithTail(action, granted + "/");
    assert (granted + "/")[1..] == granted[1..] + "/";
  }

  // ---------------------------------------------------------------- whole chains

  /** The payloads of a list of tokens. */
  function AllClaims(ts: seq<Token>): (ps: seq<Claims>)
    requires forall t :: t in ts ==> t.Some?
    ensures |ps| == |ts| && forall i | 0 <= i < |ts| :: ps[i] == ts[i].value.payload
  {
    seq(|ts|, i requires 0 <= i < |ts| && ts[i].Some? => ts[i].value.payload)
  }

  /** Every token parses and carries its issuer's signature. */
  predicate AllGenuine(c: Crypto, ts: seq<Token>) {
    forall t :: t in ts ==> t.Some? && Genuine(c, t.value)
  }

  /** Token `i` passes its own check. */
  predicate TokenOk(c: Crypto, ts: seq<Token>, i: nat, now: int, audience: Option<string>, expected: Option<string>)
    requires i < |ts|
  {
    && ts[i].Some? && Genuine(c, ts[i].value)
    && Accepts(c, ts[i].value.payload, now,
               if i == |ts| - 1 then audience else None, if i == |ts| - 1 then expected else None)
  }

  predicate AllOk(c: Crypto, ts: seq<Token>, now: int, audience: Option<string>, expected: Option<string>) {
    forall i: nat | i < |ts| :: TokenOk(c, ts, i, now, audience, expected)
  }

  lemma TokenResultIff(c: Crypto, ts: seq<Token>, i: nat, now: int, audience: Option<string>, expected: Option<string>)
    requires i < |ts|
    ensures var r := TokenResults(c, ts, now, audience, expected)[i];
            (r.Success? <==> TokenOk(c, ts, i, now, audience, expected))
            && (r.Success? ==> r.value == ts[i].value.payload)
  {
    ValidatesIff(c, ts[i], now, if i == |ts| - 1 then audience else None, if i == |ts| - 1 then expected else None);
    assert TokenResults(c, ts, now, audience, expected)[i] == TokenResult(c, ts, i, now, audience, expected);
  }

  lemma AllTokensIff(c: Crypto, ts: seq<Token>, now: int, audience: Option<string>, expected: Option<string>)
    ensures AllTokens(TokenResults(c, ts, now, audience, expected)) <==> AllOk(c, ts, now, audience, expected)
    ensures AllTokens(TokenResults(c, ts, now, audience, expected)) ==>
              (forall t :: t in ts ==> t.Some?)
              && ClaimsOf(TokenResults(c, ts, now, audience, expected)) == AllClaims(ts)
  {
    var rs := TokenResults(c, ts, now, audience, expected);
    forall i: nat | i < |ts|
      ensures rs[i].Success? <==> TokenOk(c, ts, i, now, audience, expected)
      ensures rs[i].Success? ==> rs[i].value == ts[i].value.payload
    {
      TokenResultIff(c, ts, i, now, audience, expected);
    }
    if AllTokens(rs) {
      assert forall i: nat | i < |ts| :: TokenOk(c, ts, i, now, audience, expected);
      assert ClaimsOf(rs) == AllClaims(ts);
    }
  }

  lemma VerdictOf(rs: seq<Result<Claims, ValidationError>>)
    ensures Verdict(rs).Success? <==> rs != [] && AllTokens(rs) && Linked(ClaimsOf(rs))
    ensures Verdict(rs).Success? ==> Verdict(rs).value == Accepted(ClaimsOf(rs)[0], ClaimsOf(rs)[|rs| - 1])
  {
    FirstBadTokenNone(rs);
    if AllTokens(rs) {
      FirstBadLinkNone(ClaimsOf(rs));
    }
  }

  /** What the chain check comes to: a chain that is not empty, whose tokens are all genuine and
      inside their windows, whose leaf has the audience and grants the command asked for, and whose
      links are all in order. */
  predicate Sound(c: Crypto, ts: seq<Token>, now: int, audience: Option<string>, expected: Option<string>) {
    && ts != [] && AllGenuine(c, ts)
    && (forall p :: p in AllClaims(ts) ==> p.nbf <= now < p.exp)
    && Accepts(c, AllClaims(ts)[|ts| - 1], now, audience, expected)
    && Linked(AllClaims(ts))
  }

  lemma AllOkIff(c: Crypto, ts: seq<Token>, now: int, audience: Option<string>, expected: Option<string>)
    requires ts != []
    ensures AllOk(c, ts, now, audience, expected)
            <==> AllGenuine(c, ts) && (forall p :: p in AllClaims(ts) ==> p.nbf <= now < p.exp)
                 && Accepts(c, AllClaims(ts)[|ts| - 1], now, audience, expected)
  {
    if AllOk(c, ts, now, audience, expected) {
      forall t | t in ts ensures t.Some? && Genuine(c, t.value) && t.value.payload.nbf <= now < t.value.payload.exp {
        var i: nat :| i < |ts| && ts[i] == t;
        assert TokenOk(c, ts, i, now, audience, expected);
      }
      assert TokenOk(c, ts, |ts| - 1, now, audience, expected);
    } else if AllGenuine(c, ts) {
      var i: nat :| i < |ts| && !TokenOk(c, ts, i, now, audience, expected);
      assert ts[i] in ts && AllClaims(ts)[i] in AllClaims(ts);
    }
  }

  /** The chain check accepts exactly the sound chains and returns their first and last payloads. */
  lemma AcceptedIff(c: Crypto, ts: seq<Token>, now: int, audience: Option<string>, expected: Option<string>)
    ensures var v := ChainVerdict(c, ts, now, audience, expected);
            && (v.Success? <==> Sound(c, ts, now, audience, expected))
            && (v.Success? ==> v.value == Accepted(AllClaims(ts)[0], AllClaims(ts)[|ts| - 1]))
  {
    VerdictOf(TokenResults(c, ts, now, audience, expected));
    AllTokensIff(c, ts, now, audience, expected);
    if ts != [] {
      AllOkIff(c, ts, now, audience, expected);
    }
  }

  /** What an ancestor guarantees about a descendant: it grants the descendant's command and its
      window contains the descendant's. */
  predicate Bounds(ancestor: Claims, descendant: Claims) {
    && ActionMatchesGranted(ancestor.cmd, descendant.cmd)
    && ancestor.nbf <= descendant.nbf
    && descendant.exp <= ancestor.exp
  }

  /** End-to-end attenuation: in a linked chain every token bounds every later one. */
  lemma {:induction false} AncestorBounds(ps: seq<Claims>, i: nat, j: nat)
    requires Linked(ps) && i <= j < |ps|
    ensures Bounds(ps[i], ps[j])
    decreases j - i
  {
    if i < j {
      assert LinkError(ps[j - 1], ps[j - 1 + 1]).None?;
      AncestorBounds(ps, i, j - 1);
      GrantedTransitive(ps[i].cmd, ps[j - 1].cmd, ps[j].cmd);
    }
  }

  /** The constraint a token carries. */
  function Carried(p: Claims): Extracted {
    ExtractConstraint(p.meta)
  }

  /** Where every token of a stretch carries a constraint, the first one's covers the last one's. */
  lemma {:induction false} ConstraintCovers(ps: seq<Claims>, i: nat, j: nat)
    requires Linked(ps) && i < j < |ps|
    requires forall k | i <= k <= j :: Carried(ps[k]).Found?
    ensures Covers(Carried(ps[i]).constraint, Carried(ps[j]).constraint)
    decreases j - i
  {
    assert LinkError(ps[j - 1], ps[j - 1 + 1]).None?;
    if i + 1 < j {
      ConstraintCovers(ps, i, j - 1);
      CoversTransitive(Carried(ps[i]).constraint, Carried(ps[j - 1]).constraint, Carried(ps[j]).constraint);
    }
  }

  /** Inside such a stretch no resource the descendant admits escapes the ancestor. */
  lemma ConstraintContains(ps: seq<Claims>, i: nat, j: nat, r: Resource)
    requires Linked(ps) && i < j < |ps|
    requires forall k | i <= k <= j :: Carried(ps[k]).Found?
    requires Matches(Carried(ps[j]).constraint, r)
    ensures Matches(Carried(ps[i]).constraint, r)
  {
    ConstraintCovers(ps, i, j);
    CoversContains(Carried(ps[i]).constraint, Carried(ps[j]).constraint);
  }

  lemma LinkedAppend(ps: seq<Claims>, q: Claims)
    requires ps != [] && Linked(ps)
    ensures Linked(ps + [q]) <==> LinkError(ps[|ps| - 1], q).None?
  {
    var all := ps + [q];
    if LinkError(ps[|ps| - 1], q).None? {
      forall i | 0 <= i < |all| - 1 ensures LinkError(all[i], all[i + 1]).None? {
        if i < |ps| - 1 {
          assert all[i] == ps[i] && all[i + 1] == ps[i + 1];
          assert LinkError(ps[i], ps[i + 1]).None?;
        }
      }
    } else {
      assert LinkError(all[|ps| - 1], all[|ps| - 1 + 1]).Some?;
    }
  }

  /** A token under `parent` with the given metadata and everything else its parent's. */
  function Heir(parent: Claims, meta: Option<Doc>): Claims {
    parent.(iss := parent.aud, meta := meta)
  }

  /** After a token without a constraint, whatever constraint the next one carries is in order. */
  lemma GapAdmits(ps: seq<Claims>, q: Claims)
    requires ps != [] && Linked(ps) && Carried(ps[|ps| - 1]).NoConstraint?
    ensures Linked(ps + [q]) <==> q.iss == ps[|ps| - 1].aud && Bounds(ps[|ps| - 1], q)
  {
    LinkedAppend(ps, q);
  }

  /** The metadata of a constraint that pins nothing. */
  const ANYWHERE := DObj(map["resource_constraint" := DObj(map["provider" := DStr("aws")])])

  lemma AnywhereCarries(p: Claims)
    requires p.meta == Some(ANYWHERE)
    ensures Carried(p) == Found(Aws(None, None, None, None))
  {
    var m: map<string, Doc> := map["provider" := DStr("aws")];
    assert "aws"[0] != "filesystem"[0] && |"aws"| != |"github"| && "aws"[1] != "azure"[1];
    assert "account_id" !in m && "region" !in m && "service" !in m && "arn" !in m;
    assert ParseAws(m) == Some(Aws(None, None, None, None));
  }

  /** No token that can come next, carrying a constraint, admits the resource. */
  ghost predicate OutOfReach(ps: seq<Claims>, r: Resource) {
    forall q: Claims :: Linked(ps + [q]) && Carried(q).Found? ==> !Matches(Carried(q).constraint, r)
  }

  /** What a linked chain keeps its next token from: exactly the resources that its last token's own
      constraint excludes. So a constraint binds over stretches where every token carries one, and after a
      token without one every resource is within reach again, whatever the tokens before it carry. */
  lemma OutOfReachIff(ps: seq<Claims>, r: Resource)
    requires ps != [] && Linked(ps) && !Carried(ps[|ps| - 1]).Malformed?
    ensures OutOfReach(ps, r)
            <==> Carried(ps[|ps| - 1]).Found? && !Matches(Carried(ps[|ps| - 1]).constraint, r)
  {
    var last := ps[|ps| - 1];
    if Carried(last).NoConstraint? {
      var q := Heir(last, Some(ANYWHERE));
      AnywhereCarries(q);
      GapAdmits(ps, q);
      assert Linked(ps + [q]) && Carried(q).Found? && Matches(Carried(q).constraint, r);
    } else if Matches(Carried(last).constraint, r) {
      var q := Heir(last, last.meta);
      CoversReflexive(Carried(last).constraint);
      LinkedAppend(ps, q);
      assert Linked(ps + [q]) && Carried(q).Found? && Matches(Carried(q).constraint, r);
    } else {
      forall q | Linked(ps + [q]) && Carried(q).Found? ensures !Matches(Carried(q).constraint, r) {
        LinkedAppend(ps, q);
        CoversContains(Carried(last).constraint, Carried(q).constraint);
      }
    }
  }

  /** In particular every linked chain that ends in a gap goes on to a linked chain whose leaf admits every
      resource. */
  lemma GapUncovers(ps: seq<Claims>)
    requires ps != [] && Linked(ps) && Carried(ps[|ps| - 1]).NoConstraint?
    ensures var q := Heir(ps[|ps| - 1], Some(ANYWHERE));
            Linked(ps + [q]) && Carried(q).Found? && forall r :: Matches(Carried(q).constraint, r)
  {
    var q := Heir(ps[|ps| - 1], Some(ANYWHERE));
    AnywhereCarries(q);
    GapAdmits(ps, q);
  }

  /** A sound chain is sound, for the same audience and command, exactly inside the leaf's window. */
  lemma SoundAgain(c: Crypto, ts: seq<Token>, now: int, t: int, audience: Option<string>, expected: Option<string>)
    requires Sound(c, ts, now, audience, expected)
    ensures var leaf := AllClaims(ts)[|ts| - 1];
            Sound(c, ts, t, audience, expected) <==> leaf.nbf <= t < leaf.exp
  {
    var ps := AllClaims(ts);
    forall p | p in ps ensures Bounds(p, ps[|ps| - 1]) {
      var i: nat :| i < |ps| && ps[i] == p;
      AncestorBounds(ps, i, |ps| - 1);
    }
    assert ps[|ps| - 1] in ps;
  }

  /** A chain accepted once is accepted, for the same audience and command, exactly inside the
      leaf's window. */
  lemma AcceptedAgain(c: Crypto, ts: seq<Token>, now: int, t: int, audience: Option<string>, expected: Option<string>)
    requires ChainVerdict(c, ts, now, audience, expected).Success?
    ensures var leaf := ChainVerdict(c, ts, now, audience, expected).value.leaf;
            ChainVerdict(c, ts, t, audience, expected).Success? <==> leaf.nbf <= t < leaf.exp
  {
    AcceptedIff(c, ts, now, audience, expected);
    AcceptedIff(c, ts, t, audience, expected);
    SoundAgain(c, ts, now, t, audience, expected);
  }

  /** A command the leaf grants is granted by every token of an accepted chain. */
  lemma CommandGrantedThroughout(c: Crypto, ts: seq<Token>, now: int, command: string, i: nat)
    requires Sound(c, ts, now, None, Some(command)) && i < |ts|
    ensures ActionMatchesGranted(AllClaims(ts)[i].cmd, command)
  {
    var ps := AllClaims(ts);
    AncestorBounds(ps, i, |ps| - 1);
    GrantedTransitive(ps[i].cmd, ps[|ps| - 1].cmd, command);
  }
}
