/** Delegation chains: the link-by-link check of packages/ucan/src/chain.ts and the end-to-end
    guarantees it adds up to. */
module Chain {
  import opened Common
  import opened Canonical
  import opened Constraint
  import opened Ucan
  import opened UcanTheorems

  datatype ChainError =
    | BadToken(error: ValidationError)
    | BrokenDelegation
    | OverAttenuated
    | EmptyChain
    | ConstraintException

  type Claims = Payload<Doc>

  datatype Accepted = Accepted(root: Claims, leaf: Claims)

  /** The constraint check of one link; the exception of a malformed constraint is an error too. */
  function ConstraintError(parent: Claims, child: Claims): Option<ChainError> {
    match ExtractConstraint(parent.meta)
    case NoConstraint => None
    case Malformed => Some(ConstraintException)
    case Found(pc) =>
      match ExtractConstraint(child.meta)
      case Malformed => Some(ConstraintException)
      case NoConstraint => if Covers(pc, pc) then None else Some(OverAttenuated)
      case Found(cc) => if Covers(pc, cc) then None else Some(OverAttenuated)
  }

  /** What is wrong with one link, if anything. */
  function LinkError(parent: Claims, child: Claims): Option<ChainError> {
    if child.iss != parent.aud then Some(BrokenDelegation)
    else if !ActionMatchesGranted(parent.cmd, child.cmd) then Some(OverAttenuated)
    else if child.exp > parent.exp then Some(OverAttenuated)
    else if child.nbf < parent.nbf then Some(OverAttenuated)
    else ConstraintError(parent, child)
  }

  /** The check of token `i`: audience and command are the leaf's business only. */
  function TokenResult(c: Crypto, ts: seq<Token>, i: nat, now: int, audience: Option<string>, expected: Option<string>)
    : Result<Claims, ValidationError>
    requires i < |ts|
  {
    var isLeaf := i == |ts| - 1;
    ValidateParsed(c, ts[i], now, if isLeaf then audience else None, if isLeaf then expected else None)
  }

  // ---------------------------------------------------------------- the verdict as a function

  function FirstBadToken(rs: seq<Result<Claims, ValidationError>>): Option<ChainError> {
    if rs == [] then None
    else if rs[0].Failure? then Some(BadToken(rs[0].error))
    else FirstBadToken(rs[1..])
  }

  function FirstBadLink(ps: seq<Claims>): Option<ChainError> {
    if |ps| < 2 then None
    else if LinkError(ps[0], ps[1]).Some? then LinkError(ps[0], ps[1])
    else FirstBadLink(ps[1..])
  }

  predicate AllTokens(rs: seq<Result<Claims, ValidationError>>) {
    forall i | 0 <= i < |rs| :: rs[i].Success?
  }

  function ClaimsOf(rs: seq<Result<Claims, ValidationError>>): (ps: seq<Claims>)
    requires AllTokens(rs)
    ensures |ps| == |rs| && forall i | 0 <= i < |rs| :: ps[i] == rs[i].value
  {
    seq(|rs|, i requires 0 <= i < |rs| && rs[i].Success? => rs[i].value)
  }

  /** Every link of the chain is in order. */
  predicate Linked(ps: seq<Claims>) {
    forall i | 0 <= i < |ps| - 1 :: LinkError(ps[i], ps[i + 1]).None?
  }

  lemma {:induction false} FirstBadTokenNone(rs: seq<Result<Claims, ValidationError>>)
    ensures FirstBadToken(rs).None? <==> AllTokens(rs)
  {
    if rs != [] {
      FirstBadTokenNone(rs[1..]);
      assert rs == [rs[0]] + rs[1..];
    }
  }

  lemma LinkedTail(ps: seq<Claims>)
    requires |ps| >= 2
    ensures Linked(ps) <==> LinkError(ps[0], ps[1]).None? && Linked(ps[1..])
  {
    var tail := ps[1..];
    assert forall i | 0 <= i < |tail| :: tail[i] == ps[i + 1];
    if Linked(ps) {
      assert LinkError(ps[0], ps[0 + 1]).None?;
      forall i | 0 <= i < |tail| - 1 ensures LinkError(tail[i], tail[i + 1]).None? {
        assert LinkError(ps[i + 1], ps[i + 1 + 1]).None?;
      }
    }
    if LinkError(ps[0], ps[1]).None? && Linked(tail) {
      forall i | 0 <= i < |ps| - 1 ensures LinkError(ps[i], ps[i + 1]).None? {
        if i > 0 {
          assert ps[i] == tail[i - 1] && ps[i + 1] == tail[i - 1 + 1];
        }
      }
    }
  }

  lemma {:induction false} FirstBadLinkNone(ps: seq<Claims>)
    ensures FirstBadLink(ps).None? <==> Linked(ps)
  {
    if |ps| >= 2 {
      LinkedTail(ps);
      FirstBadLinkNone(ps[1..]);
    }
  }

  function Verdict(rs: seq<Result<Claims, ValidationError>>): Result<Accepted, ChainError> {
    FirstBadTokenNone(rs);
    if rs == [] then Failure(EmptyChain)
    else if FirstBadToken(rs).Some? then Failure(FirstBadToken(rs).value)
    else
      var ps := ClaimsOf(rs);
      if FirstBadLink(ps).Some? then Failure(FirstBadLink(ps).value)
      else Success(Accepted(ps[0], ps[|ps| - 1]))
  }

  function TokenResults(c: Crypto, ts: seq<Token>, now: int, audience: Option<string>, expected: Option<string>)
    : (rs: seq<Result<Claims, ValidationError>>)
    ensures |rs| == |ts|
    ensures forall i: nat | i < |ts| :: rs[i] == TokenResult(c, ts, i, now, audience, expected)
  {
    seq(|ts|, i requires 0 <= i < |ts| => TokenResult(c, ts, i, now, audience, expected))
  }

  /** What the chain check says of a list of tokens: the first failing token decides, then the first
      failing link. */
  function ChainVerdict(c: Crypto, ts: seq<Token>, now: int, audience: Option<string>, expected: Option<string>)
    : Result<Accepted, ChainError>
  {
    Verdict(TokenResults(c, ts, now, audience, expected))
  }

  lemma {:induction false} FirstBadTokenAt(rs: seq<Result<Claims, ValidationError>>, i: nat)
    requires i < |rs| && rs[i].Failure? && forall j | 0 <= j < i :: rs[j].Success?
    ensures FirstBadToken(rs) == Some(BadToken(rs[i].error))
  {
    if i > 0 {
      FirstBadTokenAt(rs[1..], i - 1);
    }
  }

  lemma {:induction false} FirstBadLinkAt(ps: seq<Claims>, i: nat)
    requires i < |ps| - 1 && LinkError(ps[i], ps[i + 1]).Some?
    requires forall j | 0 <= j < i :: LinkError(ps[j], ps[j + 1]).None?
    ensures FirstBadLink(ps) == LinkError(ps[i], ps[i + 1])
  {
    if i > 0 {
      forall j | 0 <= j < i - 1 ensures LinkError(ps[1..][j], ps[1..][j + 1]).None? {
        assert LinkError(ps[j + 1], ps[j + 2]).None?;
      }
      FirstBadLinkAt(ps[1..], i - 1);
    }
  }

  /** The body of the second pass: the checks of one link, in order. */
  method CheckLink(parent: Claims, child: Claims) returns (broken: Option<ChainError>)
    ensures broken == LinkError(parent, child)
  {
    if child.iss != parent.aud {
      return Some(BrokenDelegation);
    }
    if !ActionMatchesGranted(parent.cmd, child.cmd) {
      return Some(OverAttenuated);
    }
    if child.exp > parent.exp {
      return Some(OverAttenuated);
    }
    if child.nbf < parent.nbf {
      return Some(OverAttenuated);
    }
    var parentConstraint := ExtractConstraint(parent.meta);
    if parentConstraint.Malformed? {
      return Some(ConstraintException);
    }
    if parentConstraint.Found? {
      var childConstraint := ExtractConstraint(child.meta);
      if childConstraint.Malformed? {
        return Some(ConstraintException);
      }
      var bound := if childConstraint.Found? then childConstraint.constraint else parentConstraint.constraint;
      if !Covers(parentConstraint.constraint, bound) {
        return Some(OverAttenuated);
      }
    }
    return None;
  }

  /** The check of one token in the first pass. */
  method CheckToken(c: Crypto, jwts: seq<string>, i: nat, now: int, audience: Option<string>, expected: Option<string>)
    returns (res: Result<Claims, ValidationError>)
    requires i < |jwts|
    ensures res == TokenResult(c, ParseAll(jwts), i, now, audience, expected)
  {
    ParseAllAt(jwts, i);
    var isLeaf := i == |jwts| - 1;
    res := ValidateUcan(c, jwts[i], now, if isLeaf then audience else None, if isLeaf then expected else None);
  }

  /** The first pass: every token is checked, the payloads are collected. */
  method CheckTokens(c: Crypto, jwts: seq<string>, now: int, audience: Option<string>, expected: Option<string>)
    returns (r: Result<seq<Claims>, ChainError>)
    ensures var rs := TokenResults(c, ParseAll(jwts), now, audience, expected);
            if AllTokens(rs) then r == Success(ClaimsOf(rs))
            else FirstBadToken(rs).Some? && r == Failure(FirstBadToken(rs).value)
  {
    ghost var rs := TokenResults(c, ParseAll(jwts), now, audience, expected);
    var payloads: seq<Claims> := [];
    for i := 0 to |jwts|
      invariant |payloads| == i
      invariant forall j | 0 <= j < i :: rs[j] == Success(payloads[j])
    {
      var res := CheckToken(c, jwts, i, now, audience, expected);
      if res.Failure? {
        FirstBadTokenAt(rs, i);
        return Failure(BadToken(res.error));
      }
      payloads := payloads + [res.value];
    }
    assert payloads == ClaimsOf(rs);
    return Success(payloads);
  }

  /** The second pass: every link is checked. */
  method CheckLinks(payloads: seq<Claims>) returns (broken: Option<ChainError>)
    ensures broken == FirstBadLink(payloads)
  {
    FirstBadLinkNone(payloads);
    var i := 0;
    while i < |payloads| - 1
      invariant i >= 0
      invariant forall j | 0 <= j < i && j < |payloads| - 1 :: LinkError(payloads[j], payloads[j + 1]).None?
    {
      broken := CheckLink(payloads[i], payloads[i + 1]);
      if broken.Some? {
        FirstBadLinkAt(payloads, i);
        return;
      }
      i := i + 1;
    }
    return None;
  }

  /** `validateChain` */
  method ValidateChain(c: Crypto, jwts: seq<string>, now: int, audience: Option<string>, expected: Option<string>)
    returns (r: Result<Accepted, ChainError>)
    ensures r == ChainVerdict(c, ParseAll(jwts), now, audience, expected)
  {
    if |jwts| == 0 {
      return Failure(EmptyChain);
    }
    FirstBadTokenNone(TokenResults(c, ParseAll(jwts), now, audience, expected));
    var payloads := CheckTokens(c, jwts, now, audience, expected);
    if payloads.Failure? {
      return Failure(payloads.error);
    }
    var broken := CheckLinks(payloads.value);
    if broken.Some? {
      return Failure(broken.value);
    }
    return Success(Accepted(payloads.value[0], payloads.value[|payloads.value| - 1]));
  }
}
