/** Which payloads a token can carry and how they are written (packages/shared-types/src/ucan.ts,
    packages/ucan/src/parse.ts). */
module UcanForms {
  import opened Common
  import opened Canonical
  import opened Ucan

  // ---------------------------------------------------------------- commands

  /** Lower-case letters, digits, underscores and hyphens, one at least. */
  predicate IsName(s: string) {
    s != "" && forall c :: c in s ==> 'a' <= c <= 'z' || '0' <= c <= '9' || c == '_' || c == '-'
  }

  /** Names with a slash before each. */
  function Slashed(names: seq<string>): string {
    if names == [] then "" else "/" + names[0] + Slashed(names[1..])
  }

  lemma {:induction false} SlashedJoin(names: seq<string>)
    requires names != []
    ensures Slashed(names) == "/" + Join(names, "/")
  {
    if |names| > 1 {
      SlashedJoin(names[1..]);
      assert names[0] + "/" + Join(names[1..], "/") == names[0] + ("/" + Join(names[1..], "/"));
    } else {
      assert names[1..] == [] && Slashed(names[1..]) == "";
      assert "/" + names[0] + "" == "/" + names[0];
    }
  }

  lemma SegmentIsName(s: string)
    ensures IsSegment(s) <==> IsName(s)
  {
  }

  lemma SplitSlashed(s: string)
    requires s != "" && s[0] == '/'
    ensures s == Slashed(Split(s[1..], '/'))
  {
    JoinSplit(s[1..], '/');
    SlashedJoin(Split(s[1..], '/'));
    assert s == "/" + s[1..];
  }

  /** A command is one name or more, a slash before each. */
  lemma CommandIff(s: string)
    ensures IsCommand(s) <==> exists names :: names != [] && s == Slashed(names) && forall n :: n in names ==> IsName(n)
  {
    if IsCommand(s) {
      SplitSlashed(s);
      assert forall n :: n in Split(s[1..], '/') ==> IsSegment(n);
    }
    forall names | names != [] && s == Slashed(names) && forall n :: n in names ==> IsName(n)
      ensures IsCommand(s)
    {
      SlashedJoin(names);
      assert s[1..] == Join(names, "/");
      SplitJoin(names, '/');
    }
  }

  // ---------------------------------------------------------------- DIDs

  predicate IsMethod(s: string) {
    s != "" && forall c :: c in s ==> 'a' <= c <= 'z' || '0' <= c <= '9'
  }

  predicate IsMethodId(s: string) {
    s != "" && forall c :: c in s ==>
                 'a' <= c <= 'z' || 'A' <= c <= 'Z' || '0' <= c <= '9' || c == '.' || c == '_' || c == ':' || c == '-'
  }

  lemma DidParts(s: string, n: nat)
    requires StartsWith(s, "did:") && 4 < n < |s| - 1 && s[n] == ':'
    ensures s == "did:" + s[4..n] + ":" + s[n + 1..]
  {
  }

  lemma PartsOfDid(s: string, name: string, id: string)
    requires s == "did:" + name + ":" + id && IsMethod(name) && IsMethodId(id)
    ensures IsDid(s)
  {
    var n := 4 + |name|;
    assert s[n] == ':' && s[..4] == "did:";
    forall i | 4 <= i < n ensures LowerAlnum(s[i]) {
      assert s[i] == name[i - 4] && name[i - 4] in name;
    }
    forall i | n < i < |s| ensures DidChar(s[i]) {
      assert s[i] == id[i - n - 1] && id[i - n - 1] in id;
    }
  }

  /** A DID names a method and, after a colon, what the method identifies. */
  lemma DidIff(s: string)
    ensures IsDid(s) <==> exists name, id :: s == "did:" + name + ":" + id && IsMethod(name) && IsMethodId(id)
  {
    if IsDid(s) {
      var n :| 4 < n < |s| - 1 && s[n] == ':'
               && (forall i | 4 <= i < n :: LowerAlnum(s[i])) && (forall i | n < i < |s| :: DidChar(s[i]));
      DidParts(s, n);
      assert IsMethod(s[4..n]) && IsMethodId(s[n + 1..]);
    }
    forall name, id | s == "did:" + name + ":" + id && IsMethod(name) && IsMethodId(id) ensures IsDid(s) {
      PartsOfDid(s, name, id);
    }
  }

  // ---------------------------------------------------------------- payloads

  function Under(m: Members, k: string): Option<Doc> {
    if k in m then Some(m[k]) else None
  }

  /** The elements are those strings. */
  predicate AreStrings(ds: seq<Doc>, ss: seq<string>) {
    |ds| == |ss| && forall i | 0 <= i < |ds| :: ds[i] == DStr(ss[i])
  }

  predicate IsPredicate(d: Doc, p: Predicate<Doc>) {
    d == DArr([DStr(p.op), DStr(p.selector), p.value])
  }

  predicate ArePredicates(ds: seq<Doc>, ps: seq<Predicate<Doc>>) {
    |ds| == |ps| && forall i | 0 <= i < |ds| :: IsPredicate(ds[i], ps[i])
  }

  /** How an object says a payload: the required members, then the optional ones. */
  predicate Says(m: Members, p: Payload<Doc>) {
    && Under(m, "iss") == Some(DStr(p.iss)) && Under(m, "aud") == Some(DStr(p.aud))
    && Under(m, "cmd") == Some(DStr(p.cmd)) && Under(m, "nonce") == Some(DStr(p.nonce))
    && Under(m, "nbf") == Some(DNum(p.nbf)) && Under(m, "exp") == Some(DNum(p.exp))
    && (var pol := Under(m, "pol"); pol.Some? && pol.value.DArr? && ArePredicates(pol.value.items, p.pol))
    && Under(m, "sub") == (if p.sub.Some? then Some(DStr(p.sub.value)) else None)
    && Under(m, "meta") == p.meta && (p.meta.Some? ==> p.meta.value.DObj?)
    && (match p.prf
        case None => Under(m, "prf") == None
        case Some(ss) => var prf := Under(m, "prf"); prf.Some? && prf.value.DArr? && AreStrings(prf.value.items, ss))
  }

  /** What the schema demands of the members. */
  predicate Allowed(p: Payload<Doc>) {
    && IsDid(p.iss) && IsDid(p.aud) && IsCommand(p.cmd) && p.nonce != ""
    && 0 <= p.nbf && 0 < p.exp && p.nbf < p.exp
  }

  lemma StringsRead(m: Members, k: string, ss: Option<seq<string>>)
    ensures GetOptStrings(m, k) == Some(ss)
            <==> match ss
                 case None => Under(m, k) == None
                 case Some(want) =>
                   Under(m, k).Some? && Under(m, k).value.DArr? && AreStrings(Under(m, k).value.items, want)
  {
    if k in m && m[k].DArr? {
      var ds := m[k].items;
      if Strings(ds).Some? {
        assert forall i | 0 <= i < |ds| :: ds[i] in ds;
        assert AreStrings(ds, Strings(ds).value);
      }
      if ss.Some? && AreStrings(ds, ss.value) {
        assert Strings(ds).value == ss.value;
      }
    }
  }

  lemma TripleIs(d: Doc)
    requires IsTriple(d)
    ensures IsPredicate(d, Predicate(d.items[0].s, d.items[1].s, d.items[2]))
  {
    assert d.items == [d.items[0], d.items[1], d.items[2]];
  }

  lemma PredicatesRead(m: Members, k: string, ps: seq<Predicate<Doc>>)
    ensures GetPredicates(m, k) == Some(ps)
            <==> Under(m, k).Some? && Under(m, k).value.DArr? && ArePredicates(Under(m, k).value.items, ps)
  {
    if k in m && m[k].DArr? {
      var ds := m[k].items;
      if forall d :: d in ds ==> IsTriple(d) {
        forall i | 0 <= i < |ds| ensures IsPredicate(ds[i], GetPredicates(m, k).value[i]) {
          assert ds[i] in ds;
          TripleIs(ds[i]);
        }
        if ArePredicates(ds, ps) {
          assert GetPredicates(m, k).value == ps;
        }
      }
    }
  }

  /** A payload is read exactly from the objects that say it, and only if the schema allows it; other members are
      ignored, and one of the wrong shape spoils the whole. */
  lemma PayloadOfIff(d: Doc, p: Payload<Doc>)
    ensures PayloadOf(d) == Some(p) <==> d.DObj? && Says(d.members, p) && Allowed(p)
  {
    if d.DObj? {
      StringsRead(d.members, "prf", p.prf);
      PredicatesRead(d.members, "pol", p.pol);
    }
  }
}
