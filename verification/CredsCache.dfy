/** The session-credential cache of apps/control-plane/src/cloud/creds-cache.ts: a map under composite
    string keys, read as a map on connection and scope. */
module CredsCache {
  import opened Common

  /** Session credentials, as far as the cache looks at them. */
  datatype Creds = Creds(secret: string, expiresAt: int)

  datatype Entry = Entry(creds: Creds, expiresAtMs: int)

  datatype Options = Options(maxTtlMs: int, safetyMarginMs: int)

  const DEFAULTS := Options(15 * 60 * 1000, 60 * 1000)

  function Key(connection: string, scope: string): string {
    connection + "|" + scope
  }

  type Store = map<string, Entry>

  /** When an entry set at `now` stops being served. */
  function ExpiryOf(o: Options, creds: Creds, now: int): int {
    if creds.expiresAt - o.safetyMarginMs <= now + o.maxTtlMs then creds.expiresAt - o.safetyMarginMs
    else now + o.maxTtlMs
  }

  class CredsCache {
    const options: Options
    var store: Store

    constructor (o: Options)
      ensures options == o && store == map[]
    {
      options, store := o, map[];
    }

    /** `get` at time `now`: an expired entry is dropped. */
    method Get(connection: string, scope: string, now: int) returns (r: Option<Creds>)
      modifies this`store
      ensures r == Served(old(store), connection, scope, now)
      ensures store == GetStore(old(store), connection, scope, now)
    {
      var key := Key(connection, scope);
      if key !in store {
        return None;
      }
      var entry := store[key];
      if entry.expiresAtMs <= now {
        store := store - {key};
        return None;
      }
      return Some(entry.creds);
    }

    /** `set`, reading the clock twice: credentials already too stale are not stored. */
    method Set(connection: string, scope: string, creds: Creds, now: int, later: int)
      modifies this`store
      ensures store == SetStore(options, old(store), connection, scope, creds, now, later)
    {
      var credExpiresAt := creds.expiresAt - options.safetyMarginMs;
      var expiresAtMs := if credExpiresAt <= now + options.maxTtlMs then credExpiresAt else now + options.maxTtlMs;
      if expiresAtMs <= later {
        return;
      }
      store := store[Key(connection, scope) := Entry(creds, expiresAtMs)];
    }

    /** `delete`: a loop over the keys drops every scope of the connection. */
    method Delete(connection: string)
      modifies this`store
      ensures store == DeleteStore(old(store), connection)
    {
      var todo := store.Keys;
      ghost var before := store;
      while todo != {}
        invariant todo <= before.Keys
        invariant store.Keys == todo + DeleteStore(before, connection).Keys
        invariant forall k :: k in store ==> store[k] == before[k]
        decreases |todo|
      {
        var key :| key in todo;
        todo := todo - {key};
        if StartsWith(key, connection + "|") {
          store := store - {key};
        }
      }
    }

    /** `size` */
    function Size(): nat
      reads this`store
    {
      |store|
    }
  }

  // ---------------------------------------------------------------- the operations on the store

  function Served(store: Store, connection: string, scope: string, now: int): Option<Creds> {
    var key := Key(connection, scope);
    if key in store && store[key].expiresAtMs > now then Some(store[key].creds) else None
  }

  function GetStore(store: Store, connection: string, scope: string, now: int): Store {
    var key := Key(connection, scope);
    if key in store && store[key].expiresAtMs <= now then store - {key} else store
  }

  function SetStore(o: Options, store: Store, connection: string, scope: string, creds: Creds, now: int,
                    later: int): Store {
    var expiresAtMs := ExpiryOf(o, creds, now);
    if expiresAtMs <= later then store else store[Key(connection, scope) := Entry(creds, expiresAtMs)]
  }

  function DeleteStore(store: Store, connection: string): Store {
    map k | k in store && !StartsWith(k, connection + "|") :: store[k]
  }

  // ---------------------------------------------------------------- histories

  datatype Op =
    | GetOp(connection: string, scope: string, at: int)
    | SetOp(connection: string, scope: string, creds: Creds, at: int, later: int)
    | DeleteOp(connection: string)

  function Run(o: Options, ops: seq<Op>): Store {
    if ops == [] then map[]
    else
      var before := Run(o, ops[..|ops| - 1]);
      match ops[|ops| - 1]
      case GetOp(c, s, at) => GetStore(before, c, s, at)
      case SetOp(c, s, creds, at, later) => SetStore(o, before, c, s, creds, at, later)
      case DeleteOp(c) => DeleteStore(before, c)
  }

  /** What the history says of one connection and scope, gets apart: the last set that was not stale,
      unless the connection was deleted since. */
  function LastSet(o: Options, ops: seq<Op>, connection: string, scope: string): Option<Entry> {
    if ops == [] then None
    else
      var before := LastSet(o, ops[..|ops| - 1], connection, scope);
      match ops[|ops| - 1]
      case GetOp(_, _, _) => before
      case SetOp(c, s, creds, at, later) =>
        if c == connection && s == scope && ExpiryOf(o, creds, at) > later
        then Some(Entry(creds, ExpiryOf(o, creds, at)))
        else before
      case DeleteOp(c) => if c == connection then None else before
  }

  function Connections(ops: seq<Op>): set<string> {
    set op | op in ops :: op.connection
  }

  /** No id in use continues another past a bar; ids without bars never do. */
  predicate Apart(ids: set<string>) {
    forall a, b | a in ids && b in ids :: !StartsWith(b, a + "|")
  }

  lemma BarFreeApart(ids: set<string>)
    requires forall a :: a in ids ==> '|' !in a
    ensures Apart(ids)
  {
    forall a, b | a in ids && b in ids ensures !StartsWith(b, a + "|") {
      if |a| < |b| {
        assert b[|a|] in b;
        assert b[..|a| + 1][|a|] == b[|a|] && (a + "|")[|a|] == '|';
      }
    }
  }

  /** A key under one connection starts like another's only if the ids are equal or one continues the
      other past a bar. */
  lemma KeyStart(a: string, b: string, s: string)
    requires StartsWith(Key(b, s), a + "|")
    ensures a == b || StartsWith(b, a + "|") || StartsWith(a, b + "|")
  {
    var k := Key(b, s);
    assert k[..|a| + 1] == a + "|" && k[..|b| + 1] == b + "|";
    if |a| < |b| {
      assert b[..|a| + 1] == k[..|b| + 1][..|a| + 1];
    } else if |b| < |a| {
      assert a[..|b| + 1] == k[..|a| + 1][..|b| + 1];
    } else {
      assert a == k[..|a| + 1][..|a|] && b == k[..|b| + 1][..|b|];
    }
  }

  lemma OwnKeyStart(a: string, s: string)
    ensures StartsWith(Key(a, s), a + "|")
  {
    assert Key(a, s)[..|a| + 1] == a + "|";
  }

  /** Among ids that are apart, keys tell connection and scope apart. */
  lemma KeyInjective(a: string, s: string, b: string, t: string)
    requires Apart({a, b}) && Key(a, s) == Key(b, t)
    ensures a == b && s == t
  {
    OwnKeyStart(a, s);
    KeyStart(a, b, t);
    assert s == Key(a, s)[|a| + 1..] && t == Key(b, t)[|b| + 1..];
  }

  // ---------------------------------------------------------------- what the cache serves

  /** No get of the history happened after `t`. */
  predicate ClockBy(ops: seq<Op>, t: int) {
    forall i | 0 <= i < |ops| && ops[i].GetOp? :: ops[i].at <= t
  }

  /** The store holds the last set, or has dropped it as expired. */
  predicate Agrees(store: Store, key: string, last: Option<Entry>, t: int) {
    match last
    case None => key !in store
    case Some(e) => if key in store then store[key] == e else e.expiresAtMs <= t
  }

  lemma {:induction false} StoreAgrees(o: Options, ops: seq<Op>, connection: string, scope: string, t: int)
    requires Apart(Connections(ops) + {connection}) && ClockBy(ops, t)
    ensures Agrees(Run(o, ops), Key(connection, scope), LastSet(o, ops, connection, scope), t)
  {
    if ops != [] {
      var before, op := ops[..|ops| - 1], ops[|ops| - 1];
      assert ops == before + [op] && op in ops;
      assert Connections(before) <= Connections(ops) && op.connection in Connections(ops);
      StoreAgrees(o, before, connection, scope, t);
      StepAgrees(o, Run(o, before), LastSet(o, before, connection, scope), op, connection, scope, t);
    }
  }

  /** One operation keeps the agreement. */
  lemma StepAgrees(o: Options, store: Store, last: Option<Entry>, op: Op, connection: string, scope: string, t: int)
    requires Apart({op.connection, connection}) && (op.GetOp? ==> op.at <= t)
    requires Agrees(store, Key(connection, scope), last, t)
    ensures match op
            case GetOp(c, s, at) => Agrees(GetStore(store, c, s, at), Key(connection, scope), last, t)
            case SetOp(c, s, creds, at, later) =>
              Agrees(SetStore(o, store, c, s, creds, at, later), Key(connection, scope),
                     if c == connection && s == scope && ExpiryOf(o, creds, at) > later
                     then Some(Entry(creds, ExpiryOf(o, creds, at))) else last, t)
            case DeleteOp(c) =>
              Agrees(DeleteStore(store, c), Key(connection, scope), if c == connection then None else last, t)
  {
    var key := Key(connection, scope);
    match op
    case GetOp(c, s, at) =>
      if Key(c, s) == key {
        KeyInjective(c, s, connection, scope);
      }
    case SetOp(c, s, creds, at, later) =>
      if Key(c, s) == key {
        KeyInjective(c, s, connection, scope);
      }
    case DeleteOp(c) =>
      if c == connection {
        OwnKeyStart(connection, scope);
      } else if StartsWith(key, c + "|") {
        KeyStart(c, connection, scope);
      }
  }

  /** Refinement: when connection ids are apart and the clock does not run backwards, a get at `t`
      returns precisely the credentials of the last non-stale set since the connection was last deleted,
      and only before that entry's expiry. */
  lemma GetReturnsLastSet(o: Options, ops: seq<Op>, connection: string, scope: string, t: int)
    requires Apart(Connections(ops) + {connection}) && ClockBy(ops, t)
    ensures Served(Run(o, ops), connection, scope, t)
            == match LastSet(o, ops, connection, scope)
               case None => None
               case Some(e) => if t < e.expiresAtMs then Some(e.creds) else None
  {
    StoreAgrees(o, ops, connection, scope, t);
  }

  /** A set that stores something for the pair: at the second look at the clock neither bound has passed. */
  predicate FreshSet(o: Options, op: Op, connection: string, scope: string) {
    op.SetOp? && op.connection == connection && op.scope == scope
    && op.later < op.creds.expiresAt - o.safetyMarginMs && op.later < op.at + o.maxTtlMs
  }

  predicate Clears(op: Op, connection: string) {
    op.DeleteOp? && op.connection == connection
  }

  /** Set `i` is the last fresh set of the pair, and nothing cleared it since. */
  predicate IsLastSet(o: Options, ops: seq<Op>, i: nat, connection: string, scope: string)
    requires i < |ops|
  {
    FreshSet(o, ops[i], connection, scope)
    && forall j | i < j < |ops| :: !FreshSet(o, ops[j], connection, scope) && !Clears(ops[j], connection)
  }

  predicate Lesser(x: int, a: int, b: int) {
    x <= a && x <= b && (x == a || x == b)
  }

  lemma ExpiryIsLesser(o: Options, creds: Creds, now: int)
    ensures Lesser(ExpiryOf(o, creds, now), creds.expiresAt - o.safetyMarginMs, now + o.maxTtlMs)
  {
  }

  /** What `LastSet` means: an entry is reported exactly when it is that of the last fresh set, uncleared
      since; its expiry is the earlier of the credentials' own less the margin and the cap. */
  lemma {:induction false} LastSetSpec(o: Options, ops: seq<Op>, connection: string, scope: string, e: Entry)
    ensures LastSet(o, ops, connection, scope) == Some(e)
            <==> exists i :: 0 <= i < |ops| && IsLastSet(o, ops, i, connection, scope) && e.creds == ops[i].creds
                             && Lesser(e.expiresAtMs, e.creds.expiresAt - o.safetyMarginMs, ops[i].at + o.maxTtlMs)
  {
    if ops != [] {
      var before, n := ops[..|ops| - 1], |ops| - 1;
      var op := ops[n];
      LastSetSpec(o, before, connection, scope, e);
      if FreshSet(o, op, connection, scope) {
        assert IsLastSet(o, ops, n, connection, scope);
        ExpiryIsLesser(o, op.creds, op.at);
        forall i | 0 <= i < n ensures !IsLastSet(o, ops, i, connection, scope) {
        }
      } else if !Clears(op, connection) {
        forall i | 0 <= i < n
          ensures IsLastSet(o, ops, i, connection, scope) <==> IsLastSet(o, before, i, connection, scope)
        {
          assert forall j | i <= j < n :: before[j] == ops[j];
        }
      }
    }
  }

  /** A get at `t` returns credentials exactly if they are those of the last set of the pair that was fresh and was
      not cleared since, and `t` is before both their own expiry less the margin and the cap on their time
      in the cache. */
  lemma ServedIff(o: Options, ops: seq<Op>, connection: string, scope: string, t: int, creds: Creds)
    requires Apart(Connections(ops) + {connection}) && ClockBy(ops, t)
    ensures Served(Run(o, ops), connection, scope, t) == Some(creds)
            <==> exists i :: 0 <= i < |ops| && IsLastSet(o, ops, i, connection, scope) && creds == ops[i].creds
                             && t < creds.expiresAt - o.safetyMarginMs && t < ops[i].at + o.maxTtlMs
  {
    GetReturnsLastSet(o, ops, connection, scope, t);
    var last := LastSet(o, ops, connection, scope);
    if last.Some? {
      LastSetSpec(o, ops, connection, scope, last.value);
    }
    forall i | 0 <= i < |ops| && IsLastSet(o, ops, i, connection, scope)
      ensures last == Some(Entry(ops[i].creds, ExpiryOf(o, ops[i].creds, ops[i].at)))
    {
      ExpiryIsLesser(o, ops[i].creds, ops[i].at);
      LastSetSpec(o, ops, connection, scope, Entry(ops[i].creds, ExpiryOf(o, ops[i].creds, ops[i].at)));
    }
  }

  /** By default that is a quarter of an hour at most, and up to a minute before they expire. */
  lemma ServedByDefault(ops: seq<Op>, connection: string, scope: string, t: int, creds: Creds)
    requires Apart(Connections(ops) + {connection}) && ClockBy(ops, t)
    requires Served(Run(DEFAULTS, ops), connection, scope, t) == Some(creds)
    ensures t < creds.expiresAt - 60_000
    ensures exists i :: 0 <= i < |ops| && ops[i].SetOp? && ops[i].connection == connection && ops[i].scope == scope
                        && ops[i].creds == creds && t < ops[i].at + 900_000
  {
    ServedIff(DEFAULTS, ops, connection, scope, t, creds);
  }

  /** Without that condition on ids the cache serves one connection's credentials to another: an id that
      continues another past a bar shares keys with it. */
  lemma ClashServesOther(o: Options, a: string, b: string, creds: Creds, now: int)
    requires StartsWith(b, a + "|") && now < creds.expiresAt - o.safetyMarginMs && 0 < o.maxTtlMs
    ensures var ops := [SetOp(b, "x", creds, now, now)];
            var scope := b[|a| + 1..] + "|x";
            Served(Run(o, ops), a, scope, now) == Some(creds) && LastSet(o, ops, a, scope).None?
  {
    var ops := [SetOp(b, "x", creds, now, now)];
    var scope := b[|a| + 1..] + "|x";
    assert b == a + "|" + b[|a| + 1..] by {
      assert b == b[..|a| + 1] + b[|a| + 1..];
    }
    assert Key(a, scope) == Key(b, "x");
    assert ops[..0] == [];
    assert |a| < |b|;
  }
}
