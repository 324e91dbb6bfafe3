/** The stored audit tables: appended events, signed roots and genesis anchors
    (apps/pdp/src/audit/postgres-emitter.ts, apps/control-plane/src/services/audit-roots.ts,
    audit-genesis-anchor.ts). */
module AuditService {
  import opened Common
  import opened Canonical
  import opened Encoding
  import opened Audit
  import opened AuditTheorems

  /** Who signs, under which name, and with which genesis secret. */
  datatype Config = Config(p: Primitives, key: Audit.Bytes, keyId: string, secret: string) {
    function GenesisOf(customer: string): string {
      Genesis(p, customer, secret)
    }
  }

  function LogOf(logs: map<string, seq<Event>>, customer: string): seq<Event> {
    if customer in logs then logs[customer] else []
  }

  /** A stored root is the one signed at some event of its customer's log, at some time. */
  ghost predicate RootOfLog(c: Config, logs: map<string, seq<Event>>, root: Root) {
    exists customer, j: nat, signedAt, ms ::
      customer in logs && j < |logs[customer]|
      && root == SignRoot(c.p, c.key, c.keyId, logs[customer][j], signedAt, ms)
  }

  ghost predicate AnchorOfCustomer(c: Config, customer: string, anchor: Anchor) {
    exists ms :: anchor == SignAnchor(c.p, c.key, c.keyId, customer, c.GenesisOf(customer), ms)
  }

  /** What the tables always satisfy. */
  ghost predicate GoodTables(c: Config, logs: map<string, seq<Event>>, roots: map<string, Root>,
                             anchors: map<string, Anchor>, signed: set<string>)
  {
    && HonestLedger(c.p, c.secret, Ledger(logs, signed))
    && (forall id :: id in roots ==> RootOfLog(c, logs, roots[id]))
    && (forall customer :: customer in anchors ==> AnchorOfCustomer(c, customer, anchors[customer]))
  }

  /** The tables' properties survive an appended event: nothing already stored refers to a changed row. */
  lemma AppendKeepsTables(c: Config, logs: map<string, seq<Event>>, roots: map<string, Root>,
                          anchors: map<string, Anchor>, signed: set<string>, customer: string, e: Event)
    requires GoodTables(c, logs, roots, anchors, signed)
    requires Honest(c.p, customer, c.GenesisOf(customer), LogOf(logs, customer) + [e])
    ensures GoodTables(c, logs[customer := LogOf(logs, customer) + [e]], roots, anchors, signed)
  {
    var logs' := logs[customer := LogOf(logs, customer) + [e]];
    forall k, j: nat | k in logs && j < |logs[k]|
      ensures k in logs' && j < |logs'[k]| && logs'[k][j] == logs[k][j]
    {
    }
    forall text | text in signed ensures IsRootText(Ledger(logs', signed), text) || IsAnchorText(text) {
      if !IsAnchorText(text) {
        assert IsRootText(Ledger(logs, signed), text);
        var k, j: nat, ms :| k in logs && j < |logs[k]| && text == EncodeSignedRoot(k, logs[k][j].hash, ms);
        assert logs'[k][j] == logs[k][j];
        assert IsRootText(Ledger(logs', signed), text);
      }
    }
    forall id | id in roots ensures RootOfLog(c, logs', roots[id]) {
      var k, j: nat, signedAt, ms :|
        k in logs && j < |logs[k]| && roots[id] == SignRoot(c.p, c.key, c.keyId, logs[k][j], signedAt, ms);
      assert logs'[k][j] == logs[k][j];
    }
  }

  lemma SignKeepsLedger(c: Config, logs: map<string, seq<Event>>, signed: set<string>, text: string)
    requires HonestLedger(c.p, c.secret, Ledger(logs, signed))
    requires IsRootText(Ledger(logs, signed), text) || IsAnchorText(text)
    ensures HonestLedger(c.p, c.secret, Ledger(logs, signed + {text}))
  {
    var before, after := Ledger(logs, signed), Ledger(logs, signed + {text});
    forall t | t in after.signed ensures IsRootText(after, t) || IsAnchorText(t) {
      if !IsAnchorText(t) {
        assert IsRootText(before, t);
        var k, j: nat, ms :| k in logs && j < |logs[k]| && t == EncodeSignedRoot(k, logs[k][j].hash, ms);
        assert IsRootText(after, t);
      }
    }
  }

  /** Using the key on the root text of an event keeps the tables' properties, whether or not its root is
      stored, */
  lemma SignKeepsTables(c: Config, logs: map<string, seq<Event>>, roots: map<string, Root>,
                        anchors: map<string, Anchor>, signed: set<string>, customer: string, j: nat, ms: int)
    requires GoodTables(c, logs, roots, anchors, signed) && customer in logs && j < |logs[customer]|
    ensures GoodTables(c, logs, roots, anchors, signed + {EncodeSignedRoot(customer, logs[customer][j].hash, ms)})
  {
    var text := EncodeSignedRoot(customer, logs[customer][j].hash, ms);
    assert IsRootText(Ledger(logs, signed), text);
    SignKeepsLedger(c, logs, signed, text);
  }

  /** and so does storing it. */
  lemma RootKeepsTables(c: Config, logs: map<string, seq<Event>>, roots: map<string, Root>,
                        anchors: map<string, Anchor>, signed: set<string>, id: string,
                        customer: string, j: nat, signedAt: string, ms: int)
    requires GoodTables(c, logs, roots, anchors, signed) && customer in logs && j < |logs[customer]|
    ensures GoodTables(c, logs, roots[id := SignRoot(c.p, c.key, c.keyId, logs[customer][j], signedAt, ms)],
                       anchors, signed)
  {
    var root := SignRoot(c.p, c.key, c.keyId, logs[customer][j], signedAt, ms);
    assert RootOfLog(c, logs, root);
  }

  /** What the tables hold verifies: a stored root is that of some event of some customer's log, and every
      slice of the log that ends there is found ok with it. */
  lemma StoredRootVerifies(c: Config, logs: map<string, seq<Event>>, roots: map<string, Root>,
                           anchors: map<string, Anchor>, signed: set<string>, id: string)
    returns (customer: string, j: nat)
    requires GoodTables(c, logs, roots, anchors, signed) && c.p.Correct() && id in roots
    ensures customer in logs && j < |logs[customer]|
    ensures forall i: nat | i <= j ::
              var b := Bundle(logs[customer][i].id, logs[customer][i..j + 1], Some(roots[id]), None);
              AllChecks(c.p, b, HexOf(c.p.publicOf(c.key)))
  {
    var signedAt, ms;
    customer, j, signedAt, ms :|
      customer in logs && j < |logs[customer]|
      && roots[id] == SignRoot(c.p, c.key, c.keyId, logs[customer][j], signedAt, ms);
    forall i: nat | i <= j
      ensures var b := Bundle(logs[customer][i].id, logs[customer][i..j + 1], Some(roots[id]), None);
              AllChecks(c.p, b, HexOf(c.p.publicOf(c.key)))
    {
      HonestSliceChecks(c.p, c.key, c.keyId, customer, c.GenesisOf(customer), logs[customer], i, j, signedAt, ms, ms);
    }
  }

  /** The latest event of a customer's log. */
  function HeadOf(logs: map<string, seq<Event>>, customer: string): Option<Event> {
    if LogOf(logs, customer) == [] then None else Some(LogOf(logs, customer)[|LogOf(logs, customer)| - 1])
  }

  function RootFor(c: Config, head: Event, signedAt: string, ms: int): Root {
    SignRoot(c.p, c.key, c.keyId, head, signedAt, ms)
  }

  lemma HeadIsLast(c: Config, logs: map<string, seq<Event>>, signed: set<string>, customer: string)
    requires HonestLedger(c.p, c.secret, Ledger(logs, signed)) && HeadOf(logs, customer).Some?
    ensures customer in logs && logs[customer] != [] && HeadOf(logs, customer).value.customer == customer
    ensures HeadOf(logs, customer).value == logs[customer][|logs[customer]| - 1]
  {
    assert HeadOf(logs, customer).value in logs[customer];
  }

  class AuditTables {
    const config: Config
    var logs: map<string, seq<Event>>
    var roots: map<string, Root>
    var anchors: map<string, Anchor>
    /** Every text the audit key has been used on. */
    ghost var signed: set<string>

    ghost predicate Valid()
      reads this
    {
      GoodTables(config, logs, roots, anchors, signed)
    }

    constructor (c: Config)
      ensures Valid() && config == c && logs == map[] && roots == map[] && anchors == map[] && signed == {}
    {
      config, logs, roots, anchors, signed := c, map[], map[], map[], {};
    }

    /** `emit`: append one event to the customer's chain. */
    method EmitEvent(customer: string, id: string, payload: Json) returns (r: Result<Event, PrintError>)
      requires Valid()
      modifies this`logs
      ensures Valid()
      ensures r.Success? <==> Canonicalize(config.p.nfc, payload).Success?
      ensures r.Failure? ==> logs == old(logs)
      ensures r.Success? ==>
                && r.value == Emit(config.p, customer, config.GenesisOf(customer), LogOf(old(logs), customer), id,
                                   payload)
                && logs == old(logs)[customer := LogOf(old(logs), customer) + [r.value]]
                && r.value.id == id && r.value.customer == customer && r.value.payload == payload
      ensures r.Success? && LogOf(old(logs), customer) == [] ==>
                r.value.prevHash == config.p.sha256Hex("audit-genesis|v1|" + customer + "|" + config.secret)
    {
      var text := Canonicalize(config.p.nfc, payload);
      if text.Failure? {
        return Failure(text.error);
      }
      var log := LogOf(logs, customer);
      var prevHash := config.GenesisOf(customer);
      if |log| > 0 {
        prevHash := log[|log| - 1].hash;
      }
      var e := Event(id, customer, prevHash, config.p.sha256Hex(prevHash + "|" + text.value), payload);
      EmitKeepsHonest(config.p, customer, config.GenesisOf(customer), log, id, payload);
      AppendKeepsTables(config, logs, roots, anchors, signed, customer, e);
      logs := logs[customer := log + [e]];
      return Success(e);
    }

    /** `signRootForCustomer`: sign the head of the chain; a second root for one event is not stored. */
    method SignRootForCustomer(customer: string, signedAt: string, ms: int) returns (inserted: bool)
      requires Valid()
      modifies this`roots, this`signed
      ensures Valid()
      ensures match HeadOf(logs, customer)
              case None => !inserted && signed == old(signed) && roots == old(roots)
              case Some(head) =>
                (inserted <==> head.id !in old(roots))
                && roots == (if inserted then old(roots)[head.id := RootFor(config, head, signedAt, ms)]
                             else old(roots))
                && (inserted ==>
                      && roots[head.id].eventId == head.id && roots[head.id].rootHash == head.hash
                      && roots[head.id].keyId == config.keyId && roots[head.id].signedAt == signedAt
                      && roots[head.id].version == Some(2) && roots[head.id].signedAtMs == Some(ms))
    {
      var latest := HeadOf(logs, customer);
      if latest.None? {
        return false;
      }
      var head := latest.value;
      HeadIsLast(config, logs, signed, customer);
      SignKeepsTables(config, logs, roots, anchors, signed, customer, |logs[customer]| - 1, ms);
      var signature := HexOf(config.p.sign(config.key, EncodeSignedRoot(customer, head.hash, ms)));
      signed := signed + {EncodeSignedRoot(customer, head.hash, ms)};
      if head.id in roots {
        return false;
      }
      RootKeepsTables(config, logs, roots, anchors, signed, head.id, customer, |logs[customer]| - 1, signedAt, ms);
      roots := roots[head.id := Root(head.id, head.hash, config.keyId, signature, signedAt, Some(2), Some(ms))];
      return true;
    }

    /** `writeAnchor`: an anchor already stored wins. */
    method WriteAnchor(customer: string, ms: int) returns (row: Anchor)
      requires Valid()
      modifies this`anchors, this`signed
      ensures Valid()
      ensures customer in anchors && anchors[customer] == row
      ensures customer in old(anchors) ==> anchors == old(anchors) && signed == old(signed)
      ensures customer !in old(anchors) ==>
                anchors == old(anchors)[customer := SignAnchor(config.p, config.key, config.keyId, customer,
                                                               config.GenesisOf(customer), ms)]
    {
      if customer in anchors {
        return anchors[customer];
      }
      var genesis := config.GenesisOf(customer);
      var text := EncodeGenesisAnchor(customer, genesis, ms);
      assert IsAnchorText(text);
      SignKeepsLedger(config, logs, signed, text);
      signed := signed + {text};
      row := Anchor(customer, genesis, config.keyId, HexOf(config.p.sign(config.key, text)), ms);
      assert row == SignAnchor(config.p, config.key, config.keyId, customer, config.GenesisOf(customer), ms);
      anchors := anchors[customer := row];
    }
  }
}
