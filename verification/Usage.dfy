/** The monthly quota counters of apps/control-plane/src/services/usage.ts. An increment reads the
    counter row first and upserts it later, so calls interleave between the two. */
module Usage {
  import opened Common

  datatype Tier = Free | Pro | Enterprise

  datatype Kind = Mint | Proxy

  datatype Row = Row(mint: nat, proxy: nat, stripeMeterPending: nat)

  datatype RowKey = RowKey(customer: string, periodStart: int)

  datatype Snapshot = Snapshot(key: RowKey, plan: Tier, mint: nat, proxy: nat) {
    function Of(kind: Kind): nat {
      if kind.Mint? then mint else proxy
    }
  }

  type Rows = map<RowKey, Row>

  type Plans = map<string, Tier>

  /** The monthly cap of a plan, the same for both kinds. */
  function Cap(plan: Tier): nat {
    match plan
    case Free => 1000
    case Pro => 100000
    case Enterprise => 9007199254740991
  }

  /** A customer without a row is on the free plan. */
  function PlanOf(plans: Plans, customer: string): Tier {
    if customer in plans then plans[customer] else Free
  }

  function Look(plans: Plans, rows: Rows, key: RowKey): Snapshot {
    var row := if key in rows then rows[key] else Row(0, 0, 0);
    Snapshot(key, PlanOf(plans, key.customer), row.mint, row.proxy)
  }

  /** The read half of an increment lets it through. */
  predicate Passes(s: Snapshot, kind: Kind) {
    s.Of(kind) < Cap(s.plan)
  }

  /** The row one upsert of `kind` leaves. */
  function Bumped(rows: Rows, key: RowKey, kind: Kind): Row {
    var row := if key in rows then rows[key] else Row(0, 0, 0);
    Row(row.mint + (if kind.Mint? then 1 else 0), row.proxy + (if kind.Proxy? then 1 else 0),
        row.stripeMeterPending + 1)
  }

  class UsageService {
    /** The first instant of the UTC month of a clock reading. */
    const monthStart: int -> int
    var plans: Plans
    var rows: Rows

    constructor (monthStart: int -> int, plans: Plans, rows: Rows)
      ensures this.monthStart == monthStart && this.plans == plans && this.rows == rows
    {
      this.monthStart, this.plans, this.rows := monthStart, plans, rows;
    }

    /** `getUsage`: the two lookups. */
    method GetUsage(customer: string, now: int) returns (s: Snapshot)
      ensures s == Look(plans, rows, RowKey(customer, monthStart(now)))
    {
      var key := RowKey(customer, monthStart(now));
      var plan := Free;
      if customer in plans {
        plan := plans[customer];
      }
      s := Snapshot(key, plan, 0, 0);
      if key in rows {
        s := s.(mint := rows[key].mint, proxy := rows[key].proxy);
      }
    }

    /** The read half of `increment`: the snapshot read, as a quota error when the count is at the cap. */
    method Check(customer: string, kind: Kind, now: int) returns (r: Result<Snapshot, Snapshot>)
      ensures r.Success? <==> Passes(Look(plans, rows, RowKey(customer, monthStart(now))), kind)
      ensures (if r.Success? then r.value else r.error) == Look(plans, rows, RowKey(customer, monthStart(now)))
    {
      var before := GetUsage(customer, now);
      if before.Of(kind) >= Cap(before.plan) {
        return Failure(before);
      }
      return Success(before);
    }

    /** The upsert half of `increment`: it bumps whatever the row holds by now, in the period that was
        read, and reports the counts that were read, one up. */
    method Upsert(before: Snapshot, kind: Kind) returns (after: Snapshot)
      modifies this`rows
      ensures rows == old(rows)[before.key := Bumped(old(rows), before.key, kind)]
      ensures after.key == before.key && after.plan == before.plan
      ensures after.Of(kind) == before.Of(kind) + 1
      ensures forall other: Kind :: other != kind ==> after.Of(other) == before.Of(other)
    {
      var mintDelta := if kind.Mint? then 1 else 0;
      var proxyDelta := if kind.Proxy? then 1 else 0;
      if before.key in rows {
        var row := rows[before.key];
        rows := rows[before.key := Row(row.mint + mintDelta, row.proxy + proxyDelta, row.stripeMeterPending + 1)];
      } else {
        rows := rows[before.key := Row(mintDelta, proxyDelta, 1)];
      }
      after := before.(mint := before.mint + mintDelta, proxy := before.proxy + proxyDelta);
    }

    /** `increment` with nothing else in between. */
    method Increment(customer: string, kind: Kind, now: int) returns (r: Result<Snapshot, Snapshot>)
      modifies this`rows
      ensures r.Success? <==> Passes(Look(plans, old(rows), RowKey(customer, monthStart(now))), kind)
      ensures r.Success? ==> r.value == Look(plans, rows, RowKey(customer, monthStart(now)))
      ensures r.Success? ==> r.value.Of(kind) <= Cap(r.value.plan)
      ensures r.Failure? ==> rows == old(rows)
    {
      var before := Check(customer, kind, now);
      if before.Failure? {
        return before;
      }
      var after := Upsert(before.value, kind);
      assert after.Of(Mint) == Look(plans, rows, before.value.key).mint;
      assert after.Of(Proxy) == Look(plans, rows, before.value.key).proxy;
      return Success(after);
    }
  }

  // ---------------------------------------------------------------- interleavings

  /** An increment between its two halves. */
  datatype Call = Call(kind: Kind, before: Snapshot)

  datatype State = State(plans: Plans, rows: Rows, open: map<nat, Call>)

  /** `Begin` reads, `Finish` upserts, `Abort` is a call that dies in between. */
  datatype Step =
    | Begin(id: nat, key: RowKey, kind: Kind)
    | Finish(id: nat)
    | Abort(id: nat)
    | SetPlan(customer: string, tier: Tier)

  function Next(s: State, step: Step): State {
    match step
    case Begin(id, key, kind) =>
      var before := Look(s.plans, s.rows, key);
      if id !in s.open && Passes(before, kind) then s.(open := s.open[id := Call(kind, before)]) else s
    case Finish(id) =>
      if id in s.open then
        var key := s.open[id].before.key;
        s.(rows := s.rows[key := Bumped(s.rows, key, s.open[id].kind)], open := s.open - {id})
      else s
    case Abort(id) => s.(open := s.open - {id})
    case SetPlan(customer, tier) => s.(plans := s.plans[customer := tier])
  }

  function After(steps: seq<Step>): State {
    if steps == [] then State(map[], map[], map[]) else Next(After(steps[..|steps| - 1]), steps[|steps| - 1])
  }

  /** One counter: a row and a kind. */
  datatype Counter = Counter(key: RowKey, kind: Kind)

  function Value(rows: Rows, c: Counter): nat {
    if c.key !in rows then 0 else if c.kind.Mint? then rows[c.key].mint else rows[c.key].proxy
  }

  predicate Counts(call: Call, c: Counter) {
    call.before.key == c.key && call.kind == c.kind
  }

  /** The calls in flight on a counter. */
  function InFlight(s: State, c: Counter): set<nat> {
    set id | id in s.open && Counts(s.open[id], c)
  }

  /** The step lets a call on the counter through. */
  predicate Admits(s: State, step: Step, c: Counter) {
    step.Begin? && step.id !in s.open && Counter(step.key, step.kind) == c
    && Passes(Look(s.plans, s.rows, step.key), step.kind)
  }

  /** The step upserts the counter. */
  predicate Completes(s: State, step: Step, c: Counter) {
    step.Finish? && step.id in s.open && Counts(s.open[step.id], c)
  }

  /** A call on the counter dies before its upsert. */
  predicate Aborts(s: State, step: Step, c: Counter) {
    step.Abort? && step.id in s.open && Counts(s.open[step.id], c)
  }

  /** How many steps of a run are of one of those three sorts. */
  function Many(sort: (State, Step, Counter) -> bool, steps: seq<Step>, c: Counter): nat {
    if steps == [] then 0
    else
      Many(sort, steps[..|steps| - 1], c)
      + (if sort(After(steps[..|steps| - 1]), steps[|steps| - 1], c) then 1 else 0)
  }

  lemma InFlightMore(s: State, id: nat, call: Call, c: Counter)
    requires id !in s.open && Counts(call, c)
    ensures |InFlight(s.(open := s.open[id := call]), c)| == |InFlight(s, c)| + 1
  {
    assert InFlight(s.(open := s.open[id := call]), c) == InFlight(s, c) + {id};
  }

  lemma InFlightLess(s: State, rows: Rows, id: nat, c: Counter)
    ensures |InFlight(s.(rows := rows, open := s.open - {id}), c)|
            == |InFlight(s, c)| - (if id in s.open && Counts(s.open[id], c) then 1 else 0)
  {
    if id in s.open && Counts(s.open[id], c) {
      assert id in InFlight(s, c);
    }
    assert InFlight(s.(rows := rows, open := s.open - {id}), c) == InFlight(s, c) - {id};
  }

  /** How one step changes the calls in flight. */
  lemma InFlightNext(s: State, step: Step, c: Counter)
    ensures |InFlight(Next(s, step), c)|
            == |InFlight(s, c)| + (if Admits(s, step, c) then 1 else 0)
               - (if Completes(s, step, c) || Aborts(s, step, c) then 1 else 0)
  {
    match step
    case Begin(id, key, kind) =>
      if Admits(s, step, c) {
        InFlightMore(s, id, Call(kind, Look(s.plans, s.rows, key)), c);
      } else {
        assert InFlight(Next(s, step), c) == InFlight(s, c);
      }
    case Finish(id) =>
      InFlightLess(s, Next(s, step).rows, id, c);
    case Abort(id) =>
      InFlightLess(s, s.rows, id, c);
    case SetPlan(_, _) =>
      assert InFlight(Next(s, step), c) == InFlight(s, c);
  }

  lemma ValueNext(s: State, step: Step, c: Counter)
    ensures Value(Next(s, step).rows, c) == Value(s.rows, c) + (if Completes(s, step, c) then 1 else 0)
  {
  }

  /** No increment is lost, under any interleaving: a counter is the number of its completed upserts, and
      every admitted call completed, died or is still in flight. */
  lemma {:induction false} NoIncrementLost(steps: seq<Step>, c: Counter)
    ensures Value(After(steps).rows, c) == Many(Completes, steps, c)
    ensures Many(Admits, steps, c)
            == Many(Completes, steps, c) + Many(Aborts, steps, c) + |InFlight(After(steps), c)|
  {
    if steps != [] {
      var before, step := steps[..|steps| - 1], steps[|steps| - 1];
      NoIncrementLost(before, c);
      InFlightNext(After(before), step, c);
      ValueNext(After(before), step, c);
    }
  }

  /** The plan a run last gave the customer, if it gave one. */
  function LastPlan(steps: seq<Step>, customer: string): Option<Tier> {
    if steps == [] then None
    else
      match steps[|steps| - 1]
      case SetPlan(c, tier) => if c == customer then Some(tier) else LastPlan(steps[..|steps| - 1], customer)
      case _ => LastPlan(steps[..|steps| - 1], customer)
  }

  lemma {:induction false} PlanIsLast(steps: seq<Step>, customer: string)
    ensures LastPlan(steps, customer)
            == if customer in After(steps).plans then Some(After(steps).plans[customer]) else None
  {
    if steps != [] {
      PlanIsLast(steps[..|steps| - 1], customer);
    }
  }

  /** After any run a new call is let through exactly while fewer calls of its kind have completed in its period than
      the customer's plan allows: a thousand on the free plan, which is that of a customer never given another. */
  lemma LetThroughIff(steps: seq<Step>, id: nat, key: RowKey, kind: Kind)
    requires id !in After(steps).open
    ensures id in After(steps + [Begin(id, key, kind)]).open
            <==> Many(Completes, steps, Counter(key, kind))
                 < match LastPlan(steps, key.customer)
                   case Some(Pro) => 100_000
                   case Some(Enterprise) => 9_007_199_254_740_991
                   case _ => 1_000
  {
    assert (steps + [Begin(id, key, kind)])[..|steps|] == steps;
    NoIncrementLost(steps, Counter(key, kind));
    PlanIsLast(steps, key.customer);
  }

  /** Along the whole run the customer's cap is at most `cap` and at most `n` calls on the counter are in
      flight. */
  predicate Within(steps: seq<Step>, c: Counter, cap: nat, n: nat) {
    Cap(PlanOf(After(steps).plans, c.key.customer)) <= cap && |InFlight(After(steps), c)| <= n
    && (steps == [] || Within(steps[..|steps| - 1], c, cap, n))
  }

  /** The quota under interleaving: with at most `n` calls in flight a counter never exceeds the cap by
      more than `n - 1`, counting the calls still to finish. One at a time never exceeds the cap. */
  lemma {:induction false} CounterBounded(steps: seq<Step>, c: Counter, cap: nat, n: nat)
    requires Within(steps, c, cap, n) && n >= 1
    ensures Value(After(steps).rows, c) + |InFlight(After(steps), c)| <= cap + n - 1
  {
    if steps != [] {
      var before, step := steps[..|steps| - 1], steps[|steps| - 1];
      CounterBounded(before, c, cap, n);
      InFlightNext(After(before), step, c);
      ValueNext(After(before), step, c);
    }
  }

  /** The pending Stripe count of a row always is what was metered on it. */
  lemma {:induction false} PendingIsTotal(steps: seq<Step>, key: RowKey)
    requires key in After(steps).rows
    ensures var row := After(steps).rows[key]; row.stripeMeterPending == row.mint + row.proxy
  {
    var before := steps[..|steps| - 1];
    if key in After(before).rows {
      PendingIsTotal(before, key);
    }
  }

  /** What an increment reports never exceeds the row it leaves. */
  lemma {:induction false} ReportNeverAhead(steps: seq<Step>, id: nat)
    requires id in After(steps).open
    ensures var call := After(steps).open[id];
            call.before.Of(call.kind) + 1
            <= Value(Next(After(steps), Finish(id)).rows, Counter(call.before.key, call.kind))
  {
    var before, step := steps[..|steps| - 1], steps[|steps| - 1];
    var call := After(steps).open[id];
    ValueNext(After(steps), Finish(id), Counter(call.before.key, call.kind));
    ValueNext(After(before), step, Counter(call.before.key, call.kind));
    if id in After(before).open {
      ReportNeverAhead(before, id);
      ValueNext(After(before), Finish(id), Counter(call.before.key, call.kind));
    }
  }

  // ---------------------------------------------------------------- the bound is met

  /** The customer takes a plan; `k` increments follow one after the other, then `n` that all read before
      any of them upserts, of which the first `done` have finished. */
  function Burst(plan: Tier, key: RowKey, kind: Kind, k: nat, n: nat, done: nat): seq<Step> {
    if done > 0 then Burst(plan, key, kind, k, n, done - 1) + [Finish(done - 1)]
    else if n > 0 then Burst(plan, key, kind, k, n - 1, 0) + [Begin(n - 1, key, kind)]
    else if k > 0 then Burst(plan, key, kind, k - 1, 0, 0) + [Begin(0, key, kind)] + [Finish(0)]
    else [SetPlan(key.customer, plan)]
  }

  lemma AfterMore(steps: seq<Step>, step: Step)
    ensures After(steps + [step]) == Next(After(steps), step)
  {
    assert (steps + [step])[..|steps|] == steps;
  }

  lemma WithinMore(steps: seq<Step>, step: Step, c: Counter, cap: nat, n: nat)
    requires Within(steps, c, cap, n)
    requires Cap(PlanOf(After(steps + [step]).plans, c.key.customer)) <= cap
    requires |InFlight(After(steps + [step]), c)| <= n
    ensures Within(steps + [step], c, cap, n)
  {
    assert (steps + [step])[..|steps|] == steps;
  }

  /** Exactly the calls from `lo` to `hi - 1` are in flight on `c`. */
  lemma CardRange(s: State, c: Counter, lo: nat, hi: nat)
    requires lo <= hi && forall id: nat :: id in InFlight(s, c) <==> lo <= id < hi
    ensures |InFlight(s, c)| == hi - lo
    decreases hi
  {
    if lo == hi {
      assert InFlight(s, c) == {};
    } else {
      var less := s.(open := s.open - {hi - 1});
      assert InFlight(less, c) == InFlight(s, c) - {hi - 1};
      CardRange(less, c, lo, hi - 1);
    }
  }

  /** A run on a plan after which `c` counts `count` and its calls `lo` to `hi - 1` are in flight,
      with never more than `most` of them. */
  ghost predicate Reaches(plan: Tier, steps: seq<Step>, c: Counter, most: nat, count: nat, lo: nat, hi: nat) {
    var s := After(steps);
    PlanOf(s.plans, c.key.customer) == plan && Value(s.rows, c) == count
    && (forall id: nat :: id in s.open <==> lo <= id < hi)
    && (forall id: nat :: id in s.open ==> Counts(s.open[id], c))
    && Within(steps, c, Cap(plan), most)
  }

  lemma ReachesBegin(plan: Tier, steps: seq<Step>, c: Counter, most: nat, count: nat, hi: nat)
    requires Reaches(plan, steps, c, most, count, 0, hi) && count < Cap(plan) && hi < most
    ensures Reaches(plan, steps + [Begin(hi, c.key, c.kind)], c, most, count, 0, hi + 1)
  {
    var step := Begin(hi, c.key, c.kind);
    AfterMore(steps, step);
    CardRange(After(steps + [step]), c, 0, hi + 1);
    WithinMore(steps, step, c, Cap(plan), most);
  }

  lemma ReachesFinish(plan: Tier, steps: seq<Step>, c: Counter, most: nat, count: nat, lo: nat, hi: nat)
    requires Reaches(plan, steps, c, most, count, lo, hi) && lo < hi <= most
    ensures Reaches(plan, steps + [Finish(lo)], c, most, count + 1, lo + 1, hi)
  {
    AfterMore(steps, Finish(lo));
    CardRange(After(steps + [Finish(lo)]), c, lo + 1, hi);
    WithinMore(steps, Finish(lo), c, Cap(plan), most);
  }

  lemma ReachesDone(plan: Tier, steps: seq<Step>, c: Counter, most: nat, count: nat, lo: nat)
    requires Reaches(plan, steps, c, most, count, lo, lo)
    ensures Reaches(plan, steps, c, most, count, 0, 0)
  {
  }

  lemma FirstStep(plan: Tier, key: RowKey, c: Counter, most: nat)
    requires c.key == key
    ensures Reaches(plan, [SetPlan(key.customer, plan)], c, most, 0, 0, 0)
  {
    var steps := [SetPlan(key.customer, plan)];
    assert steps[..0] == [];
    CardRange(After([]), c, 0, 0);
    CardRange(After(steps), c, 0, 0);
    WithinMore([], SetPlan(key.customer, plan), c, Cap(plan), most);
    assert [] + steps == steps;
  }

  /** Such runs: on every plan, with one call short of the cap, `n` calls pass at once. */
  lemma {:induction false} BurstRuns(plan: Tier, key: RowKey, kind: Kind, k: nat, n: nat, done: nat, most: nat)
    requires done <= n <= most && 1 <= most && k < Cap(plan)
    ensures Reaches(plan, Burst(plan, key, kind, k, n, done), Counter(key, kind), most, k + done, done, n)
    decreases k, n, done
  {
    var c := Counter(key, kind);
    if done > 0 {
      BurstRuns(plan, key, kind, k, n, done - 1, most);
      ReachesFinish(plan, Burst(plan, key, kind, k, n, done - 1), c, most, k + done - 1, done - 1, n);
    } else if n > 0 {
      BurstRuns(plan, key, kind, k, n - 1, 0, most);
      ReachesBegin(plan, Burst(plan, key, kind, k, n - 1, 0), c, most, k, n - 1);
    } else if k > 0 {
      BurstRuns(plan, key, kind, k - 1, 0, 0, most);
      var earlier := Burst(plan, key, kind, k - 1, 0, 0);
      ReachesBegin(plan, earlier, c, most, k - 1, 0);
      ReachesFinish(plan, earlier + [Begin(0, key, kind)], c, most, k - 1, 0, 1);
      ReachesDone(plan, earlier + [Begin(0, key, kind)] + [Finish(0)], c, most, k, 1);
    } else {
      FirstStep(plan, key, c, most);
    }
  }

  /** The bound is met on every plan and for every number of calls in flight: the read and the upsert are
      not one statement, and `n` calls at once can take a counter to the cap plus `n - 1`. */
  lemma BoundIsMet(plan: Tier, key: RowKey, kind: Kind, n: nat)
    requires n >= 1
    ensures exists steps, c :: Within(steps, c, Cap(plan), n) && c == Counter(key, kind)
                               && Value(After(steps).rows, c) == Cap(plan) + n - 1
  {
    BurstRuns(plan, key, kind, Cap(plan) - 1, n, n, n);
    var steps := Burst(plan, key, kind, Cap(plan) - 1, n, n);
    assert Within(steps, Counter(key, kind), Cap(plan), n);
  }
}
