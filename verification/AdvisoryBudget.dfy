/** Attempt budgets for delegated work: one authenticated row per goal, shared by all processes. */
module AdvisoryBudget {
  import opened Prelude
  import S = Sanitizer

  const MAX_RECORDS := 4096
  const MAX_RESEARCH := 3
  const MAX_REVIEWS := 1

  datatype Role = Research | Review

  datatype Row = Row(repository: string, research: int, review: int, tag: string)

  type Table = map<string, Row>

  /** The digest of a valid goal ID, and the keyed tag over goal, repository and counters. */
  datatype Keys = Keys(digest: string -> Option<string>, tag: (string, string, int, int) -> string)

  datatype Reservation = Reservation(allowed: bool, research: int, review: int) | Unavailable

  /* ---------- the store ---------- */

  predicate Verified(row: Row, goal: string, repository: string, keys: Keys) {
    row.repository == repository && row.research >= 0 && row.review >= 0 && row.tag == keys.tag(goal, repository, row.research, row.review)
  }

  function NewRow(goal: string, repository: string, research: int, review: int, keys: Keys): Row {
    Row(repository, research, review, keys.tag(goal, repository, research, review))
  }

  /** One more attempt for the role if the limit allows it. */
  function Granted(table: Table, goal: string, repository: string, research: int, review: int, role: Role, limits: (int, int), keys: Keys): (Table, Reservation) {
    if role == Research && research < limits.0 then
      (table[goal := NewRow(goal, repository, research + 1, review, keys)], Reservation(true, research + 1, review))
    else if role == Review && review < limits.1 then
      (table[goal := NewRow(goal, repository, research, review + 1, keys)], Reservation(true, research, review + 1))
    else (table, Reservation(false, research, review))
  }

  function Reserve(table: Table, repository: string, goalId: string, role: Role, limits: (int, int), keys: Keys): (Table, Reservation) {
    var goal := keys.digest(goalId);
    if goal.None? || limits.0 <= 0 || limits.1 <= 0 then (table, Unavailable)
    else if goal.value !in table then
      if |table| >= MAX_RECORDS then (table, Unavailable) else Granted(table, goal.value, repository, 0, 0, role, limits, keys)
    else if !Verified(table[goal.value], goal.value, repository, keys) then (table, Unavailable)
    else Granted(table, goal.value, repository, table[goal.value].research, table[goal.value].review, role, limits, keys)
  }

  class Database {
    var table: Table

    constructor ()
      ensures table == map[]
    {
      table := map[];
    }
  }

  /** One process's handle of the shared database. */
  class BudgetStore {
    const database: Database
    const repository: string
    const keys: Keys

    constructor (database: Database, repository: string, keys: Keys)
      ensures this.database == database && this.repository == repository && this.keys == keys
    {
      this.database, this.repository, this.keys := database, repository, keys;
    }

    method ReserveAttempt(goalId: string, role: Role, maxResearch: int, maxReviews: int) returns (r: Reservation)
      modifies database
      ensures (database.table, r) == old(Reserve(database.table, repository, goalId, role, (maxResearch, maxReviews), keys))
    {
      var digest := keys.digest(goalId);
      if digest.None? || maxResearch <= 0 || maxReviews <= 0 { return Unavailable; }
      var goal := digest.value;
      var research, review := 0, 0;
      if goal !in database.table {
        if |database.table| >= MAX_RECORDS { return Unavailable; }
      } else {
        var row := database.table[goal];
        if row.repository != repository || row.research < 0 || row.review < 0 { return Unavailable; }
        if row.tag != keys.tag(goal, repository, row.research, row.review) { return Unavailable; }
        research, review := row.research, row.review;
      }
      var allowed := false;
      if role == Research {
        if research < maxResearch {
          research := research + 1;
          allowed := true;
        }
      } else if review < maxReviews {
        review := review + 1;
        allowed := true;
      }
      if allowed {
        var tag := keys.tag(goal, repository, research, review);
        database.table := database.table[goal := Row(repository, research, review, tag)];
      }
      return Reservation(allowed, research, review);
    }
  }

  /* ---------- sessions ---------- */

  /** What the adapter does when called: it may be missing, fail, or return a report that is or is not valid. */
  datatype Worker = NoWorker | Fails | Reports(valid: bool)

  datatype Request = Request(role: Role, payload: S.Value, worker: Worker, depth: int)

  datatype Checks = Checks(rules: S.Rules, bytes: S.Value -> nat)

  datatype Status = Denied | Fallback | Completed

  /** `called` says that the worker ran. */
  datatype Outcome = Outcome(status: Status, called: bool)

  datatype Counters = Counters(research: int, review: int)

  /** The request is refused before anything is reserved. */
  predicate Refused(routed: bool, q: Request, checks: Checks) {
    q.depth != 0 || !routed || S.SanitizePayload(q.payload, checks.rules, checks.bytes).None?
  }

  function Dispatch(w: Worker): Outcome {
    match w
    case NoWorker => Outcome(Fallback, false)
    case Fails => Outcome(Fallback, true)
    case Reports(valid) => if valid then Outcome(Completed, true) else Outcome(Fallback, true)
  }

  function MemoryReserve(c: Counters, role: Role): (Counters, bool) {
    match role
    case Research => if c.research >= MAX_RESEARCH then (c, false) else (c.(research := c.research + 1), true)
    case Review => if c.review >= MAX_REVIEWS then (c, false) else (c.(review := c.review + 1), true)
  }

  /** A session without a store. */
  function MemoryDelegate(c: Counters, routed: bool, q: Request, checks: Checks): (Counters, Outcome) {
    if Refused(routed, q, checks) then (c, Outcome(Denied, false))
    else
      var (after, allowed) := MemoryReserve(c, q.role);
      (after, if allowed then Dispatch(q.worker) else Outcome(Fallback, false))
  }

  /** A session with a store; its counters only repeat what the store answered. */
  function DurableDelegate(table: Table, c: Counters, repository: string, goalId: string, keys: Keys, routed: bool, q: Request, checks: Checks)
    : (Table, Counters, Outcome)
  {
    if Refused(routed, q, checks) then (table, c, Outcome(Denied, false))
    else
      var (after, r) := Reserve(table, repository, goalId, q.role, (MAX_RESEARCH, MAX_REVIEWS), keys);
      if r.Unavailable? then (after, c, Outcome(Fallback, false))
      else (after, Counters(r.research, r.review), if r.allowed then Dispatch(q.worker) else Outcome(Fallback, false))
  }

  class AdvisorySession {
    const goalId: string
    const routed: bool
    const store: BudgetStore?
    var research: int
    var review: int

    constructor (goalId: string, routed: bool, store: BudgetStore?)
      ensures this.goalId == goalId && this.routed == routed && this.store == store && research == 0 && review == 0
    {
      this.goalId, this.routed, this.store := goalId, routed, store;
      research, review := 0, 0;
    }

    /** Nothing if the budget state cannot be used. */
    method ReserveRole(role: Role) returns (reserved: Option<bool>)
      modifies this, if store != null then {store.database} else {}
      ensures store == null ==> (Counters(research, review), reserved)
                                == old(var (c, ok) := MemoryReserve(Counters(research, review), role); (c, Some(ok)))
      ensures store != null ==>
        var (table, r) := old(Reserve(store.database.table, store.repository, goalId, role, (MAX_RESEARCH, MAX_REVIEWS), store.keys));
        && store.database.table == table
        && (if r.Unavailable? then reserved == None && research == old(research) && review == old(review)
            else reserved == Some(r.allowed) && research == r.research && review == r.review)
    {
      if store != null {
        var reservation := store.ReserveAttempt(goalId, role, MAX_RESEARCH, MAX_REVIEWS);
        if reservation.Unavailable? { return None; }
        research := reservation.research;
        review := reservation.review;
        return Some(reservation.allowed);
      }
      if role == Research {
        if research >= MAX_RESEARCH { return Some(false); }
        research := research + 1;
        return Some(true);
      }
      if review >= MAX_REVIEWS { return Some(false); }
      review := review + 1;
      return Some(true);
    }

    method Delegate(q: Request, checks: Checks) returns (outcome: Outcome)
      modifies this, if store != null then {store.database} else {}
      ensures store == null ==> (Counters(research, review), outcome) == old(MemoryDelegate(Counters(research, review), routed, q, checks))
      ensures store != null ==>
        (store.database.table, Counters(research, review), outcome)
        == old(DurableDelegate(store.database.table, Counters(research, review), store.repository, goalId, store.keys, routed, q, checks))
    {
      if q.depth != 0 || !routed { return Outcome(Denied, false); }
      var sanitized := S.CheckPayload(q.payload, checks.rules, checks.bytes);
      if sanitized.None? { return Outcome(Denied, false); }
      var reserved := ReserveRole(q.role);
      if reserved.None? || !reserved.value { return Outcome(Fallback, false); }
      if q.worker == NoWorker { return Outcome(Fallback, false); }
      if q.worker == Fails || !q.worker.valid { return Outcome(Fallback, true); }
      return Outcome(Completed, true);
    }
  }

  /* ---------- any number of processes ---------- */

  /** A goal (by digest) and role. */
  datatype Use = Use(goal: string, role: Role)

  /** The shared table, and what was granted and which workers were called so far. */
  datatype World = World(table: Table, grants: seq<Use>, calls: seq<Use>)

  /** Some session of some process delegates; sessions of one goal may belong to different processes. */
  datatype Event = Event(repository: string, goalId: string, counters: Counters, routed: bool, q: Request)

  /** The caller was told that its reservation is allowed. */
  predicate ToldAllowed(table: Table, e: Event, keys: Keys, checks: Checks) {
    !Refused(e.routed, e.q, checks)
    && var r := Reserve(table, e.repository, e.goalId, e.q.role, (MAX_RESEARCH, MAX_REVIEWS), keys).1; r.Reservation? && r.allowed
  }

  function Step(w: World, e: Event, keys: Keys, checks: Checks): World {
    var (table, _, outcome) := DurableDelegate(w.table, e.counters, e.repository, e.goalId, keys, e.routed, e.q, checks);
    if keys.digest(e.goalId).None? then w.(table := table)
    else
      var use := Use(keys.digest(e.goalId).value, e.q.role);
      World(table, if ToldAllowed(w.table, e, keys, checks) then w.grants + [use] else w.grants,
            if outcome.called then w.calls + [use] else w.calls)
  }

  function Run(w: World, events: seq<Event>, keys: Keys, checks: Checks): World
    decreases |events|
  {
    if events == [] then w else Run(Step(w, events[0], keys, checks), events[1..], keys, checks)
  }

  function Count(uses: seq<Use>, use: Use): nat
    decreases |uses|
  {
    if uses == [] then 0 else Count(uses[..|uses| - 1], use) + if uses[|uses| - 1] == use then 1 else 0
  }

  function Stored(table: Table, use: Use): int {
    if use.goal !in table then 0 else if use.role == Research then table[use.goal].research else table[use.goal].review
  }

  predicate RowOk(table: Table, goal: string, keys: Keys)
    requires goal in table
  {
    var row := table[goal];
    0 <= row.research <= MAX_RESEARCH && 0 <= row.review <= MAX_REVIEWS && Verified(row, goal, row.repository, keys)
  }

  ghost predicate Inv(w: World, keys: Keys) {
    && |w.table| <= MAX_RECORDS
    && (forall goal :: goal in w.table ==> RowOk(w.table, goal, keys))
    && (forall use :: Stored(w.table, use) == Count(w.grants, use))
    && (forall use :: Count(w.calls, use) <= Count(w.grants, use))
  }

  lemma CountOneMore(uses: seq<Use>, use: Use)
    ensures forall other :: Count(uses + [use], other) == Count(uses, other) + if other == use then 1 else 0
  {
    assert (uses + [use])[..|uses|] == uses;
  }

  /** Granting from a goal's counters adds one to one of them, or leaves the table as it is. */
  lemma GrantAddsOne(table: Table, goal: string, repository: string, role: Role, keys: Keys)
    requires forall other :: other in table ==> RowOk(table, other, keys)
    ensures var (after, r) := Granted(table, goal, repository, Stored(table, Use(goal, Research)), Stored(table, Use(goal, Review)), role, (MAX_RESEARCH, MAX_REVIEWS), keys);
            && r.Reservation? && (r.allowed <==> after != table)
            && after.Keys <= table.Keys + {goal} && (forall other :: other in after ==> RowOk(after, other, keys))
            && (after != table ==> forall use :: Stored(after, use) == Stored(table, use) + if use == Use(goal, role) then 1 else 0)
  {
    var (after, r) := Granted(table, goal, repository, Stored(table, Use(goal, Research)), Stored(table, Use(goal, Review)), role, (MAX_RESEARCH, MAX_REVIEWS), keys);
    if r.allowed {
      assert after == table[goal := after[goal]];
      assert Stored(after, Use(goal, role)) != Stored(table, Use(goal, role));
    }
  }

  /** A reservation is refused with the table untouched, or adds exactly one to one counter of one verified row. */
  lemma ReserveAddsOne(table: Table, repository: string, goalId: string, role: Role, keys: Keys)
    requires |table| <= MAX_RECORDS && forall goal :: goal in table ==> RowOk(table, goal, keys)
    ensures var (after, r) := Reserve(table, repository, goalId, role, (MAX_RESEARCH, MAX_REVIEWS), keys);
            && (r.Reservation? && r.allowed <==> after != table)
            && |after| <= MAX_RECORDS && (forall goal :: goal in after ==> RowOk(after, goal, keys))
            && (after != table ==> keys.digest(goalId).Some? && forall use ::
                  Stored(after, use) == Stored(table, use) + if use == Use(keys.digest(goalId).value, role) then 1 else 0)
  {
    if keys.digest(goalId).Some? {
      var goal := keys.digest(goalId).value;
      var (after, _) := Reserve(table, repository, goalId, role, (MAX_RESEARCH, MAX_REVIEWS), keys);
      GrantAddsOne(table, goal, repository, role, keys);
      if after != table {
        FewKeys(table, after, goal);
      }
    }
  }

  lemma FewKeys(table: Table, after: Table, goal: string)
    requires after.Keys <= table.Keys + {goal} && |table| <= MAX_RECORDS && (goal in table || |table| < MAX_RECORDS)
    ensures |after| <= MAX_RECORDS
  {
    SubsetSize(after.Keys, table.Keys + {goal});
    assert |after.Keys| == |after| && |table.Keys| == |table|;
    assert goal in table ==> table.Keys + {goal} == table.Keys;
  }

  /** A delegation changes the table only through its reservation, and calls a worker only if it was granted. */
  lemma DelegationReserves(table: Table, e: Event, keys: Keys, checks: Checks)
    requires |table| <= MAX_RECORDS && forall goal :: goal in table ==> RowOk(table, goal, keys)
    ensures var (after, _, outcome) := DurableDelegate(table, e.counters, e.repository, e.goalId, keys, e.routed, e.q, checks);
            && (ToldAllowed(table, e, keys, checks) <==> after != table)
            && |after| <= MAX_RECORDS && (forall goal :: goal in after ==> RowOk(after, goal, keys))
            && (outcome.called ==> after != table)
            && (after != table ==> keys.digest(e.goalId).Some? && forall use ::
                  Stored(after, use) == Stored(table, use) + if use == Use(keys.digest(e.goalId).value, e.q.role) then 1 else 0)
  {
    ReserveAddsOne(table, e.repository, e.goalId, e.q.role, keys);
  }

  lemma StepKeepsInv(w: World, e: Event, keys: Keys, checks: Checks)
    requires Inv(w, keys)
    ensures Inv(Step(w, e, keys, checks), keys)
  {
    DelegationReserves(w.table, e, keys, checks);
    if keys.digest(e.goalId).Some? {
      var use := Use(keys.digest(e.goalId).value, e.q.role);
      CountOneMore(w.grants, use);
      CountOneMore(w.calls, use);
    }
  }

  lemma {:induction false} RunKeepsInv(w: World, events: seq<Event>, keys: Keys, checks: Checks)
    requires Inv(w, keys)
    ensures Inv(Run(w, events, keys, checks), keys)
    decreases |events|
  {
    if events != [] {
      StepKeepsInv(w, events[0], keys, checks);
      RunKeepsInv(Step(w, events[0], keys, checks), events[1..], keys, checks);
    }
  }

  /** Whatever the processes do, in any order: the stored counters are the granted reservations, a goal gets at
      most three research calls and one review call, and the table at most 4096 goals. */
  lemma BudgetsHold(events: seq<Event>, keys: Keys, checks: Checks, goal: string)
    ensures var w := Run(World(map[], [], []), events, keys, checks);
            && |w.table| <= MAX_RECORDS
            && Stored(w.table, Use(goal, Research)) == Count(w.grants, Use(goal, Research))
            && Stored(w.table, Use(goal, Review)) == Count(w.grants, Use(goal, Review))
            && Count(w.calls, Use(goal, Research)) <= MAX_RESEARCH && Count(w.calls, Use(goal, Review)) <= MAX_REVIEWS
  {
    RunKeepsInv(World(map[], [], []), events, keys, checks);
  }

  /** Denied delegations, and those whose row is another repository's or fails its tag, consume nothing. */
  lemma RefusalsConsumeNothing(table: Table, c: Counters, repository: string, goalId: string, keys: Keys, routed: bool, q: Request, checks: Checks)
    ensures var (after, c', outcome) := DurableDelegate(table, c, repository, goalId, keys, routed, q, checks);
            && (outcome.status == Denied <==> Refused(routed, q, checks))
            && (outcome.status == Denied ==> after == table && c' == c && !outcome.called)
            && (keys.digest(goalId).Some? && keys.digest(goalId).value in table
                && !Verified(table[keys.digest(goalId).value], keys.digest(goalId).value, repository, keys) ==>
                  after == table && c' == c && !outcome.called)
  {
  }

  /* ---------- every delegation, exactly ---------- */

  /** The delegation is denied: it is nested, not routed, or its payload is not permitted. */
  ghost predicate DeniedFor(e: Event, checks: Checks) {
    || e.q.depth != 0 || !e.routed
    || !(e.q.payload.Mapping? && S.Permitted(e.q.payload, 0, checks.rules) && S.Nodes(e.q.payload) <= S.MAX_ITEMS
         && checks.bytes(S.As(e.q.payload, false)) <= S.MAX_BYTES)
  }

  /** The goal's attempts are counted for this repository, or there is room to count them. */
  predicate Countable(table: Table, e: Event, keys: Keys) {
    && keys.digest(e.goalId).Some?
    && var goal := keys.digest(e.goalId).value;
       if goal in table then table[goal].repository == e.repository else |table| < 4096
  }

  function Attempts(w: World, e: Event, keys: Keys): nat
    requires keys.digest(e.goalId).Some?
  {
    Count(w.grants, Use(keys.digest(e.goalId).value, e.q.role))
  }

  /** In every state the processes can reach: a delegation is denied exactly for its own faults; it is granted exactly if
      its attempts can be counted and fewer than three, or one, were granted; the worker runs exactly then, if there is one;
      and only its valid report completes the delegation. */
  lemma DelegationsExactly(events: seq<Event>, e: Event, keys: Keys, checks: Checks)
    ensures var w := Run(World(map[], [], []), events, keys, checks);
            var outcome := DurableDelegate(w.table, e.counters, e.repository, e.goalId, keys, e.routed, e.q, checks).2;
            var granted := !DeniedFor(e, checks) && Countable(w.table, e, keys) && Attempts(w, e, keys) < if e.q.role == Research then 3 else 1;
            && (ToldAllowed(w.table, e, keys, checks) <==> granted)
            && (outcome.status == Denied <==> DeniedFor(e, checks))
            && (outcome.called <==> granted && e.q.worker != NoWorker)
            && (outcome.status == Completed <==> granted && e.q.worker == Reports(true))
  {
    var w := Run(World(map[], [], []), events, keys, checks);
    RunKeepsInv(World(map[], [], []), events, keys, checks);
    S.PayloadIsAccepted(e.q.payload, checks.rules, checks.bytes);
    ReservedExactly(w, e, keys);
  }

  lemma ReservedExactly(w: World, e: Event, keys: Keys)
    requires Inv(w, keys)
    ensures var r := Reserve(w.table, e.repository, e.goalId, e.q.role, (MAX_RESEARCH, MAX_REVIEWS), keys).1;
            && (r.Reservation? <==> Countable(w.table, e, keys))
            && (r.Reservation? ==> (r.allowed <==> Attempts(w, e, keys) < if e.q.role == Research then 3 else 1))
  {
    if keys.digest(e.goalId).Some? {
      var goal := keys.digest(e.goalId).value;
      assert Stored(w.table, Use(goal, e.q.role)) == Count(w.grants, Use(goal, e.q.role));
      assert goal in w.table ==> RowOk(w.table, goal, keys);
    }
  }

  /** What a session then shows as its counters are the stored ones. */
  lemma CountersAreStored(events: seq<Event>, e: Event, keys: Keys, checks: Checks)
    ensures var w := Run(World(map[], [], []), events, keys, checks);
            var (table, c, _) := DurableDelegate(w.table, e.counters, e.repository, e.goalId, keys, e.routed, e.q, checks);
            if !DeniedFor(e, checks) && Countable(w.table, e, keys)
            then var goal := keys.digest(e.goalId).value; c == Counters(Stored(table, Use(goal, Research)), Stored(table, Use(goal, Review)))
            else c == e.counters && table == w.table
  {
    var w := Run(World(map[], [], []), events, keys, checks);
    RunKeepsInv(World(map[], [], []), events, keys, checks);
    S.PayloadIsAccepted(e.q.payload, checks.rules, checks.bytes);
    ReservedExactly(w, e, keys);
  }

  /* ---------- the in-memory counters ---------- */

  /** All requests of one session on a store that only it uses. */
  function DurableOutcomes(table: Table, c: Counters, repository: string, goalId: string, keys: Keys, routed: bool, qs: seq<Request>, checks: Checks): seq<Outcome>
    decreases |qs|
  {
    if qs == [] then []
    else
      var (after, c', outcome) := DurableDelegate(table, c, repository, goalId, keys, routed, qs[0], checks);
      [outcome] + DurableOutcomes(after, c', repository, goalId, keys, routed, qs[1..], checks)
  }

  function MemoryOutcomes(c: Counters, routed: bool, qs: seq<Request>, checks: Checks): seq<Outcome>
    decreases |qs|
  {
    if qs == [] then []
    else
      var (c', outcome) := MemoryDelegate(c, routed, qs[0], checks);
      [outcome] + MemoryOutcomes(c', routed, qs[1..], checks)
  }

  /** The table holds what the counters say, for the one goal it knows. */
  predicate Mirrors(table: Table, c: Counters, repository: string, goal: string, keys: Keys) {
    && c.research >= 0 && c.review >= 0
    && if c == Counters(0, 0) then table == map[] else table == map[goal := NewRow(goal, repository, c.research, c.review, keys)]
  }

  lemma {:induction false} MemoryIsFreshStore(table: Table, c: Counters, repository: string, goalId: string, keys: Keys, routed: bool, qs: seq<Request>, checks: Checks)
    requires keys.digest(goalId).Some? && Mirrors(table, c, repository, keys.digest(goalId).value, keys)
    ensures MemoryOutcomes(c, routed, qs, checks) == DurableOutcomes(table, c, repository, goalId, keys, routed, qs, checks)
    decreases |qs|
  {
    if qs != [] {
      MirrorStep(table, c, repository, goalId, keys, routed, qs[0], checks);
      var (after, c', _) := DurableDelegate(table, c, repository, goalId, keys, routed, qs[0], checks);
      MemoryIsFreshStore(after, c', repository, goalId, keys, routed, qs[1..], checks);
    }
  }

  lemma MirrorStep(table: Table, c: Counters, repository: string, goalId: string, keys: Keys, routed: bool, q: Request, checks: Checks)
    requires keys.digest(goalId).Some? && Mirrors(table, c, repository, keys.digest(goalId).value, keys)
    ensures var (after, c', outcome) := DurableDelegate(table, c, repository, goalId, keys, routed, q, checks);
            (c', outcome) == MemoryDelegate(c, routed, q, checks) && Mirrors(after, c', repository, keys.digest(goalId).value, keys)
  {
    var goal := keys.digest(goalId).value;
    assert forall row, other: Row :: map[goal := row][goal := other] == map[goal := other];
  }
}
