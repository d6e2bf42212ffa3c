/** Runs of several workers over one task store: any interleaving of store calls, crashes and remote
    effects.  A worker process sends a step's remote request between `BeginStep` and the call that
    saves its outcome, so the effect may land while the row says something else, or after a crash. */
module TaskRuns {
  import opened Prelude
  import opened TaskStoreModel

  type WorkerId = nat

  /** How an attempt's remote request ended, as `Workflows._step` learns it. */
  datatype Verdict = Success | DefiniteFailure | Ambiguous

  datatype Progress = InFlight | Over(verdict: Verdict)

  datatype Attempt = Attempt(key: StepKey, progress: Progress)

  /** A worker process: its store memory and the `_step` calls now on its stack. */
  datatype Process = Process(memory: Memory, calls: map<StepKey, Token>)

  /** `applied`, `failures`, `retries` and `resolved` record what happened; no operation reads them. */
  datatype System = System(rows: Rows, workers: map<WorkerId, Process>, attempts: map<Token, Attempt>, nextId: nat,
                           applied: map<StepKey, nat>, failures: map<StepKey, nat>, retries: map<StepKey, nat>,
                           resolved: set<StepKey>)

  /** The store calls that neither start nor end an attempt. */
  datatype Call =
    | Create(workflow: string, inputs: Json)
    | Finish(task: TaskId, result: Json)
    | Wait(task: TaskId, result: Json)
    | Fail(task: TaskId, error: string, result: Json)
    | Cancel(task: TaskId)
    | Resume(task: TaskId)
    | Resolve(key: StepKey, result: Json)
    | Retry(key: StepKey)
    | Note(task: TaskId, text: string)

  datatype Event =
    | Spawn(w: WorkerId)
    | Crash(w: WorkerId)
    | Begin(w: WorkerId, key: StepKey, isWrite: bool)
    | Land(token: Token, verdict: Verdict, effect: bool)
    | Save(w: WorkerId, key: StepKey, result: Json, error: string)
    | Invoke(w: WorkerId, call: Call)

  const INITIAL := System(Rows(map[], map[]), map[], map[], 0, map[], map[], map[], {})

  function Count(counts: map<StepKey, nat>, key: StepKey): nat {
    if key in counts then counts[key] else 0
  }

  function Bump(counts: map<StepKey, nat>, key: StepKey): map<StepKey, nat> {
    counts[key := Count(counts, key) + 1]
  }

  predicate Pending(s: System, token: Token) {
    token in s.attempts && s.attempts[token].progress == InFlight
  }

  ghost predicate NothingPending(s: System, key: StepKey) {
    forall token :: Pending(s, token) ==> s.attempts[token].key != key
  }

  /** What a caller confirms before `RetryStep`: the earlier attempt is over and left no effect. */
  ghost predicate ConfirmedAbsent(s: System, key: StepKey) {
    Count(s.applied, key) == 0 && NothingPending(s, key)
  }

  /** The `_step` call of `w` for `key` knows how its request ended. */
  predicate Learned(s: System, w: WorkerId, key: StepKey) {
    && w in s.workers && key in s.workers[w].calls && s.workers[w].calls[key] in s.attempts
    && s.attempts[s.workers[w].calls[key]].progress.Over?
  }

  function VerdictOf(s: System, w: WorkerId, key: StepKey): Verdict
    requires Learned(s, w, key)
  {
    s.attempts[s.workers[w].calls[key]].progress.verdict
  }

  /** When an event can happen, if retries need no confirmation. */
  ghost predicate Possible(s: System, e: Event) {
    match e
    case Spawn(w) => w !in s.workers
    case Crash(w) => w in s.workers
    case Begin(w, key, _) => w in s.workers && key !in s.workers[w].calls
    case Land(token, verdict, effect) =>
      // The verdict may be wrong only when it is ambiguous.
      Pending(s, token) && (verdict == Success ==> effect) && (verdict == DefiniteFailure ==> !effect)
    case Save(w, key, _, _) => Learned(s, w, key)
    case Invoke(w, _) => w in s.workers
  }

  /** ... and the caller of `RetryStep` has confirmed that nothing was applied. */
  ghost predicate Enabled(s: System, e: Event) {
    Possible(s, e) && (e.Invoke? && e.call.Retry? ==> ConfirmedAbsent(s, e.call.key))
  }

  function Perform(rows: Rows, memory: Memory, id: TaskId, call: Call): Outcome {
    match call
    case Create(workflow, inputs) => DoCreate(rows, memory, id, workflow, inputs)
    case Finish(task, result) => DoFinish(rows, memory, task, result)
    case Wait(task, result) => DoWait(rows, memory, task, result)
    case Fail(task, error, result) => DoFail(rows, memory, task, error, result)
    case Cancel(task) => DoCancel(rows, memory, task)
    case Resume(task) => DoResume(rows, memory, task)
    case Resolve(key, result) => DoResolve(rows, memory, key, result)
    case Retry(key) => DoRetry(rows, memory, key)
    case Note(task, text) => DoNote(rows, memory, task, text)
  }

  /** `_step` saving what its attempt learned. */
  function SaveOutcome(rows: Rows, memory: Memory, key: StepKey, verdict: Verdict, result: Json, error: string): Outcome {
    match verdict
    case Success => DoComplete(rows, memory, key, result)
    case DefiniteFailure => DoFailStep(rows, memory, key, error, false)
    case Ambiguous => DoFailStep(rows, memory, key, error, true)
  }

  /** `w` called `BeginStep` and the store answered `o`. */
  function Began(s: System, w: WorkerId, key: StepKey, o: Outcome): System
    requires w in s.workers
  {
    if o.reply.Started? then
      s.(rows := o.rows, workers := s.workers[w := Process(o.memory, s.workers[w].calls[key := s.nextId])],
         attempts := s.attempts[s.nextId := Attempt(key, InFlight)], nextId := s.nextId + 1)
    else
      s.(workers := s.workers[w := s.workers[w].(memory := o.memory)])
  }

  function Landed(s: System, token: Token, verdict: Verdict, effect: bool): System
    requires token in s.attempts
  {
    var key := s.attempts[token].key;
    s.(attempts := s.attempts[token := Attempt(key, Over(verdict))], applied := if effect then Bump(s.applied, key) else s.applied)
  }

  /** `w` left its `_step` call for `key`; the store answered `o` to the save. */
  function Saved(s: System, w: WorkerId, key: StepKey, verdict: Verdict, o: Outcome): System
    requires w in s.workers
  {
    s.(rows := o.rows, workers := s.workers[w := Process(o.memory, s.workers[w].calls - {key})],
       failures := if o.reply == Done && verdict == DefiniteFailure then Bump(s.failures, key) else s.failures)
  }

  function Called(s: System, w: WorkerId, call: Call, o: Outcome): System
    requires w in s.workers
  {
    s.(rows := o.rows, workers := s.workers[w := s.workers[w].(memory := o.memory)],
       nextId := s.nextId + (if o.reply.Created? then 1 else 0),
       retries := if call.Retry? && o.reply == Done then Bump(s.retries, call.key) else s.retries,
       resolved := if call.Resolve? && o.reply == Done then s.resolved + {call.key} else s.resolved)
  }

  function BeginOutcome(s: System, w: WorkerId, key: StepKey, isWrite: bool): Outcome
    requires w in s.workers
  {
    DoBegin(s.rows, s.workers[w].memory, s.nextId, key.task, key.name, isWrite)
  }

  ghost function Next(s: System, e: Event): System
    requires Possible(s, e)
  {
    match e
    case Spawn(w) => s.(workers := s.workers[w := Process(EMPTY_MEMORY, map[])])
    case Crash(w) => s.(workers := s.workers - {w})
    case Begin(w, key, isWrite) => Began(s, w, key, BeginOutcome(s, w, key, isWrite))
    case Land(token, verdict, effect) => Landed(s, token, verdict, effect)
    case Save(w, key, result, error) =>
      Saved(s, w, key, VerdictOf(s, w, key), SaveOutcome(s.rows, s.workers[w].memory, key, VerdictOf(s, w, key), result, error))
    case Invoke(w, call) => Called(s, w, call, Perform(s.rows, s.workers[w].memory, s.nextId, call))
  }

  /** `es` can happen in this order starting from `s`. */
  ghost predicate Feasible(s: System, es: seq<Event>)
    decreases |es|
  {
    es == [] || (Possible(s, es[0]) && Feasible(Next(s, es[0]), es[1..]))
  }

  ghost function After(s: System, es: seq<Event>): System
    requires Feasible(s, es)
    decreases |es|
  {
    if es == [] then s else After(Next(s, es[0]), es[1..])
  }

  /** Every retry in the run was confirmed. */
  ghost predicate Confirmed(s: System, es: seq<Event>)
    requires Feasible(s, es)
    decreases |es|
  {
    es == [] || (Enabled(s, es[0]) && Confirmed(Next(s, es[0]), es[1..]))
  }

  ghost predicate Legal(s: System, es: seq<Event>) {
    Feasible(s, es) && Confirmed(s, es)
  }

  /* ---------- what every reachable state satisfies ---------- */

  /** Every step's task exists, a claim is held exactly while running, and a completed task has only
      completed steps. */
  ghost predicate RowsOk(rows: Rows) {
    && (forall key :: key in rows.steps ==> key.task in rows.tasks)
    && (forall key :: key in rows.steps ==> (rows.steps[key].claim.Some? <==> rows.steps[key].status == StepRunning))
    && (forall key :: key in rows.steps && key.task in rows.tasks && rows.tasks[key.task].status == TaskCompleted ==>
          rows.steps[key].status == StepCompleted)
  }

  /** The steps of each task are numbered 0..n-1, each number once. */
  ghost predicate Numbered(rows: Rows) {
    NumbersBounded(rows) && NumbersDistinct(rows)
  }

  ghost predicate NumbersBounded(rows: Rows) {
    forall key :: key in rows.steps ==> rows.steps[key].position < |StepsOf(rows, key.task)|
  }

  ghost predicate NumbersDistinct(rows: Rows) {
    forall a, b :: a in rows.steps && b in rows.steps && a != b && a.task == b.task ==> rows.steps[a].position != rows.steps[b].position
  }

  predicate Holds(s: System, w: WorkerId, key: StepKey, token: Token) {
    w in s.workers && key in s.workers[w].memory.claims && s.workers[w].memory.claims[key] == token
  }

  predicate Calling(s: System, w: WorkerId, key: StepKey, token: Token) {
    w in s.workers && key in s.workers[w].calls && s.workers[w].calls[key] == token
  }

  /** Claim tokens are never shared by two workers, and a `_step` call holds the token it began with
      unless its claim was given up. */
  ghost predicate TokensOk(s: System) {
    && (forall w, key, token: Token :: Holds(s, w, key, token) ==> token < s.nextId)
    && (forall v, w, key, token: Token :: Holds(s, v, key, token) && Holds(s, w, key, token) ==> v == w)
    && (forall token :: token in s.attempts ==> token < s.nextId)
    && (forall w, key, token: Token :: Calling(s, w, key, token) ==> token in s.attempts && s.attempts[token].key == key)
    && (forall w, key, token: Token, held: Token :: Calling(s, w, key, token) && Holds(s, w, key, held) ==> held == token)
  }

  /** Cached generations never run ahead of the row, and task identities are old. */
  ghost predicate GenerationsOk(s: System) {
    && (forall id :: id in s.rows.tasks ==> id < s.nextId)
    && (forall w, task :: w in s.workers && task in s.workers[w].memory.generations ==>
          task in s.rows.tasks && s.workers[w].memory.generations[task] <= s.rows.tasks[task].generation)
  }

  /** The write-once bookkeeping for one step. */
  ghost predicate WriteOnce(s: System, key: StepKey) {
    if key !in s.rows.steps then
      Count(s.applied, key) == 0 && (forall token :: token in s.attempts ==> s.attempts[token].key != key)
    else s.rows.steps[key].isWrite ==> WriteRowOk(s, key, s.rows.steps[key])
  }

  ghost predicate WriteRowOk(s: System, key: StepKey, step: Step) {
    && Count(s.applied, key) <= 1
    && (Count(s.applied, key) == 1 ==> NothingPending(s, key))
    && (forall t, u :: Pending(s, t) && Pending(s, u) && s.attempts[t].key == key && s.attempts[u].key == key ==> t == u)
    && (step.status == StepFailed ==> ConfirmedAbsent(s, key))
    && (step.status == StepRunning ==> step.claim.Some? && RunningOk(s, key, step.claim.value))
    && (step.status == StepCompleted && key !in s.resolved ==> Count(s.applied, key) == 1)
  }

  /** Only the claiming attempt can still be pending, and its verdict tells what was applied. */
  ghost predicate RunningOk(s: System, key: StepKey, token: Token) {
    && token in s.attempts && s.attempts[token].key == key
    && (forall t :: Pending(s, t) && s.attempts[t].key == key ==> t == token)
    && (s.attempts[token].progress == Over(DefiniteFailure) ==> Count(s.applied, key) == 0)
    && (s.attempts[token].progress == Over(Success) ==> Count(s.applied, key) == 1)
  }

  /** A write's attempts are accounted for by definite failures and retries. */
  ghost predicate Accounted(s: System, key: StepKey) {
    if key !in s.rows.steps then Count(s.failures, key) == 0 && Count(s.retries, key) == 0
    else s.rows.steps[key].isWrite ==>
      s.rows.steps[key].attempt + (if s.rows.steps[key].status == StepFailed then 1 else 0)
        == 1 + Count(s.failures, key) + Count(s.retries, key)
  }

  ghost predicate Ledger(s: System, key: StepKey) {
    WriteOnce(s, key) && Accounted(s, key)
  }

  ghost predicate Invariant(s: System) {
    && RowsOk(s.rows) && Numbered(s.rows) && TokensOk(s) && GenerationsOk(s)
    && (forall key :: Ledger(s, key))
  }

  /* ---------- what the store's answers say ---------- */

  function SavedStatus(verdict: Verdict): StepStatus {
    match verdict
    case Success => StepCompleted
    case DefiniteFailure => StepFailed
    case Ambiguous => StepUncertain
  }

  /** The row `BeginStep` writes: a first attempt, or a further one of a step that may run again. */
  predicate BegunRow(rows: Rows, token: Token, key: StepKey, isWrite: bool, step: Step) {
    && step.isWrite == isWrite && step.status == StepRunning && step.claim == Some(token) && key.task in rows.tasks
    && rows.tasks[key.task].status == TaskRunning
    && if key in rows.steps then
         var was := rows.steps[key];
         && step.position == was.position && was.isWrite == isWrite && was.status != StepCompleted
         && step.attempt == was.attempt + 1 && (isWrite ==> was.status == StepFailed)
       else step.position == |StepsOf(rows, key.task)| && step.attempt == 1
  }

  ghost predicate BeginFacts(rows: Rows, m: Memory, token: Token, key: StepKey, isWrite: bool, o: Outcome) {
    && o.rows.tasks == rows.tasks
    && (if o.reply.Started? then
          && o.rows == PutStep(rows, key, o.reply.step) && BegunRow(rows, token, key, isWrite, o.reply.step)
          && o.memory.claims == m.claims[key := token]
        else o.rows == rows && o.memory.claims == m.claims)
    && (|| o.memory.generations == m.generations
        || (key.task in rows.tasks && o.memory.generations == m.generations[key.task := rows.tasks[key.task].generation]))
    && (Objection(rows, m, key.task).Some? ==> o.rows == rows && o.memory == m && !o.reply.Started?)
  }

  lemma BeginFactsHold(rows: Rows, m: Memory, token: Token, key: StepKey, isWrite: bool)
    ensures BeginFacts(rows, m, token, key, isWrite, DoBegin(rows, m, token, key.task, key.name, isWrite))
  {
  }

  ghost predicate SaveFacts(rows: Rows, m: Memory, key: StepKey, verdict: Verdict, o: Outcome) {
    && o.rows.tasks == rows.tasks && o.memory.generations == m.generations
    && (if o.reply == Done then
          && Owns(rows, m, key) && key in o.rows.steps && o.rows == PutStep(rows, key, o.rows.steps[key])
          && o.memory.claims == m.claims - {key} && Objection(rows, m, key.task).None?
          && var was, now := rows.steps[key], o.rows.steps[key];
             now.position == was.position && now.isWrite == was.isWrite && now.attempt == was.attempt
             && now.status == SavedStatus(verdict) && now.claim == None
        else o.rows == rows && o.memory == m)
  }

  lemma SaveFactsHold(rows: Rows, m: Memory, key: StepKey, verdict: Verdict, result: Json, error: string)
    ensures SaveFacts(rows, m, key, verdict, SaveOutcome(rows, m, key, verdict, result, error))
  {
  }

  /** The effect of a successful call on the row of `key`. */
  function StepAfter(call: Call, key: StepKey, step: Step): Step {
    match call
    case Cancel(task) => if key.task == task then Halted(step) else step
    case Resolve(k, result) => if k == key then step.(status := StepCompleted, result := Some(result), error := None, claim := None) else step
    case Retry(k) => if k == key then step.(status := StepFailed, result := None, error := None, claim := None) else step
    case _ => step
  }

  ghost predicate CallSteps(rows: Rows, call: Call, o: Outcome) {
    && o.rows.steps.Keys == rows.steps.Keys
    && (o.reply.Refused? ==> o.rows == rows)
    && (!o.reply.Refused? ==> forall key :: key in rows.steps ==> o.rows.steps[key] == StepAfter(call, key, rows.steps[key]))
    && (o.reply == Done && (call.Resolve? || call.Retry?) ==> Interrupted(rows, call.key))
    && (call.Retry? && !o.reply.Refused? ==> o.reply == Done)
    && (call.Resolve? && !o.reply.Refused? ==> o.reply == Done)
  }

  lemma CallStepsHold(rows: Rows, m: Memory, id: TaskId, call: Call)
    ensures CallSteps(rows, call, Perform(rows, m, id, call))
  {
  }

  ghost predicate CallClaims(m: Memory, call: Call, o: Outcome) {
    o.memory.claims == m.claims || (call.Retry? && o.memory.claims == m.claims - {call.key})
  }

  lemma CallClaimsHold(rows: Rows, m: Memory, id: TaskId, call: Call)
    ensures CallClaims(m, call, Perform(rows, m, id, call))
  {
  }

  /** Generations only grow, a worker only ever adopts the row's generation, a task is completed only
      by `Finish` with all its steps completed, and a completed task keeps all but its note. */
  ghost predicate CallTasks(rows: Rows, m: Memory, id: TaskId, call: Call, o: Outcome) {
    && (forall task :: task in rows.tasks ==> task in o.rows.tasks && TaskMoves(rows, call, task, rows.tasks[task], o.rows.tasks[task]))
    && (forall task :: task in o.rows.tasks && task !in rows.tasks ==> task == id && o.reply.Created? && o.rows.tasks[task].status != TaskCompleted)
    && (forall task :: task in o.memory.generations ==>
          || (task in m.generations && o.memory.generations[task] == m.generations[task])
          || (task in o.rows.tasks && o.memory.generations[task] == o.rows.tasks[task].generation))
  }

  ghost predicate TaskMoves(rows: Rows, call: Call, task: TaskId, was: Task, now: Task) {
    && was.generation <= now.generation
    && (was.status == TaskCompleted ==> now.(note := was.note) == was)
    && (now.status == TaskCompleted && was.status != TaskCompleted ==> AllCompleted(rows, task))
  }

  lemma CallTasksHold(rows: Rows, m: Memory, id: TaskId, call: Call)
    requires id !in rows.tasks
    requires forall key :: key in rows.steps && key.task in rows.tasks && rows.tasks[key.task].status == TaskCompleted ==> rows.steps[key].status == StepCompleted
    ensures CallTasks(rows, m, id, call, Perform(rows, m, id, call))
  {
  }

  /* ---------- one step keeps the rows in order ---------- */

  lemma PutKeepsRows(rows: Rows, key: StepKey, step: Step)
    requires RowsOk(rows) && key.task in rows.tasks && (step.claim.Some? <==> step.status == StepRunning)
    requires rows.tasks[key.task].status == TaskCompleted ==> step.status == StepCompleted
    ensures RowsOk(PutStep(rows, key, step))
  {
  }

  lemma StepsOfPut(rows: Rows, key: StepKey, step: Step)
    ensures forall task :: |StepsOf(PutStep(rows, key, step), task)|
              == |StepsOf(rows, task)| + if task == key.task && key !in rows.steps then 1 else 0
  {
    var rows' := PutStep(rows, key, step);
    forall task
      ensures |StepsOf(rows', task)| == |StepsOf(rows, task)| + if task == key.task && key !in rows.steps then 1 else 0
    {
      if task == key.task && key !in rows.steps {
        assert StepsOf(rows', task) == StepsOf(rows, task) + {key};
      } else {
        assert StepsOf(rows', task) == StepsOf(rows, task);
      }
    }
  }

  lemma PutKeepsBounds(rows: Rows, key: StepKey, step: Step)
    requires NumbersBounded(rows)
    requires step.position == if key in rows.steps then rows.steps[key].position else |StepsOf(rows, key.task)|
    ensures NumbersBounded(PutStep(rows, key, step))
  {
    StepsOfPut(rows, key, step);
  }

  lemma PutKeepsDistinct(rows: Rows, key: StepKey, step: Step)
    requires Numbered(rows)
    requires step.position == if key in rows.steps then rows.steps[key].position else |StepsOf(rows, key.task)|
    ensures NumbersDistinct(PutStep(rows, key, step))
  {
  }

  lemma PutKeepsNumbers(rows: Rows, key: StepKey, step: Step)
    requires Numbered(rows)
    requires step.position == if key in rows.steps then rows.steps[key].position else |StepsOf(rows, key.task)|
    ensures Numbered(PutStep(rows, key, step))
  {
    PutKeepsBounds(rows, key, step);
    PutKeepsDistinct(rows, key, step);
  }

  lemma SamePositionsStayNumbered(rows: Rows, rows': Rows)
    requires Numbered(rows) && rows'.steps.Keys == rows.steps.Keys
    requires forall key :: key in rows.steps ==> rows'.steps[key].position == rows.steps[key].position
    ensures Numbered(rows')
  {
    forall task ensures StepsOf(rows', task) == StepsOf(rows, task) {
      assert forall k :: k in StepsOf(rows', task) <==> k in StepsOf(rows, task);
    }
  }

  lemma RowsBegun(rows: Rows, m: Memory, token: Token, key: StepKey, isWrite: bool, o: Outcome)
    requires RowsOk(rows) && Numbered(rows) && BeginFacts(rows, m, token, key, isWrite, o)
    ensures RowsOk(o.rows) && Numbered(o.rows)
  {
    if o.reply.Started? {
      PutKeepsRows(rows, key, o.reply.step);
      PutKeepsNumbers(rows, key, o.reply.step);
    }
  }

  lemma RowsSaved(rows: Rows, m: Memory, key: StepKey, verdict: Verdict, o: Outcome)
    requires RowsOk(rows) && Numbered(rows) && SaveFacts(rows, m, key, verdict, o)
    ensures RowsOk(o.rows) && Numbered(o.rows)
  {
    if o.reply == Done {
      PutKeepsRows(rows, key, o.rows.steps[key]);
      PutKeepsNumbers(rows, key, o.rows.steps[key]);
    }
  }

  lemma RowsOkCalled(rows: Rows, m: Memory, id: TaskId, call: Call, o: Outcome)
    requires RowsOk(rows) && CallSteps(rows, call, o) && CallTasks(rows, m, id, call, o) && !o.reply.Refused?
    ensures RowsOk(o.rows)
  {
    forall key | key in o.rows.steps
      ensures key.task in o.rows.tasks && (o.rows.steps[key].claim.Some? <==> o.rows.steps[key].status == StepRunning)
      ensures o.rows.tasks[key.task].status == TaskCompleted ==> o.rows.steps[key].status == StepCompleted
    {
      assert o.rows.steps[key] == StepAfter(call, key, rows.steps[key]);
    }
  }

  lemma RowsCalled(rows: Rows, m: Memory, id: TaskId, call: Call, o: Outcome)
    requires RowsOk(rows) && Numbered(rows) && CallSteps(rows, call, o) && CallTasks(rows, m, id, call, o)
    ensures RowsOk(o.rows) && Numbered(o.rows)
  {
    if !o.reply.Refused? {
      RowsOkCalled(rows, m, id, call, o);
      SamePositionsStayNumbered(rows, o.rows);
    }
  }

  lemma RowsKept(s: System, e: Event)
    requires RowsOk(s.rows) && Numbered(s.rows) && GenerationsOk(s) && Enabled(s, e)
    ensures RowsOk(Next(s, e).rows) && Numbered(Next(s, e).rows)
  {
    match e
    case Begin(w, key, isWrite) =>
      BeginFactsHold(s.rows, s.workers[w].memory, s.nextId, key, isWrite);
      RowsBegun(s.rows, s.workers[w].memory, s.nextId, key, isWrite, BeginOutcome(s, w, key, isWrite));
    case Save(w, key, result, error) =>
      var m, verdict := s.workers[w].memory, VerdictOf(s, w, key);
      SaveFactsHold(s.rows, m, key, verdict, result, error);
      RowsSaved(s.rows, m, key, verdict, SaveOutcome(s.rows, m, key, verdict, result, error));
    case Invoke(w, call) =>
      var m := s.workers[w].memory;
      CallStepsHold(s.rows, m, s.nextId, call);
      CallTasksHold(s.rows, m, s.nextId, call);
      RowsCalled(s.rows, m, s.nextId, call, Perform(s.rows, m, s.nextId, call));
    case _ =>
  }

  /* ---------- one step keeps tokens apart and generations behind ---------- */

  /** No new holder and no new attempt. */
  lemma TokensShrink(s: System, s': System)
    requires TokensOk(s) && s.nextId <= s'.nextId && s'.attempts.Keys == s.attempts.Keys
    requires forall w, key, token: Token :: Holds(s', w, key, token) ==> Holds(s, w, key, token)
    requires forall w, key, token: Token :: Calling(s', w, key, token) ==> Calling(s, w, key, token)
    requires forall token :: token in s.attempts ==> s'.attempts[token].key == s.attempts[token].key
    ensures TokensOk(s')
  {
  }

  /** One new attempt, held by the worker that starts it. */
  lemma TokensGrow(s: System, s': System, w: WorkerId, key: StepKey)
    requires TokensOk(s) && s'.nextId == s.nextId + 1 && s'.attempts == s.attempts[s.nextId := Attempt(key, InFlight)]
    requires w in s.workers && key !in s.workers[w].calls && Holds(s', w, key, s.nextId)
    requires forall v, k, token: Token :: Holds(s', v, k, token) ==> Holds(s, v, k, token) || (v == w && k == key && token == s.nextId)
    requires forall v, k, token: Token :: Calling(s', v, k, token) ==> Calling(s, v, k, token) || (v == w && k == key && token == s.nextId)
    ensures TokensOk(s')
  {
  }

  lemma TokensBegun(s: System, w: WorkerId, key: StepKey, isWrite: bool, o: Outcome)
    requires TokensOk(s) && w in s.workers && key !in s.workers[w].calls
    requires BeginFacts(s.rows, s.workers[w].memory, s.nextId, key, isWrite, o)
    ensures TokensOk(Began(s, w, key, o))
  {
    if o.reply.Started? {
      TokensGrow(s, Began(s, w, key, o), w, key);
    } else {
      TokensShrink(s, Began(s, w, key, o));
    }
  }

  lemma TokensKept(s: System, e: Event)
    requires TokensOk(s) && Enabled(s, e)
    ensures TokensOk(Next(s, e))
  {
    match e
    case Begin(w, key, isWrite) =>
      BeginFactsHold(s.rows, s.workers[w].memory, s.nextId, key, isWrite);
      TokensBegun(s, w, key, isWrite, BeginOutcome(s, w, key, isWrite));
    case Save(w, key, result, error) =>
      SaveFactsHold(s.rows, s.workers[w].memory, key, VerdictOf(s, w, key), result, error);
      TokensShrink(s, Next(s, e));
    case Invoke(w, call) =>
      CallClaimsHold(s.rows, s.workers[w].memory, s.nextId, call);
      TokensShrink(s, Next(s, e));
    case _ => TokensShrink(s, Next(s, e));
  }

  /** Rows keep their generations or raise them, and `w` adopts at most the raised ones. */
  lemma GenerationsAdopted(s: System, s': System, w: WorkerId)
    requires GenerationsOk(s) && w in s.workers && s.nextId <= s'.nextId
    requires w in s'.workers && s'.workers == s.workers[w := s'.workers[w]]
    requires forall id :: id in s'.rows.tasks ==> id < s'.nextId
    requires forall task :: task in s.rows.tasks ==> task in s'.rows.tasks && s.rows.tasks[task].generation <= s'.rows.tasks[task].generation
    requires var was, now := s.workers[w].memory.generations, s'.workers[w].memory.generations;
             forall task :: task in now ==>
               (task in was && now[task] == was[task]) || (task in s'.rows.tasks && now[task] == s'.rows.tasks[task].generation)
    ensures GenerationsOk(s')
  {
  }

  lemma GenerationsBegun(s: System, w: WorkerId, key: StepKey, isWrite: bool, o: Outcome)
    requires GenerationsOk(s) && w in s.workers && BeginFacts(s.rows, s.workers[w].memory, s.nextId, key, isWrite, o)
    ensures GenerationsOk(Began(s, w, key, o))
  {
    GenerationsAdopted(s, Began(s, w, key, o), w);
  }

  lemma GenerationsSaved(s: System, w: WorkerId, key: StepKey, verdict: Verdict, o: Outcome)
    requires GenerationsOk(s) && w in s.workers && SaveFacts(s.rows, s.workers[w].memory, key, verdict, o)
    ensures GenerationsOk(Saved(s, w, key, verdict, o))
  {
    GenerationsAdopted(s, Saved(s, w, key, verdict, o), w);
  }

  lemma GenerationsCalled(s: System, w: WorkerId, call: Call, o: Outcome)
    requires GenerationsOk(s) && w in s.workers && CallTasks(s.rows, s.workers[w].memory, s.nextId, call, o)
    ensures GenerationsOk(Called(s, w, call, o))
  {
    GenerationsAdopted(s, Called(s, w, call, o), w);
  }

  lemma GenerationsKept(s: System, e: Event)
    requires RowsOk(s.rows) && GenerationsOk(s) && Enabled(s, e)
    ensures GenerationsOk(Next(s, e))
  {
    match e
    case Begin(w, key, isWrite) =>
      BeginFactsHold(s.rows, s.workers[w].memory, s.nextId, key, isWrite);
      GenerationsBegun(s, w, key, isWrite, BeginOutcome(s, w, key, isWrite));
    case Save(w, key, result, error) =>
      var m, verdict := s.workers[w].memory, VerdictOf(s, w, key);
      SaveFactsHold(s.rows, m, key, verdict, result, error);
      GenerationsSaved(s, w, key, verdict, SaveOutcome(s.rows, m, key, verdict, result, error));
    case Invoke(w, call) =>
      CallTasksHold(s.rows, s.workers[w].memory, s.nextId, call);
      GenerationsCalled(s, w, call, Perform(s.rows, s.workers[w].memory, s.nextId, call));
    case _ =>
  }

  /* ---------- one step keeps effects and attempts accounted for ---------- */

  lemma WriteOnceBegun(s: System, w: WorkerId, at: StepKey, isWrite: bool, o: Outcome, key: StepKey)
    requires TokensOk(s) && WriteOnce(s, key) && w in s.workers && o.reply.Started?
    requires BeginFacts(s.rows, s.workers[w].memory, s.nextId, at, isWrite, o)
    ensures WriteOnce(Began(s, w, at, o), key)
  {
    var s' := Began(s, w, at, o);
    assert forall t :: Pending(s', t) <==> Pending(s, t) || t == s.nextId;
    if key == at {
      assert s'.rows.steps[key] == o.reply.step;
    } else {
      assert s'.rows.steps.Keys == s.rows.steps.Keys + {at};
    }
  }

  lemma LedgerBegun(s: System, w: WorkerId, at: StepKey, isWrite: bool, o: Outcome, key: StepKey)
    requires TokensOk(s) && Ledger(s, key) && w in s.workers
    requires BeginFacts(s.rows, s.workers[w].memory, s.nextId, at, isWrite, o)
    ensures Ledger(Began(s, w, at, o), key)
  {
    if o.reply.Started? {
      WriteOnceBegun(s, w, at, isWrite, o, key);
    } else {
      SameLedger(s, Began(s, w, at, o), key);
    }
  }

  /** The ledger of a step speaks of its row, its attempts and its counts only. */
  lemma SameLedger(s: System, s': System, key: StepKey)
    requires Ledger(s, key) && s'.rows == s.rows && s'.attempts == s.attempts && s'.applied == s.applied
    requires s'.failures == s.failures && s'.retries == s.retries && s'.resolved == s.resolved
    ensures Ledger(s', key)
  {
    assert forall t :: Pending(s', t) <==> Pending(s, t);
  }

  lemma LedgerLanded(s: System, token: Token, verdict: Verdict, effect: bool, key: StepKey)
    requires Ledger(s, key) && Enabled(s, Land(token, verdict, effect))
    ensures Ledger(Landed(s, token, verdict, effect), key)
  {
    var s' := Landed(s, token, verdict, effect);
    assert forall t :: Pending(s', t) <==> Pending(s, t) && t != token;
  }

  lemma LedgerSaved(s: System, w: WorkerId, at: StepKey, o: Outcome, key: StepKey)
    requires TokensOk(s) && Ledger(s, key) && Learned(s, w, at)
    requires SaveFacts(s.rows, s.workers[w].memory, at, VerdictOf(s, w, at), o)
    ensures Ledger(Saved(s, w, at, VerdictOf(s, w, at), o), key)
  {
    var s' := Saved(s, w, at, VerdictOf(s, w, at), o);
    assert forall t :: Pending(s', t) <==> Pending(s, t);
    if Owns(s.rows, s.workers[w].memory, at) {
      assert Calling(s, w, at, s.workers[w].calls[at]) && Holds(s, w, at, s.workers[w].memory.claims[at]);
    }
  }

  lemma WriteOnceCalled(s: System, w: WorkerId, call: Call, o: Outcome, key: StepKey)
    requires WriteOnce(s, key) && Enabled(s, Invoke(w, call)) && CallSteps(s.rows, call, o)
    requires key in s.rows.steps && !o.reply.Refused?
    ensures WriteOnce(Called(s, w, call, o), key)
  {
    var s' := Called(s, w, call, o);
    assert forall t :: Pending(s', t) <==> Pending(s, t);
    assert key in s'.rows.steps && s'.rows.steps[key] == StepAfter(call, key, s.rows.steps[key]);
  }

  lemma LedgerCalled(s: System, w: WorkerId, call: Call, o: Outcome, key: StepKey)
    requires Ledger(s, key) && Enabled(s, Invoke(w, call)) && CallSteps(s.rows, call, o)
    ensures Ledger(Called(s, w, call, o), key)
  {
    var s' := Called(s, w, call, o);
    assert key in s'.rows.steps <==> key in s.rows.steps;
    if o.reply.Refused? {
      SameLedger(s, s', key);
    } else if key in s.rows.steps {
      assert s'.rows.steps[key] == StepAfter(call, key, s.rows.steps[key]);
      WriteOnceCalled(s, w, call, o, key);
    }
  }

  lemma LedgerKept(s: System, e: Event, key: StepKey)
    requires TokensOk(s) && Ledger(s, key) && Enabled(s, e)
    ensures Ledger(Next(s, e), key)
  {
    match e
    case Begin(w, at, isWrite) =>
      BeginFactsHold(s.rows, s.workers[w].memory, s.nextId, at, isWrite);
      LedgerBegun(s, w, at, isWrite, BeginOutcome(s, w, at, isWrite), key);
    case Land(token, verdict, effect) => LedgerLanded(s, token, verdict, effect, key);
    case Save(w, at, result, error) =>
      var m, verdict := s.workers[w].memory, VerdictOf(s, w, at);
      SaveFactsHold(s.rows, m, at, verdict, result, error);
      LedgerSaved(s, w, at, SaveOutcome(s.rows, m, at, verdict, result, error), key);
    case Invoke(w, call) =>
      CallStepsHold(s.rows, s.workers[w].memory, s.nextId, call);
      LedgerCalled(s, w, call, Perform(s.rows, s.workers[w].memory, s.nextId, call), key);
    case _ => assert forall t :: Pending(Next(s, e), t) <==> Pending(s, t);
  }

  lemma InvariantKept(s: System, e: Event)
    requires Invariant(s) && Enabled(s, e)
    ensures Invariant(Next(s, e))
  {
    RowsKept(s, e);
    TokensKept(s, e);
    GenerationsKept(s, e);
    forall key ensures Ledger(Next(s, e), key) {
      assert Ledger(s, key);
      LedgerKept(s, e, key);
    }
  }

  lemma {:induction false} InvariantHolds(s: System, es: seq<Event>)
    requires Invariant(s) && Legal(s, es)
    ensures Invariant(After(s, es))
    decreases |es|
  {
    if es != [] {
      InvariantKept(s, es[0]);
      InvariantHolds(Next(s, es[0]), es[1..]);
    }
  }

  /* ---------- the promises, over every run from an empty store ---------- */

  lemma InitiallyTrue()
    ensures Invariant(INITIAL)
  {
  }

  /** Every state reached from an empty store satisfies the invariant. */
  lemma Reached(es: seq<Event>)
    requires Legal(INITIAL, es)
    ensures Invariant(After(INITIAL, es))
  {
    InitiallyTrue();
    InvariantHolds(INITIAL, es);
  }

  /** A write's remote effect is applied at most once, and exactly once if its step was completed by
      the worker that ran it rather than by `ResolveStep`. */
  lemma WritesApplyAtMostOnce(es: seq<Event>, key: StepKey)
    requires Legal(INITIAL, es)
    requires var rows := After(INITIAL, es).rows; key in rows.steps ==> rows.steps[key].isWrite
    ensures var s := After(INITIAL, es);
            && Count(s.applied, key) <= 1
            && (key in s.rows.steps && s.rows.steps[key].status == StepCompleted && key !in s.resolved ==> Count(s.applied, key) == 1)
  {
    Reached(es);
    assert Ledger(After(INITIAL, es), key);
  }

  /** A write is tried once, and once more after each definite failure and each retry. */
  lemma AttemptsAreBounded(es: seq<Event>, key: StepKey)
    requires Legal(INITIAL, es)
    requires var rows := After(INITIAL, es).rows; key in rows.steps && rows.steps[key].isWrite
    ensures var s := After(INITIAL, es);
            && 1 <= s.rows.steps[key].attempt <= 1 + Count(s.failures, key) + Count(s.retries, key)
            && (s.rows.steps[key].status != StepFailed ==> s.rows.steps[key].attempt == 1 + Count(s.failures, key) + Count(s.retries, key))
  {
    Reached(es);
    var s := After(INITIAL, es);
    assert Ledger(s, key);
    if s.rows.steps[key].status == StepFailed {
      ExistingStepsWereAttempted(INITIAL, es, key);
    }
  }

  predicate Attempted(s: System, key: StepKey) {
    key in s.rows.steps ==> 1 <= s.rows.steps[key].attempt
  }

  lemma AttemptedKept(s: System, e: Event, key: StepKey)
    requires Attempted(s, key) && Enabled(s, e)
    ensures Attempted(Next(s, e), key)
  {
    match e
    case Begin(w, at, isWrite) => BeginFactsHold(s.rows, s.workers[w].memory, s.nextId, at, isWrite);
    case Save(w, at, result, error) => SaveFactsHold(s.rows, s.workers[w].memory, at, VerdictOf(s, w, at), result, error);
    case Invoke(w, call) => CallStepsHold(s.rows, s.workers[w].memory, s.nextId, call);
    case _ =>
  }

  lemma {:induction false} ExistingStepsWereAttempted(s: System, es: seq<Event>, key: StepKey)
    requires Legal(s, es) && Attempted(s, key)
    ensures Attempted(After(s, es), key)
    decreases |es|
  {
    if es != [] {
      AttemptedKept(s, es[0], key);
      ExistingStepsWereAttempted(Next(s, es[0]), es[1..], key);
    }
  }

  /** A step is claimed exactly while it runs, at most one worker can save it, and the steps of a task
      are numbered 0..n-1. */
  lemma OneOwner(es: seq<Event>, key: StepKey, v: WorkerId, w: WorkerId)
    requires Legal(INITIAL, es)
    ensures var s := After(INITIAL, es);
            && (key in s.rows.steps ==> (s.rows.steps[key].claim.Some? <==> s.rows.steps[key].status == StepRunning))
            && (v in s.workers && w in s.workers && Owns(s.rows, s.workers[v].memory, key) && Owns(s.rows, s.workers[w].memory, key) ==> v == w)
            && Numbered(s.rows)
  {
    Reached(es);
    var s := After(INITIAL, es);
    if v in s.workers && w in s.workers && Owns(s.rows, s.workers[v].memory, key) && Owns(s.rows, s.workers[w].memory, key) {
      assert Holds(s, v, key, s.rows.steps[key].claim.value) && Holds(s, w, key, s.rows.steps[key].claim.value);
    }
  }

  /* ---------- fencing ---------- */

  /** The worker cached a generation that is no longer the task's. */
  predicate Stale(s: System, w: WorkerId, task: TaskId) {
    && w in s.workers && task in s.workers[w].memory.generations && task in s.rows.tasks
    && s.workers[w].memory.generations[task] != s.rows.tasks[task].generation
  }

  /** The calls by which a worker works on a task. */
  predicate WorksOn(e: Event, w: WorkerId, task: TaskId) {
    || (e.Begin? && e.w == w && e.key.task == task)
    || (e.Save? && e.w == w && e.key.task == task)
    || (e.Invoke? && e.w == w && (e.call.Finish? || e.call.Wait? || e.call.Fail?) && e.call.task == task)
  }

  /** The calls by which a worker takes a task over again, or stops being this worker. */
  predicate Readopts(e: Event, w: WorkerId, task: TaskId) {
    || e == Crash(w)
    || (e.Invoke? && e.w == w && e.call == Resume(task))
    || (e.Invoke? && e.w == w && e.call.Retry? && e.call.key.task == task)
  }

  /** None of `w`'s work on the task in this run changes a row or what `w` remembers. */
  ghost predicate Inert(s: System, es: seq<Event>, w: WorkerId, task: TaskId)
    requires Legal(s, es)
    decreases |es|
  {
    es == [] ||
    ((WorksOn(es[0], w, task) ==>
        Next(s, es[0]).rows == s.rows && w in s.workers && w in Next(s, es[0]).workers && Next(s, es[0]).workers[w].memory == s.workers[w].memory)
     && Inert(Next(s, es[0]), es[1..], w, task))
  }

  lemma StaleWorkIsRefused(s: System, e: Event, w: WorkerId, task: TaskId)
    requires Stale(s, w, task) && Enabled(s, e) && WorksOn(e, w, task)
    ensures Next(s, e).rows == s.rows && Next(s, e).workers[w].memory == s.workers[w].memory
  {
    match e
    case Begin(_, key, isWrite) => BeginFactsHold(s.rows, s.workers[w].memory, s.nextId, key, isWrite);
    case Save(_, key, result, error) => SaveFactsHold(s.rows, s.workers[w].memory, key, VerdictOf(s, w, key), result, error);
    case Invoke(_, call) =>
  }

  lemma CallAdoptions(rows: Rows, memory: Memory, id: TaskId, call: Call, task: TaskId)
    requires id !in rows.tasks && task in rows.tasks && task in memory.generations
    requires call != Resume(task) && !(call.Retry? && call.key.task == task)
    ensures var o := Perform(rows, memory, id, call);
            task in o.memory.generations && o.memory.generations[task] == memory.generations[task]
  {
  }

  lemma StaleBegun(s: System, v: WorkerId, key: StepKey, isWrite: bool, o: Outcome, w: WorkerId, task: TaskId)
    requires Stale(s, w, task) && v in s.workers && BeginFacts(s.rows, s.workers[v].memory, s.nextId, key, isWrite, o)
    ensures Stale(Began(s, v, key, o), w, task)
  {
  }

  lemma StaleSaved(s: System, v: WorkerId, key: StepKey, verdict: Verdict, o: Outcome, w: WorkerId, task: TaskId)
    requires Stale(s, w, task) && v in s.workers && SaveFacts(s.rows, s.workers[v].memory, key, verdict, o)
    ensures Stale(Saved(s, v, key, verdict, o), w, task)
  {
  }

  lemma StaleCalled(s: System, v: WorkerId, call: Call, o: Outcome, w: WorkerId, task: TaskId)
    requires GenerationsOk(s) && Stale(s, w, task) && v in s.workers && CallTasks(s.rows, s.workers[v].memory, s.nextId, call, o)
    requires v == w ==> task in o.memory.generations && o.memory.generations[task] == s.workers[w].memory.generations[task]
    ensures Stale(Called(s, v, call, o), w, task)
  {
  }

  lemma StalenessKept(s: System, e: Event, w: WorkerId, task: TaskId)
    requires RowsOk(s.rows) && GenerationsOk(s) && Stale(s, w, task) && Enabled(s, e) && !Readopts(e, w, task)
    ensures Stale(Next(s, e), w, task)
  {
    match e
    case Begin(v, key, isWrite) =>
      BeginFactsHold(s.rows, s.workers[v].memory, s.nextId, key, isWrite);
      StaleBegun(s, v, key, isWrite, BeginOutcome(s, v, key, isWrite), w, task);
    case Save(v, key, result, error) =>
      var m, verdict := s.workers[v].memory, VerdictOf(s, v, key);
      SaveFactsHold(s.rows, m, key, verdict, result, error);
      StaleSaved(s, v, key, verdict, SaveOutcome(s.rows, m, key, verdict, result, error), w, task);
    case Invoke(v, call) =>
      var m := s.workers[v].memory;
      CallTasksHold(s.rows, m, s.nextId, call);
      if v == w {
        CallAdoptions(s.rows, m, s.nextId, call, task);
      }
      StaleCalled(s, v, call, Perform(s.rows, m, s.nextId, call), w, task);
    case _ =>
  }

  /** Fencing: from the moment a worker's generation is stale until it takes the task over itself,
      nothing it does on the task changes anything, whatever the other workers do meanwhile. */
  lemma {:induction false} StaleWorkerIsFenced(s: System, es: seq<Event>, w: WorkerId, task: TaskId)
    requires Invariant(s) && Legal(s, es) && Stale(s, w, task)
    requires forall i :: 0 <= i < |es| ==> !Readopts(es[i], w, task)
    ensures Inert(s, es, w, task) && Stale(After(s, es), w, task)
    decreases |es|
  {
    if es != [] {
      var s' := Next(s, es[0]);
      if WorksOn(es[0], w, task) {
        StaleWorkIsRefused(s, es[0], w, task);
      }
      InvariantKept(s, es[0]);
      StalenessKept(s, es[0], w, task);
      StaleWorkerIsFenced(s', es[1..], w, task);
    }
  }

  /* ---------- what is finished stays finished ---------- */

  lemma CompletedStepKept(s: System, e: Event, key: StepKey)
    requires Enabled(s, e) && key in s.rows.steps && s.rows.steps[key].status == StepCompleted
    ensures key in Next(s, e).rows.steps && Next(s, e).rows.steps[key] == s.rows.steps[key]
  {
    match e
    case Begin(w, at, isWrite) => BeginFactsHold(s.rows, s.workers[w].memory, s.nextId, at, isWrite);
    case Save(w, at, result, error) => SaveFactsHold(s.rows, s.workers[w].memory, at, VerdictOf(s, w, at), result, error);
    case Invoke(w, call) => CallStepsHold(s.rows, s.workers[w].memory, s.nextId, call);
    case _ =>
  }

  /** A completed step never changes again. */
  lemma {:induction false} CompletedStepsNeverChange(s: System, es: seq<Event>, key: StepKey)
    requires Legal(s, es) && key in s.rows.steps && s.rows.steps[key].status == StepCompleted
    ensures key in After(s, es).rows.steps && After(s, es).rows.steps[key] == s.rows.steps[key]
    decreases |es|
  {
    if es != [] {
      CompletedStepKept(s, es[0], key);
      CompletedStepsNeverChange(Next(s, es[0]), es[1..], key);
    }
  }

  /** The task row without its note. */
  function Unnoted(task: Task): Task {
    task.(note := "")
  }

  ghost predicate SameTask(rows: Rows, rows': Rows, task: TaskId) {
    && task in rows.tasks && task in rows'.tasks && Unnoted(rows'.tasks[task]) == Unnoted(rows.tasks[task])
    && (forall key: StepKey :: key.task == task ==> (key in rows'.steps <==> key in rows.steps))
    && (forall key: StepKey :: key.task == task && key in rows.steps ==> rows'.steps[key] == rows.steps[key])
  }

  lemma CompletedTaskKept(s: System, e: Event, task: TaskId)
    requires RowsOk(s.rows) && GenerationsOk(s) && Enabled(s, e) && task in s.rows.tasks && s.rows.tasks[task].status == TaskCompleted
    ensures SameTask(s.rows, Next(s, e).rows, task)
  {
    match e
    case Begin(w, at, isWrite) =>
      BeginFactsHold(s.rows, s.workers[w].memory, s.nextId, at, isWrite);
      CompletedTaskBegun(s.rows, s.workers[w].memory, s.nextId, at, isWrite, BeginOutcome(s, w, at, isWrite), task);
    case Save(w, at, result, error) =>
      var m, verdict := s.workers[w].memory, VerdictOf(s, w, at);
      SaveFactsHold(s.rows, m, at, verdict, result, error);
      CompletedTaskSaved(s.rows, m, at, verdict, SaveOutcome(s.rows, m, at, verdict, result, error), task);
    case Invoke(w, call) =>
      var m := s.workers[w].memory;
      CallStepsHold(s.rows, m, s.nextId, call);
      CallTasksHold(s.rows, m, s.nextId, call);
      CompletedTaskCalled(s.rows, m, s.nextId, call, Perform(s.rows, m, s.nextId, call), task);
    case _ =>
  }

  lemma CompletedTaskBegun(rows: Rows, m: Memory, token: Token, key: StepKey, isWrite: bool, o: Outcome, task: TaskId)
    requires BeginFacts(rows, m, token, key, isWrite, o) && task in rows.tasks && rows.tasks[task].status == TaskCompleted
    ensures SameTask(rows, o.rows, task)
  {
  }

  lemma CompletedTaskSaved(rows: Rows, m: Memory, key: StepKey, verdict: Verdict, o: Outcome, task: TaskId)
    requires RowsOk(rows) && SaveFacts(rows, m, key, verdict, o) && task in rows.tasks && rows.tasks[task].status == TaskCompleted
    ensures SameTask(rows, o.rows, task)
  {
  }

  lemma CompletedTaskCalled(rows: Rows, m: Memory, id: TaskId, call: Call, o: Outcome, task: TaskId)
    requires RowsOk(rows) && CallSteps(rows, call, o) && CallTasks(rows, m, id, call, o)
    requires task in rows.tasks && rows.tasks[task].status == TaskCompleted
    ensures SameTask(rows, o.rows, task)
  {
    if !o.reply.Refused? {
      assert TaskMoves(rows, call, task, rows.tasks[task], o.rows.tasks[task]);
      forall key: StepKey | key.task == task && key in rows.steps ensures o.rows.steps[key] == rows.steps[key] {
        assert o.rows.steps[key] == StepAfter(call, key, rows.steps[key]);
      }
    }
  }

  /** A completed task keeps its row, except the note, and exactly its steps. */
  lemma {:induction false} CompletedTasksNeverChange(s: System, es: seq<Event>, task: TaskId)
    requires Invariant(s) && Legal(s, es) && task in s.rows.tasks && s.rows.tasks[task].status == TaskCompleted
    ensures SameTask(s.rows, After(s, es).rows, task)
    decreases |es|
  {
    if es != [] {
      CompletedTaskKept(s, es[0], task);
      InvariantKept(s, es[0]);
      CompletedTasksNeverChange(Next(s, es[0]), es[1..], task);
    }
  }

  /* ---------- the confirmation is needed ---------- */

  lemma Cons(s: System, e: Event, es: seq<Event>)
    requires Possible(s, e) && Feasible(Next(s, e), es)
    ensures Feasible(s, [e] + es) && After(s, [e] + es) == After(Next(s, e), es)
  {
    assert ([e] + es)[1..] == es;
  }

  /** Some continuation of `s` applies the effect of `key` a second time. */
  ghost predicate CanDuplicate(s: System, key: StepKey) {
    exists es :: Feasible(s, es) && Count(After(s, es).applied, key) >= 2
  }

  lemma ThenDuplicate(s: System, e: Event, key: StepKey)
    requires Possible(s, e) && CanDuplicate(Next(s, e), key)
    ensures CanDuplicate(s, key)
  {
    var es :| Feasible(Next(s, e), es) && Count(After(Next(s, e), es).applied, key) >= 2;
    Cons(s, e, es);
  }

  lemma NowDuplicate(s: System, key: StepKey)
    requires Count(s.applied, key) >= 2
    ensures CanDuplicate(s, key)
  {
    assert Feasible(s, []) && After(s, []) == s;
  }

  /** A retry that was not confirmed always leaves a way to apply the effect twice: a new worker `v`
      resumes the task, runs the step again, and its request lands, besides the earlier one. */
  lemma UnconfirmedRetryCanDuplicate(s: System, w: WorkerId, v: WorkerId, key: StepKey)
    requires Invariant(s) && w in s.workers && v !in s.workers
    requires Interrupted(s.rows, key) && !Blank(key.name) && !ConfirmedAbsent(s, key)
    ensures CanDuplicate(s, key)
  {
    RetryMakesReplayable(s, w, key);
    RunAgain(Next(s, Invoke(w, Retry(key))), v, key);
    ThenDuplicate(s, Invoke(w, Retry(key)), key);
  }

  lemma RetryMakesReplayable(s: System, w: WorkerId, key: StepKey)
    requires RowsOk(s.rows) && TokensOk(s) && w in s.workers
    requires Interrupted(s.rows, key) && !Blank(key.name) && !ConfirmedAbsent(s, key)
    ensures var s' := Next(s, Invoke(w, Retry(key)));
            Replayable(s', key) && s'.rows.tasks[key.task].status != TaskCompleted && s'.workers.Keys == s.workers.Keys
  {
    var s' := Next(s, Invoke(w, Retry(key)));
    if Count(s.applied, key) == 0 {
      var token: Token :| Pending(s, token) && s.attempts[token].key == key;
      assert Pending(s', token);
    }
  }

  /** The step may run again although its effect was applied or is still pending. */
  ghost predicate Replayable(s: System, key: StepKey) {
    && key in s.rows.steps && s.rows.steps[key].isWrite && s.rows.steps[key].status == StepFailed
    && key.task in s.rows.tasks && !Blank(key.name)
    && (Count(s.applied, key) >= 1 || exists t :: Pending(s, t) && s.attempts[t].key == key)
    && (forall token :: token in s.attempts ==> token < s.nextId)
  }

  lemma RunAgain(s: System, v: WorkerId, key: StepKey)
    requires Replayable(s, key) && s.rows.tasks[key.task].status != TaskCompleted && v !in s.workers
    ensures CanDuplicate(s, key)
  {
    var s1 := Next(s, Spawn(v));
    var resume := Invoke(v, Resume(key.task));
    var s2 := Next(s1, resume);
    assert forall t :: Pending(s, t) <==> Pending(s2, t);
    BeginAgain(s2, v, key);
    ThenDuplicate(s1, resume, key);
    ThenDuplicate(s, Spawn(v), key);
  }

  lemma BeginAgain(s: System, v: WorkerId, key: StepKey)
    requires Replayable(s, key) && s.rows.tasks[key.task].status == TaskRunning && v in s.workers && key !in s.workers[v].calls
    requires key.task in s.workers[v].memory.generations
    requires s.workers[v].memory.generations[key.task] == s.rows.tasks[key.task].generation
    ensures CanDuplicate(s, key)
  {
    var begin, token := Begin(v, key, true), s.nextId;
    var s1 := Next(s, begin);
    assert forall t :: Pending(s, t) ==> Pending(s1, t) && s1.attempts[t] == s.attempts[t] && t != token;
    assert Pending(s1, token) && s1.attempts[token].key == key;
    var land := Land(token, Success, true);
    var s2 := Next(s1, land);
    assert Count(s2.applied, key) == Count(s.applied, key) + 1;
    if Count(s.applied, key) >= 1 {
      NowDuplicate(s2, key);
    } else {
      var t :| Pending(s, t) && s.attempts[t].key == key;
      assert Pending(s1, t) && Pending(s2, t) && s2.attempts[t].key == key;
      NowDuplicate(Next(s2, Land(t, Success, true)), key);
      ThenDuplicate(s2, Land(t, Success, true), key);
    }
    ThenDuplicate(s1, land, key);
    ThenDuplicate(s, begin, key);
  }
}
