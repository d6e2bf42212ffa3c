/** What the store calls mean to the workers, over the runs of `TaskRuns`: which calls are answered, who is
    superseded by them, what they leave in the rows, and which result a later `BeginStep` reports. */
module TaskCalls {
  import opened Prelude
  import opened TaskStoreModel
  import opened TaskRuns

  function Answer(s: System, w: WorkerId, call: Call): Reply
    requires w in s.workers
  {
    Perform(s.rows, s.workers[w].memory, s.nextId, call).reply
  }

  /** The task runs and nobody took it over from the worker. */
  predicate Active(s: System, w: WorkerId, task: TaskId) {
    task in s.rows.tasks && s.rows.tasks[task].status == TaskRunning && !Stale(s, w, task)
  }

  predicate Unfinished(s: System, task: TaskId) {
    task in s.rows.tasks && s.rows.tasks[task].status != TaskCompleted
  }

  /* ---------- which calls are answered ---------- */

  /** The calls that are not refused. */
  ghost predicate Accepts(s: System, w: WorkerId, call: Call) {
    match call
    case Create(workflow, _) => exists i :: 0 <= i < |workflow| && !IsSpace(workflow[i])
    case Finish(task, _) =>
      Active(s, w, task) && forall key :: key in s.rows.steps && key.task == task ==> s.rows.steps[key].status == StepCompleted
    case Wait(task, _) => Active(s, w, task)
    case Fail(task, _, _) => Active(s, w, task)
    case Cancel(task) => Unfinished(s, task)
    case Resume(task) => Unfinished(s, task)
    case Resolve(key, _) => InDoubt(s, key)
    case Retry(key) => InDoubt(s, key)
    case Note(task, _) => task in s.rows.tasks
  }

  /** A write that was begun and whose outcome is not known. */
  predicate InDoubt(s: System, key: StepKey) {
    key in s.rows.steps && s.rows.steps[key].isWrite && (s.rows.steps[key].status == StepRunning || s.rows.steps[key].status == StepUncertain)
  }

  lemma AnsweredExactly(s: System, w: WorkerId, call: Call)
    requires RowsOk(s.rows) && w in s.workers
    ensures Accepts(s, w, call) <==> Answer(s, w, call) == if call.Create? then Created(s.nextId) else Done
    ensures !Accepts(s, w, call) <==> Answer(s, w, call).Refused?
    ensures !Accepts(s, w, call) ==> Next(s, Invoke(w, call)) == s
  {
    if call.Finish? {
      assert AllCompleted(s.rows, call.task) <==> forall key :: key in s.rows.steps && key.task == call.task ==> s.rows.steps[key].status == StepCompleted;
    }
    if !Accepts(s, w, call) {
      RefusedChangesNothing(s.rows, s.workers[w].memory, s.nextId, call);
      assert s.workers[w := s.workers[w]] == s.workers;
    }
  }

  lemma RefusedChangesNothing(rows: Rows, m: Memory, id: TaskId, call: Call)
    ensures var o := Perform(rows, m, id, call); o.reply.Refused? ==> o.rows == rows && o.memory == m
  {
  }

  /** A step may be executed: it is new, or not completed and not a write in doubt. */
  predicate MayRun(s: System, key: StepKey, isWrite: bool) {
    key !in s.rows.steps || (s.rows.steps[key].isWrite == isWrite && s.rows.steps[key].status != StepCompleted && !InDoubt(s, key))
  }

  /** `BeginStep` starts exactly the steps an active worker may run, and hands out exactly the completed ones. */
  lemma BegunExactly(s: System, w: WorkerId, key: StepKey, isWrite: bool)
    requires w in s.workers
    ensures var r := BeginOutcome(s, w, key, isWrite).reply;
            && (r.Started? <==> Active(s, w, key.task) && !Blank(key.name) && MayRun(s, key, isWrite))
            && (r.Reused? <==> Active(s, w, key.task) && !Blank(key.name) && key in s.rows.steps && s.rows.steps[key].isWrite == isWrite
                               && s.rows.steps[key].status == StepCompleted)
            && (r.Reused? ==> r.step == s.rows.steps[key])
            && (r.Started? || r.Reused? || r.Refused?)
  {
  }

  /** Beginning a step of a running task binds the worker to the task's present generation, whatever the step says, so that
      the next takeover supersedes it; a worker that may not work on the task remembers nothing new. */
  lemma BeginningBinds(s: System, w: WorkerId, key: StepKey, isWrite: bool)
    requires Possible(s, Begin(w, key, isWrite))
    ensures var s' := Next(s, Begin(w, key, isWrite));
            if Active(s, w, key.task) && !Blank(key.name) then Caches(s', w, key.task) else s'.workers[w].memory == s.workers[w].memory
  {
    BeginAdopts(s.rows, s.workers[w].memory, s.nextId, key, isWrite);
    BeginFactsHold(s.rows, s.workers[w].memory, s.nextId, key, isWrite);
  }

  lemma BeginAdopts(rows: Rows, m: Memory, token: Token, key: StepKey, isWrite: bool)
    ensures var o := DoBegin(rows, m, token, key.task, key.name, isWrite);
            if Objection(rows, m, key.task).None? && !Blank(key.name)
            then key.task in o.memory.generations && o.memory.generations[key.task] == rows.tasks[key.task].generation
            else o.memory == m
  {
  }

  /** `_save_step` saves exactly for the active worker that claimed the running step. */
  lemma SavedExactly(s: System, w: WorkerId, key: StepKey, result: Json, error: string)
    requires Learned(s, w, key)
    ensures var o := SaveOutcome(s.rows, s.workers[w].memory, key, VerdictOf(s, w, key), result, error);
            && (o.reply == Done <==> Active(s, w, key.task) && key in s.rows.steps && s.rows.steps[key].status == StepRunning
                                     && exists token: Token :: Holds(s, w, key, token) && s.rows.steps[key].claim == Some(token))
            && (o.reply != Done ==> o.reply.Refused? && o.rows == s.rows && o.memory == s.workers[w].memory)
  {
    var m := s.workers[w].memory;
    if key in m.claims {
      assert Holds(s, w, key, m.claims[key]);
    }
  }

  /* ---------- what the calls make of a task ---------- */

  predicate About(call: Call, task: TaskId) {
    match call
    case Create(_, _) => false
    case Resolve(_, _) => false
    case Retry(key) => key.task == task
    case _ => call.task == task
  }

  /** What an accepted call about a task makes of its row. */
  function Effect(call: Call, row: Task): Task {
    match call
    case Finish(_, result) => row.(status := TaskCompleted, result := Some(result), error := None)
    case Wait(_, result) => row.(status := TaskWaiting, result := Some(result), error := None)
    case Fail(_, error, result) => row.(status := TaskFailed, result := if result == Null then row.result else Some(result), error := Some(error))
    case Cancel(_) => row.(status := TaskCancelled, generation := row.generation + 1)
    case Resume(_) => row.(status := TaskRunning, error := None, generation := row.generation + 1)
    case Retry(_) => row.(generation := row.generation + 1)
    case Note(_, text) => row.(note := text)
    case _ => row
  }

  /** Work on steps leaves every task row and every other worker alone. */
  ghost predicate StepWork(s: System, s': System, w: WorkerId) {
    s'.rows.tasks == s.rows.tasks && w in s.workers && w in s'.workers && s'.workers == s.workers[w := s'.workers[w]]
  }

  lemma StepEventsWork(s: System, e: Event)
    requires Possible(s, e) && (e.Begin? || e.Save?)
    ensures StepWork(s, Next(s, e), e.w)
  {
    match e
    case Begin(w, key, isWrite) => BeginFactsHold(s.rows, s.workers[w].memory, s.nextId, key, isWrite);
    case Save(w, key, result, error) => SaveFactsHold(s.rows, s.workers[w].memory, key, VerdictOf(s, w, key), result, error);
    case _ =>
  }

  lemma CallMovesRow(rows: Rows, m: Memory, id: TaskId, call: Call, task: TaskId)
    requires id !in rows.tasks && task in rows.tasks
    ensures var o := Perform(rows, m, id, call);
            task in o.rows.tasks && o.rows.tasks[task] == if About(call, task) && !o.reply.Refused? then Effect(call, rows.tasks[task]) else rows.tasks[task]
  {
  }

  lemma TaskRowMoves(s: System, e: Event, task: TaskId)
    requires RowsOk(s.rows) && GenerationsOk(s) && Possible(s, e) && task in s.rows.tasks
    ensures task in Next(s, e).rows.tasks
    ensures var row := s.rows.tasks[task];
            Next(s, e).rows.tasks[task] == if e.Invoke? && About(e.call, task) && Accepts(s, e.w, e.call) then Effect(e.call, row) else row
  {
    if e.Begin? || e.Save? {
      StepEventsWork(s, e);
    } else if e.Invoke? {
      AnsweredExactly(s, e.w, e.call);
      CallMovesRow(s.rows, s.workers[e.w].memory, s.nextId, e.call, task);
    }
  }

  /* ---------- who is superseded ---------- */

  /** The generation moved on by one, and every other worker that knew the task is stale. */
  ghost predicate Superseded(s: System, s': System, w: WorkerId, task: TaskId) {
    && task in s.rows.tasks && task in s'.rows.tasks && s'.rows.tasks[task].generation == s.rows.tasks[task].generation + 1
    && s'.workers.Keys == s.workers.Keys
    && forall v :: v in s.workers && v != w && task in s.workers[v].memory.generations ==> Stale(s', v, task)
  }

  predicate Caches(s: System, w: WorkerId, task: TaskId) {
    && w in s.workers && task in s.workers[w].memory.generations && task in s.rows.tasks
    && s.workers[w].memory.generations[task] == s.rows.tasks[task].generation
  }

  /** Resuming makes the caller the only worker whose cached generation counts. */
  lemma ResumingSupersedes(s: System, w: WorkerId, task: TaskId)
    requires Invariant(s) && w in s.workers && Answer(s, w, Resume(task)) == Done
    ensures var s' := Next(s, Invoke(w, Resume(task)));
            Superseded(s, s', w, task) && Caches(s', w, task) && Active(s', w, task) && s'.rows.steps == s.rows.steps
  {
  }

  /** So does retrying a write, which leaves the task's status as it was. */
  lemma RetryingSupersedes(s: System, w: WorkerId, key: StepKey)
    requires Invariant(s) && w in s.workers && Answer(s, w, Retry(key)) == Done
    ensures var s' := Next(s, Invoke(w, Retry(key)));
            && Superseded(s, s', w, key.task) && Caches(s', w, key.task)
            && s'.rows.tasks[key.task].status == s.rows.tasks[key.task].status && MayRun(s', key, true)
            && forall v :: v in s'.workers ==> !Owns(s'.rows, s'.workers[v].memory, key)
  {
    AnsweredExactly(s, w, Retry(key));
    TaskRowMoves(s, Invoke(w, Retry(key)), key.task);
    CallMovesStep(s, w, Retry(key), key);
  }

  /** Cancelling supersedes everyone, the caller included. */
  lemma CancellingSupersedes(s: System, w: WorkerId, task: TaskId)
    requires Invariant(s) && w in s.workers && Answer(s, w, Cancel(task)) == Done
    ensures var s' := Next(s, Invoke(w, Cancel(task)));
            && Superseded(s, s', w, task) && s'.rows.tasks[task].status == TaskCancelled
            && (task in s.workers[w].memory.generations ==> Stale(s', w, task))
            && (forall key :: key in s'.rows.steps && key.task == task ==> s'.rows.steps[key].status != StepRunning)
            && (forall key: StepKey :: key.task == task && InDoubt(s, key) ==> InDoubt(s', key))
  {
    var s' := Next(s, Invoke(w, Cancel(task)));
    assert s'.workers == s.workers[w := s'.workers[w]];
  }

  /** The call moves the task to a new generation. */
  ghost predicate TakesOver(s: System, e: Event, task: TaskId) {
    && e.Invoke? && (e.call == Cancel(task) || e.call == Resume(task) || (e.call.Retry? && e.call.key.task == task))
    && Accepts(s, e.w, e.call)
  }

  ghost function Takeovers(s: System, es: seq<Event>, task: TaskId): nat
    requires Feasible(s, es)
    decreases |es|
  {
    if es == [] then 0 else (if TakesOver(s, es[0], task) then 1 else 0) + Takeovers(Next(s, es[0]), es[1..], task)
  }

  lemma GenerationMoves(s: System, e: Event, task: TaskId)
    requires RowsOk(s.rows) && GenerationsOk(s) && Possible(s, e) && task in s.rows.tasks
    ensures task in Next(s, e).rows.tasks
    ensures Next(s, e).rows.tasks[task].generation == s.rows.tasks[task].generation + if TakesOver(s, e, task) then 1 else 0
  {
    TaskRowMoves(s, e, task);
  }

  /** A task's generation counts its accepted cancels, resumes and retries. */
  lemma {:induction false} GenerationsCountTakeovers(s: System, es: seq<Event>, task: TaskId)
    requires Invariant(s) && Legal(s, es) && task in s.rows.tasks
    ensures task in After(s, es).rows.tasks
    ensures After(s, es).rows.tasks[task].generation == s.rows.tasks[task].generation + Takeovers(s, es, task)
    decreases |es|
  {
    if es != [] {
      GenerationMoves(s, es[0], task);
      InvariantKept(s, es[0]);
      GenerationsCountTakeovers(Next(s, es[0]), es[1..], task);
    }
  }

  /** One worker's memory of the task's generation. */
  predicate SameCache(m: Memory, m': Memory, task: TaskId) {
    task in m.generations ==> task in m'.generations && m'.generations[task] == m.generations[task]
  }

  lemma BegunKeepsCache(rows: Rows, m: Memory, token: Token, key: StepKey, isWrite: bool, o: Outcome, task: TaskId)
    requires BeginFacts(rows, m, token, key, isWrite, o)
    requires task in rows.tasks && task in m.generations && m.generations[task] == rows.tasks[task].generation
    ensures SameCache(m, o.memory, task)
  {
  }

  lemma CacheKept(s: System, e: Event, w: WorkerId, task: TaskId)
    requires GenerationsOk(s) && Possible(s, e) && Caches(s, w, task) && !Readopts(e, w, task)
    ensures var s' := Next(s, e); w in s'.workers && SameCache(s.workers[w].memory, s'.workers[w].memory, task)
  {
    if (e.Begin? || e.Save? || e.Invoke?) && e.w == w {
      var m := s.workers[w].memory;
      match e
      case Begin(_, key, isWrite) =>
        BeginFactsHold(s.rows, m, s.nextId, key, isWrite);
        BegunKeepsCache(s.rows, m, s.nextId, key, isWrite, BeginOutcome(s, w, key, isWrite), task);
      case Save(_, key, result, error) => SaveFactsHold(s.rows, m, key, VerdictOf(s, w, key), result, error);
      case Invoke(_, call) => CallAdoptions(s.rows, m, s.nextId, call, task);
      case _ =>
    }
  }

  /** A worker that is up to date becomes stale exactly when the task is taken over. */
  lemma {:induction false} SupersededExactly(s: System, es: seq<Event>, w: WorkerId, task: TaskId)
    requires Invariant(s) && Legal(s, es) && Caches(s, w, task)
    requires forall i :: 0 <= i < |es| ==> !Readopts(es[i], w, task)
    ensures Stale(After(s, es), w, task) <==> Takeovers(s, es, task) > 0
    ensures Takeovers(s, es, task) == 0 ==> Caches(After(s, es), w, task)
    decreases |es|
  {
    if es != [] {
      var s', rest := Next(s, es[0]), es[1..];
      GenerationMoves(s, es[0], task);
      CacheKept(s, es[0], w, task);
      InvariantKept(s, es[0]);
      if TakesOver(s, es[0], task) {
        StaleWorkerIsFenced(s', rest, w, task);
      } else {
        SupersededExactly(s', rest, w, task);
      }
    }
  }

  /* ---------- what the calls leave in the rows ---------- */

  /** The row after the accepted calls about the task. */
  ghost function Replayed(s: System, es: seq<Event>, task: TaskId, row: Task): Task
    requires Feasible(s, es)
    decreases |es|
  {
    if es == [] then row
    else
      var e := es[0];
      Replayed(Next(s, e), es[1..], task, if e.Invoke? && About(e.call, task) && Accepts(s, e.w, e.call) then Effect(e.call, row) else row)
  }

  /** A task row is what the accepted calls about it made of it, in their order; work on steps never touches it. */
  lemma {:induction false} TaskRowIsReplay(s: System, es: seq<Event>, task: TaskId)
    requires Invariant(s) && Legal(s, es) && task in s.rows.tasks
    ensures task in After(s, es).rows.tasks && After(s, es).rows.tasks[task] == Replayed(s, es, task, s.rows.tasks[task])
    decreases |es|
  {
    if es != [] {
      TaskRowMoves(s, es[0], task);
      InvariantKept(s, es[0]);
      TaskRowIsReplay(Next(s, es[0]), es[1..], task);
    }
  }

  /** Creating makes one new row, which the creator may work on. */
  lemma CreatedTask(s: System, w: WorkerId, workflow: string, inputs: Json)
    requires Invariant(s) && w in s.workers && Answer(s, w, Create(workflow, inputs)).Created?
    ensures var s', id := Next(s, Invoke(w, Create(workflow, inputs))), s.nextId;
            && id !in s.rows.tasks && s'.rows.tasks == s.rows.tasks[id := Task(workflow, inputs, TaskRunning, None, None, "", 0)]
            && s'.rows.steps == s.rows.steps && (forall key :: key in s'.rows.steps ==> key.task != id)
            && Answer(s, w, Create(workflow, inputs)) == Created(id) && Active(s', w, id) && Caches(s', w, id)
  {
  }

  /** The row of a step after one event; it is absent until a worker begins it. */
  ghost function StepTold(s: System, e: Event, key: StepKey): Option<Step>
    requires Possible(s, e)
  {
    var was := if key in s.rows.steps then Some(s.rows.steps[key]) else None;
    match e
    case Begin(w, at, isWrite) =>
      if at != key || Blank(key.name) || !Active(s, w, key.task) || !MayRun(s, key, isWrite) then was
      else if was.None? then Some(Step(|StepsOf(s.rows, key.task)|, isWrite, StepRunning, None, None, 1, Some(s.nextId)))
      else Some(Step(was.value.position, isWrite, StepRunning, None, None, was.value.attempt + 1, Some(s.nextId)))
    case Save(w, at, result, error) =>
      if at != key || was.None? || !Active(s, w, key.task) || !Owns(s.rows, s.workers[w].memory, key) then was
      else
        var unclaimed := was.value.(claim := None);
        Some(match VerdictOf(s, w, key)
             case Success => unclaimed.(status := StepCompleted, result := Some(result), error := None)
             case DefiniteFailure => unclaimed.(status := StepFailed, result := Some(Null), error := Some(error))
             case Ambiguous => unclaimed.(status := StepUncertain, result := Some(Null), error := Some(error)))
    case Invoke(w, call) =>
      if was.None? || !Accepts(s, w, call) then was
      else
        var unclaimed := was.value.(claim := None);
        (match call
         case Cancel(task) =>
           if task != key.task || was.value.status != StepRunning then was
           else Some(unclaimed.(status := if was.value.isWrite then StepUncertain else StepFailed, error := Some("Task cancelled during step")))
         case Resolve(at, result) => if at != key then was else Some(unclaimed.(status := StepCompleted, result := Some(result), error := None))
         case Retry(at) => if at != key then was else Some(unclaimed.(status := StepFailed, result := None, error := None))
         case _ => was)
    case _ => was
  }

  lemma BeginMovesStep(s: System, w: WorkerId, at: StepKey, isWrite: bool, key: StepKey)
    requires Possible(s, Begin(w, at, isWrite))
    ensures var o, told := BeginOutcome(s, w, at, isWrite), StepTold(s, Begin(w, at, isWrite), key);
            Began(s, w, at, o).rows == o.rows && (key in o.rows.steps <==> told.Some?) && (key in o.rows.steps ==> o.rows.steps[key] == told.value)
  {
    BegunExactly(s, w, at, isWrite);
  }

  lemma SaveMovesStep(s: System, w: WorkerId, at: StepKey, result: Json, error: string, key: StepKey)
    requires Possible(s, Save(w, at, result, error))
    ensures var rows, told := Next(s, Save(w, at, result, error)).rows, StepTold(s, Save(w, at, result, error), key);
            (key in rows.steps <==> told.Some?) && (key in rows.steps ==> rows.steps[key] == told.value)
  {
  }

  lemma CallMovesStep(s: System, w: WorkerId, call: Call, key: StepKey)
    requires RowsOk(s.rows) && Possible(s, Invoke(w, call))
    ensures var rows, told := Next(s, Invoke(w, call)).rows, StepTold(s, Invoke(w, call), key);
            (key in rows.steps <==> told.Some?) && (key in rows.steps ==> rows.steps[key] == told.value)
  {
    AnsweredExactly(s, w, call);
    CallStepsHold(s.rows, s.workers[w].memory, s.nextId, call);
    if key in s.rows.steps && Accepts(s, w, call) {
      assert Next(s, Invoke(w, call)).rows.steps[key] == StepAfter(call, key, s.rows.steps[key]);
    }
  }

  /** The step rows after an event, all of them. */
  lemma StepRowsMove(s: System, e: Event, key: StepKey)
    requires RowsOk(s.rows) && Possible(s, e)
    ensures var rows, told := Next(s, e).rows, StepTold(s, e, key);
            (key in rows.steps <==> told.Some?) && (key in rows.steps ==> rows.steps[key] == told.value)
  {
    match e
    case Begin(w, at, isWrite) => BeginMovesStep(s, w, at, isWrite, key);
    case Save(w, at, result, error) => SaveMovesStep(s, w, at, result, error, key);
    case Invoke(w, call) => CallMovesStep(s, w, call, key);
    case _ =>
  }

  /* ---------- which result a step reports ---------- */

  /** The event completes the step with a result. */
  ghost predicate Completes(s: System, e: Event, key: StepKey, result: Json)
    requires Possible(s, e)
  {
    match e
    case Save(w, at, r, _) => at == key && r == result && VerdictOf(s, w, key) == Success && Active(s, w, key.task) && Owns(s.rows, s.workers[w].memory, key)
    case Invoke(w, call) => call == Resolve(key, result) && InDoubt(s, key)
    case _ => false
  }

  lemma CompletedRow(s: System, e: Event, key: StepKey, result: Json)
    requires RowsOk(s.rows) && Possible(s, e) && Completes(s, e, key, result)
    ensures var rows := Next(s, e).rows;
            && key in rows.steps && key in s.rows.steps && rows.steps[key].status == StepCompleted && rows.steps[key].result == Some(result)
            && rows.steps[key].isWrite == s.rows.steps[key].isWrite
  {
    StepRowsMove(s, e, key);
  }

  /** Once a step was completed with a result, by its worker or by `ResolveStep`, it is never executed again: every
      later `BeginStep` by an active worker returns that result, and every other one is refused. */
  lemma CompletedResultIsReused(s: System, e: Event, es: seq<Event>, key: StepKey, result: Json, v: WorkerId, isWrite: bool)
    requires Invariant(s) && Enabled(s, e) && Completes(s, e, key, result) && Legal(Next(s, e), es)
    requires v in After(Next(s, e), es).workers
    ensures var s' := After(Next(s, e), es);
            var reply := BeginOutcome(s', v, key, isWrite).reply;
            && key in s'.rows.steps && s'.rows.steps[key].result == Some(result) && s'.rows.steps[key].isWrite == s.rows.steps[key].isWrite
            && (reply.Reused? <==> Active(s', v, key.task) && !Blank(key.name) && isWrite == s.rows.steps[key].isWrite)
            && (if reply.Reused? then reply.step.result == Some(result) else reply.Refused?)
  {
    var s1 := Next(s, e);
    CompletedRow(s, e, key, result);
    InvariantKept(s, e);
    CompletedStepsNeverChange(s1, es, key);
    BegunExactly(After(s1, es), v, key, isWrite);
  }

  /** The user decides about the write. */
  predicate Decides(e: Event, key: StepKey) {
    e.Invoke? && ((e.call.Resolve? && e.call.key == key) || e.call == Retry(key))
  }

  lemma UncertainAnswers(s: System, key: StepKey, v: WorkerId, isWrite: bool)
    requires RowsOk(s.rows) && InDoubt(s, key) && v in s.workers
    ensures BeginOutcome(s, v, key, isWrite).reply.Refused?
    ensures forall result :: Answer(s, v, Resolve(key, result)) == Done
    ensures Answer(s, v, Retry(key)) == Done
  {
    BegunExactly(s, v, key, isWrite);
  }

  lemma UncertainKept(s: System, e: Event, key: StepKey)
    requires RowsOk(s.rows) && Possible(s, e) && !Decides(e, key)
    requires key in s.rows.steps && s.rows.steps[key].isWrite && s.rows.steps[key].status == StepUncertain
    ensures key in Next(s, e).rows.steps && Next(s, e).rows.steps[key] == s.rows.steps[key]
  {
    StepRowsMove(s, e, key);
  }

  /** A write whose outcome is uncertain is not executed again, whoever resumes the task, until the user resolves or
      retries it. */
  lemma {:induction false} UncertainWritesWait(s: System, es: seq<Event>, key: StepKey, v: WorkerId, isWrite: bool)
    requires Invariant(s) && Legal(s, es) && key in s.rows.steps && s.rows.steps[key].isWrite && s.rows.steps[key].status == StepUncertain
    requires forall i :: 0 <= i < |es| ==> !Decides(es[i], key)
    ensures var s' := After(s, es);
            && key in s'.rows.steps && s'.rows.steps[key] == s.rows.steps[key]
            && (v in s'.workers ==> BeginOutcome(s', v, key, isWrite).reply.Refused?)
            && (v in s'.workers ==> Answer(s', v, Retry(key)) == Done && forall result :: Answer(s', v, Resolve(key, result)) == Done)
    decreases |es|
  {
    if es == [] {
      if v in s.workers {
        UncertainAnswers(s, key, v, isWrite);
      }
    } else {
      UncertainKept(s, es[0], key);
      InvariantKept(s, es[0]);
      UncertainWritesWait(Next(s, es[0]), es[1..], key, v, isWrite);
    }
  }
}
