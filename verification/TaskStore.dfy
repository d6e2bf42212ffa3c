/** The checkpoint store of one resumable task runner: a shared database of task and step rows, and
    one `TaskStore` object per worker process with its cached claims and generations.  Every public
    method is one SQLite transaction, so each is specified by one function on (rows, worker memory). */
module TaskStoreModel {
  import opened Prelude

  type TaskId = nat    // uuid4 identities are drawn from one counter that never repeats
  type Token = nat

  datatype StepKey = StepKey(task: TaskId, name: string)

  datatype TaskStatus = TaskRunning | TaskWaiting | TaskFailed | TaskCancelled | TaskCompleted

  datatype StepStatus = StepRunning | StepCompleted | StepFailed | StepUncertain

  datatype Task = Task(workflow: string, inputs: Json, status: TaskStatus, result: Option<Json>,
                       error: Option<string>, note: string, generation: nat)

  datatype Step = Step(position: nat, isWrite: bool, status: StepStatus, result: Option<Json>,
                       error: Option<string>, attempt: nat, claim: Option<Token>)

  /** The two tables. */
  datatype Rows = Rows(tasks: map<TaskId, Task>, steps: map<StepKey, Step>)

  /** What a worker remembers between calls. */
  datatype Memory = Memory(claims: map<StepKey, Token>, generations: map<TaskId, nat>)

  datatype StoreError =
    | NameRequired | UnknownTask | Cancelled | NotRunning | Superseded | WriteChanged | Uncertain
    | NotOwner | Unfinished | AlreadyCompleted | NotInterrupted

  datatype Reply = Done | Created(task: TaskId) | Started(step: Step) | Reused(step: Step) | Refused(error: StoreError)

  datatype Outcome = Outcome(rows: Rows, memory: Memory, reply: Reply)

  const EMPTY_MEMORY := Memory(map[], map[])

  function StepsOf(rows: Rows, task: TaskId): set<StepKey> {
    set key | key in rows.steps && key.task == task
  }

  function PutTask(rows: Rows, id: TaskId, task: Task): Rows {
    rows.(tasks := rows.tasks[id := task])
  }

  function PutStep(rows: Rows, key: StepKey, step: Step): Rows {
    rows.(steps := rows.steps[key := step])
  }

  function Forget(memory: Memory, key: StepKey): Memory {
    memory.(claims := memory.claims - {key})
  }

  function Adopt(memory: Memory, task: TaskId, generation: nat): Memory {
    memory.(generations := memory.generations[task := generation])
  }

  predicate Interrupted(rows: Rows, key: StepKey) {
    key in rows.steps && rows.steps[key].isWrite && rows.steps[key].status in {StepRunning, StepUncertain}
  }

  /** `_active`: why this worker may not act on the task, if there is a reason. */
  function Objection(rows: Rows, memory: Memory, task: TaskId): Option<StoreError> {
    if task !in rows.tasks then Some(UnknownTask)
    else if rows.tasks[task].status == TaskCancelled then Some(Cancelled)
    else if rows.tasks[task].status != TaskRunning then Some(NotRunning)
    else if task in memory.generations && memory.generations[task] != rows.tasks[task].generation then Some(Superseded)
    else None
  }

  function DoCreate(rows: Rows, memory: Memory, id: TaskId, workflow: string, inputs: Json): Outcome {
    if Blank(workflow) then Outcome(rows, memory, Refused(NameRequired))
    else Outcome(PutTask(rows, id, Task(workflow, inputs, TaskRunning, None, None, "", 0)), Adopt(memory, id, 0), Created(id))
  }

  function Restarted(step: Step, token: Token): Step {
    step.(status := StepRunning, result := None, error := None, attempt := step.attempt + 1, claim := Some(token))
  }

  function DoBegin(rows: Rows, memory: Memory, token: Token, task: TaskId, name: string, isWrite: bool): Outcome {
    var key := StepKey(task, name);
    if Blank(name) then Outcome(rows, memory, Refused(NameRequired))
    else if Objection(rows, memory, task).Some? then Outcome(rows, memory, Refused(Objection(rows, memory, task).value))
    else
      // The cached generation is not rolled back when the transaction is.
      var known := Adopt(memory, task, rows.tasks[task].generation);
      if key in rows.steps && rows.steps[key].isWrite != isWrite then Outcome(rows, known, Refused(WriteChanged))
      else if key in rows.steps && rows.steps[key].status == StepCompleted then Outcome(rows, known, Reused(rows.steps[key]))
      else if Interrupted(rows, key) then Outcome(rows, known, Refused(Uncertain))
      else
        var step := if key in rows.steps then Restarted(rows.steps[key], token)
                    else Step(|StepsOf(rows, task)|, isWrite, StepRunning, None, None, 1, Some(token));
        Outcome(PutStep(rows, key, step), known.(claims := known.claims[key := token]), Started(step))
  }

  predicate Owns(rows: Rows, memory: Memory, key: StepKey) {
    && key in rows.steps && key in memory.claims
    && rows.steps[key].status == StepRunning && rows.steps[key].claim == Some(memory.claims[key])
  }

  function DoSave(rows: Rows, memory: Memory, key: StepKey, status: StepStatus, result: Json, error: Option<string>): Outcome {
    if Objection(rows, memory, key.task).Some? then Outcome(rows, memory, Refused(Objection(rows, memory, key.task).value))
    else if !Owns(rows, memory, key) then Outcome(rows, memory, Refused(NotOwner))
    else
      var saved := rows.steps[key].(status := status, result := Some(result), error := error, claim := None);
      Outcome(PutStep(rows, key, saved), Forget(memory, key), Done)
  }

  function DoComplete(rows: Rows, memory: Memory, key: StepKey, result: Json): Outcome {
    DoSave(rows, memory, key, StepCompleted, result, None)
  }

  function DoFailStep(rows: Rows, memory: Memory, key: StepKey, error: string, uncertain: bool): Outcome {
    DoSave(rows, memory, key, if uncertain then StepUncertain else StepFailed, Null, Some(error))
  }

  predicate AllCompleted(rows: Rows, task: TaskId) {
    forall key :: key in rows.steps && key.task == task ==> rows.steps[key].status == StepCompleted
  }

  function DoFinish(rows: Rows, memory: Memory, task: TaskId, result: Json): Outcome {
    if Objection(rows, memory, task).Some? then Outcome(rows, memory, Refused(Objection(rows, memory, task).value))
    else if !AllCompleted(rows, task) then Outcome(rows, memory, Refused(Unfinished))
    else Outcome(PutTask(rows, task, rows.tasks[task].(status := TaskCompleted, result := Some(result), error := None)), memory, Done)
  }

  function DoWait(rows: Rows, memory: Memory, task: TaskId, result: Json): Outcome {
    if Objection(rows, memory, task).Some? then Outcome(rows, memory, Refused(Objection(rows, memory, task).value))
    else Outcome(PutTask(rows, task, rows.tasks[task].(status := TaskWaiting, result := Some(result), error := None)), memory, Done)
  }

  function DoFail(rows: Rows, memory: Memory, task: TaskId, error: string, result: Json): Outcome {
    if Objection(rows, memory, task).Some? then Outcome(rows, memory, Refused(Objection(rows, memory, task).value))
    else
      var kept := if result == Null then rows.tasks[task].result else Some(result);
      Outcome(PutTask(rows, task, rows.tasks[task].(status := TaskFailed, result := kept, error := Some(error))), memory, Done)
  }

  /** What cancelling does to one step row of the cancelled task. */
  function Halted(step: Step): Step {
    if step.status != StepRunning then step
    else step.(status := if step.isWrite then StepUncertain else StepFailed, error := Some("Task cancelled during step"), claim := None)
  }

  function HaltSteps(steps: map<StepKey, Step>, task: TaskId): map<StepKey, Step> {
    map key | key in steps :: if key.task == task then Halted(steps[key]) else steps[key]
  }

  function DoCancel(rows: Rows, memory: Memory, task: TaskId): Outcome {
    if task !in rows.tasks then Outcome(rows, memory, Refused(UnknownTask))
    else if rows.tasks[task].status == TaskCompleted then Outcome(rows, memory, Refused(AlreadyCompleted))
    else
      var row := rows.tasks[task];
      Outcome(Rows(rows.tasks[task := row.(status := TaskCancelled, generation := row.generation + 1)], HaltSteps(rows.steps, task)),
              memory, Done)
  }

  function DoResume(rows: Rows, memory: Memory, task: TaskId): Outcome {
    if task !in rows.tasks then Outcome(rows, memory, Refused(UnknownTask))
    else if rows.tasks[task].status == TaskCompleted then Outcome(rows, memory, Refused(AlreadyCompleted))
    else
      var row := rows.tasks[task];
      Outcome(PutTask(rows, task, row.(status := TaskRunning, error := None, generation := row.generation + 1)),
              Adopt(memory, task, row.generation + 1), Done)
  }

  function DoResolve(rows: Rows, memory: Memory, key: StepKey, result: Json): Outcome {
    if key.task !in rows.tasks then Outcome(rows, memory, Refused(UnknownTask))
    else if !Interrupted(rows, key) then Outcome(rows, memory, Refused(NotInterrupted))
    else Outcome(PutStep(rows, key, rows.steps[key].(status := StepCompleted, result := Some(result), error := None, claim := None)), memory, Done)
  }

  function DoRetry(rows: Rows, memory: Memory, key: StepKey): Outcome {
    if key.task !in rows.tasks then Outcome(rows, memory, Refused(UnknownTask))
    else if !Interrupted(rows, key) then Outcome(rows, memory, Refused(NotInterrupted))
    else
      var row := rows.tasks[key.task];
      var step := rows.steps[key].(status := StepFailed, result := None, error := None, claim := None);
      Outcome(PutStep(PutTask(rows, key.task, row.(generation := row.generation + 1)), key, step),
              Adopt(Forget(memory, key), key.task, row.generation + 1), Done)
  }

  function DoNote(rows: Rows, memory: Memory, task: TaskId, text: string): Outcome {
    if task !in rows.tasks then Outcome(rows, memory, Refused(UnknownTask))
    else Outcome(PutTask(rows, task, rows.tasks[task].(note := text)), memory, Done)
  }

  /** The SQLite file every worker opens. */
  class Database {
    var tasks: map<TaskId, Task>
    var steps: map<StepKey, Step>
    var nextId: nat

    function Contents(): Rows
      reads this
    {
      Rows(tasks, steps)
    }

    constructor ()
      ensures Contents() == Rows(map[], map[]) && nextId == 0
    {
      tasks, steps, nextId := map[], map[], 0;
    }

    method FreshId() returns (id: nat)
      modifies this`nextId
      ensures id == old(nextId) && nextId == id + 1
    {
      id := nextId;
      nextId := nextId + 1;
    }
  }

  /** One worker's handle on the database. */
  class TaskStore {
    const db: Database
    var claims: map<StepKey, Token>
    var generations: map<TaskId, nat>

    function Remembered(): Memory
      reads this
    {
      Memory(claims, generations)
    }

    /** The whole effect of a call: new rows, new memory and reply. */
    function Now(reply: Reply): Outcome
      reads this, db
    {
      Outcome(db.Contents(), Remembered(), reply)
    }

    constructor (db: Database)
      ensures this.db == db && Remembered() == EMPTY_MEMORY
    {
      this.db := db;
      claims, generations := map[], map[];
    }

    method Create(workflow: string, inputs: Json) returns (reply: Reply)
      modifies this, db
      ensures Now(reply) == old(DoCreate(db.Contents(), Remembered(), db.nextId, workflow, inputs))
      ensures db.nextId == old(db.nextId) + if reply.Created? then 1 else 0
    {
      if Blank(workflow) { return Refused(NameRequired); }
      var id := db.FreshId();
      db.tasks := db.tasks[id := Task(workflow, inputs, TaskRunning, None, None, "", 0)];
      generations := generations[id := 0];
      return Created(id);
    }

    method Active(task: TaskId) returns (objection: Option<StoreError>)
      ensures objection == Objection(db.Contents(), Remembered(), task)
    {
      if task !in db.tasks { return Some(UnknownTask); }
      var row := db.tasks[task];
      if row.status == TaskCancelled { return Some(Cancelled); }
      if row.status != TaskRunning { return Some(NotRunning); }
      if task in generations && generations[task] != row.generation { return Some(Superseded); }
      return None;
    }

    method BeginStep(task: TaskId, name: string, isWrite: bool) returns (reply: Reply)
      modifies this, db
      ensures Now(reply) == old(DoBegin(db.Contents(), Remembered(), db.nextId, task, name, isWrite))
      ensures db.nextId == old(db.nextId) + if reply.Started? then 1 else 0
    {
      if Blank(name) { return Refused(NameRequired); }
      var objection := Active(task);
      if objection.Some? { return Refused(objection.value); }
      generations := generations[task := db.tasks[task].generation];
      var key := StepKey(task, name);
      if key in db.steps {
        var row := db.steps[key];
        if row.isWrite != isWrite { return Refused(WriteChanged); }
        if row.status == StepCompleted { return Reused(row); }
        if row.isWrite && row.status in {StepRunning, StepUncertain} { return Refused(Uncertain); }
      }
      var claim := db.FreshId();
      if key !in db.steps {
        var count := |StepsOf(db.Contents(), task)|;
        db.steps := db.steps[key := Step(count, isWrite, StepRunning, None, None, 1, Some(claim))];
      } else {
        db.steps := db.steps[key := Restarted(db.steps[key], claim)];
      }
      claims := claims[key := claim];
      return Started(db.steps[key]);
    }

    method SaveStep(key: StepKey, status: StepStatus, result: Json, error: Option<string>) returns (reply: Reply)
      modifies this, db
      ensures Now(reply) == old(DoSave(db.Contents(), Remembered(), key, status, result, error))
      ensures db.nextId == old(db.nextId)
    {
      var objection := Active(key.task);
      if objection.Some? { return Refused(objection.value); }
      if key !in claims || key !in db.steps { return Refused(NotOwner); }
      var row := db.steps[key];
      if row.claim != Some(claims[key]) || row.status != StepRunning { return Refused(NotOwner); }
      db.steps := db.steps[key := row.(status := status, result := Some(result), error := error, claim := None)];
      claims := claims - {key};
      return Done;
    }

    method Finish(task: TaskId, result: Json) returns (reply: Reply)
      modifies this, db
      ensures Now(reply) == old(DoFinish(db.Contents(), Remembered(), task, result))
      ensures db.nextId == old(db.nextId)
    {
      var objection := Active(task);
      if objection.Some? { return Refused(objection.value); }
      if !AllCompleted(db.Contents(), task) { return Refused(Unfinished); }
      db.tasks := db.tasks[task := db.tasks[task].(status := TaskCompleted, result := Some(result), error := None)];
      return Done;
    }

    method Wait(task: TaskId, result: Json) returns (reply: Reply)
      modifies this, db
      ensures Now(reply) == old(DoWait(db.Contents(), Remembered(), task, result))
      ensures db.nextId == old(db.nextId)
    {
      var objection := Active(task);
      if objection.Some? { return Refused(objection.value); }
      db.tasks := db.tasks[task := db.tasks[task].(status := TaskWaiting, result := Some(result), error := None)];
      return Done;
    }

    method Fail(task: TaskId, error: string, result: Json) returns (reply: Reply)
      modifies this, db
      ensures Now(reply) == old(DoFail(db.Contents(), Remembered(), task, error, result))
      ensures db.nextId == old(db.nextId)
    {
      var objection := Active(task);
      if objection.Some? { return Refused(objection.value); }
      var row := db.tasks[task];
      var kept := row.result;
      if result != Null { kept := Some(result); }
      db.tasks := db.tasks[task := row.(status := TaskFailed, result := kept, error := Some(error))];
      return Done;
    }

    method Cancel(task: TaskId) returns (reply: Reply)
      modifies this, db
      ensures Now(reply) == old(DoCancel(db.Contents(), Remembered(), task))
      ensures db.nextId == old(db.nextId)
    {
      if task !in db.tasks { return Refused(UnknownTask); }
      var row := db.tasks[task];
      if row.status == TaskCompleted { return Refused(AlreadyCompleted); }
      db.tasks := db.tasks[task := row.(status := TaskCancelled, generation := row.generation + 1)];
      db.steps := HaltSteps(db.steps, task);
      return Done;
    }

    method Resume(task: TaskId) returns (reply: Reply)
      modifies this, db
      ensures Now(reply) == old(DoResume(db.Contents(), Remembered(), task))
      ensures db.nextId == old(db.nextId)
    {
      if task !in db.tasks { return Refused(UnknownTask); }
      var row := db.tasks[task];
      if row.status == TaskCompleted { return Refused(AlreadyCompleted); }
      var generation := row.generation + 1;
      db.tasks := db.tasks[task := row.(status := TaskRunning, error := None, generation := generation)];
      generations := generations[task := generation];
      return Done;
    }

    method ResolveStep(key: StepKey, result: Json) returns (reply: Reply)
      modifies this, db
      ensures Now(reply) == old(DoResolve(db.Contents(), Remembered(), key, result))
      ensures db.nextId == old(db.nextId)
    {
      if key.task !in db.tasks { return Refused(UnknownTask); }
      if !Interrupted(db.Contents(), key) { return Refused(NotInterrupted); }
      db.steps := db.steps[key := db.steps[key].(status := StepCompleted, result := Some(result), error := None, claim := None)];
      return Done;
    }

    method RetryStep(key: StepKey) returns (reply: Reply)
      modifies this, db
      ensures Now(reply) == old(DoRetry(db.Contents(), Remembered(), key))
      ensures db.nextId == old(db.nextId)
    {
      if key.task !in db.tasks { return Refused(UnknownTask); }
      if !Interrupted(db.Contents(), key) { return Refused(NotInterrupted); }
      db.steps := db.steps[key := db.steps[key].(status := StepFailed, result := None, error := None, claim := None)];
      var generation := db.tasks[key.task].generation + 1;
      db.tasks := db.tasks[key.task := db.tasks[key.task].(generation := generation)];
      claims := claims - {key};
      generations := generations[key.task := generation];
      return Done;
    }

    method Note(task: TaskId, text: string) returns (reply: Reply)
      modifies this, db
      ensures Now(reply) == old(DoNote(db.Contents(), Remembered(), task, text))
      ensures db.nextId == old(db.nextId)
    {
      if task !in db.tasks { return Refused(UnknownTask); }
      db.tasks := db.tasks[task := db.tasks[task].(note := text)];
      return Done;
    }
  }
}
