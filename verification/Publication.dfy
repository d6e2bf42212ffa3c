/** Publishing a prepared development task: check runs, the gate, and the three checkpointed writes
    (push, pull request, Jira comment), over any sequence of calls one user makes.  What the worktree
    and the services do is an input of each call; `log` records every request the tool sends. */
module Publication {
  import opened Prelude
  import opened TaskStoreModel

  const PUSH := "git.push"
  const PR := "bitbucket.create_pr"
  const COMMENT := "jira.comment"

  const WRITES := {PUSH, PR, COMMENT}

  /** What the task was created with: its branch, whether it has check commands and a repository. */
  datatype Setup = Setup(task: TaskId, branch: string, hasChecks: bool, hasRepository: bool)

  datatype Params = Params(title: string, description: string, target: string, remote: string)

  /** One inspection of the worktree. */
  datatype Worktree = Worktree(branch: Option<string>, head: string, dirty: bool)

  /** The contents of checks.json that publishing reads. */
  datatype Evidence = Evidence(head: string, clean: bool, unchangedHead: bool, passed: bool)

  datatype Entry =
    | Checked(before: Worktree, exits: seq<int>, after: Worktree)
    | Pushed(branch: string, commit: string, params: Params)
    | PrRequested(push: Json, params: Params)
    | CommentSent(pr: Json, push: Json, params: Params)
    | StepDone(name: string, result: Json, byTool: bool)
    | Finished

  /** How a step's action goes: it may fail before sending anything, return, raise with or without
      knowing the outcome, or die with the process. */
  datatype Action = Blocked | Returns(value: Json) | Raises(uncertain: bool) | Dies(sent: bool)

  /** One source step of a review; the errors of optional ones (pull requests, builds, pages) are
      collected, any other error ends the review. */
  datatype Source = Source(name: string, optional: bool, action: Action)

  /** What one run meets: source steps, the handoff or refreshed review they give, the gate's inspection, the
      writes.  A run that repeated the review remembers so in `refreshed`. */
  datatype World = World(sources: seq<Source>, handoff: Json, review: Json, refreshed: bool, gate: Worktree, push: Action, pr: Action, comment: Action)

  datatype Desk = Desk(rows: Rows, memory: Memory, nextId: nat, evidence: Option<Evidence>, parameters: Option<Params>, log: seq<Entry>)

  datatype End = Value(value: Json) | Raised | Died

  datatype Ending = Published | Paused | Rejected | Killed | Skipped

  function Key(c: Setup, name: string): StepKey {
    StepKey(c.task, name)
  }

  predicate IsDone(c: Setup, rows: Rows, name: string) {
    Key(c, name) in rows.steps && rows.steps[Key(c, name)].status == StepCompleted
  }

  predicate WriteStarted(c: Setup, rows: Rows) {
    exists key :: key in rows.steps && key.task == c.task && rows.steps[key].isWrite
  }

  predicate ReadsUnfinished(c: Setup, rows: Rows) {
    exists key :: key in rows.steps && key.task == c.task && !rows.steps[key].isWrite && rows.steps[key].status != StepCompleted
  }

  predicate HasField(value: Json, name: string) {
    value.Object? && name in value.fields
  }

  function PushResult(branch: string, commit: string, remote: string): Json {
    Object(map["branch" := Text(branch), "commit" := Text(commit), "remote" := Text(remote)])
  }

  predicate AllZero(exits: seq<int>) {
    forall i :: 0 <= i < |exits| ==> exits[i] == 0
  }

  function EvidenceOf(before: Worktree, exits: seq<int>, after: Worktree): Evidence {
    Evidence(before.head, !before.dirty && !after.dirty, before.head == after.head, AllZero(exits))
  }

  /** An action that cannot build its request fails before sending it. */
  function Given(available: bool, action: Action): Action {
    if available then action else if action.Dies? then Dies(false) else Blocked
  }

  /* ---------- `_step` ---------- */

  function SaveOf(d: Desk, key: StepKey, action: Action): Outcome
    requires !action.Dies?
  {
    if action.Returns? then DoComplete(d.rows, d.memory, key, action.value)
    else DoFailStep(d.rows, d.memory, key, "", action.Raises? && action.uncertain)
  }

  /** The request went out (or not), and the outcome is saved. */
  function ActAndSave(d: Desk, key: StepKey, request: Option<Entry>, action: Action): (Desk, End)
  {
    var sent := action.Returns? || action.Raises? || (action.Dies? && action.sent);
    var logged := if sent && request.Some? then d.log + [request.value] else d.log;
    if action.Dies? then (d.(memory := EMPTY_MEMORY, log := logged), Died)
    else
      var o := SaveOf(d, key, action);
      if action.Returns? && o.reply == Done then
        var noted := if request.Some? then logged + [StepDone(key.name, action.value, true)] else logged;
        (d.(rows := o.rows, memory := o.memory, log := noted), Value(action.value))
      else (d.(rows := o.rows, memory := o.memory, log := logged), Raised)
  }

  function RunStep(d: Desk, key: StepKey, isWrite: bool, request: Option<Entry>, action: Action): (Desk, End) {
    var o := DoBegin(d.rows, d.memory, d.nextId, key.task, key.name, isWrite);
    match o.reply
    case Reused(step) => (d.(memory := o.memory), Value(if step.result.Some? then step.result.value else Null))
    case Started(step) => ActAndSave(d.(rows := o.rows, memory := o.memory, nextId := d.nextId + 1), key, request, action)
    case _ => (d.(memory := o.memory), Raised)
  }

  /** `_review` from here on, when `errors` says whether errors were collected so far. */
  function RunSources(c: Setup, d: Desk, sources: seq<Source>, errors: bool): (Desk, End)
    decreases |sources|
  {
    if sources == [] then (d, Value(Bool(errors)))
    else
      var (d1, end) := RunStep(d, Key(c, sources[0].name), false, None, sources[0].action);
      if end.Died? || (end.Raised? && !sources[0].optional) then (d1, end)
      else RunSources(c, d1, sources[1..], errors || end.Raised?)
  }

  /* ---------- `_run_publish` ---------- */

  function FailTask(c: Setup, d: Desk): (Desk, Ending) {
    var o := DoFail(d.rows, d.memory, c.task, "", Null);
    (d.(rows := o.rows, memory := o.memory), Paused)
  }

  function Stopped(c: Setup, d: Desk, end: End): (Desk, Ending) {
    if end.Died? then (d, Killed) else FailTask(c, d)
  }

  predicate GateOpen(c: Setup, evidence: Option<Evidence>, worktree: Worktree) {
    && evidence.Some? && worktree.branch == Some(c.branch) && !worktree.dirty
    && evidence.value.passed && evidence.value.clean && evidence.value.unchangedHead
    && evidence.value.head == worktree.head
  }

  /** The task's earlier result, with the refreshed review if there is one, and what the publication adds. */
  function Summary(c: Setup, rows: Rows, w: World, pr: Json, comment: Json, commit: Json): Json {
    var was := if c.task in rows.tasks then rows.tasks[c.task].result else None;
    var fields := if was.Some? && was.value.Object? then was.value.fields else map[];
    var reviewed := if w.refreshed then fields["review" := w.review] else fields;
    Object(reviewed["pull_request" := pr]["jira_comment" := comment]["published_commit" := commit]["next_action" := Text("Review the pull request.")])
  }

  function FinishTask(c: Setup, d: Desk, w: World, pr: Json, comment: Json, push: Json): (Desk, Ending) {
    if !HasField(push, "commit") then FailTask(c, d)
    else
      var o := DoFinish(d.rows, d.memory, c.task, Summary(c, d.rows, w, pr, comment, push.fields["commit"]));
      if o.reply == Done then (d.(rows := o.rows, memory := o.memory, log := d.log + [Finished]), Published) else FailTask(c, d)
  }

  function CommentStage(c: Setup, d: Desk, params: Params, w: World, push: Json, pr: Json): (Desk, Ending) {
    var action := Given(HasField(pr, "url") && HasField(push, "commit"), w.comment);
    var (d1, end) := RunStep(d, Key(c, COMMENT), true, Some(CommentSent(pr, push, params)), action);
    if end.Value? then FinishTask(c, d1, w, pr, end.value, push) else Stopped(c, d1, end)
  }

  function PrStage(c: Setup, d: Desk, params: Params, w: World, push: Json): (Desk, Ending) {
    var (d1, end) := RunStep(d, Key(c, PR), true, Some(PrRequested(push, params)), Given(HasField(push, "branch"), w.pr));
    if end.Value? then CommentStage(c, d1, params, w, push, end.value) else Stopped(c, d1, end)
  }

  /** `publish_branch` inspects the worktree again; it is still what the gate saw. */
  function PushAction(w: World, params: Params): Action {
    if w.gate.branch.None? || w.gate.dirty then Given(false, w.push)
    else if w.push.Returns? then Returns(PushResult(w.gate.branch.value, w.gate.head, params.remote))
    else w.push
  }

  function PushStage(c: Setup, d: Desk, params: Params, w: World): (Desk, Ending) {
    var branch := if w.gate.branch.Some? then w.gate.branch.value else "";
    var (d1, end) := RunStep(d, Key(c, PUSH), true, Some(Pushed(branch, w.gate.head, params)), PushAction(w, params));
    if end.Value? then PrStage(c, d1, params, w, end.value) else Stopped(c, d1, end)
  }

  /** After the refresh; `before` are the rows as they were when the call started. */
  function GateStage(c: Setup, before: Rows, d: Desk, params: Params, w: World): (Desk, Ending) {
    if !IsDone(c, before, PUSH) && !GateOpen(c, d.evidence, w.gate) then FailTask(c, d) else PushStage(c, d, params, w)
  }

  function RunPublish(c: Setup, d: Desk, params: Params, w: World): (Desk, Ending) {
    var o := DoResume(d.rows, d.memory, c.task);
    var d1 := d.(rows := o.rows, memory := o.memory);
    if o.reply != Done then (d1, Rejected)
    else if ReadsUnfinished(c, d.rows) then
      var (d2, end) := RunSources(c, d1, w.sources, false);
      if end == Value(Bool(false)) then GateStage(c, d.rows, d2, params, w.(refreshed := true)) else Stopped(c, d2, end)
    else GateStage(c, d.rows, d1, params, w.(refreshed := false))
  }

  /* ---------- the calls a user makes ---------- */

  datatype Call =
    | Check(before: Worktree, exits: seq<int>, after: Worktree)
    | Publish(params: Params, world: World)
    | ResumeTask(world: World)
    | CancelTask
    | ResolveStep(name: string, result: Json)
    | RetryStep(name: string)
    | Restart

  function RunChecks(c: Setup, d: Desk, before: Worktree, exits: seq<int>, after: Worktree): (Desk, Ending) {
    if c.task !in d.rows.tasks || d.rows.tasks[c.task].status == TaskCancelled || !c.hasChecks || before.branch != Some(c.branch)
    then (d, Rejected)
    else (d.(evidence := Some(EvidenceOf(before, exits, after)), log := d.log + [Checked(before, exits, after)]), Published)
  }

  function DoPublish(c: Setup, d: Desk, params: Params, w: World): (Desk, Ending) {
    if c.task !in d.rows.tasks || d.rows.tasks[c.task].status == TaskCancelled then (d, Rejected)
    else if d.rows.tasks[c.task].status == TaskCompleted then (d, Skipped)
    else if !c.hasRepository then (d, Rejected)
    else if d.parameters.Some? && d.parameters.value != params && WriteStarted(c, d.rows) then (d, Rejected)
    else RunPublish(c, d.(parameters := Some(params)), params, w)
  }

  /** `_run_develop`: collect the sources again and wait for the host. */
  function RunDevelop(c: Setup, d: Desk, w: World): (Desk, Ending) {
    var (d1, end) := RunSources(c, d, w.sources, false);
    if !end.Value? then Stopped(c, d1, end)
    else
      var o := DoWait(d1.rows, d1.memory, c.task, w.handoff);
      if o.reply == Done then (d1.(rows := o.rows, memory := o.memory), Published) else FailTask(c, d1)
  }

  function DoResumeTask(c: Setup, d: Desk, w: World): (Desk, Ending) {
    if c.task !in d.rows.tasks then (d, Rejected)
    else if d.rows.tasks[c.task].status == TaskCompleted then (d, Skipped)
    else
      var o := DoResume(d.rows, d.memory, c.task);
      var d1 := d.(rows := o.rows, memory := o.memory);
      if d.parameters.Some? then RunPublish(c, d1, d.parameters.value, w) else RunDevelop(c, d1, w)
  }

  function Perform(c: Setup, d: Desk, call: Call): Desk {
    match call
    case Check(before, exits, after) => RunChecks(c, d, before, exits, after).0
    case Publish(params, world) => DoPublish(c, d, params, world).0
    case ResumeTask(world) => DoResumeTask(c, d, world).0
    case CancelTask => var o := DoCancel(d.rows, d.memory, c.task); d.(rows := o.rows, memory := o.memory)
    case ResolveStep(name, result) =>
      var o := DoResolve(d.rows, d.memory, Key(c, name), result);
      d.(rows := o.rows, memory := o.memory, log := if o.reply == Done then d.log + [StepDone(name, result, false)] else d.log)
    case RetryStep(name) => var o := DoRetry(d.rows, d.memory, Key(c, name)); d.(rows := o.rows, memory := o.memory)
    case Restart => d.(memory := EMPTY_MEMORY)
  }

  /* ---------- what holds after every call ---------- */

  /** A check run that passed, on the task's branch, with `commit` checked out clean before and after. */
  predicate Passing(c: Setup, e: Entry, commit: string) {
    && e.Checked? && e.before.branch == Some(c.branch) && e.before.head == commit && e.after.head == commit
    && !e.before.dirty && !e.after.dirty && AllZero(e.exits)
  }

  /** The last check run in the log. */
  function LatestCheck(log: seq<Entry>): (r: Option<Entry>)
    ensures r.Some? ==> r.value.Checked?
    decreases |log|
  {
    if log == [] then None
    else if log[|log| - 1].Checked? then Some(log[|log| - 1])
    else LatestCheck(log[..|log| - 1])
  }

  ghost predicate PassedLast(c: Setup, log: seq<Entry>, commit: string) {
    LatestCheck(log).Some? && Passing(c, LatestCheck(log).value, commit)
  }

  ghost predicate DoneBefore(log: seq<Entry>, name: string, result: Json) {
    StepDone(name, result, true) in log || StepDone(name, result, false) in log
  }

  /** What must already be in the log when `e` is added. */
  ghost predicate Justified(c: Setup, log: seq<Entry>, e: Entry) {
    match e
    case Pushed(branch, commit, _) => branch == c.branch && PassedLast(c, log, commit)
    case PrRequested(push, _) => DoneBefore(log, PUSH, push)
    case CommentSent(pr, push, _) => DoneBefore(log, PR, pr) && DoneBefore(log, PUSH, push)
    case StepDone(name, result, byTool) =>
      name == PUSH && byTool ==>
        exists commit, params :: Pushed(c.branch, commit, params) in log && result == PushResult(c.branch, commit, params.remote)
    case Finished => exists result :: DoneBefore(log, COMMENT, result)
    case Checked(_, _, _) => true
  }

  ghost predicate LogOk(c: Setup, log: seq<Entry>)
    decreases |log|
  {
    log == [] || (LogOk(c, log[..|log| - 1]) && Justified(c, log[..|log| - 1], log[|log| - 1]))
  }

  predicate IsRequest(e: Entry) {
    e.Pushed? || e.PrRequested? || e.CommentSent?
  }

  function RequestStep(e: Entry): string
    requires IsRequest(e)
  {
    match e
    case Pushed(_, _, _) => PUSH
    case PrRequested(_, _) => PR
    case CommentSent(_, _, _) => COMMENT
  }

  /** Exactly the three writes are write steps, completed steps have results, and they follow each other. */
  predicate RowsOrdered(c: Setup, rows: Rows) {
    && c.task in rows.tasks
    && (forall key :: key in rows.steps && key.task == c.task ==> (rows.steps[key].isWrite <==> key.name in WRITES))
    && (forall key :: key in rows.steps && key.task == c.task && rows.steps[key].status == StepCompleted ==> rows.steps[key].result.Some?)
    && (Key(c, PR) in rows.steps ==> IsDone(c, rows, PUSH))
    && (Key(c, COMMENT) in rows.steps ==> IsDone(c, rows, PR))
    && (rows.tasks[c.task].status == TaskCompleted ==> IsDone(c, rows, COMMENT))
  }

  /** Completed writes are in the log with their results. */
  ghost predicate ResultsLogged(c: Setup, d: Desk) {
    forall name :: name in WRITES && IsDone(c, d.rows, name) && d.rows.steps[Key(c, name)].result.Some? ==>
      DoneBefore(d.log, name, d.rows.steps[Key(c, name)].result.value)
  }

  /** Every request used the parameters now on file, and left its step row. */
  predicate OneParameterSet(c: Setup, d: Desk) {
    && (WriteStarted(c, d.rows) ==> d.parameters.Some?)
    && (forall e :: e in d.log && IsRequest(e) ==> d.parameters == Some(e.params) && Key(c, RequestStep(e)) in d.rows.steps)
  }

  /** The evidence on file is that of the last check run, which was on the task's branch. */
  ghost predicate EvidenceLogged(c: Setup, d: Desk) {
    match LatestCheck(d.log)
    case None => d.evidence == None
    case Some(e) => e.before.branch == Some(c.branch) && d.evidence == Some(EvidenceOf(e.before, e.exits, e.after))
  }

  ghost predicate Inv(c: Setup, d: Desk) {
    RowsOrdered(c, d.rows) && LogOk(c, d.log) && ResultsLogged(c, d) && OneParameterSet(c, d) && EvidenceLogged(c, d)
  }

  /* ---------- the log only grows ---------- */

  lemma LogExtends(c: Setup, log: seq<Entry>, e: Entry)
    requires LogOk(c, log) && Justified(c, log, e)
    ensures LogOk(c, log + [e]) && LatestCheck(log + [e]) == if e.Checked? then Some(e) else LatestCheck(log)
  {
    assert (log + [e])[..|log|] == log;
  }

  lemma {:induction false} LogEntries(c: Setup, log: seq<Entry>, i: nat)
    requires LogOk(c, log) && i < |log|
    ensures Justified(c, log[..i], log[i])
    decreases |log|
  {
    if i < |log| - 1 {
      LogEntries(c, log[..|log| - 1], i);
      assert log[..|log| - 1][..i] == log[..i];
    }
  }

  /* ---------- one `_step` ---------- */

  predicate Sends(action: Action) {
    action != Blocked && action != Dies(false)
  }

  /** Only the row of `key` may change; a completed row never does. */
  ghost predicate OneRow(rows: Rows, rows': Rows, key: StepKey, isWrite: bool) {
    && rows'.tasks == rows.tasks
    && (forall k :: k != key ==> (k in rows'.steps <==> k in rows.steps) && (k in rows.steps ==> rows'.steps[k] == rows.steps[k]))
    && (key in rows.steps ==> key in rows'.steps && rows'.steps[key].isWrite == rows.steps[key].isWrite)
    && (key in rows.steps && rows.steps[key].status == StepCompleted ==> rows'.steps[key] == rows.steps[key])
    && (key in rows'.steps && key !in rows.steps ==> rows'.steps[key].isWrite == isWrite)
  }

  /** What running one step can do to the desk. */
  ghost predicate StepFacts(c: Setup, d: Desk, d': Desk, name: string, isWrite: bool, request: Option<Entry>, action: Action, end: End) {
    var key := Key(c, name);
    && OneRow(d.rows, d'.rows, key, isWrite) && d'.evidence == d.evidence && d'.parameters == d.parameters
    && (end.Value? ==> IsDone(c, d'.rows, name) && (d'.rows.steps[key].result.Some? ==> d'.rows.steps[key].result == Some(end.value)))
    && (if IsDone(c, d.rows, name) then d'.log == d.log
        else if IsDone(c, d'.rows, name) then
          && action.Returns? && d'.rows.steps[key].result == Some(action.value)
          && d'.log == d.log + (if request.Some? then [request.value, StepDone(name, action.value, true)] else [])
        else d'.log == d.log || (request.Some? && Sends(action) && key in d'.rows.steps && d'.log == d.log + [request.value]))
  }

  /** What acting and saving does to a desk whose step `key` is running. */
  ghost predicate ActFacts(d: Desk, d': Desk, key: StepKey, request: Option<Entry>, action: Action, end: End) {
    && d'.rows.tasks == d.rows.tasks && d'.evidence == d.evidence && d'.parameters == d.parameters
    && key in d'.rows.steps && key in d.rows.steps && d'.rows.steps == d.rows.steps[key := d'.rows.steps[key]]
    && d'.rows.steps[key].isWrite == d.rows.steps[key].isWrite
    && (if d'.rows.steps[key].status == StepCompleted then
          && action.Returns? && d'.rows.steps[key].result == Some(action.value) && end == Value(action.value)
          && d'.log == d.log + (if request.Some? then [request.value, StepDone(key.name, action.value, true)] else [])
        else
          && !end.Value?
          && (d'.log == d.log || (request.Some? && d'.log == d.log + [request.value] && Sends(action))))
  }

  lemma ActAndSaveFacts(d: Desk, key: StepKey, request: Option<Entry>, action: Action)
    requires key in d.rows.steps && d.rows.steps[key].status == StepRunning
    ensures var (d', end) := ActAndSave(d, key, request, action); ActFacts(d, d', key, request, action, end)
  {
    if request.Some? && action.Returns? {
      assert d.log + [request.value] + [StepDone(key.name, action.value, true)] == d.log + [request.value, StepDone(key.name, action.value, true)];
    }
  }

  lemma BegunThenActed(c: Setup, d: Desk, d1: Desk, d': Desk, name: string, isWrite: bool, request: Option<Entry>, action: Action, end: End)
    requires OneRow(d.rows, d1.rows, Key(c, name), isWrite) && ActFacts(d1, d', Key(c, name), request, action, end)
    requires d1.evidence == d.evidence && d1.parameters == d.parameters && d1.log == d.log && !IsDone(c, d.rows, name)
    ensures StepFacts(c, d, d', name, isWrite, request, action, end)
  {
  }

  lemma BeginFacts(d: Desk, key: StepKey, isWrite: bool)
    ensures var o := DoBegin(d.rows, d.memory, d.nextId, key.task, key.name, isWrite);
            && OneRow(d.rows, o.rows, key, isWrite)
            && (match o.reply
                case Started(step) =>
                  key in o.rows.steps && o.rows.steps[key].status == StepRunning
                  && (key in d.rows.steps ==> d.rows.steps[key].status != StepCompleted)
                case Reused(step) => o.rows == d.rows && key in d.rows.steps && d.rows.steps[key] == step && step.status == StepCompleted
                case _ => o.rows == d.rows)
  {
  }

  lemma RunStepFacts(c: Setup, d: Desk, name: string, isWrite: bool, request: Option<Entry>, action: Action)
    ensures var (d', end) := RunStep(d, Key(c, name), isWrite, request, action); StepFacts(c, d, d', name, isWrite, request, action, end)
  {
    var key := Key(c, name);
    BeginFacts(d, key, isWrite);
    var o := DoBegin(d.rows, d.memory, d.nextId, key.task, key.name, isWrite);
    if o.reply.Started? {
      var d1 := d.(rows := o.rows, memory := o.memory, nextId := d.nextId + 1);
      ActAndSaveFacts(d1, key, request, action);
      var (d', end) := ActAndSave(d1, key, request, action);
      BegunThenActed(c, d, d1, d', name, isWrite, request, action, end);
    }
  }

  /* ---------- one `_step` keeps the invariant ---------- */

  /** Step rows are never deleted or reclassified, and completed ones stay as they are. */
  predicate Keeps(rows: Rows, rows': Rows) {
    forall key :: key in rows.steps ==>
      key in rows'.steps && rows'.steps[key].isWrite == rows.steps[key].isWrite
      && (rows.steps[key].status == StepCompleted ==> rows'.steps[key] == rows.steps[key])
  }

  /** ... and the parameters stay, and the log only grows. */
  predicate Steady(d: Desk, d': Desk) {
    d'.parameters == d.parameters && Keeps(d.rows, d'.rows) && d.log <= d'.log
  }

  /** When `_step` may be called for a write: its request carries the parameters on file, follows the
      earlier writes, and is justified if it can be sent. */
  ghost predicate WriteCall(c: Setup, d: Desk, name: string, e: Entry, action: Action) {
    && IsRequest(e) && RequestStep(e) == name && d.parameters == Some(e.params)
    && (name == PR ==> IsDone(c, d.rows, PUSH)) && (name == COMMENT ==> IsDone(c, d.rows, PR))
    && (!IsDone(c, d.rows, name) && Sends(action) ==> Justified(c, d.log, e))
    && (name == PUSH && action.Returns? ==> action.value == PushResult(e.branch, e.commit, e.params.remote))
  }

  lemma WriteKeepsLog(c: Setup, d: Desk, d': Desk, name: string, e: Entry, action: Action, end: End)
    requires LogOk(c, d.log) && StepFacts(c, d, d', name, true, Some(e), action, end) && WriteCall(c, d, name, e, action)
    ensures LogOk(c, d'.log) && LatestCheck(d'.log) == LatestCheck(d.log)
    ensures forall x :: x in d.log ==> x in d'.log
    ensures forall x :: x in d'.log ==> x in d.log || (x == e && Key(c, name) in d'.rows.steps) || x.StepDone?
  {
    if d'.log == d.log + [e] {
      LogExtends(c, d.log, e);
    } else if d'.log != d.log {
      var done := StepDone(name, action.value, true);
      LogExtends(c, d.log, e);
      assert e in d.log + [e];
      LogExtends(c, d.log + [e], done);
      assert d'.log == d.log + [e] + [done];
    }
  }

  lemma StepKeepsOrder(c: Setup, d: Desk, d': Desk, name: string, isWrite: bool, request: Option<Entry>, action: Action, end: End)
    requires RowsOrdered(c, d.rows) && StepFacts(c, d, d', name, isWrite, request, action, end) && (isWrite <==> name in WRITES)
    requires (name == PR ==> IsDone(c, d.rows, PUSH)) && (name == COMMENT ==> IsDone(c, d.rows, PR))
    ensures RowsOrdered(c, d'.rows)
    ensures forall n :: IsDone(c, d.rows, n) ==> IsDone(c, d'.rows, n)
  {
    assert forall n :: IsDone(c, d.rows, n) ==> IsDone(c, d'.rows, n);
    assert forall n :: n != name ==> (Key(c, n) in d'.rows.steps <==> Key(c, n) in d.rows.steps);
  }

  lemma WriteKeepsResults(c: Setup, d: Desk, d': Desk, name: string, e: Entry, action: Action, end: End)
    requires ResultsLogged(c, d) && StepFacts(c, d, d', name, true, Some(e), action, end)
    requires forall x :: x in d.log ==> x in d'.log
    ensures ResultsLogged(c, d')
  {
    forall n | n in WRITES && IsDone(c, d'.rows, n) && d'.rows.steps[Key(c, n)].result.Some?
      ensures DoneBefore(d'.log, n, d'.rows.steps[Key(c, n)].result.value)
    {
      if IsDone(c, d.rows, n) {
        assert d'.rows.steps[Key(c, n)] == d.rows.steps[Key(c, n)];
      } else {
        assert n == name && StepDone(name, action.value, true) in d'.log;
      }
    }
  }

  lemma StepKeepsParameters(c: Setup, d: Desk, d': Desk, name: string, e: Entry)
    requires IsRequest(e) && RequestStep(e) == name && OneParameterSet(c, d) && d.parameters == Some(e.params)
    requires d'.parameters == d.parameters && OneRow(d.rows, d'.rows, Key(c, name), true)
    requires forall x :: x in d'.log ==> x in d.log || (x == e && Key(c, name) in d'.rows.steps) || x.StepDone?
    ensures OneParameterSet(c, d')
  {
    forall x | x in d'.log && IsRequest(x) ensures d'.parameters == Some(x.params) && Key(c, RequestStep(x)) in d'.rows.steps {
      if x in d.log {
        assert Key(c, RequestStep(x)) in d.rows.steps;
      }
    }
  }

  lemma WriteKeepsInv(c: Setup, d: Desk, name: string, e: Entry, action: Action)
    requires Inv(c, d) && WriteCall(c, d, name, e, action)
    ensures var (d', end) := RunStep(d, Key(c, name), true, Some(e), action);
            && Inv(c, d') && Steady(d, d') && (forall n :: IsDone(c, d.rows, n) ==> IsDone(c, d'.rows, n))
            && (forall x :: x in d.log ==> x in d'.log)
            && (end.Value? ==> IsDone(c, d'.rows, name) && DoneBefore(d'.log, name, end.value))
  {
    RunStepFacts(c, d, name, true, Some(e), action);
    var (d', end) := RunStep(d, Key(c, name), true, Some(e), action);
    WriteKeepsLog(c, d, d', name, e, action, end);
    StepKeepsOrder(c, d, d', name, true, Some(e), action, end);
    WriteKeepsResults(c, d, d', name, e, action, end);
    StepKeepsParameters(c, d, d', name, e);
  }

  lemma ReadKeepsInv(c: Setup, d: Desk, name: string, action: Action)
    requires Inv(c, d) && name !in WRITES
    ensures var (d', end) := RunStep(d, Key(c, name), false, None, action);
            Inv(c, d') && Steady(d, d') && d'.log == d.log && WriteRowsSame(c, d.rows, d'.rows)
  {
    RunStepFacts(c, d, name, false, None, action);
    var (d', end) := RunStep(d, Key(c, name), false, None, action);
    StepKeepsOrder(c, d, d', name, false, None, action, end);
    assert WriteStarted(c, d'.rows) ==> WriteStarted(c, d.rows);
  }

  predicate WriteRowsSame(c: Setup, rows: Rows, rows': Rows) {
    forall name :: name in WRITES ==> (Key(c, name) in rows'.steps <==> Key(c, name) in rows.steps)
                                      && (Key(c, name) in rows.steps ==> rows'.steps[Key(c, name)] == rows.steps[Key(c, name)])
  }

  predicate SourcesOk(sources: seq<Source>) {
    forall i :: 0 <= i < |sources| ==> sources[i].name !in WRITES
  }

  lemma {:induction false} SourcesKeepInv(c: Setup, d: Desk, sources: seq<Source>, errors: bool)
    requires Inv(c, d) && SourcesOk(sources)
    ensures var (d', end) := RunSources(c, d, sources, errors);
            Inv(c, d') && Steady(d, d') && d'.log == d.log && WriteRowsSame(c, d.rows, d'.rows)
    decreases |sources|
  {
    if sources != [] {
      ReadKeepsInv(c, d, sources[0].name, sources[0].action);
      var (d1, end) := RunStep(d, Key(c, sources[0].name), false, None, sources[0].action);
      SourcesKeepInv(c, d1, sources[1..], errors || end.Raised?);
    }
  }

  /* ---------- one call keeps the invariant ---------- */

  /** Changes of the task row only. */
  lemma TaskRowKeepsInv(c: Setup, d: Desk, d': Desk)
    requires Inv(c, d) && d'.rows.steps == d.rows.steps && c.task in d'.rows.tasks
    requires d'.rows.tasks[c.task].status == TaskCompleted ==> IsDone(c, d.rows, COMMENT)
    requires d'.evidence == d.evidence && d'.parameters == d.parameters && d'.log == d.log
    ensures Inv(c, d')
  {
  }

  lemma FailTaskKeepsInv(c: Setup, d: Desk)
    requires Inv(c, d)
    ensures Inv(c, FailTask(c, d).0) && Steady(d, FailTask(c, d).0)
  {
    TaskRowKeepsInv(c, d, FailTask(c, d).0);
  }

  lemma FinishKeepsInv(c: Setup, d: Desk, w: World, pr: Json, comment: Json, push: Json)
    requires Inv(c, d) && IsDone(c, d.rows, COMMENT) && DoneBefore(d.log, COMMENT, comment)
    ensures Inv(c, FinishTask(c, d, w, pr, comment, push).0) && Steady(d, FinishTask(c, d, w, pr, comment, push).0)
  {
    var (d', ending) := FinishTask(c, d, w, pr, comment, push);
    if ending == Published {
      LogExtends(c, d.log, Finished);
      TaskRowKeepsInv(c, d, d'.(log := d.log));
    } else {
      FailTaskKeepsInv(c, d);
    }
  }

  lemma CommentStageKeepsInv(c: Setup, d: Desk, params: Params, w: World, push: Json, pr: Json)
    requires Inv(c, d) && d.parameters == Some(params) && IsDone(c, d.rows, PR)
    requires DoneBefore(d.log, PUSH, push) && DoneBefore(d.log, PR, pr)
    ensures Inv(c, CommentStage(c, d, params, w, push, pr).0) && Steady(d, CommentStage(c, d, params, w, push, pr).0)
  {
    var action := Given(HasField(pr, "url") && HasField(push, "commit"), w.comment);
    WriteKeepsInv(c, d, COMMENT, CommentSent(pr, push, params), action);
    var (d1, end) := RunStep(d, Key(c, COMMENT), true, Some(CommentSent(pr, push, params)), action);
    if end.Value? {
      FinishKeepsInv(c, d1, w, pr, end.value, push);
    } else {
      FailTaskKeepsInv(c, d1);
    }
  }

  lemma PrStageKeepsInv(c: Setup, d: Desk, params: Params, w: World, push: Json)
    requires Inv(c, d) && d.parameters == Some(params) && IsDone(c, d.rows, PUSH) && DoneBefore(d.log, PUSH, push)
    ensures Inv(c, PrStage(c, d, params, w, push).0) && Steady(d, PrStage(c, d, params, w, push).0)
  {
    var action := Given(HasField(push, "branch"), w.pr);
    WriteKeepsInv(c, d, PR, PrRequested(push, params), action);
    var (d1, end) := RunStep(d, Key(c, PR), true, Some(PrRequested(push, params)), action);
    if end.Value? {
      CommentStageKeepsInv(c, d1, params, w, push, end.value);
    } else {
      FailTaskKeepsInv(c, d1);
    }
  }

  /** An open gate means a passing check run of the commit that is checked out. */
  lemma OpenGateWasChecked(c: Setup, d: Desk, worktree: Worktree)
    requires EvidenceLogged(c, d) && GateOpen(c, d.evidence, worktree)
    ensures PassedLast(c, d.log, worktree.head)
  {
  }

  lemma PushStageKeepsInv(c: Setup, d: Desk, params: Params, w: World)
    requires Inv(c, d) && d.parameters == Some(params) && (IsDone(c, d.rows, PUSH) || GateOpen(c, d.evidence, w.gate))
    ensures Inv(c, PushStage(c, d, params, w).0) && Steady(d, PushStage(c, d, params, w).0)
  {
    var branch := if w.gate.branch.Some? then w.gate.branch.value else "";
    var request := Pushed(branch, w.gate.head, params);
    if !IsDone(c, d.rows, PUSH) {
      OpenGateWasChecked(c, d, w.gate);
    }
    WriteKeepsInv(c, d, PUSH, request, PushAction(w, params));
    var (d1, end) := RunStep(d, Key(c, PUSH), true, Some(request), PushAction(w, params));
    if end.Value? {
      PrStageKeepsInv(c, d1, params, w, end.value);
    } else {
      FailTaskKeepsInv(c, d1);
    }
  }

  lemma GateStageKeepsInv(c: Setup, before: Rows, d: Desk, params: Params, w: World)
    requires Inv(c, d) && d.parameters == Some(params) && (IsDone(c, before, PUSH) ==> IsDone(c, d.rows, PUSH))
    ensures Inv(c, GateStage(c, before, d, params, w).0) && Steady(d, GateStage(c, before, d, params, w).0)
  {
    if !IsDone(c, before, PUSH) && !GateOpen(c, d.evidence, w.gate) {
      FailTaskKeepsInv(c, d);
    } else {
      PushStageKeepsInv(c, d, params, w);
    }
  }

  lemma ResumedKeepsInv(c: Setup, d: Desk)
    requires Inv(c, d)
    ensures var o := DoResume(d.rows, d.memory, c.task); Inv(c, d.(rows := o.rows, memory := o.memory)) && o.rows.steps == d.rows.steps
  {
    var o := DoResume(d.rows, d.memory, c.task);
    TaskRowKeepsInv(c, d, d.(rows := o.rows, memory := o.memory));
  }

  lemma RunPublishKeepsInv(c: Setup, d: Desk, params: Params, w: World)
    requires Inv(c, d) && d.parameters == Some(params) && SourcesOk(w.sources)
    ensures Inv(c, RunPublish(c, d, params, w).0) && Steady(d, RunPublish(c, d, params, w).0)
  {
    ResumedKeepsInv(c, d);
    var o := DoResume(d.rows, d.memory, c.task);
    var d1 := d.(rows := o.rows, memory := o.memory);
    if o.reply == Done {
      if ReadsUnfinished(c, d.rows) {
        SourcesKeepInv(c, d1, w.sources, false);
        var (d2, end) := RunSources(c, d1, w.sources, false);
        if end == Value(Bool(false)) {
          GateStageKeepsInv(c, d.rows, d2, params, w.(refreshed := true));
        } else {
          FailTaskKeepsInv(c, d2);
        }
      } else {
        GateStageKeepsInv(c, d.rows, d1, params, w.(refreshed := false));
      }
    }
  }

  lemma RequestsStartWrites(c: Setup, d: Desk, e: Entry)
    requires Inv(c, d) && e in d.log && IsRequest(e)
    ensures WriteStarted(c, d.rows)
  {
    assert Key(c, RequestStep(e)) in d.rows.steps && RequestStep(e) in WRITES;
  }

  /** Until a write has started the parameters may still be replaced. */
  lemma ReplacedParametersOk(c: Setup, d: Desk, params: Params)
    requires Inv(c, d) && (WriteStarted(c, d.rows) ==> d.parameters == Some(params))
    ensures Inv(c, d.(parameters := Some(params)))
  {
    forall e | e in d.log && IsRequest(e) ensures e.params == params {
      RequestsStartWrites(c, d, e);
    }
  }

  lemma PublishKeepsInv(c: Setup, d: Desk, params: Params, w: World)
    requires Inv(c, d) && SourcesOk(w.sources)
    ensures Inv(c, DoPublish(c, d, params, w).0) && Keeps(d.rows, DoPublish(c, d, params, w).0.rows) && d.log <= DoPublish(c, d, params, w).0.log
    ensures WriteStarted(c, d.rows) ==> DoPublish(c, d, params, w).0.parameters == d.parameters
  {
    if !(d.parameters.Some? && d.parameters.value != params && WriteStarted(c, d.rows)) {
      ReplacedParametersOk(c, d, params);
      RunPublishKeepsInv(c, d.(parameters := Some(params)), params, w);
    }
  }

  lemma DevelopKeepsInv(c: Setup, d: Desk, w: World)
    requires Inv(c, d) && SourcesOk(w.sources)
    ensures Inv(c, RunDevelop(c, d, w).0) && Steady(d, RunDevelop(c, d, w).0)
  {
    SourcesKeepInv(c, d, w.sources, false);
    var d1 := RunSources(c, d, w.sources, false).0;
    FailTaskKeepsInv(c, d1);
    WaitKeepsInv(c, d1, w.handoff);
  }

  lemma WaitKeepsInv(c: Setup, d: Desk, handoff: Json)
    requires Inv(c, d)
    ensures var o := DoWait(d.rows, d.memory, c.task, handoff); Inv(c, d.(rows := o.rows, memory := o.memory)) && o.rows.steps == d.rows.steps
  {
    var o := DoWait(d.rows, d.memory, c.task, handoff);
    TaskRowKeepsInv(c, d, d.(rows := o.rows, memory := o.memory));
  }

  lemma ResumeKeepsInv(c: Setup, d: Desk, w: World)
    requires Inv(c, d) && SourcesOk(w.sources)
    ensures Inv(c, DoResumeTask(c, d, w).0) && Steady(d, DoResumeTask(c, d, w).0)
  {
    ResumedKeepsInv(c, d);
    var o := DoResume(d.rows, d.memory, c.task);
    var d1 := d.(rows := o.rows, memory := o.memory);
    if d.parameters.Some? {
      RunPublishKeepsInv(c, d1, d.parameters.value, w);
    } else {
      DevelopKeepsInv(c, d1, w);
    }
  }

  lemma CheckKeepsInv(c: Setup, d: Desk, before: Worktree, exits: seq<int>, after: Worktree)
    requires Inv(c, d)
    ensures Inv(c, RunChecks(c, d, before, exits, after).0)
  {
    var e := Checked(before, exits, after);
    LogExtends(c, d.log, e);
    assert e in d.log + [e];
    assert forall x :: x in d.log ==> x in d.log + [e];
  }

  lemma CancelKeepsInv(c: Setup, d: Desk)
    requires Inv(c, d)
    ensures Inv(c, Perform(c, d, CancelTask))
  {
    var d' := Perform(c, d, CancelTask);
    assert forall n :: IsDone(c, d.rows, n) <==> IsDone(c, d'.rows, n);
    assert WriteStarted(c, d'.rows) ==> WriteStarted(c, d.rows);
  }

  lemma ResolveKeepsRows(c: Setup, d: Desk, name: string, result: Json)
    requires RowsOrdered(c, d.rows)
    ensures var rows := Perform(c, d, ResolveStep(name, result)).rows;
            && RowsOrdered(c, rows) && (WriteStarted(c, rows) ==> WriteStarted(c, d.rows)) && rows.steps.Keys == d.rows.steps.Keys
            && forall n :: IsDone(c, d.rows, n) ==> IsDone(c, rows, n) && rows.steps[Key(c, n)] == d.rows.steps[Key(c, n)]
  {
    var rows := Perform(c, d, ResolveStep(name, result)).rows;
    assert forall n :: IsDone(c, d.rows, n) ==> IsDone(c, rows, n) && rows.steps[Key(c, n)] == d.rows.steps[Key(c, n)];
    assert WriteStarted(c, rows) ==> WriteStarted(c, d.rows);
  }

  lemma ResolveKeepsResults(c: Setup, d: Desk, name: string, result: Json)
    requires ResultsLogged(c, d) && Perform(c, d, ResolveStep(name, result)).rows != d.rows
    ensures ResultsLogged(c, Perform(c, d, ResolveStep(name, result)))
  {
    var d' := Perform(c, d, ResolveStep(name, result));
    assert StepDone(name, result, false) in d'.log;
    assert forall x :: x in d.log ==> x in d'.log;
    assert forall n :: n != name ==> Key(c, n) != Key(c, name);
  }

  lemma ResolveKeepsInv(c: Setup, d: Desk, name: string, result: Json)
    requires Inv(c, d)
    ensures Inv(c, Perform(c, d, ResolveStep(name, result)))
  {
    var d' := Perform(c, d, ResolveStep(name, result));
    if d'.rows != d.rows {
      LogExtends(c, d.log, StepDone(name, result, false));
      ResolveKeepsRows(c, d, name, result);
      ResolveKeepsResults(c, d, name, result);
      assert forall x :: x in d.log ==> x in d'.log;
    }
  }

  lemma RetryKeepsInv(c: Setup, d: Desk, name: string)
    requires Inv(c, d)
    ensures Inv(c, Perform(c, d, RetryStep(name)))
  {
    var d' := Perform(c, d, RetryStep(name));
    assert forall n :: IsDone(c, d.rows, n) <==> IsDone(c, d'.rows, n);
    assert WriteStarted(c, d'.rows) ==> WriteStarted(c, d.rows);
  }

  predicate CallOk(call: Call) {
    (call.Publish? || call.ResumeTask? ==> SourcesOk(call.world.sources))
  }

  lemma PerformKeepsInv(c: Setup, d: Desk, call: Call)
    requires Inv(c, d) && CallOk(call)
    ensures Inv(c, Perform(c, d, call)) && Keeps(d.rows, Perform(c, d, call).rows) && d.log <= Perform(c, d, call).log
    ensures WriteStarted(c, d.rows) ==> Perform(c, d, call).parameters == d.parameters
  {
    match call
    case Check(before, exits, after) => CheckKeepsInv(c, d, before, exits, after);
    case Publish(params, world) => PublishKeepsInv(c, d, params, world);
    case ResumeTask(world) => ResumeKeepsInv(c, d, world);
    case CancelTask => CancelKeepsInv(c, d);
    case ResolveStep(name, result) => ResolveKeepsInv(c, d, name, result);
    case RetryStep(name) => RetryKeepsInv(c, d, name);
    case Restart =>
  }

  /* ---------- the promises, over every run of calls ---------- */

  function Run(c: Setup, d: Desk, calls: seq<Call>): Desk
    decreases |calls|
  {
    if calls == [] then d else Run(c, Perform(c, d, calls[0]), calls[1..])
  }

  predicate CallsOk(calls: seq<Call>) {
    forall i :: 0 <= i < |calls| ==> CallOk(calls[i])
  }

  /** A task prepared for publication: only source steps so far, nothing checked and nothing sent. */
  predicate Prepared(c: Setup, d: Desk) {
    && c.task in d.rows.tasks && d.rows.tasks[c.task].status != TaskCompleted
    && (forall key :: key in d.rows.steps && key.task == c.task ==>
          !d.rows.steps[key].isWrite && key.name !in WRITES && (d.rows.steps[key].status == StepCompleted ==> d.rows.steps[key].result.Some?))
    && d.evidence == None && d.parameters == None && d.log == []
  }

  lemma PreparedOk(c: Setup, d: Desk)
    requires Prepared(c, d)
    ensures Inv(c, d)
  {
    assert Key(c, PR).name == PR && Key(c, COMMENT).name == COMMENT && Key(c, PUSH).name == PUSH;
  }

  lemma {:induction false} RunKeepsInv(c: Setup, d: Desk, calls: seq<Call>)
    requires Inv(c, d) && CallsOk(calls)
    ensures Inv(c, Run(c, d, calls))
    decreases |calls|
  {
    if calls != [] {
      assert CallOk(calls[0]);
      PerformKeepsInv(c, d, calls[0]);
      RunKeepsInv(c, Perform(c, d, calls[0]), calls[1..]);
    }
  }

  /** Every push the tool sends is of the task's branch, at a commit for which the last check run before it passed on
      that branch, with the worktree clean and on that commit before and after. */
  lemma PushesWereChecked(c: Setup, d: Desk, calls: seq<Call>, i: nat)
    requires Prepared(c, d) && CallsOk(calls)
    requires var log := Run(c, d, calls).log; i < |log| && log[i].Pushed?
    ensures var log := Run(c, d, calls).log;
            log[i].branch == c.branch && exists j :: 0 <= j < i && Passing(c, log[j], log[i].commit) && NoCheckWithin(log, j + 1, i)
  {
    PreparedOk(c, d);
    RunKeepsInv(c, d, calls);
    var log := Run(c, d, calls).log;
    LogEntries(c, log, i);
    var j := LatestAt(log[..i]);
    assert NoCheckWithin(log, j + 1, i);
  }

  predicate NoCheckWithin(log: seq<Entry>, from: nat, to: nat) {
    forall k :: from <= k < to && k < |log| ==> !log[k].Checked?
  }

  lemma {:induction false} LatestAt(log: seq<Entry>) returns (j: nat)
    requires LatestCheck(log).Some?
    ensures j < |log| && log[j] == LatestCheck(log).value && NoCheckWithin(log, j + 1, |log|)
    decreases |log|
  {
    j := |log| - 1;
    if !log[j].Checked? {
      j := LatestAt(log[..j]);
    }
  }

  /** `name` was recorded done with `result` before entry `i`. */
  ghost predicate DoneEarlier(log: seq<Entry>, i: nat, name: string, result: Json)
    requires i <= |log|
  {
    exists j, byTool :: 0 <= j < i && log[j] == StepDone(name, result, byTool)
  }

  lemma DoneAt(log: seq<Entry>, i: nat, name: string, result: Json)
    requires i <= |log| && DoneBefore(log[..i], name, result)
    ensures DoneEarlier(log, i, name, result)
  {
    if StepDone(name, result, true) in log[..i] {
      var j :| 0 <= j < i && log[j] == StepDone(name, result, true);
    } else {
      var j :| 0 <= j < i && log[j] == StepDone(name, result, false);
    }
  }

  /** The push is done before the pull request is requested, both before the comment is sent, with the
      very results they recorded, and the comment before the task finishes. */
  lemma WritesFollowEachOther(c: Setup, d: Desk, calls: seq<Call>, i: nat)
    requires Prepared(c, d) && CallsOk(calls) && i < |Run(c, d, calls).log|
    ensures var log := Run(c, d, calls).log;
            match log[i]
            case PrRequested(push, _) => DoneEarlier(log, i, PUSH, push)
            case CommentSent(pr, push, _) => DoneEarlier(log, i, PR, pr) && DoneEarlier(log, i, PUSH, push)
            case Finished => exists comment :: DoneEarlier(log, i, COMMENT, comment)
            case _ => true
  {
    PreparedOk(c, d);
    RunKeepsInv(c, d, calls);
    var log := Run(c, d, calls).log;
    LogEntries(c, log, i);
    match log[i]
    case PrRequested(push, _) => DoneAt(log, i, PUSH, push);
    case CommentSent(pr, push, _) =>
      DoneAt(log, i, PR, pr);
      DoneAt(log, i, PUSH, push);
    case Finished =>
      var comment :| DoneBefore(log[..i], COMMENT, comment);
      DoneAt(log, i, COMMENT, comment);
    case _ =>
  }

  /** All requests of a task carry one parameter set, the one on file. */
  lemma OneParameterSetIsUsed(c: Setup, d: Desk, calls: seq<Call>, i: nat, j: nat)
    requires Prepared(c, d) && CallsOk(calls)
    requires var log := Run(c, d, calls).log; i < |log| && j < |log| && IsRequest(log[i]) && IsRequest(log[j])
    ensures var d' := Run(c, d, calls);
            d'.log[i].params == d'.log[j].params && d'.parameters == Some(d'.log[i].params)
  {
    PreparedOk(c, d);
    RunKeepsInv(c, d, calls);
    var log := Run(c, d, calls).log;
    assert log[i] in log && log[j] in log;
  }

  /** From the first write step on, no call changes the parameters on file. */
  lemma {:induction false} ParametersFreeze(c: Setup, d: Desk, calls: seq<Call>)
    requires Inv(c, d) && CallsOk(calls) && WriteStarted(c, d.rows)
    ensures Run(c, d, calls).parameters == d.parameters
    decreases |calls|
  {
    if calls != [] {
      assert CallOk(calls[0]);
      PerformKeepsInv(c, d, calls[0]);
      assert WriteStarted(c, Perform(c, d, calls[0]).rows) by {
        var key :| key in d.rows.steps && key.task == c.task && d.rows.steps[key].isWrite;
        assert key in Perform(c, d, calls[0]).rows.steps;
      }
      ParametersFreeze(c, Perform(c, d, calls[0]), calls[1..]);
    }
  }

  /** The comment says that checks passed for the pushed commit; when the tool made the push, they did. */
  lemma CommentsTellTheTruth(c: Setup, d: Desk, calls: seq<Call>, i: nat, k: nat)
    requires Prepared(c, d) && CallsOk(calls)
    requires var log := Run(c, d, calls).log;
             k < i < |log| && log[i].CommentSent? && log[k] == StepDone(PUSH, log[i].push, true)
    ensures var log := Run(c, d, calls).log;
            exists j :: 0 <= j < k && log[j].Checked? && Passing(c, log[j], log[j].before.head)
                        && HasField(log[i].push, "commit") && log[i].push.fields["commit"] == Text(log[j].before.head)
  {
    PreparedOk(c, d);
    RunKeepsInv(c, d, calls);
    var log := Run(c, d, calls).log;
    var p := ToolPushes(c, log, k);
    PushesWereChecked(c, d, calls, p);
    var j :| 0 <= j < p && Passing(c, log[j], log[p].commit) && NoCheckWithin(log, j + 1, p);
    assert log[j].before.head == log[p].commit;
  }

  lemma ToolPushes(c: Setup, log: seq<Entry>, k: nat) returns (p: nat)
    requires LogOk(c, log) && k < |log| && log[k].StepDone? && log[k].name == PUSH && log[k].byTool
    ensures p < k && log[p].Pushed? && HasField(log[k].result, "commit") && log[k].result.fields["commit"] == Text(log[p].commit)
  {
    LogEntries(c, log, k);
    var commit, params :| Pushed(c.branch, commit, params) in log[..k] && log[k].result == PushResult(c.branch, commit, params.remote);
    p :| 0 <= p < k && log[p] == Pushed(c.branch, commit, params);
  }
}
