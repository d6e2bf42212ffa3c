/** What a publication comes to: exactly when a call publishes, what it sends and saves then, that it sends nothing
    while sources fail, and that what may have been sent is not sent again. */
module PublicationOutcome {
  import opened Prelude
  import opened TaskStoreModel
  import opened Publication

  /* ---------- one `_step`, exactly ---------- */

  /** The task runs, and the caller's store object is not superseded. */
  predicate Manned(c: Setup, d: Desk) {
    && c.task in d.rows.tasks && d.rows.tasks[c.task].status == TaskRunning
    && c.task in d.memory.generations && d.memory.generations[c.task] == d.rows.tasks[c.task].generation
  }

  /** The step may be executed (again). */
  predicate Open(c: Setup, rows: Rows, name: string) {
    var key := Key(c, name);
    key in rows.steps ==> rows.steps[key].status == StepFailed || (!rows.steps[key].isWrite && rows.steps[key].status != StepCompleted)
  }

  predicate Class(c: Setup, rows: Rows, name: string, isWrite: bool) {
    Key(c, name) in rows.steps ==> rows.steps[Key(c, name)].isWrite == isWrite
  }

  function StatusAfter(action: Action): StepStatus {
    match action
    case Returns(_) => StepCompleted
    case Dies(_) => StepRunning
    case Raises(uncertain) => if uncertain then StepUncertain else StepFailed
    case Blocked => StepFailed
  }

  function EndOf(action: Action): End {
    match action
    case Returns(value) => Value(value)
    case Dies(_) => Died
    case _ => Raised
  }

  /** What the step adds to the log when it is executed. */
  function Said(name: string, request: Option<Entry>, action: Action): seq<Entry> {
    if request.None? || !Sends(action) then []
    else [request.value] + if action.Returns? then [StepDone(name, action.value, true)] else []
  }

  function Stored(c: Setup, rows: Rows, name: string): Json
    requires IsDone(c, rows, name)
  {
    var result := rows.steps[Key(c, name)].result; if result.Some? then result.value else Null
  }

  /** Nothing but the row of the step changes. */
  ghost predicate Around(c: Setup, d: Desk, d': Desk, name: string) {
    && d'.rows.tasks == d.rows.tasks && d'.evidence == d.evidence && d'.parameters == d.parameters
    && forall key :: key != Key(c, name) ==> (key in d'.rows.steps <==> key in d.rows.steps) && (key in d.rows.steps ==> d'.rows.steps[key] == d.rows.steps[key])
  }

  ghost predicate Executed(c: Setup, d: Desk, d': Desk, name: string, isWrite: bool, request: Option<Entry>, action: Action) {
    var key := Key(c, name);
    && Around(c, d, d', name) && key in d'.rows.steps && d'.rows.steps[key].isWrite == isWrite
    && d'.rows.steps[key].status == StatusAfter(action)
    && (action.Returns? ==> d'.rows.steps[key].result == Some(action.value))
    && d'.log == d.log + Said(name, request, action)
    && if action.Dies? then d'.memory == EMPTY_MEMORY else Manned(c, d')
  }

  lemma ActExactly(c: Setup, d: Desk, name: string, request: Option<Entry>, action: Action)
    requires Manned(c, d) && Key(c, name) in d.rows.steps && Owns(d.rows, d.memory, Key(c, name))
    ensures var (d', end) := ActAndSave(d, Key(c, name), request, action);
            Executed(c, d, d', name, d.rows.steps[Key(c, name)].isWrite, request, action) && end == EndOf(action)
  {
    if request.Some? && action.Returns? {
      assert d.log + [request.value] + [StepDone(name, action.value, true)] == d.log + Said(name, request, action);
    }
    assert d.log + [] == d.log;
  }

  lemma BegunExactly(c: Setup, d: Desk, name: string, isWrite: bool)
    requires Manned(c, d) && !Blank(name) && Class(c, d.rows, name, isWrite)
    ensures var key, o := Key(c, name), DoBegin(d.rows, d.memory, d.nextId, c.task, name, isWrite);
            if IsDone(c, d.rows, name) then o == Outcome(d.rows, d.memory, Reused(d.rows.steps[key]))
            else if !Open(c, d.rows, name) then o == Outcome(d.rows, d.memory, Refused(Uncertain))
            else
              var d1 := d.(rows := o.rows, memory := o.memory, nextId := d.nextId + 1);
              && o.reply.Started? && Around(c, d, d1, name) && Manned(c, d1)
              && key in o.rows.steps && Owns(o.rows, o.memory, key) && o.rows.steps[key].isWrite == isWrite
  {
    assert d.memory.generations[c.task := d.rows.tasks[c.task].generation] == d.memory.generations;
  }

  /** Running a step: a completed one is reused, one in doubt is refused, any other is executed and saved. */
  lemma StepExactly(c: Setup, d: Desk, name: string, isWrite: bool, request: Option<Entry>, action: Action)
    requires Manned(c, d) && !Blank(name) && Class(c, d.rows, name, isWrite)
    ensures var (d', end) := RunStep(d, Key(c, name), isWrite, request, action);
            if IsDone(c, d.rows, name) then d' == d && end == Value(Stored(c, d.rows, name))
            else if !Open(c, d.rows, name) then d' == d && end == Raised
            else Executed(c, d, d', name, isWrite, request, action) && end == EndOf(action)
  {
    var key := Key(c, name);
    BegunExactly(c, d, name, isWrite);
    var o := DoBegin(d.rows, d.memory, d.nextId, key.task, key.name, isWrite);
    if o.reply.Started? {
      ActExactly(c, d.(rows := o.rows, memory := o.memory, nextId := d.nextId + 1), name, request, action);
    }
  }

  /* ---------- the sources, exactly ---------- */

  /** The i-th source has a result in the end: it had one, or it returns one, or an earlier source of that name does. */
  predicate Succeeds(c: Setup, rows: Rows, sources: seq<Source>, i: nat)
    requires i < |sources|
  {
    !Blank(sources[i].name)
    && (IsDone(c, rows, sources[i].name) || exists j :: 0 <= j <= i && sources[j].name == sources[i].name && sources[j].action.Returns?)
  }

  /** ... or its failure is only noted. */
  predicate Settles(c: Setup, rows: Rows, sources: seq<Source>, i: nat)
    requires i < |sources|
  {
    Succeeds(c, rows, sources, i) || (sources[i].optional && (Blank(sources[i].name) || !sources[i].action.Dies?))
  }

  predicate AllSucceed(c: Setup, rows: Rows, sources: seq<Source>) {
    forall i :: 0 <= i < |sources| ==> Succeeds(c, rows, sources, i)
  }

  predicate AllSettle(c: Setup, rows: Rows, sources: seq<Source>) {
    forall i :: 0 <= i < |sources| ==> Settles(c, rows, sources, i)
  }

  /** Steps that are not writes are reads. */
  predicate ReadsAreReads(c: Setup, rows: Rows) {
    forall key :: key in rows.steps && key.task == c.task && key.name !in WRITES ==> !rows.steps[key].isWrite
  }

  predicate NamedIn(sources: seq<Source>, name: string) {
    exists i :: 0 <= i < |sources| && sources[i].name == name
  }

  /** What collecting sources may change: rows of their names that are not completed. */
  ghost predicate Collected(c: Setup, d: Desk, d': Desk, sources: seq<Source>) {
    && d'.rows.tasks == d.rows.tasks && d'.evidence == d.evidence && d'.parameters == d.parameters && d'.log == d.log
    && ReadsAreReads(c, d'.rows)
    && (forall key: StepKey :: (key.task != c.task || !NamedIn(sources, key.name)) ==>
          (key in d'.rows.steps <==> key in d.rows.steps) && (key in d.rows.steps ==> d'.rows.steps[key] == d.rows.steps[key]))
    && (forall name :: IsDone(c, d.rows, name) ==> IsDone(c, d'.rows, name) && Stored(c, d'.rows, name) == Stored(c, d.rows, name))
  }

  lemma FirstSource(c: Setup, d: Desk, sources: seq<Source>)
    requires Manned(c, d) && ReadsAreReads(c, d.rows) && sources != [] && SourcesOk(sources)
    ensures var (d1, end) := RunStep(d, Key(c, sources[0].name), false, None, sources[0].action);
            && Collected(c, d, d1, sources)
            && (end.Value? <==> Succeeds(c, d.rows, sources, 0))
            && (end.Died? || (end.Raised? && !sources[0].optional) <==> !Settles(c, d.rows, sources, 0))
            && (if end.Died? then d1.memory == EMPTY_MEMORY else Manned(c, d1))
            && (forall n :: IsDone(c, d1.rows, n) <==> IsDone(c, d.rows, n) || (n == sources[0].name && Succeeds(c, d.rows, sources, 0)))
  {
    var name, action := sources[0].name, sources[0].action;
    assert name !in WRITES && NamedIn(sources, name);
    if !Blank(name) {
      StepExactly(c, d, name, false, None, action);
    }
  }

  lemma SucceedsLater(c: Setup, rows: Rows, rows1: Rows, sources: seq<Source>, i: nat)
    requires i + 1 < |sources|
    requires forall n :: IsDone(c, rows1, n) <==> IsDone(c, rows, n) || (n == sources[0].name && Succeeds(c, rows, sources, 0))
    ensures Succeeds(c, rows, sources, i + 1) <==> Succeeds(c, rows1, sources[1..], i)
  {
    var name, rest := sources[i + 1].name, sources[1..];
    if j :| 0 <= j <= i + 1 && sources[j].name == name && sources[j].action.Returns? {
      assert j > 0 ==> rest[j - 1] == sources[j];
    }
    if j :| 0 <= j <= i && rest[j].name == name && rest[j].action.Returns? {
      assert sources[j + 1] == rest[j];
    }
  }

  lemma SettlesLater(c: Setup, rows: Rows, rows1: Rows, sources: seq<Source>)
    requires sources != []
    requires forall n :: IsDone(c, rows1, n) <==> IsDone(c, rows, n) || (n == sources[0].name && Succeeds(c, rows, sources, 0))
    ensures AllSucceed(c, rows, sources) <==> Succeeds(c, rows, sources, 0) && AllSucceed(c, rows1, sources[1..])
    ensures AllSettle(c, rows, sources) <==> Settles(c, rows, sources, 0) && AllSettle(c, rows1, sources[1..])
  {
    forall i: nat | i + 1 < |sources|
      ensures Succeeds(c, rows, sources, i + 1) <==> Succeeds(c, rows1, sources[1..], i)
      ensures Settles(c, rows, sources, i + 1) <==> Settles(c, rows1, sources[1..], i)
    {
      SucceedsLater(c, rows, rows1, sources, i);
    }
    forall i | 0 <= i < |sources|
      ensures Succeeds(c, rows, sources, i) <==> if i == 0 then Succeeds(c, rows, sources, 0) else Succeeds(c, rows1, sources[1..], i - 1)
      ensures Settles(c, rows, sources, i) <==> if i == 0 then Settles(c, rows, sources, 0) else Settles(c, rows1, sources[1..], i - 1)
    {
      if i > 0 {
        assert Succeeds(c, rows, sources, i - 1 + 1) <==> Succeeds(c, rows1, sources[1..], i - 1);
      }
    }
    if AllSucceed(c, rows, sources) {
      forall i | 0 <= i < |sources[1..]| ensures Succeeds(c, rows1, sources[1..], i) {
        assert Succeeds(c, rows, sources, i + 1);
      }
    }
    if AllSettle(c, rows, sources) {
      forall i | 0 <= i < |sources[1..]| ensures Settles(c, rows1, sources[1..], i) {
        assert Settles(c, rows, sources, i + 1);
      }
    }
  }

  lemma CollectedThen(c: Setup, d: Desk, d1: Desk, d2: Desk, sources: seq<Source>)
    requires sources != [] && Collected(c, d, d1, sources) && Collected(c, d1, d2, sources[1..])
    ensures Collected(c, d, d2, sources)
  {
    forall name | NamedIn(sources[1..], name) ensures NamedIn(sources, name) {
      var i :| 0 <= i < |sources[1..]| && sources[1..][i].name == name;
      assert sources[i + 1].name == name;
    }
  }

  /** Collecting the sources ends normally exactly if all settle, without errors exactly if all succeed, and every one
      of them is completed then. */
  lemma {:induction false} SourcesExactly(c: Setup, d: Desk, sources: seq<Source>, errors: bool)
    requires Manned(c, d) && ReadsAreReads(c, d.rows) && SourcesOk(sources)
    ensures var (d', end) := RunSources(c, d, sources, errors);
            && Collected(c, d, d', sources)
            && (end.Value? <==> AllSettle(c, d.rows, sources))
            && (end == Value(Bool(false)) <==> !errors && AllSucceed(c, d.rows, sources))
            && (if end.Died? then d'.memory == EMPTY_MEMORY else Manned(c, d'))
            && (AllSucceed(c, d.rows, sources) ==> forall n :: NamedIn(sources, n) ==> IsDone(c, d'.rows, n))
    decreases |sources|
  {
    if sources != [] {
      FirstSource(c, d, sources);
      var (d1, end) := RunStep(d, Key(c, sources[0].name), false, None, sources[0].action);
      SettlesLater(c, d.rows, d1.rows, sources);
      if !(end.Died? || (end.Raised? && !sources[0].optional)) {
        var rest := sources[1..];
        SourcesExactly(c, d1, rest, errors || end.Raised?);
        var d2 := RunSources(c, d1, rest, errors || end.Raised?).0;
        CollectedThen(c, d, d1, d2, sources);
        forall n | NamedIn(sources, n) && AllSucceed(c, d.rows, sources) ensures IsDone(c, d2.rows, n) {
          var i :| 0 <= i < |sources| && sources[i].name == n;
          assert i > 0 ==> rest[i - 1].name == n;
          assert i == 0 ==> IsDone(c, d1.rows, n);
        }
      }
    }
  }

  /* ---------- the writes, exactly ---------- */

  /** The write has its result in the end. */
  predicate Goes(c: Setup, rows: Rows, name: string, action: Action) {
    IsDone(c, rows, name) || (Open(c, rows, name) && action.Returns?)
  }

  /** The result of a write that has one in the end. */
  function ResultOf(c: Setup, rows: Rows, name: string, value: Json): Json {
    if IsDone(c, rows, name) then Stored(c, rows, name) else value
  }

  function ValueOf(action: Action): Json {
    if action.Returns? then action.value else Null
  }

  /** What a write with a result adds to the log. */
  function Sent(c: Setup, rows: Rows, name: string, request: Entry, value: Json): seq<Entry> {
    if IsDone(c, rows, name) then [] else [request, StepDone(name, value, true)]
  }

  ghost predicate Written(c: Setup, d: Desk, d': Desk, name: string, request: Entry, value: Json) {
    && Around(c, d, d', name) && Manned(c, d') && IsDone(c, d'.rows, name) && Stored(c, d'.rows, name) == value
    && Class(c, d'.rows, name, true) && d'.log == d.log + Sent(c, d.rows, name, request, value)
  }

  lemma WriteNames()
    ensures !Blank(PUSH) && !Blank(PR) && !Blank(COMMENT) && PUSH != PR && PUSH != COMMENT && PR != COMMENT
  {
    assert PUSH[0] == 'g' && PR[0] == 'b' && COMMENT[0] == 'j';
  }

  /** The step failed or its process died, and the task goes on running. */
  ghost predicate Interrupted(c: Setup, d: Desk, d': Desk, end: End) {
    d'.rows.tasks == d.rows.tasks && if end.Died? then d'.memory == EMPTY_MEMORY else end.Raised? && Manned(c, d')
  }

  lemma WriteExactly(c: Setup, d: Desk, name: string, request: Entry, action: Action)
    requires Manned(c, d) && name in WRITES && Class(c, d.rows, name, true)
    ensures var (d', end) := RunStep(d, Key(c, name), true, Some(request), action);
            var value := ResultOf(c, d.rows, name, ValueOf(action));
            if Goes(c, d.rows, name, action) then end == Value(value) && Written(c, d, d', name, request, value)
            else Interrupted(c, d, d', end)
  {
    WriteNames();
    StepExactly(c, d, name, true, Some(request), action);
    assert d.log + [] == d.log;
  }

  /* ---------- the task's end, exactly ---------- */

  /** Completed, or failed, or left running by a process that died; and the caller is told so. */
  ghost predicate Ends(c: Setup, d: Desk, ending: Ending, completed: bool) {
    && c.task in d.rows.tasks
    && if completed then ending == Published && d.rows.tasks[c.task].status == TaskCompleted
       else || (ending == Paused && d.rows.tasks[c.task].status == TaskFailed)
            || (ending == Killed && d.rows.tasks[c.task].status == TaskRunning && d.memory == EMPTY_MEMORY)
  }

  lemma StoppedEnds(c: Setup, d: Desk, end: End)
    requires c.task in d.rows.tasks && d.rows.tasks[c.task].status == TaskRunning
    requires if end.Died? then d.memory == EMPTY_MEMORY else Manned(c, d)
    ensures var (d', ending) := Stopped(c, d, end); Ends(c, d', ending, false)
  {
  }

  /** Every step of the task but these is completed. */
  predicate DoneBut(c: Setup, rows: Rows, names: set<string>) {
    forall key :: key in rows.steps && key.task == c.task && key.name !in names ==> rows.steps[key].status == StepCompleted
  }

  /** The result of a published task: the earlier one with what the publication adds. */
  ghost predicate ResultTold(was: Option<Json>, result: Option<Json>, refreshed: bool, review: Json, pr: Json, comment: Json, commit: Json) {
    && result.Some? && result.value.Object?
    && var fields := result.value.fields;
       && "pull_request" in fields && fields["pull_request"] == pr && "jira_comment" in fields && fields["jira_comment"] == comment
       && "published_commit" in fields && fields["published_commit"] == commit && "next_action" in fields && fields["next_action"].Text?
       && (refreshed ==> "review" in fields && fields["review"] == review)
       && forall name :: name !in {"pull_request", "jira_comment", "published_commit", "next_action"} && !(refreshed && name == "review") ==>
            if was.Some? && HasField(was.value, name) then name in fields && fields[name] == was.value.fields[name] else name !in fields
  }

  lemma ResultNames()
    ensures "pull_request" != "jira_comment" && "pull_request" != "published_commit" && "pull_request" != "next_action"
    ensures "jira_comment" != "published_commit" && "jira_comment" != "next_action" && "published_commit" != "next_action"
    ensures "review" !in {"pull_request", "jira_comment", "published_commit", "next_action"}
  {
    assert "pull_request"[1] == 'u' && "jira_comment"[1] == 'i' && "published_commit"[2] == 'b' && "next_action"[0] == 'n' && "pull_request"[2] == 'l';
    assert "review"[0] == 'r' && "jira_comment"[0] == 'j' && "pull_request"[0] == 'p' && "published_commit"[0] == 'p';
  }

  lemma SummaryTold(c: Setup, rows: Rows, w: World, pr: Json, comment: Json, commit: Json)
    requires c.task in rows.tasks
    ensures ResultTold(rows.tasks[c.task].result, Some(Summary(c, rows, w, pr, comment, commit)), w.refreshed, w.review, pr, comment, commit)
  {
    ResultNames();
  }

  /** The task finished with its new result, nothing else changed. */
  ghost predicate FinishedWith(c: Setup, d: Desk, d': Desk, w: World, pr: Json, comment: Json, push: Json) {
    && HasField(push, "commit") && c.task in d.rows.tasks && c.task in d'.rows.tasks
    && d'.rows.steps == d.rows.steps && d'.log == d.log + [Finished] && d'.parameters == d.parameters && d'.evidence == d.evidence
    && ResultTold(d.rows.tasks[c.task].result, d'.rows.tasks[c.task].result, w.refreshed, w.review, pr, comment, push.fields["commit"])
  }

  lemma FinishExactly(c: Setup, d: Desk, w: World, pr: Json, comment: Json, push: Json)
    requires Manned(c, d)
    ensures var (d', ending) := FinishTask(c, d, w, pr, comment, push);
            var ok := HasField(push, "commit") && DoneBut(c, d.rows, {});
            Ends(c, d', ending, ok) && (ok ==> FinishedWith(c, d, d', w, pr, comment, push))
  {
    if HasField(push, "commit") {
      SummaryTold(c, d.rows, w, pr, comment, push.fields["commit"]);
    }
    assert DoneBut(c, d.rows, {}) <==> AllCompleted(d.rows, c.task) by {
      assert forall key :: key in d.rows.steps && key.task == c.task ==> key.name !in {};
    }
  }

  lemma DoneButOne(c: Setup, d: Desk, d': Desk, name: string, names: set<string>)
    requires Around(c, d, d', name) && IsDone(c, d'.rows, name)
    ensures DoneBut(c, d'.rows, names) <==> DoneBut(c, d.rows, names + {name})
  {
    forall key | key in d.rows.steps && key.task == c.task && key.name != name ensures key in d'.rows.steps && d'.rows.steps[key] == d.rows.steps[key] {
    }
    if DoneBut(c, d'.rows, names) {
      forall key | key in d.rows.steps && key.task == c.task && key.name !in names + {name} ensures d.rows.steps[key].status == StepCompleted {
        assert key in d'.rows.steps;
      }
    }
  }

  /* ---------- the three writes and the end ---------- */

  /** Only the rows of these writes differ. */
  ghost predicate OnlyRows(c: Setup, rows: Rows, rows': Rows, writes: set<string>) {
    forall key: StepKey :: key.task != c.task || key.name !in writes ==>
      (key in rows'.steps <==> key in rows.steps) && (key in rows.steps ==> rows'.steps[key] == rows.steps[key])
  }

  ghost predicate HaveResults(c: Setup, rows: Rows, writes: set<string>, push: Json, pr: Json, comment: Json) {
    && (PUSH in writes ==> IsDone(c, rows, PUSH) && Stored(c, rows, PUSH) == push)
    && (PR in writes ==> IsDone(c, rows, PR) && Stored(c, rows, PR) == pr)
    && (COMMENT in writes ==> IsDone(c, rows, COMMENT) && Stored(c, rows, COMMENT) == comment)
  }

  /** From here the call ran these writes, with these results and this trace, and finished the task. */
  ghost predicate Told(c: Setup, d: Desk, d': Desk, w: World, writes: set<string>, said: seq<Entry>, push: Json, pr: Json, comment: Json) {
    && d'.log == d.log + said + [Finished] && d'.parameters == d.parameters && d'.evidence == d.evidence
    && OnlyRows(c, d.rows, d'.rows, writes) && HaveResults(c, d'.rows, writes, push, pr, comment)
    && c.task in d.rows.tasks && c.task in d'.rows.tasks && HasField(push, "commit")
    && ResultTold(d.rows.tasks[c.task].result, d'.rows.tasks[c.task].result, w.refreshed, w.review, pr, comment, push.fields["commit"])
  }

  lemma OneMoreResult(c: Setup, rows1: Rows, rows': Rows, name: string, value: Json, writes: set<string>, push: Json, pr: Json, comment: Json)
    requires OnlyRows(c, rows1, rows', writes) && HaveResults(c, rows', writes, push, pr, comment)
    requires IsDone(c, rows1, name) && Stored(c, rows1, name) == value
    requires name in WRITES && name !in writes && value == if name == PUSH then push else if name == PR then pr else comment
    ensures HaveResults(c, rows', writes + {name}, push, pr, comment)
  {
    WriteNames();
    var key := Key(c, name);
    assert key.task == c.task && key.name == name;
    assert rows'.steps[key] == rows1.steps[key];
    assert IsDone(c, rows', name) && Stored(c, rows', name) == value;
  }

  lemma OneMoreRow(c: Setup, d: Desk, d1: Desk, rows': Rows, name: string, writes: set<string>)
    requires Around(c, d, d1, name) && OnlyRows(c, d1.rows, rows', writes)
    ensures OnlyRows(c, d.rows, rows', writes + {name})
  {
  }

  lemma WrittenThenTold(c: Setup, d: Desk, d1: Desk, d': Desk, w: World, name: string, request: Entry, value: Json, writes: set<string>,
                        said: seq<Entry>, push: Json, pr: Json, comment: Json)
    requires Written(c, d, d1, name, request, value) && Told(c, d1, d', w, writes, said, push, pr, comment)
    requires name in WRITES && name !in writes && value == if name == PUSH then push else if name == PR then pr else comment
    ensures Told(c, d, d', w, writes + {name}, Sent(c, d.rows, name, request, value) + said, push, pr, comment)
  {
    var sent := Sent(c, d.rows, name, request, value);
    assert d.log + sent + said + [Finished] == d.log + (sent + said) + [Finished];
    OneMoreRow(c, d, d1, d'.rows, name, writes);
    OneMoreResult(c, d1.rows, d'.rows, name, value, writes, push, pr, comment);
  }

  lemma FinishedIsTold(c: Setup, d: Desk, d': Desk, w: World, push: Json, pr: Json, comment: Json)
    requires FinishedWith(c, d, d', w, pr, comment, push)
    ensures Told(c, d, d', w, {}, [], push, pr, comment)
  {
    assert d.log + [] == d.log;
  }

  predicate CommentGoes(c: Setup, rows: Rows, w: World, push: Json, pr: Json) {
    Goes(c, rows, COMMENT, w.comment) && HasField(push, "commit") && (IsDone(c, rows, COMMENT) || HasField(pr, "url"))
  }

  function CommentOf(c: Setup, rows: Rows, w: World): Json {
    ResultOf(c, rows, COMMENT, ValueOf(w.comment))
  }

  lemma CommentExactly(c: Setup, d: Desk, params: Params, w: World, push: Json, pr: Json)
    requires Manned(c, d) && Class(c, d.rows, COMMENT, true)
    ensures var (d', ending) := CommentStage(c, d, params, w, push, pr);
            var comment := CommentOf(c, d.rows, w);
            var ok := CommentGoes(c, d.rows, w, push, pr) && DoneBut(c, d.rows, {COMMENT});
            && Ends(c, d', ending, ok)
            && (ok ==> Told(c, d, d', w, {COMMENT}, Sent(c, d.rows, COMMENT, CommentSent(pr, push, params), comment), push, pr, comment))
  {
    var action := Given(HasField(pr, "url") && HasField(push, "commit"), w.comment);
    var request := CommentSent(pr, push, params);
    WriteExactly(c, d, COMMENT, request, action);
    var (d1, end) := RunStep(d, Key(c, COMMENT), true, Some(request), action);
    if end.Value? {
      FinishExactly(c, d1, w, pr, end.value, push);
      DoneButOne(c, d, d1, COMMENT, {});
      assert {} + {COMMENT} == {COMMENT};
      var d' := FinishTask(c, d1, w, pr, end.value, push).0;
      if HasField(push, "commit") && DoneBut(c, d1.rows, {}) {
        FinishedIsTold(c, d1, d', w, push, pr, end.value);
        WrittenThenTold(c, d, d1, d', w, COMMENT, request, end.value, {}, [], push, pr, end.value);
        assert Sent(c, d.rows, COMMENT, request, end.value) + [] == Sent(c, d.rows, COMMENT, request, end.value);
      }
    } else {
      StoppedEnds(c, d1, end);
    }
  }

  predicate PrGoes(c: Setup, rows: Rows, w: World, push: Json) {
    && Goes(c, rows, PR, w.pr) && (IsDone(c, rows, PR) || HasField(push, "branch"))
    && CommentGoes(c, rows, w, push, PrOf(c, rows, w))
  }

  function PrOf(c: Setup, rows: Rows, w: World): Json {
    ResultOf(c, rows, PR, ValueOf(w.pr))
  }

  function PrSaid(c: Setup, rows: Rows, params: Params, w: World, push: Json): seq<Entry> {
    Sent(c, rows, PR, PrRequested(push, params), PrOf(c, rows, w))
    + Sent(c, rows, COMMENT, CommentSent(PrOf(c, rows, w), push, params), CommentOf(c, rows, w))
  }

  lemma OtherWriteSame(c: Setup, d: Desk, d1: Desk, name: string, other: string, action: Action)
    requires Around(c, d, d1, name) && name != other
    ensures IsDone(c, d1.rows, other) == IsDone(c, d.rows, other) && Goes(c, d1.rows, other, action) == Goes(c, d.rows, other, action)
    ensures ResultOf(c, d1.rows, other, ValueOf(action)) == ResultOf(c, d.rows, other, ValueOf(action))
    ensures Class(c, d1.rows, other, true) == Class(c, d.rows, other, true)
  {
    assert Key(c, other) != Key(c, name);
  }

  lemma PrExactly(c: Setup, d: Desk, params: Params, w: World, push: Json)
    requires Manned(c, d) && Class(c, d.rows, PR, true) && Class(c, d.rows, COMMENT, true)
    ensures var (d', ending) := PrStage(c, d, params, w, push);
            var ok := PrGoes(c, d.rows, w, push) && DoneBut(c, d.rows, {PR, COMMENT});
            Ends(c, d', ending, ok)
            && (ok ==> Told(c, d, d', w, {PR, COMMENT}, PrSaid(c, d.rows, params, w, push), push, PrOf(c, d.rows, w), CommentOf(c, d.rows, w)))
  {
    WriteNames();
    var action, request := Given(HasField(push, "branch"), w.pr), PrRequested(push, params);
    WriteExactly(c, d, PR, request, action);
    var (d1, end) := RunStep(d, Key(c, PR), true, Some(request), action);
    if end.Value? {
      OtherWriteSame(c, d, d1, PR, COMMENT, w.comment);
      CommentExactly(c, d1, params, w, push, end.value);
      DoneButOne(c, d, d1, PR, {COMMENT});
      assert {COMMENT} + {PR} == {PR, COMMENT};
      if CommentGoes(c, d1.rows, w, push, end.value) && DoneBut(c, d1.rows, {COMMENT}) {
        var said := Sent(c, d1.rows, COMMENT, CommentSent(end.value, push, params), CommentOf(c, d1.rows, w));
        WrittenThenTold(c, d, d1, CommentStage(c, d1, params, w, push, end.value).0, w, PR, request, end.value, {COMMENT}, said, push, end.value, CommentOf(c, d1.rows, w));
      }
    } else {
      StoppedEnds(c, d1, end);
    }
  }

  function PushOf(c: Setup, rows: Rows, params: Params, w: World): Json {
    ResultOf(c, rows, PUSH, Object(map["branch" := Text(c.branch), "commit" := Text(w.gate.head), "remote" := Text(params.remote)]))
  }

  predicate PushGoes(c: Setup, rows: Rows, params: Params, w: World) {
    Goes(c, rows, PUSH, w.push) && PrGoes(c, rows, w, PushOf(c, rows, params, w))
  }

  /** The requests that were not done yet, in order, each followed by its result. */
  function PushSaid(c: Setup, rows: Rows, params: Params, w: World): seq<Entry> {
    var push := PushOf(c, rows, params, w);
    Sent(c, rows, PUSH, Pushed(c.branch, w.gate.head, params), push) + PrSaid(c, rows, params, w, push)
  }

  predicate WritesAreWrites(c: Setup, rows: Rows) {
    Class(c, rows, PUSH, true) && Class(c, rows, PR, true) && Class(c, rows, COMMENT, true)
  }

  lemma PushedFirst(c: Setup, d: Desk, d1: Desk, params: Params, w: World)
    requires Around(c, d, d1, PUSH) && WritesAreWrites(c, d.rows)
    ensures var push := PushOf(c, d.rows, params, w);
            && PrGoes(c, d1.rows, w, push) == PrGoes(c, d.rows, w, push) && PrSaid(c, d1.rows, params, w, push) == PrSaid(c, d.rows, params, w, push)
            && PrOf(c, d1.rows, w) == PrOf(c, d.rows, w) && CommentOf(c, d1.rows, w) == CommentOf(c, d.rows, w)
            && Class(c, d1.rows, PR, true) && Class(c, d1.rows, COMMENT, true)
  {
    WriteNames();
    OtherWriteSame(c, d, d1, PUSH, PR, w.pr);
    OtherWriteSame(c, d, d1, PUSH, COMMENT, w.comment);
  }

  lemma PushExactly(c: Setup, d: Desk, params: Params, w: World)
    requires Manned(c, d) && WritesAreWrites(c, d.rows)
    requires IsDone(c, d.rows, PUSH) || (w.gate.branch == Some(c.branch) && !w.gate.dirty)
    ensures var (d', ending) := PushStage(c, d, params, w);
            var ok := PushGoes(c, d.rows, params, w) && DoneBut(c, d.rows, WRITES);
            && Ends(c, d', ending, ok)
            && (ok ==> Told(c, d, d', w, WRITES, PushSaid(c, d.rows, params, w), PushOf(c, d.rows, params, w), PrOf(c, d.rows, w), CommentOf(c, d.rows, w)))
  {
    WriteNames();
    var branch := if w.gate.branch.Some? then w.gate.branch.value else "";
    var action, request := PushAction(w, params), Pushed(branch, w.gate.head, params);
    WriteExactly(c, d, PUSH, request, action);
    var (d1, end) := RunStep(d, Key(c, PUSH), true, Some(request), action);
    if end.Value? {
      PushedFirst(c, d, d1, params, w);
      PrExactly(c, d1, params, w, end.value);
      DoneButOne(c, d, d1, PUSH, {PR, COMMENT});
      assert {PR, COMMENT} + {PUSH} == WRITES;
      if PrGoes(c, d1.rows, w, end.value) && DoneBut(c, d1.rows, {PR, COMMENT}) {
        WrittenThenTold(c, d, d1, PrStage(c, d1, params, w, end.value).0, w, PUSH, request, end.value, {PR, COMMENT},
                        PrSaid(c, d1.rows, params, w, end.value), end.value, PrOf(c, d1.rows, w), CommentOf(c, d1.rows, w));
      }
    } else {
      StoppedEnds(c, d1, end);
    }
  }

  /* ---------- the whole call ---------- */

  /** Some read of the task is not completed. */
  predicate SomeReadUnfinished(c: Setup, rows: Rows) {
    exists key :: key in rows.steps && key.task == c.task && !rows.steps[key].isWrite && rows.steps[key].status != StepCompleted
  }

  /** The last check run passed at the commit that is checked out clean on the task's branch. */
  predicate Approved(c: Setup, log: seq<Entry>, gate: Worktree) {
    LatestCheck(log).Some? && Passing(c, LatestCheck(log).value, gate.head) && gate.branch == Some(c.branch) && !gate.dirty
  }

  /** Each read is completed, or is a source that is collected again. */
  predicate ReadsCovered(c: Setup, rows: Rows, sources: seq<Source>) {
    forall key :: key in rows.steps && key.task == c.task && key.name !in WRITES ==> rows.steps[key].status == StepCompleted || NamedIn(sources, key.name)
  }

  /** All that it takes to publish. */
  predicate Ready(c: Setup, d: Desk, params: Params, w: World) {
    && c.task in d.rows.tasks && d.rows.tasks[c.task].status != TaskCompleted
    && (SomeReadUnfinished(c, d.rows) ==> AllSucceed(c, d.rows, w.sources)) && ReadsCovered(c, d.rows, w.sources)
    && (IsDone(c, d.rows, PUSH) || Approved(c, d.log, w.gate)) && PushGoes(c, d.rows, params, w)
  }

  function Names(sources: seq<Source>): set<string> {
    set i | 0 <= i < |sources| :: sources[i].name
  }

  /** What a publication that went through leaves: at most rows of sources and the three writes changed, the writes have
      their results, the requests not done before were sent in order, and the task is finished with its new result. */
  ghost predicate PublishedTold(c: Setup, d: Desk, d': Desk, params: Params, w: World) {
    var push := PushOf(c, d.rows, params, w);
    var world := w.(refreshed := SomeReadUnfinished(c, d.rows));
    Told(c, d, d', world, WRITES + Names(w.sources), PushSaid(c, d.rows, params, w), push, PrOf(c, d.rows, w), CommentOf(c, d.rows, w))
  }

  lemma CollectedWrites(c: Setup, d: Desk, d1: Desk, params: Params, w: World)
    requires Collected(c, d, d1, w.sources) && SourcesOk(w.sources)
    ensures PushGoes(c, d1.rows, params, w) == PushGoes(c, d.rows, params, w) && PushSaid(c, d1.rows, params, w) == PushSaid(c, d.rows, params, w)
    ensures PushOf(c, d1.rows, params, w) == PushOf(c, d.rows, params, w)
    ensures PrOf(c, d1.rows, w) == PrOf(c, d.rows, w) && CommentOf(c, d1.rows, w) == CommentOf(c, d.rows, w)
    ensures WritesAreWrites(c, d1.rows) == WritesAreWrites(c, d.rows) && IsDone(c, d1.rows, PUSH) == IsDone(c, d.rows, PUSH)
  {
    assert !NamedIn(w.sources, PUSH) && !NamedIn(w.sources, PR) && !NamedIn(w.sources, COMMENT);
    assert Key(c, PUSH).name == PUSH && Key(c, PR).name == PR && Key(c, COMMENT).name == COMMENT;
  }

  lemma CollectedReads(c: Setup, d: Desk, d1: Desk, sources: seq<Source>)
    requires Collected(c, d, d1, sources) && SourcesOk(sources) && forall n :: NamedIn(sources, n) ==> IsDone(c, d1.rows, n)
    ensures DoneBut(c, d1.rows, WRITES) <==> ReadsCovered(c, d.rows, sources)
  {
    forall key | key in d1.rows.steps && key.task == c.task && NamedIn(sources, key.name) ensures d1.rows.steps[key].status == StepCompleted {
      assert Key(c, key.name) == key && IsDone(c, d1.rows, key.name);
    }
    if ReadsCovered(c, d.rows, sources) {
      forall key | key in d1.rows.steps && key.task == c.task && key.name !in WRITES ensures d1.rows.steps[key].status == StepCompleted {
        assert !NamedIn(sources, key.name) ==> key in d.rows.steps && d1.rows.steps[key] == d.rows.steps[key];
      }
    }
    if DoneBut(c, d1.rows, WRITES) {
      forall key | key in d.rows.steps && key.task == c.task && key.name !in WRITES && !NamedIn(sources, key.name)
        ensures d.rows.steps[key].status == StepCompleted
      {
        assert key in d1.rows.steps && d1.rows.steps[key] == d.rows.steps[key];
      }
    }
  }

  lemma NamesAreNamed(sources: seq<Source>)
    ensures forall n :: NamedIn(sources, n) <==> n in Names(sources)
  {
    assert forall i :: 0 <= i < |sources| ==> sources[i].name in Names(sources);
  }

  lemma MoreRows(c: Setup, rows: Rows, rows': Rows, writes: set<string>, others: set<string>)
    requires OnlyRows(c, rows, rows', writes)
    ensures OnlyRows(c, rows, rows', writes + others)
  {
  }

  lemma CollectedThenTold(c: Setup, d: Desk, d1: Desk, d': Desk, sources: seq<Source>, w: World, said: seq<Entry>, push: Json, pr: Json, comment: Json)
    requires Collected(c, d, d1, sources) && Told(c, d1, d', w, WRITES, said, push, pr, comment)
    ensures Told(c, d, d', w, WRITES + Names(sources), said, push, pr, comment)
  {
    MoreRows(c, d1.rows, d'.rows, WRITES, Names(sources));
    NamesAreNamed(sources);
  }

  lemma GateExactly(c: Setup, before: Rows, d: Desk, params: Params, w: World)
    requires Manned(c, d) && WritesAreWrites(c, d.rows) && EvidenceLogged(c, d) && IsDone(c, before, PUSH) == IsDone(c, d.rows, PUSH)
    ensures var (d', ending) := GateStage(c, before, d, params, w);
            var ok := (IsDone(c, d.rows, PUSH) || Approved(c, d.log, w.gate)) && PushGoes(c, d.rows, params, w) && DoneBut(c, d.rows, WRITES);
            && Ends(c, d', ending, ok)
            && (ok ==> Told(c, d, d', w, WRITES, PushSaid(c, d.rows, params, w), PushOf(c, d.rows, params, w), PrOf(c, d.rows, w), CommentOf(c, d.rows, w)))
  {
    assert GateOpen(c, d.evidence, w.gate) <==> Approved(c, d.log, w.gate);
    if IsDone(c, d.rows, PUSH) || Approved(c, d.log, w.gate) {
      PushExactly(c, d, params, w);
    } else {
      StoppedEnds(c, d, Raised);
    }
  }

  lemma OrderedClasses(c: Setup, rows: Rows)
    requires RowsOrdered(c, rows)
    ensures WritesAreWrites(c, rows) && ReadsAreReads(c, rows)
  {
    assert Key(c, PUSH).name == PUSH && Key(c, PR).name == PR && Key(c, COMMENT).name == COMMENT;
  }

  lemma NothingUnfinished(c: Setup, rows: Rows, sources: seq<Source>)
    requires RowsOrdered(c, rows) && !SomeReadUnfinished(c, rows)
    ensures DoneBut(c, rows, WRITES) && ReadsCovered(c, rows, sources)
  {
    forall key | key in rows.steps && key.task == c.task && key.name !in WRITES ensures rows.steps[key].status == StepCompleted {
      assert !rows.steps[key].isWrite;
    }
  }

  /** The desk after `resume` took the task. */
  ghost predicate Taken(c: Setup, d: Desk, d1: Desk) {
    && Manned(c, d1) && d1.rows.steps == d.rows.steps && d1.evidence == d.evidence && d1.parameters == d.parameters && d1.log == d.log
    && c.task in d.rows.tasks && d1.rows.tasks[c.task].result == d.rows.tasks[c.task].result
  }

  lemma ResumeTakes(c: Setup, d: Desk)
    requires c.task in d.rows.tasks && d.rows.tasks[c.task].status != TaskCompleted
    ensures var o := DoResume(d.rows, d.memory, c.task); o.reply == Done && Taken(c, d, d.(rows := o.rows, memory := o.memory))
  {
  }

  /** The step rows alone decide what a publication does. */
  lemma StepsDecide(c: Setup, rows: Rows, rows1: Rows, params: Params, w: World)
    requires rows1.steps == rows.steps
    ensures PushGoes(c, rows1, params, w) == PushGoes(c, rows, params, w) && PushSaid(c, rows1, params, w) == PushSaid(c, rows, params, w)
    ensures PushOf(c, rows1, params, w) == PushOf(c, rows, params, w) && PrOf(c, rows1, w) == PrOf(c, rows, w) && CommentOf(c, rows1, w) == CommentOf(c, rows, w)
    ensures WritesAreWrites(c, rows1) == WritesAreWrites(c, rows) && ReadsAreReads(c, rows1) == ReadsAreReads(c, rows)
    ensures IsDone(c, rows1, PUSH) == IsDone(c, rows, PUSH) && DoneBut(c, rows1, WRITES) == DoneBut(c, rows, WRITES)
    ensures AllSucceed(c, rows1, w.sources) == AllSucceed(c, rows, w.sources) && AllSettle(c, rows1, w.sources) == AllSettle(c, rows, w.sources)
    ensures ReadsCovered(c, rows1, w.sources) == ReadsCovered(c, rows, w.sources)
  {
    assert forall i :: 0 <= i < |w.sources| ==> Succeeds(c, rows1, w.sources, i) == Succeeds(c, rows, w.sources, i);
    assert forall i :: 0 <= i < |w.sources| ==> Settles(c, rows1, w.sources, i) == Settles(c, rows, w.sources, i);
  }

  lemma TakenThenTold(c: Setup, d: Desk, d1: Desk, d': Desk, w: World, writes: set<string>, said: seq<Entry>, push: Json, pr: Json, comment: Json)
    requires Taken(c, d, d1) && Told(c, d1, d', w, writes, said, push, pr, comment)
    ensures Told(c, d, d', w, writes, said, push, pr, comment)
  {
  }

  /** The refresh and the rest of a publication whose task is taken. */
  lemma RefreshedThenTold(c: Setup, d: Desk, d1: Desk, params: Params, w: World)
    requires EvidenceLogged(c, d) && RowsOrdered(c, d.rows) && Taken(c, d, d1) && SourcesOk(w.sources)
    requires SomeReadUnfinished(c, d.rows) && d.rows.tasks[c.task].status != TaskCompleted && AllSucceed(c, d.rows, w.sources)
    ensures var (d2, end) := RunSources(c, d1, w.sources, false);
            var (d', ending) := GateStage(c, d.rows, d2, params, w.(refreshed := true));
            && end == Value(Bool(false)) && Ends(c, d', ending, Ready(c, d, params, w)) && (Ready(c, d, params, w) ==> PublishedTold(c, d, d', params, w))
  {
    OrderedClasses(c, d.rows);
    StepsDecide(c, d.rows, d1.rows, params, w);
    SourcesExactly(c, d1, w.sources, false);
    var d2, world := RunSources(c, d1, w.sources, false).0, w.(refreshed := true);
    CollectedWrites(c, d1, d2, params, w);
    CollectedReads(c, d1, d2, w.sources);
    SameWorld(c, d2.rows, params, w, true);
    GateExactly(c, d.rows, d2, params, world);
    if Ready(c, d, params, w) {
      var d', push, pr, comment := GateStage(c, d.rows, d2, params, world).0, PushOf(c, d.rows, params, w), PrOf(c, d.rows, w), CommentOf(c, d.rows, w);
      CollectedThenTold(c, d1, d2, d', w.sources, world, PushSaid(c, d.rows, params, w), push, pr, comment);
      TakenThenTold(c, d, d1, d', world, WRITES + Names(w.sources), PushSaid(c, d.rows, params, w), push, pr, comment);
    }
  }

  lemma SameWorld(c: Setup, rows: Rows, params: Params, w: World, refreshed: bool)
    ensures var world := w.(refreshed := refreshed);
            && PushGoes(c, rows, params, world) == PushGoes(c, rows, params, w) && PushSaid(c, rows, params, world) == PushSaid(c, rows, params, w)
            && PushOf(c, rows, params, world) == PushOf(c, rows, params, w) && PrOf(c, rows, world) == PrOf(c, rows, w)
            && CommentOf(c, rows, world) == CommentOf(c, rows, w)
  {
  }

  lemma FailedRefreshEnds(c: Setup, d: Desk, d1: Desk, params: Params, w: World)
    requires RowsOrdered(c, d.rows) && Taken(c, d, d1) && SourcesOk(w.sources) && !AllSucceed(c, d.rows, w.sources)
    ensures var (d2, end) := RunSources(c, d1, w.sources, false);
            var (d', ending) := Stopped(c, d2, end);
            end != Value(Bool(false)) && Ends(c, d', ending, false)
  {
    OrderedClasses(c, d.rows);
    StepsDecide(c, d.rows, d1.rows, params, w);
    SourcesExactly(c, d1, w.sources, false);
    var (d2, end) := RunSources(c, d1, w.sources, false);
    StoppedEnds(c, d2, end);
  }

  lemma NoSourcesThenTold(c: Setup, d: Desk, d1: Desk, params: Params, w: World)
    requires EvidenceLogged(c, d) && RowsOrdered(c, d.rows) && Taken(c, d, d1)
    requires !SomeReadUnfinished(c, d.rows) && d.rows.tasks[c.task].status != TaskCompleted
    ensures var (d', ending) := GateStage(c, d.rows, d1, params, w.(refreshed := false));
            && Ends(c, d', ending, Ready(c, d, params, w)) && (Ready(c, d, params, w) ==> PublishedTold(c, d, d', params, w))
  {
    var world := w.(refreshed := false);
    OrderedClasses(c, d.rows);
    NothingUnfinished(c, d.rows, w.sources);
    StepsDecide(c, d.rows, d1.rows, params, w);
    SameWorld(c, d1.rows, params, w, false);
    GateExactly(c, d.rows, d1, params, world);
    if Ready(c, d, params, w) {
      var d', push, pr, comment := GateStage(c, d.rows, d1, params, world).0, PushOf(c, d.rows, params, w), PrOf(c, d.rows, w), CommentOf(c, d.rows, w);
      TakenThenTold(c, d, d1, d', world, WRITES, PushSaid(c, d.rows, params, w), push, pr, comment);
      MoreRows(c, d.rows, d'.rows, WRITES, Names(w.sources));
    }
  }

  lemma RunPublishExactly(c: Setup, d: Desk, params: Params, w: World)
    requires Inv(c, d) && SourcesOk(w.sources) && d.rows.tasks[c.task].status != TaskCompleted
    ensures var (d', ending) := RunPublish(c, d, params, w);
            && Ends(c, d', ending, Ready(c, d, params, w))
            && (Ready(c, d, params, w) ==> PublishedTold(c, d, d', params, w))
  {
    ResumeTakes(c, d);
    var o := DoResume(d.rows, d.memory, c.task);
    var d1 := d.(rows := o.rows, memory := o.memory);
    if SomeReadUnfinished(c, d.rows) {
      if AllSucceed(c, d.rows, w.sources) {
        RefreshedThenTold(c, d, d1, params, w);
      } else {
        FailedRefreshEnds(c, d, d1, params, w);
      }
    } else {
      NoSourcesThenTold(c, d, d1, params, w);
    }
  }

  /* ---------- the calls of the user ---------- */

  /** `publish` may go ahead. */
  predicate Publishable(c: Setup, d: Desk, params: Params) {
    && c.hasRepository && c.task in d.rows.tasks && d.rows.tasks[c.task].status != TaskCancelled && d.rows.tasks[c.task].status != TaskCompleted
    && ((exists key :: key in d.rows.steps && key.task == c.task && d.rows.steps[key].isWrite) ==> d.parameters.None? || d.parameters == Some(params))
  }

  /** `publish` publishes exactly if it may go ahead and all is ready, and says and leaves then what it should; if it may
      not go ahead it changes nothing, and otherwise the task has failed, or its process died. */
  lemma PublishesExactly(c: Setup, d: Desk, params: Params, w: World)
    requires Inv(c, d) && SourcesOk(w.sources)
    ensures var (d', ending) := DoPublish(c, d, params, w);
            var given := d.(parameters := Some(params));
            && Perform(c, d, Publish(params, w)) == d'
            && if !Publishable(c, d, params) then d' == d && ending == if d.rows.tasks[c.task].status == TaskCompleted then Skipped else Rejected
               else && d'.parameters == Some(params) && Ends(c, d', ending, Ready(c, given, params, w))
                    && (Ready(c, given, params, w) ==> PublishedTold(c, given, d', params, w))
  {
    if Publishable(c, d, params) {
      var given := d.(parameters := Some(params));
      ReplacedParametersOk(c, d, params);
      RunPublishExactly(c, given, params, w);
      RunPublishKeepsInv(c, given, params, w);
    }
  }

  /** Resuming a publication is publishing with the parameters on file; it also takes up cancelled tasks. */
  lemma ResumesExactly(c: Setup, d: Desk, w: World)
    requires Inv(c, d) && SourcesOk(w.sources) && d.parameters.Some?
    ensures var (d', ending) := DoResumeTask(c, d, w);
            var params := d.parameters.value;
            && Perform(c, d, ResumeTask(w)) == d'
            && if d.rows.tasks[c.task].status == TaskCompleted then d' == d && ending == Skipped
               else Ends(c, d', ending, Ready(c, d, params, w)) && (Ready(c, d, params, w) ==> PublishedTold(c, d, d', params, w))
  {
    if d.rows.tasks[c.task].status != TaskCompleted {
      var o, params := DoResume(d.rows, d.memory, c.task), d.parameters.value;
      var d1 := d.(rows := o.rows, memory := o.memory);
      ResumedKeepsInv(c, d);
      RunPublishExactly(c, d1, params, w);
      StepsDecide(c, d.rows, d1.rows, params, w);
      assert SomeReadUnfinished(c, d1.rows) == SomeReadUnfinished(c, d.rows);
    }
  }

  /** Without a publication on file, resuming collects the sources and waits with the handoff exactly if all settle. */
  lemma DevelopsExactly(c: Setup, d: Desk, w: World)
    requires Inv(c, d) && SourcesOk(w.sources) && d.parameters.None? && d.rows.tasks[c.task].status != TaskCompleted
    ensures var (d', ending) := DoResumeTask(c, d, w);
            && Perform(c, d, ResumeTask(w)) == d' && c.task in d'.rows.tasks && d'.log == d.log
            && if AllSettle(c, d.rows, w.sources)
               then ending == Published && d'.rows.tasks[c.task].status == TaskWaiting && d'.rows.tasks[c.task].result == Some(w.handoff)
               else Ends(c, d', ending, false)
  {
    var o := DoResume(d.rows, d.memory, c.task);
    var d1 := d.(rows := o.rows, memory := o.memory);
    ResumeTakes(c, d);
    OrderedClasses(c, d.rows);
    SettleBySteps(c, d.rows, d1.rows, w.sources);
    SourcesExactly(c, d1, w.sources, false);
    var (d2, end) := RunSources(c, d1, w.sources, false);
    if !end.Value? {
      StoppedEnds(c, d2, end);
    }
  }

  lemma SettleBySteps(c: Setup, rows: Rows, rows1: Rows, sources: seq<Source>)
    requires rows1.steps == rows.steps
    ensures AllSettle(c, rows1, sources) == AllSettle(c, rows, sources) && ReadsAreReads(c, rows1) == ReadsAreReads(c, rows)
  {
    assert forall i :: 0 <= i < |sources| ==> Settles(c, rows1, sources, i) == Settles(c, rows, sources, i);
  }

  /** A check run of the task decides what may be pushed from then on: exactly the commit it passed at, if it did. */
  lemma ChecksExactly(c: Setup, d: Desk, before: Worktree, exits: seq<int>, after: Worktree, gate: Worktree)
    requires Inv(c, d)
    ensures var (d', ending) := RunChecks(c, d, before, exits, after);
            && Perform(c, d, Check(before, exits, after)) == d'
            && if c.task in d.rows.tasks && d.rows.tasks[c.task].status != TaskCancelled && c.hasChecks && before.branch == Some(c.branch) then
              && ending == Published && d'.log == d.log + [Checked(before, exits, after)] && d'.rows == d.rows && d'.parameters == d.parameters
              && (Approved(c, d'.log, gate)
                  <==> (forall i :: 0 <= i < |exits| ==> exits[i] == 0) && !before.dirty && !after.dirty && before.head == after.head == gate.head
                       && gate.branch == Some(c.branch) && !gate.dirty)
            else d' == d && ending == Rejected
  {
  }

  /* ---------- sources before requests ---------- */

  lemma RefreshFirst(c: Setup, d: Desk, params: Params, w: World)
    requires Inv(c, d) && SourcesOk(w.sources) && d.parameters == Some(params) && SomeReadUnfinished(c, d.rows)
    requires RunPublish(c, d, params, w).0.log != d.log
    ensures forall n :: NamedIn(w.sources, n) ==> IsDone(c, RunPublish(c, d, params, w).0.rows, n)
  {
    ResumeTakes(c, d);
    var o := DoResume(d.rows, d.memory, c.task);
    var d1 := d.(rows := o.rows, memory := o.memory);
    OrderedClasses(c, d.rows);
    StepsDecide(c, d.rows, d1.rows, params, w);
    SourcesExactly(c, d1, w.sources, false);
    var (d2, end) := RunSources(c, d1, w.sources, false);
    if end == Value(Bool(false)) {
      ResumedKeepsInv(c, d);
      SourcesKeepInv(c, d1, w.sources, false);
      GateStageKeepsInv(c, d.rows, d2, params, w.(refreshed := true));
    }
  }

  predicate Publishes(call: Call) {
    call.Publish? || call.ResumeTask?
  }

  /** A call that finds an unfinished read adds to the log only once every source it collects is completed. */
  lemma SourcesBeforeRequests(c: Setup, d: Desk, call: Call)
    requires Inv(c, d) && CallOk(call) && Publishes(call) && SomeReadUnfinished(c, d.rows) && Perform(c, d, call).log != d.log
    ensures forall i :: 0 <= i < |call.world.sources| ==> IsDone(c, Perform(c, d, call).rows, call.world.sources[i].name)
  {
    var w := call.world;
    if call.Publish? {
      ReplacedParametersOk(c, d, call.params);
      RefreshFirst(c, d.(parameters := Some(call.params)), call.params, w);
    } else {
      var o := DoResume(d.rows, d.memory, c.task);
      var d1 := d.(rows := o.rows, memory := o.memory);
      ResumedKeepsInv(c, d);
      assert SomeReadUnfinished(c, d1.rows);
      if d.parameters.Some? {
        RefreshFirst(c, d1, d.parameters.value, w);
      } else {
        DevelopsExactly(c, d, w);
      }
    }
    assert forall i :: 0 <= i < |w.sources| ==> NamedIn(w.sources, w.sources[i].name);
  }

  lemma RunFrom(c: Setup, d: Desk, calls: seq<Call>)
    requires Inv(c, d) && CallsOk(calls)
    ensures Keeps(d.rows, Run(c, d, calls).rows) && d.log <= Run(c, d, calls).log
    decreases |calls|
  {
    if calls != [] {
      assert CallOk(calls[0]);
      PerformKeepsInv(c, d, calls[0]);
      RunFrom(c, Perform(c, d, calls[0]), calls[1..]);
    }
  }

  /** Over any run: every request was sent by a call that found all reads completed, or that completed all of its
      sources first, and these are completed ever since. */
  lemma {:induction false} RequestsFollowSources(c: Setup, d: Desk, calls: seq<Call>, i: nat) returns (k: nat)
    requires Inv(c, d) && CallsOk(calls) && |d.log| <= i < |Run(c, d, calls).log| && IsRequest(Run(c, d, calls).log[i])
    ensures k < |calls| && Publishes(calls[k])
    ensures SomeReadUnfinished(c, Run(c, d, calls[..k]).rows) ==>
              forall j :: 0 <= j < |calls[k].world.sources| ==> IsDone(c, Run(c, d, calls).rows, calls[k].world.sources[j].name)
    decreases |calls|
  {
    assert CallOk(calls[0]);
    var d1 := Perform(c, d, calls[0]);
    PerformKeepsInv(c, d, calls[0]);
    RunFrom(c, d1, calls[1..]);
    if i < |d1.log| {
      k := 0;
      assert d1.log[i] == Run(c, d, calls).log[i];
      if SomeReadUnfinished(c, d.rows) && Publishes(calls[0]) {
        SourcesBeforeRequests(c, d, calls[0]);
      }
    } else {
      k := RequestsFollowSources(c, d1, calls[1..], i);
      assert calls[1..][k] == calls[k + 1] && calls[..k + 2][1..] == calls[1..][..k + 1];
      k := k + 1;
      assert calls[..k][1..] == calls[1..][..k - 1];
    }
  }

  /* ---------- nothing is sent again ---------- */

  /** The write was begun and did not fail definitely: it is running, uncertain or completed. */
  predicate Spent(c: Setup, rows: Rows, name: string) {
    var key := Key(c, name);
    key in rows.steps && rows.steps[key].isWrite && rows.steps[key].status != StepFailed
  }

  /** Between the two desks a request of this write was sent. */
  ghost predicate Requested(d: Desk, d': Desk, name: string) {
    exists i :: |d.log| <= i < |d'.log| && IsRequest(d'.log[i]) && RequestStep(d'.log[i]) == name
  }

  /** What the world has for a write. */
  function ActionFor(w: World, name: string): Action {
    if name == PUSH then w.push else if name == PR then w.pr else w.comment
  }

  /** A spent write stays spent and is not sent; a write that is sent is spent then, unless it failed definitely. */
  ghost predicate Careful(c: Setup, d: Desk, d': Desk, name: string, action: Action) {
    && d.log <= d'.log
    && (Spent(c, d.rows, name) ==> Spent(c, d'.rows, name) && !Requested(d, d', name))
    && (Requested(d, d', name) && action != Raises(false) ==> Spent(c, d'.rows, name))
  }

  lemma CarefulThen(c: Setup, d: Desk, d1: Desk, d2: Desk, name: string, action: Action)
    requires Careful(c, d, d1, name, action) && Careful(c, d1, d2, name, action)
    ensures Careful(c, d, d2, name, action)
  {
    if i :| |d.log| <= i < |d2.log| && IsRequest(d2.log[i]) && RequestStep(d2.log[i]) == name {
      if i < |d1.log| {
        assert d1.log[i] == d2.log[i] && Requested(d, d1, name);
      } else {
        assert Requested(d1, d2, name);
      }
    }
  }

  /** Changes of the task row, and of steps that are not writes. */
  lemma ReadsAreCareful(c: Setup, d: Desk, d': Desk, name: string, action: Action)
    requires d'.log == d.log && name in WRITES && WriteRowsSame(c, d.rows, d'.rows)
    ensures Careful(c, d, d', name, action)
  {
  }

  /** The action a step runs, when the world has this one for it. */
  predicate RunsAs(given: Action, action: Action) {
    given == action || given == Blocked || given == Dies(false) || (given.Returns? && action.Returns?)
  }

  lemma OwnStepIsCareful(c: Setup, d: Desk, e: Entry, given: Action, action: Action)
    requires IsRequest(e) && RunsAs(given, action)
    ensures Careful(c, d, RunStep(d, Key(c, RequestStep(e)), true, Some(e), given).0, RequestStep(e), action)
  {
    var name := RequestStep(e);
    var key := Key(c, name);
    var o := DoBegin(d.rows, d.memory, d.nextId, key.task, key.name, true);
    if o.reply.Started? {
      OwnActIsCareful(c, d.(rows := o.rows, memory := o.memory, nextId := d.nextId + 1), e, given, action);
    }
  }

  lemma OwnActIsCareful(c: Setup, d: Desk, e: Entry, given: Action, action: Action)
    requires IsRequest(e) && RunsAs(given, action)
    requires var key := Key(c, RequestStep(e)); key in d.rows.steps && d.rows.steps[key].status == StepRunning && d.rows.steps[key].isWrite
    ensures var d' := ActAndSave(d, Key(c, RequestStep(e)), Some(e), given).0;
            && d.log <= d'.log && (Requested(d, d', RequestStep(e)) && action != Raises(false) ==> Spent(c, d'.rows, RequestStep(e)))
  {
  }

  lemma OtherStepIsCareful(c: Setup, d: Desk, e: Entry, given: Action, name: string, action: Action)
    requires IsRequest(e) && RequestStep(e) != name
    ensures Careful(c, d, RunStep(d, Key(c, RequestStep(e)), true, Some(e), given).0, name, action)
  {
    RunStepFacts(c, d, RequestStep(e), true, Some(e), given);
    assert Key(c, name) != Key(c, RequestStep(e));
  }

  lemma WriteIsCareful(c: Setup, d: Desk, e: Entry, given: Action, name: string, w: World)
    requires IsRequest(e) && RunsAs(given, ActionFor(w, RequestStep(e)))
    ensures Careful(c, d, RunStep(d, Key(c, RequestStep(e)), true, Some(e), given).0, name, ActionFor(w, name))
  {
    if name == RequestStep(e) {
      OwnStepIsCareful(c, d, e, given, ActionFor(w, name));
    } else {
      OtherStepIsCareful(c, d, e, given, name, ActionFor(w, name));
    }
  }

  lemma FailIsCareful(c: Setup, d: Desk, name: string, action: Action)
    requires name in WRITES
    ensures Careful(c, d, FailTask(c, d).0, name, action)
  {
    ReadsAreCareful(c, d, FailTask(c, d).0, name, action);
  }

  lemma CommentIsCareful(c: Setup, d: Desk, params: Params, w: World, push: Json, pr: Json, name: string)
    requires name in WRITES
    ensures Careful(c, d, CommentStage(c, d, params, w, push, pr).0, name, ActionFor(w, name))
  {
    WriteNames();
    var e, given := CommentSent(pr, push, params), Given(HasField(pr, "url") && HasField(push, "commit"), w.comment);
    WriteIsCareful(c, d, e, given, name, w);
    var (d1, end) := RunStep(d, Key(c, COMMENT), true, Some(e), given);
    FailIsCareful(c, d1, name, ActionFor(w, name));
    var d2 := CommentStage(c, d, params, w, push, pr).0;
    assert Careful(c, d1, d2, name, ActionFor(w, name));
    CarefulThen(c, d, d1, d2, name, ActionFor(w, name));
  }

  lemma PrIsCareful(c: Setup, d: Desk, params: Params, w: World, push: Json, name: string)
    requires name in WRITES
    ensures Careful(c, d, PrStage(c, d, params, w, push).0, name, ActionFor(w, name))
  {
    WriteNames();
    var e, given := PrRequested(push, params), Given(HasField(push, "branch"), w.pr);
    WriteIsCareful(c, d, e, given, name, w);
    var (d1, end) := RunStep(d, Key(c, PR), true, Some(e), given);
    FailIsCareful(c, d1, name, ActionFor(w, name));
    if end.Value? {
      CommentIsCareful(c, d1, params, w, push, end.value, name);
    }
    CarefulThen(c, d, d1, if end.Died? then d1 else PrStage(c, d, params, w, push).0, name, ActionFor(w, name));
  }

  lemma PushIsCareful(c: Setup, d: Desk, params: Params, w: World, name: string)
    requires name in WRITES
    ensures Careful(c, d, PushStage(c, d, params, w).0, name, ActionFor(w, name))
  {
    WriteNames();
    var branch := if w.gate.branch.Some? then w.gate.branch.value else "";
    var e := Pushed(branch, w.gate.head, params);
    WriteIsCareful(c, d, e, PushAction(w, params), name, w);
    var (d1, end) := RunStep(d, Key(c, PUSH), true, Some(e), PushAction(w, params));
    FailIsCareful(c, d1, name, ActionFor(w, name));
    if end.Value? {
      PrIsCareful(c, d1, params, w, end.value, name);
    }
    CarefulThen(c, d, d1, if end.Died? then d1 else PushStage(c, d, params, w).0, name, ActionFor(w, name));
  }

  lemma RunPublishIsCareful(c: Setup, d: Desk, params: Params, w: World, name: string)
    requires Inv(c, d) && d.parameters == Some(params) && SourcesOk(w.sources) && name in WRITES
    ensures Careful(c, d, RunPublish(c, d, params, w).0, name, ActionFor(w, name))
  {
    var action := ActionFor(w, name);
    ResumedKeepsInv(c, d);
    var o := DoResume(d.rows, d.memory, c.task);
    var d1 := d.(rows := o.rows, memory := o.memory);
    var d' := RunPublish(c, d, params, w).0;
    ReadsAreCareful(c, d, d1, name, action);
    FailIsCareful(c, d1, name, action);
    if o.reply == Done && ReadsUnfinished(c, d.rows) {
      SourcesKeepInv(c, d1, w.sources, false);
      var d2 := RunSources(c, d1, w.sources, false).0;
      ReadsAreCareful(c, d, d2, name, action);
      FailIsCareful(c, d2, name, action);
      PushIsCareful(c, d2, params, w.(refreshed := true), name);
      CarefulThen(c, d, d2, FailTask(c, d2).0, name, action);
      CarefulThen(c, d, d2, PushStage(c, d2, params, w.(refreshed := true)).0, name, action);
    } else {
      PushIsCareful(c, d1, params, w.(refreshed := false), name);
      CarefulThen(c, d, d1, FailTask(c, d1).0, name, action);
      CarefulThen(c, d, d1, PushStage(c, d1, params, w.(refreshed := false)).0, name, action);
    }
  }

  /** The world's action for a write, if the call has one. */
  function CallAction(call: Call, name: string): Action {
    if Publishes(call) then ActionFor(call.world, name) else Blocked
  }

  lemma OtherCallsAreCareful(c: Setup, d: Desk, call: Call, name: string)
    requires Inv(c, d) && name in WRITES && !Publishes(call) && call != RetryStep(name)
    ensures Careful(c, d, Perform(c, d, call), name, Blocked)
  {
    var d' := Perform(c, d, call);
    assert forall i :: |d.log| <= i < |d'.log| ==> !IsRequest(d'.log[i]);
    assert Spent(c, d.rows, name) ==> Spent(c, d'.rows, name);
  }

  lemma PublishIsCareful(c: Setup, d: Desk, params: Params, w: World, name: string)
    requires Inv(c, d) && SourcesOk(w.sources) && name in WRITES
    ensures Careful(c, d, Perform(c, d, Publish(params, w)), name, ActionFor(w, name))
  {
    if Publishable(c, d, params) {
      ReplacedParametersOk(c, d, params);
      RunPublishIsCareful(c, d.(parameters := Some(params)), params, w, name);
    } else {
      PublishesExactly(c, d, params, w);
    }
  }

  lemma ResumeIsCareful(c: Setup, d: Desk, w: World, name: string)
    requires Inv(c, d) && SourcesOk(w.sources) && name in WRITES
    ensures Careful(c, d, Perform(c, d, ResumeTask(w)), name, ActionFor(w, name))
  {
    if d.rows.tasks[c.task].status != TaskCompleted {
      var action := ActionFor(w, name);
      var o := DoResume(d.rows, d.memory, c.task);
      var d1 := d.(rows := o.rows, memory := o.memory);
      ResumedKeepsInv(c, d);
      ReadsAreCareful(c, d, d1, name, action);
      if d.parameters.Some? {
        RunPublishIsCareful(c, d1, d.parameters.value, w, name);
        CarefulThen(c, d, d1, Perform(c, d, ResumeTask(w)), name, action);
      } else {
        SourcesKeepInv(c, d1, w.sources, false);
        ReadsAreCareful(c, d, Perform(c, d, ResumeTask(w)), name, action);
      }
    }
  }

  lemma PerformIsCareful(c: Setup, d: Desk, call: Call, name: string)
    requires Inv(c, d) && CallOk(call) && name in WRITES && call != RetryStep(name)
    ensures Careful(c, d, Perform(c, d, call), name, CallAction(call, name))
  {
    match call
    case Publish(params, w) => PublishIsCareful(c, d, params, w, name);
    case ResumeTask(w) => ResumeIsCareful(c, d, w, name);
    case _ => OtherCallsAreCareful(c, d, call, name);
  }

  /** A spent write stays spent, and is not sent, until the user retries it. */
  lemma {:induction false} SpentIsNotSent(c: Setup, d: Desk, calls: seq<Call>, name: string)
    requires Inv(c, d) && CallsOk(calls) && name in WRITES && Spent(c, d.rows, name) && RetryStep(name) !in calls
    ensures Spent(c, Run(c, d, calls).rows, name) && !Requested(d, Run(c, d, calls), name)
    decreases |calls|
  {
    if calls != [] {
      assert CallOk(calls[0]) && calls[0] in calls;
      var d1, d2 := Perform(c, d, calls[0]), Run(c, d, calls);
      PerformIsCareful(c, d, calls[0], name);
      PerformKeepsInv(c, d, calls[0]);
      SpentIsNotSent(c, d1, calls[1..], name);
      RunFrom(c, d1, calls[1..]);
      forall i | |d.log| <= i < |d2.log| && IsRequest(d2.log[i]) ensures RequestStep(d2.log[i]) != name {
        assert i < |d1.log| ==> d1.log[i] == d2.log[i];
      }
    }
  }

  /** A write that one call sent and that did not fail definitely, because it succeeded, its outcome is uncertain or the
      process died, is not sent by any later call before the user retries it. */
  lemma NothingIsSentAgain(c: Setup, d: Desk, call: Call, calls: seq<Call>, name: string)
    requires Inv(c, d) && CallOk(call) && CallsOk(calls) && name in WRITES && RetryStep(name) !in calls
    requires Requested(d, Perform(c, d, call), name) && CallAction(call, name) != Raises(false)
    ensures !Requested(Perform(c, d, call), Run(c, Perform(c, d, call), calls), name)
  {
    PerformIsCareful(c, d, call, name);
    PerformKeepsInv(c, d, call);
    SpentIsNotSent(c, Perform(c, d, call), calls, name);
  }
}
