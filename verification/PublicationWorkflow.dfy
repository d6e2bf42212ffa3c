/** The runner that publishes a prepared task, step by step over its `TaskStore`.  Each method is the
    function of the same name in `Publication`, whose runs are studied there. */
module PublicationWorkflow {
  import opened Prelude
  import opened TaskStoreModel
  import opened Publication

  class Workflows {
    const c: Setup
    const db: Database
    var store: TaskStore             // replaced when the process dies
    var evidence: Option<Evidence>   // checks.json
    var parameters: Option<Params>   // publication.json
    var log: seq<Entry>

    predicate Valid()
      reads this, store
    {
      store.db == db
    }

    function At(): Desk
      reads this, store, db
    {
      Desk(db.Contents(), store.Remembered(), db.nextId, evidence, parameters, log)
    }

    constructor (c: Setup, db: Database, store: TaskStore)
      requires store.db == db
      ensures Valid() && this.c == c && this.db == db && this.store == store && evidence == None && parameters == None && log == []
    {
      this.c, this.db, this.store := c, db, store;
      evidence, parameters, log := None, None, [];
    }

    /** Runs the action of a claimed step and saves how it went. */
    method Act(key: StepKey, request: Option<Entry>, action: Action) returns (end: End)
      requires Valid()
      modifies this, store, db
      ensures Valid() && (store == old(store) || fresh(store))
      ensures (At(), end) == old(ActAndSave(At(), key, request, action))
    {
      if request.Some? && (action.Returns? || action.Raises? || (action.Dies? && action.sent)) {
        log := log + [request.value];
      }
      match action {
        case Dies(_) =>
          store := new TaskStore(db);
          return Died;
        case Returns(value) =>
          var saved := store.SaveStep(key, StepCompleted, value, None);
          if saved != Done { return Raised; }
          if request.Some? { log := log + [StepDone(key.name, value, true)]; }
          return Value(value);
        case Raises(uncertain) =>
          var _ := store.SaveStep(key, if uncertain then StepUncertain else StepFailed, Null, Some(""));
          return Raised;
        case Blocked =>
          var _ := store.SaveStep(key, StepFailed, Null, Some(""));
          return Raised;
      }
    }

    method Step(key: StepKey, isWrite: bool, request: Option<Entry>, action: Action) returns (end: End)
      requires Valid()
      modifies this, store, db
      ensures Valid() && (store == old(store) || fresh(store))
      ensures (At(), end) == old(RunStep(At(), key, isWrite, request, action))
    {
      var reply := store.BeginStep(key.task, key.name, isWrite);
      match reply
      case Reused(step) => return Value(if step.result.Some? then step.result.value else Null);
      case Started(_) => end := Act(key, request, action);
      case _ => return Raised;
    }

    method Sources(sources: seq<Source>) returns (end: End)
      requires Valid()
      modifies this, store, db
      ensures Valid() && (store == old(store) || fresh(store))
      ensures (At(), end) == old(RunSources(c, At(), sources, false))
    {
      var errors := false;
      var i := 0;
      while i < |sources|
        invariant 0 <= i <= |sources| && Valid() && (store == old(store) || fresh(store))
        invariant RunSources(c, At(), sources[i..], errors) == old(RunSources(c, At(), sources, false))
      {
        var source := sources[i];
        assert sources[i..][1..] == sources[i + 1..];
        end := Step(Key(c, source.name), false, None, source.action);
        if end.Died? || (end.Raised? && !source.optional) { return; }
        errors := errors || end.Raised?;
        i := i + 1;
      }
      end := Value(Bool(errors));
    }

    method Fail() returns (ending: Ending)
      requires Valid()
      modifies this, store, db
      ensures Valid() && store == old(store)
      ensures (At(), ending) == old(FailTask(c, At()))
    {
      var _ := store.Fail(c.task, "", Null);
      return Paused;
    }

    method Stop(end: End) returns (ending: Ending)
      requires Valid()
      modifies this, store, db
      ensures Valid() && store == old(store)
      ensures (At(), ending) == old(Stopped(c, At(), end))
    {
      if end.Died? { return Killed; }
      ending := Fail();
    }

    method Finish(w: World, pr: Json, comment: Json, push: Json) returns (ending: Ending)
      requires Valid()
      modifies this, store, db
      ensures Valid() && store == old(store)
      ensures (At(), ending) == old(FinishTask(c, At(), w, pr, comment, push))
    {
      if HasField(push, "commit") {
        var reply := store.Finish(c.task, Summary(c, db.Contents(), w, pr, comment, push.fields["commit"]));
        if reply == Done {
          log := log + [Finished];
          return Published;
        }
      }
      ending := Fail();
    }

    method PublishWrites(params: Params, w: World) returns (ending: Ending)
      requires Valid()
      modifies this, store, db
      ensures Valid() && (store == old(store) || fresh(store))
      ensures (At(), ending) == old(PushStage(c, At(), params, w))
    {
      var branch := if w.gate.branch.Some? then w.gate.branch.value else "";
      var push := Step(Key(c, PUSH), true, Some(Pushed(branch, w.gate.head, params)), PushAction(w, params));
      if !push.Value? { ending := Stop(push); return; }
      var pr := Step(Key(c, PR), true, Some(PrRequested(push.value, params)), Given(HasField(push.value, "branch"), w.pr));
      if !pr.Value? { ending := Stop(pr); return; }
      var action := Given(HasField(pr.value, "url") && HasField(push.value, "commit"), w.comment);
      var comment := Step(Key(c, COMMENT), true, Some(CommentSent(pr.value, push.value, params)), action);
      if !comment.Value? { ending := Stop(comment); return; }
      ending := Finish(w, pr.value, comment.value, push.value);
    }

    method RunPublication(params: Params, w: World) returns (ending: Ending)
      requires Valid()
      modifies this, store, db
      ensures Valid() && (store == old(store) || fresh(store))
      ensures (At(), ending) == old(RunPublish(c, At(), params, w))
    {
      var before := db.Contents();
      var resumed := store.Resume(c.task);
      if resumed != Done { return Rejected; }
      var refreshes := ReadsUnfinished(c, before);
      if refreshes {
        var refreshed := Sources(w.sources);
        if refreshed != Value(Bool(false)) { ending := Stop(refreshed); return; }
      }
      if !IsDone(c, before, PUSH) && !GateOpen(c, evidence, w.gate) { ending := Fail(); return; }
      ending := PublishWrites(params, w.(refreshed := refreshes));
    }

    method Checks(before: Worktree, exits: seq<int>, after: Worktree) returns (ending: Ending)
      requires Valid()
      modifies this
      ensures Valid() && store == old(store)
      ensures (At(), ending) == old(RunChecks(c, At(), before, exits, after))
    {
      if c.task !in db.tasks || db.tasks[c.task].status == TaskCancelled { return Rejected; }
      if !c.hasChecks || before.branch != Some(c.branch) { return Rejected; }
      evidence := Some(EvidenceOf(before, exits, after));
      log := log + [Checked(before, exits, after)];
      return Published;
    }

    method Publish(params: Params, w: World) returns (ending: Ending)
      requires Valid()
      modifies this, store, db
      ensures Valid() && (store == old(store) || fresh(store))
      ensures (At(), ending) == old(DoPublish(c, At(), params, w))
    {
      if c.task !in db.tasks || db.tasks[c.task].status == TaskCancelled { return Rejected; }
      if db.tasks[c.task].status == TaskCompleted { return Skipped; }
      if !c.hasRepository { return Rejected; }
      if parameters.Some? {
        if parameters.value != params {
          if WriteStarted(c, db.Contents()) { return Rejected; }
          parameters := Some(params);
        }
      } else {
        parameters := Some(params);
      }
      ending := RunPublication(params, w);
    }

    method Resume(w: World) returns (ending: Ending)
      requires Valid()
      modifies this, store, db
      ensures Valid() && (store == old(store) || fresh(store))
      ensures (At(), ending) == old(DoResumeTask(c, At(), w))
    {
      if c.task !in db.tasks { return Rejected; }
      if db.tasks[c.task].status == TaskCompleted { return Skipped; }
      var _ := store.Resume(c.task);
      if parameters.Some? {
        ending := RunPublication(parameters.value, w);
        return;
      }
      var end := Sources(w.sources);
      if !end.Value? { ending := Stop(end); return; }
      var waiting := store.Wait(c.task, w.handoff);
      if waiting == Done { return Published; }
      ending := Fail();
    }
  }
}
