/** The runner that reviews an issue, step by step over its `TaskStore`.  Each method is the function
    of the same name in `Reviews`, whose runs are studied there. */
module ReviewWorkflow {
  import opened Prelude
  import opened TaskStoreModel
  import opened Reviews

  class Workflows {
    const db: Database
    var store: TaskStore   // replaced when the process dies
    var contacts: seq<Contact>

    predicate Valid()
      reads this, store
    {
      store.db == db
    }

    function At(): Desk
      reads this, store, db
    {
      Desk(db.Contents(), store.Remembered(), db.nextId, contacts)
    }

    constructor (db: Database, store: TaskStore)
      requires store.db == db
      ensures Valid() && this.db == db && this.store == store && contacts == []
    {
      this.db, this.store, contacts := db, store, [];
    }

    method Begin(key: StepKey, isWrite: bool) returns (opening: Opening)
      requires Valid()
      modifies this, store, db
      ensures Valid() && store == old(store)
      ensures (At(), opening) == old(Open(At(), key, isWrite))
    {
      var reply := store.BeginStep(key.task, key.name, isWrite);
      match reply
      case Reused(step) => return Reuse(if step.result.Some? then step.result.value else Null);
      case Started(_) => return Go;
      case _ => return Stop;
    }

    method End(key: StepKey, action: Action) returns (end: End)
      requires Valid()
      modifies this, store, db
      ensures Valid() && (store == old(store) || fresh(store)) && (!action.Dies? ==> store == old(store))
      ensures (At(), end) == old(Close(At(), key, action))
    {
      match action
      case Dies =>
        store := new TaskStore(db);
        return Died;
      case Raises(uncertain) =>
        var _ := store.SaveStep(key, if uncertain then StepUncertain else StepFailed, Null, Some(""));
        return Raised;
      case Returns(value) =>
        var saved := store.SaveStep(key, StepCompleted, value, None);
        if saved == Done { return Value(value); }
        return Raised;
    }

    method Plain(key: StepKey, action: Action) returns (end: End)
      requires Valid()
      modifies this, store, db
      ensures Valid() && (store == old(store) || fresh(store)) && (!action.Dies? ==> store == old(store))
      ensures (At(), end) == old(PlainStep(At(), key, action))
    {
      var opening := Begin(key, false);
      match opening
      case Reuse(value) => return Value(value);
      case Stop => return Raised;
      case Go => end := End(key, action);
    }

    method Provider(key: StepKey, provider: string, target: Option<Target>, dies: bool, about: Json, action: Action) returns (result: Action)
      requires Valid()
      modifies this, store, db
      ensures Valid() && (store == old(store) || fresh(store))
      ensures (At(), result) == old(CallProvider(At(), key, provider, target, dies, about, action))
    {
      if target.Some? {
        var current := TargetJson(target.value);
        var saved := Plain(Key(key.task, Connection(provider)), Computed(current, dies));
        if saved.Died? { return Dies; }
        if saved != Value(current) { return Raises(false); }
      }
      contacts := contacts + [Contact(provider, target, key.name, about, if action.Returns? then Some(action.value) else None)];
      return action;
    }

    method Step(key: StepKey, isWrite: bool, provider: string, target: Option<Target>, dies: bool, about: Json, action: Action) returns (end: End)
      requires Valid()
      modifies this, store, db
      ensures Valid() && (store == old(store) || fresh(store))
      ensures (At(), end) == old(ProviderStep(At(), key, isWrite, provider, target, dies, about, action))
    {
      var opening := Begin(key, isWrite);
      match opening
      case Reuse(value) => return Value(value);
      case Stop => return Raised;
      case Go =>
        var result := Provider(key, provider, target, dies, about, action);
        end := End(key, result);
    }

    method PullRequest(task: TaskId, env: Env, url: Json, i: nat) returns (end: End)
      requires Valid() && i < MAX_PRS
      modifies this, store, db
      ensures Valid() && (store == old(store) || fresh(store))
      ensures (At(), end) == old(ReviewPr(task, At(), env, url, i))
    {
      end := Step(Key(task, PrName(i)), false, "bitbucket", env.bitbucket, DiesConnecting(env, "bitbucket"), url, Play(env, PrName(i)));
      if end.Died? { return; }
      if end.Raised? { return Value(Bool(true)); }
      end := Step(Key(task, BuildsName(i)), false, "bitbucket", env.bitbucket, DiesConnecting(env, "bitbucket"), end.value, Play(env, BuildsName(i)));
      if end.Died? { return; }
      end := Value(Bool(end.Raised?));
    }

    method PullRequests(task: TaskId, env: Env, prs: seq<Json>) returns (end: End)
      requires Valid() && |prs| <= MAX_PRS
      modifies this, store, db
      ensures Valid() && (store == old(store) || fresh(store))
      ensures (At(), end) == old(ReviewPrs(task, At(), env, prs, 0, false))
    {
      var errors := false;
      var i := 0;
      while i < |prs|
        invariant 0 <= i <= |prs| && Valid() && (store == old(store) || fresh(store))
        invariant ReviewPrs(task, At(), env, prs, i, errors) == old(ReviewPrs(task, At(), env, prs, 0, false))
      {
        end := PullRequest(task, env, prs[i], i);
        if end.Died? { return; }
        errors := errors || end == Value(Bool(true));
        i := i + 1;
      }
      end := Value(Bool(errors));
    }

    method Page(task: TaskId, env: Env, url: Json, i: nat) returns (end: End)
      requires Valid() && i < MAX_PAGES
      modifies this, store, db
      ensures Valid() && (store == old(store) || fresh(store))
      ensures (At(), end) == old(ReviewPage(task, At(), env, url, i))
    {
      end := Step(Key(task, PageName(i)), false, "confluence", env.confluence, DiesConnecting(env, "confluence"), url, Play(env, PageName(i)));
      if end.Died? { return; }
      end := Value(Bool(end.Raised?));
    }

    method Pages(task: TaskId, env: Env, pages: seq<Json>, failed: bool) returns (end: End)
      requires Valid() && |pages| <= MAX_PAGES
      modifies this, store, db
      ensures Valid() && (store == old(store) || fresh(store))
      ensures (At(), end) == old(ReviewPages(task, At(), env, pages, 0, failed))
    {
      var errors := failed;
      var i := 0;
      while i < |pages|
        invariant 0 <= i <= |pages| && Valid() && (store == old(store) || fresh(store))
        invariant ReviewPages(task, At(), env, pages, i, errors) == old(ReviewPages(task, At(), env, pages, 0, failed))
      {
        end := Page(task, env, pages[i], i);
        if end.Died? { return; }
        errors := errors || end == Value(Bool(true));
        i := i + 1;
      }
      end := Value(Bool(errors));
    }

    method ReviewSources(task: TaskId, issue: string, env: Env) returns (end: End)
      requires Valid()
      modifies this, store, db
      ensures Valid() && (store == old(store) || fresh(store))
      ensures (At(), end) == old(Review(task, At(), issue, env))
    {
      end := Step(Key(task, ISSUE), false, "jira", env.jira, DiesConnecting(env, "jira"), Text(issue), Play(env, ISSUE));
      if !end.Value? { return; }
      end := Plain(Key(task, SOURCES), Computed(SourcesJson(env.prs, env.pages), DiesCollecting(env)));
      if !end.Value? { return; }
      var sources := end.value;
      end := PullRequests(task, env, First(ItemsOf(sources, "prs"), MAX_PRS));
      if !end.Value? { return; }
      end := Pages(task, env, First(ItemsOf(sources, "pages"), MAX_PAGES), end == Value(Bool(true)));
    }

    method Run(task: TaskId, issue: string, env: Env) returns (end: End)
      requires Valid()
      modifies this, store, db
      ensures Valid() && (store == old(store) || fresh(store))
      ensures (At(), end) == old(RunReview(task, At(), issue, env))
    {
      end := ReviewSources(task, issue, env);
      if end.Died? { return; }
      if end == Value(Bool(false)) {
        var reply := store.Finish(task, env.report);
        if reply == Done { return; }
        end := Raised;
      }
      var _ := store.Fail(task, "", if end.Value? then env.report else Null);
    }
  }
}
