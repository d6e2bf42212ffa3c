/** What one review comes to when its process does not die: which sources it reads, that one failing source does not keep
    it from the others, and how the task ends. */
module ReviewOutcome {
  import opened Prelude
  import opened TaskStoreModel
  import opened Reviews

  /** The task runs, the caller's store object is not superseded, and all steps are reads. */
  ghost predicate Manned(task: TaskId, d: Desk) {
    && task in d.rows.tasks && d.rows.tasks[task].status == TaskRunning
    && task in d.memory.generations && d.memory.generations[task] == d.rows.tasks[task].generation
    && forall key :: key in d.rows.steps && key.task == task ==> !d.rows.steps[key].isWrite
  }

  function Stored(rows: Rows, key: StepKey): Json
    requires IsDone(rows, key)
  {
    if rows.steps[key].result.Some? then rows.steps[key].result.value else Null
  }

  /** Only this row changes, and no contact is made. */
  ghost predicate Around(task: TaskId, d: Desk, d': Desk, key: StepKey) {
    && Manned(task, d') && d'.rows.tasks == d.rows.tasks
    && forall k :: k != key ==> (k in d'.rows.steps <==> k in d.rows.steps) && (k in d.rows.steps ==> d'.rows.steps[k] == d.rows.steps[k])
  }

  /** The step was executed, and saved with the result if there is one. */
  ghost predicate Saved(task: TaskId, d: Desk, d': Desk, key: StepKey, action: Action, end: End) {
    && Around(task, d, d', key) && key in d'.rows.steps
    && (IsDone(d'.rows, key) <==> action.Returns?)
    && if action.Returns? then d'.rows.steps[key].result == Some(action.value) && end == Value(action.value) else end == Raised
  }

  /** Opening a step of an unfinished read claims it. */
  ghost predicate Claimed(task: TaskId, d: Desk, d': Desk, key: StepKey) {
    && Around(task, d, d', key) && d'.contacts == d.contacts && Owns(d'.rows, d'.memory, key) && !IsDone(d'.rows, key)
  }

  lemma OpensExactly(task: TaskId, d: Desk, name: string)
    requires Manned(task, d) && !Blank(name)
    ensures var key := Key(task, name);
            var (d', opening) := Open(d, key, false);
            if IsDone(d.rows, key) then d' == d && opening == Reuse(Stored(d.rows, key)) else opening == Go && Claimed(task, d, d', key)
  {
    assert d.memory.generations[task := d.rows.tasks[task].generation] == d.memory.generations;
  }

  lemma ClosesExactly(task: TaskId, d: Desk, name: string, action: Action)
    requires Manned(task, d) && Owns(d.rows, d.memory, Key(task, name)) && !action.Dies?
    ensures var (d', end) := Close(d, Key(task, name), action);
            Saved(task, d, d', Key(task, name), action, end) && d'.contacts == d.contacts
  {
  }

  /** A step that only computes. */
  lemma PlainExactly(task: TaskId, d: Desk, name: string, value: Json)
    requires Manned(task, d) && !Blank(name)
    ensures var key := Key(task, name);
            var (d', end) := PlainStep(d, key, Returns(value));
            && d'.contacts == d.contacts
            && if IsDone(d.rows, key) then d' == d && end == Value(Stored(d.rows, key)) else Saved(task, d, d', key, Returns(value), end)
  {
    OpensExactly(task, d, name);
    var (d1, opening) := Open(d, Key(task, name), false);
    if opening == Go {
      ClosesExactly(task, d1, name, Returns(value));
    }
  }

  /* ---------- provider steps ---------- */

  /** The provider's settings are those the task saved, or can be saved now. */
  predicate Linked(task: TaskId, rows: Rows, provider: string, target: Option<Target>) {
    var key := Key(task, Connection(provider));
    target.Some? && IsDone(rows, key) ==> Stored(rows, key) == TargetJson(target.value)
  }

  /** The step has a result in the end. */
  predicate Succeeds(task: TaskId, rows: Rows, name: string, provider: string, target: Option<Target>, action: Action) {
    IsDone(rows, Key(task, name)) || (Linked(task, rows, provider, target) && action.Returns?)
  }

  /** Apart from the step and the provider's connection nothing changes, and connections stay linked. */
  ghost predicate Stepped(task: TaskId, d: Desk, d': Desk, name: string, provider: string) {
    && Manned(task, d') && d'.rows.tasks == d.rows.tasks
    && (forall k :: k != Key(task, name) && k != Key(task, Connection(provider)) ==>
          (k in d'.rows.steps <==> k in d.rows.steps) && (k in d.rows.steps ==> d'.rows.steps[k] == d.rows.steps[k]))
    && (forall k :: IsDone(d.rows, k) ==> IsDone(d'.rows, k) && d'.rows.steps[k] == d.rows.steps[k])
    && (forall k :: k in d'.rows.steps && k !in d.rows.steps ==> k == Key(task, name) || IsDone(d'.rows, k))
  }

  lemma CallsExactly(task: TaskId, d: Desk, name: string, provider: string, target: Option<Target>, about: Json, action: Action)
    requires Manned(task, d) && name != Connection(provider) && Owns(d.rows, d.memory, Key(task, name)) && !action.Dies?
    ensures var (d', result) := CallProvider(d, Key(task, name), provider, target, false, about, action);
            && Stepped(task, d, d', name, provider) && Owns(d'.rows, d'.memory, Key(task, name))
            && Linked(task, d'.rows, provider, target) == Linked(task, d.rows, provider, target)
            && if Linked(task, d.rows, provider, target)
               then result == action && d'.contacts == d.contacts + [Contact(provider, target, name, about, if action.Returns? then Some(action.value) else None)]
               else result == Raises(false) && d'.contacts == d.contacts
  {
    if target.Some? {
      ConnectsExactly(task, d, name, provider, target.value);
    }
  }

  /** Saving or checking the connection. */
  lemma ConnectsExactly(task: TaskId, d: Desk, name: string, provider: string, target: Target)
    requires Manned(task, d) && name != Connection(provider) && Owns(d.rows, d.memory, Key(task, name))
    ensures var (d', saved) := PlainStep(d, Key(task, Connection(provider)), Computed(TargetJson(target), false));
            && Stepped(task, d, d', name, provider) && Owns(d'.rows, d'.memory, Key(task, name)) && d'.contacts == d.contacts
            && Linked(task, d'.rows, provider, Some(target)) == Linked(task, d.rows, provider, Some(target))
            && saved.Value? && (saved == Value(TargetJson(target)) <==> Linked(task, d.rows, provider, Some(target)))
  {
    assert Connection(provider)[0] == 'c' && !Blank(Connection(provider));
    PlainExactly(task, d, Connection(provider), TargetJson(target));
  }

  /** Running a provider step: a saved result is reused, otherwise the provider is asked if it is linked. */
  ghost predicate Asks(task: TaskId, d: Desk, d': Desk, name: string, provider: string, target: Option<Target>, about: Json, action: Action, end: End) {
    var key := Key(task, name);
    && Stepped(task, d, d', name, provider) && Linked(task, d'.rows, provider, target) == Linked(task, d.rows, provider, target)
    && (IsDone(d'.rows, key) <==> Succeeds(task, d.rows, name, provider, target, action))
    && (if IsDone(d'.rows, key) then end == Value(Stored(d'.rows, key)) else end == Raised)
    && (if IsDone(d.rows, key) then Stored(d'.rows, key) == Stored(d.rows, key)
        else IsDone(d'.rows, key) ==> d'.rows.steps[key].result == Some(action.value))
    && d'.contacts == d.contacts + if IsDone(d.rows, key) || !Linked(task, d.rows, provider, target) then []
                                   else [Contact(provider, target, name, about, if action.Returns? then Some(action.value) else None)]
  }

  lemma AsksExactly(task: TaskId, d: Desk, name: string, provider: string, target: Option<Target>, about: Json, action: Action)
    requires Manned(task, d) && !Blank(name) && name != Connection(provider) && !action.Dies?
    ensures var (d', end) := ProviderStep(d, Key(task, name), false, provider, target, false, about, action);
            Asks(task, d, d', name, provider, target, about, action, end)
  {
    var key := Key(task, name);
    OpensExactly(task, d, name);
    var (d1, opening) := Open(d, key, false);
    assert d.contacts + [] == d.contacts;
    if opening == Go {
      CallsExactly(task, d1, name, provider, target, about, action);
      var (d2, result) := CallProvider(d1, key, provider, target, false, about, action);
      ClosesExactly(task, d2, name, result);
      var (d3, end) := Close(d2, key, result);
      OpenedAsks(task, d, d1, d2, d3, name, provider, target, about, action, result, end);
    }
  }

  lemma OpenedAsks(task: TaskId, d: Desk, d1: Desk, d2: Desk, d3: Desk, name: string, provider: string, target: Option<Target>, about: Json,
                   action: Action, result: Action, end: End)
    requires name != Connection(provider) && !IsDone(d.rows, Key(task, name)) && Claimed(task, d, d1, Key(task, name))
    requires Stepped(task, d1, d2, name, provider) && Owns(d2.rows, d2.memory, Key(task, name))
    requires Linked(task, d2.rows, provider, target) == Linked(task, d1.rows, provider, target)
    requires if Linked(task, d1.rows, provider, target)
             then result == action && d2.contacts == d1.contacts + [Contact(provider, target, name, about, if action.Returns? then Some(action.value) else None)]
             else result == Raises(false) && d2.contacts == d1.contacts
    requires Saved(task, d2, d3, Key(task, name), result, end) && d3.contacts == d2.contacts
    ensures Asks(task, d, d3, name, provider, target, about, action, end)
  {
    var key, connection := Key(task, name), Key(task, Connection(provider));
    assert key != connection;
    assert Linked(task, d1.rows, provider, target) == Linked(task, d.rows, provider, target);
    assert Linked(task, d3.rows, provider, target) == Linked(task, d2.rows, provider, target);
    assert d.contacts + [] == d.contacts;
  }

  /* ---------- pull requests and pages ---------- */

  /** No process dies. */
  predicate Alive(env: Env) {
    forall name | name in env.plays :: !env.plays[name].Dies?
  }

  predicate PrGood(task: TaskId, rows: Rows, env: Env, i: nat)
    requires i < MAX_PRS
  {
    Succeeds(task, rows, PrName(i), "bitbucket", env.bitbucket, Play(env, PrName(i)))
  }

  /** The pull request and its builds. */
  predicate BuildsGood(task: TaskId, rows: Rows, env: Env, i: nat)
    requires i < MAX_PRS
  {
    PrGood(task, rows, env, i) && Succeeds(task, rows, BuildsName(i), "bitbucket", env.bitbucket, Play(env, BuildsName(i)))
  }

  predicate PageGood(task: TaskId, rows: Rows, env: Env, i: nat)
    requires i < MAX_PAGES
  {
    Succeeds(task, rows, PageName(i), "confluence", env.confluence, Play(env, PageName(i)))
  }

  /** A pull request, or its builds, or a page with an index in this range cannot be read. */
  predicate SomePrFails(task: TaskId, rows: Rows, env: Env, from: nat, to: nat)
    requires to <= MAX_PRS
  {
    exists j :: from <= j < to && !BuildsGood(task, rows, env, j)
  }

  predicate SomePageFails(task: TaskId, rows: Rows, env: Env, from: nat, to: nat)
    requires to <= MAX_PAGES
  {
    exists j :: from <= j < to && !PageGood(task, rows, env, j)
  }

  lemma FirstPageFails(task: TaskId, rows: Rows, rows1: Rows, env: Env, i: nat, n: nat)
    requires i < n <= MAX_PAGES && forall j :: i + 1 <= j < n ==> PageGood(task, rows1, env, j) == PageGood(task, rows, env, j)
    ensures SomePageFails(task, rows, env, i, n) <==> !PageGood(task, rows, env, i) || SomePageFails(task, rows1, env, i + 1, n)
  {
  }

  lemma FirstPrFails(task: TaskId, rows: Rows, rows1: Rows, env: Env, i: nat, n: nat)
    requires i < n <= MAX_PRS && forall j :: i + 1 <= j < n ==> BuildsGood(task, rows1, env, j) == BuildsGood(task, rows, env, j)
    ensures SomePrFails(task, rows, env, i, n) <==> !BuildsGood(task, rows, env, i) || SomePrFails(task, rows1, env, i + 1, n)
  {
  }

  /** Only steps of these names change, completed ones not at all, and connections stay linked. */
  ghost predicate Within(task: TaskId, d: Desk, d': Desk, env: Env, names: set<string>) {
    && Manned(task, d') && d'.rows.tasks == d.rows.tasks
    && (forall k: StepKey :: k.task != task || k.name !in names ==>
          (k in d'.rows.steps <==> k in d.rows.steps) && (k in d.rows.steps ==> d'.rows.steps[k] == d.rows.steps[k]))
    && (forall k :: IsDone(d.rows, k) ==> IsDone(d'.rows, k) && d'.rows.steps[k] == d.rows.steps[k])
    && Linked(task, d'.rows, "bitbucket", env.bitbucket) == Linked(task, d.rows, "bitbucket", env.bitbucket)
    && Linked(task, d'.rows, "confluence", env.confluence) == Linked(task, d.rows, "confluence", env.confluence)
  }

  lemma WithinThen(task: TaskId, d: Desk, d1: Desk, d2: Desk, env: Env, names: set<string>, more: set<string>)
    requires Within(task, d, d1, env, names) && Within(task, d1, d2, env, more)
    ensures Within(task, d, d2, env, names + more)
  {
  }

  lemma ConnectionNames()
    ensures Connection("bitbucket") != Connection("confluence") && Connection("jira") != Connection("confluence") && Connection("jira") != Connection("bitbucket")
  {
    assert Connection("bitbucket")[11] == 'b' && Connection("confluence")[11] == 'c' && Connection("jira")[11] == 'j';
  }

  /** A step under one provider leaves the links of the others. */
  lemma AsksWithin(task: TaskId, d: Desk, d': Desk, env: Env, name: string, provider: string, target: Option<Target>, about: Json, action: Action, end: End)
    requires Asks(task, d, d', name, provider, target, about, action, end) && IsResultName(name)
    requires (provider == "bitbucket" && target == env.bitbucket) || (provider == "confluence" && target == env.confluence)
    ensures Within(task, d, d', env, {name, Connection(provider)})
  {
    ConnectionNames();
    ConnectionsApart("bitbucket");
    ConnectionsApart("confluence");
    assert Key(task, name).name == name && Key(task, Connection(provider)).name == Connection(provider);
  }

  lemma ResultNames(i: nat)
    ensures i < MAX_PRS ==> IsResultName(PrName(i)) && IsResultName(BuildsName(i)) && !Blank(PrName(i)) && !Blank(BuildsName(i))
    ensures i < MAX_PAGES ==> IsResultName(PageName(i)) && !Blank(PageName(i))
  {
    assert i < MAX_PRS ==> PrName(i)[0] == 'b' && BuildsName(i)[0] == 'b';
    assert i < MAX_PAGES ==> PageName(i)[0] == 'c';
  }

  lemma OnePrExactly(task: TaskId, d: Desk, env: Env, url: Json, i: nat)
    requires Manned(task, d) && Alive(env) && i < MAX_PRS
    ensures var (d', end) := ReviewPr(task, d, env, url, i);
            && Within(task, d, d', env, {PrName(i), BuildsName(i), Connection("bitbucket")})
            && end == Value(Bool(!BuildsGood(task, d.rows, env, i)))
            && (IsDone(d'.rows, Key(task, PrName(i))) <==> PrGood(task, d.rows, env, i))
            && (IsDone(d'.rows, Key(task, BuildsName(i))) <==> IsDone(d.rows, Key(task, BuildsName(i))) || BuildsGood(task, d.rows, env, i))
  {
    ResultNames(i);
    ConnectionsApart("bitbucket");
    NamesApart(i, i);
    var pr, builds := PrName(i), BuildsName(i);
    AsksExactly(task, d, pr, "bitbucket", env.bitbucket, url, Play(env, pr));
    var (d1, end) := ProviderStep(d, Key(task, pr), false, "bitbucket", env.bitbucket, false, url, Play(env, pr));
    AsksWithin(task, d, d1, env, pr, "bitbucket", env.bitbucket, url, Play(env, pr), end);
    if end.Value? {
      AsksExactly(task, d1, builds, "bitbucket", env.bitbucket, end.value, Play(env, builds));
      var (d2, end2) := ProviderStep(d1, Key(task, builds), false, "bitbucket", env.bitbucket, false, end.value, Play(env, builds));
      AsksWithin(task, d1, d2, env, builds, "bitbucket", env.bitbucket, end.value, Play(env, builds), end2);
      WithinThen(task, d, d1, d2, env, {pr, Connection("bitbucket")}, {builds, Connection("bitbucket")});
      assert {pr, Connection("bitbucket")} + {builds, Connection("bitbucket")} == {pr, builds, Connection("bitbucket")};
    }
  }

  /** The names a review of the pull requests from index `from` on may touch. */
  function PrNames(from: nat): set<string> {
    PullRequestNames(from) + BuildNames(from) + {Connection("bitbucket")}
  }

  function PullRequestNames(from: nat): set<string> {
    set j | from <= j < MAX_PRS :: PrName(j)
  }

  function BuildNames(from: nat): set<string> {
    set j | from <= j < MAX_PRS :: BuildsName(j)
  }

  function PageNames(from: nat): set<string> {
    (set j | from <= j < MAX_PAGES :: PageName(j)) + {Connection("confluence")}
  }

  lemma PrNamesApart(i: nat, j: nat)
    requires i < j < MAX_PRS
    ensures PrName(j) !in {PrName(i), BuildsName(i), Connection("bitbucket")} && BuildsName(j) !in {PrName(i), BuildsName(i), Connection("bitbucket")}
  {
    NamesApart(i, j);
    NamesApart(j, i);
    ResultNames(j);
    ConnectionsApart("bitbucket");
  }

  lemma PrNotLater(i: nat)
    requires i < MAX_PRS
    ensures PrName(i) !in PrNames(i + 1) && BuildsName(i) !in PrNames(i + 1)
    ensures PrNames(i) == {PrName(i), BuildsName(i), Connection("bitbucket")} + PrNames(i + 1)
  {
    ResultNames(i);
    ConnectionsApart("bitbucket");
    NotLater(i, PrName(i));
    NotLater(i, BuildsName(i));
    assert PullRequestNames(i) == {PrName(i)} + PullRequestNames(i + 1);
    assert BuildNames(i) == {BuildsName(i)} + BuildNames(i + 1);
  }

  lemma NotLater(i: nat, name: string)
    requires i < MAX_PRS && (name == PrName(i) || name == BuildsName(i))
    ensures name !in PullRequestNames(i + 1) && name !in BuildNames(i + 1)
  {
    forall j | i + 1 <= j < MAX_PRS ensures name != PrName(j) && name != BuildsName(j) {
      NamesApart(i, j);
      NamesApart(j, i);
    }
  }

  lemma PrUntouched(task: TaskId, d: Desk, d1: Desk, env: Env, names: set<string>, j: nat)
    requires Within(task, d, d1, env, names) && j < MAX_PRS && PrName(j) !in names && BuildsName(j) !in names
    ensures PrGood(task, d1.rows, env, j) == PrGood(task, d.rows, env, j) && BuildsGood(task, d1.rows, env, j) == BuildsGood(task, d.rows, env, j)
    ensures IsDone(d1.rows, Key(task, PrName(j))) == IsDone(d.rows, Key(task, PrName(j)))
    ensures IsDone(d1.rows, Key(task, BuildsName(j))) == IsDone(d.rows, Key(task, BuildsName(j)))
  {
    assert Key(task, PrName(j)).name == PrName(j) && Key(task, BuildsName(j)).name == BuildsName(j);
  }

  /** Pull request `j` and its builds are read exactly if they can be. */
  ghost predicate PrTold(task: TaskId, rows: Rows, rows': Rows, env: Env, j: nat)
    requires j < MAX_PRS
  {
    && (IsDone(rows', Key(task, PrName(j))) <==> PrGood(task, rows, env, j))
    && (IsDone(rows', Key(task, BuildsName(j))) <==> IsDone(rows, Key(task, BuildsName(j))) || BuildsGood(task, rows, env, j))
  }

  lemma PrThenRest(task: TaskId, d: Desk, d1: Desk, d2: Desk, env: Env, i: nat, n: nat)
    requires i < n <= MAX_PRS
    requires Within(task, d, d1, env, {PrName(i), BuildsName(i), Connection("bitbucket")}) && Within(task, d1, d2, env, PrNames(i + 1))
    requires PrTold(task, d.rows, d1.rows, env, i) && forall j :: i + 1 <= j < n ==> PrTold(task, d1.rows, d2.rows, env, j)
    ensures Within(task, d, d2, env, PrNames(i))
    ensures forall j :: i + 1 <= j < n ==> BuildsGood(task, d1.rows, env, j) == BuildsGood(task, d.rows, env, j)
    ensures forall j :: i <= j < n ==> PrTold(task, d.rows, d2.rows, env, j)
  {
    var names := {PrName(i), BuildsName(i), Connection("bitbucket")};
    PrNotLater(i);
    WithinThen(task, d, d1, d2, env, names, PrNames(i + 1));
    forall j | i + 1 <= j < n
      ensures BuildsGood(task, d1.rows, env, j) == BuildsGood(task, d.rows, env, j) && PrTold(task, d.rows, d2.rows, env, j)
    {
      PrNamesApart(i, j);
      PrUntouched(task, d, d1, env, names, j);
      assert PrTold(task, d1.rows, d2.rows, env, j);
    }
    PrUntouched(task, d1, d2, env, PrNames(i + 1), i);
    assert PrTold(task, d.rows, d2.rows, env, i);
  }

  lemma {:induction false} PrsExactly(task: TaskId, d: Desk, env: Env, prs: seq<Json>, i: nat, errors: bool)
    requires Manned(task, d) && Alive(env) && i <= |prs| <= MAX_PRS
    ensures var (d', end) := ReviewPrs(task, d, env, prs, i, errors);
            && Within(task, d, d', env, PrNames(i))
            && end == Value(Bool(errors || SomePrFails(task, d.rows, env, i, |prs|)))
            && forall j :: i <= j < |prs| ==> PrTold(task, d.rows, d'.rows, env, j)
    decreases |prs| - i
  {
    if i < |prs| {
      OnePrExactly(task, d, env, prs[i], i);
      var (d1, failed) := ReviewPr(task, d, env, prs[i], i);
      PrsExactly(task, d1, env, prs, i + 1, errors || failed == Value(Bool(true)));
      PrThenRest(task, d, d1, ReviewPrs(task, d1, env, prs, i + 1, errors || failed == Value(Bool(true))).0, env, i, |prs|);
      FirstPrFails(task, d.rows, d1.rows, env, i, |prs|);
    }
  }

  lemma PageNotLater(i: nat)
    requires i < MAX_PAGES
    ensures PageName(i) !in PageNames(i + 1) && PageNames(i) == {PageName(i), Connection("confluence")} + PageNames(i + 1)
    ensures forall j :: i < j < MAX_PAGES ==> PageName(j) != PageName(i) && PageName(j) != Connection("confluence")
  {
    ResultNames(i);
    ConnectionsApart("confluence");
    forall j | i < j < MAX_PAGES ensures PageName(i) != PageName(j) && PageName(j) != Connection("confluence") {
      NamesApart(i, j);
      ResultNames(j);
    }
  }

  lemma PageUntouched(task: TaskId, d: Desk, d1: Desk, env: Env, names: set<string>, j: nat)
    requires Within(task, d, d1, env, names) && j < MAX_PAGES && PageName(j) !in names
    ensures PageGood(task, d1.rows, env, j) == PageGood(task, d.rows, env, j)
    ensures IsDone(d1.rows, Key(task, PageName(j))) == IsDone(d.rows, Key(task, PageName(j)))
  {
    assert Key(task, PageName(j)).name == PageName(j);
  }

  lemma OnePageExactly(task: TaskId, d: Desk, env: Env, url: Json, i: nat)
    requires Manned(task, d) && Alive(env) && i < MAX_PAGES
    ensures var (d', end) := ReviewPage(task, d, env, url, i);
            && Within(task, d, d', env, {PageName(i), Connection("confluence")})
            && end == Value(Bool(!PageGood(task, d.rows, env, i)))
            && (IsDone(d'.rows, Key(task, PageName(i))) <==> PageGood(task, d.rows, env, i))
  {
    ResultNames(i);
    ConnectionsApart("confluence");
    var page := PageName(i);
    AsksExactly(task, d, page, "confluence", env.confluence, url, Play(env, page));
    var (d1, end) := ProviderStep(d, Key(task, page), false, "confluence", env.confluence, false, url, Play(env, page));
    AsksWithin(task, d, d1, env, page, "confluence", env.confluence, url, Play(env, page), end);
  }

  lemma PageThenRest(task: TaskId, d: Desk, d1: Desk, d2: Desk, env: Env, i: nat, n: nat)
    requires i < n <= MAX_PAGES
    requires Within(task, d, d1, env, {PageName(i), Connection("confluence")}) && Within(task, d1, d2, env, PageNames(i + 1))
    requires IsDone(d1.rows, Key(task, PageName(i))) <==> PageGood(task, d.rows, env, i)
    requires forall j :: i + 1 <= j < n ==> (IsDone(d2.rows, Key(task, PageName(j))) <==> PageGood(task, d1.rows, env, j))
    ensures Within(task, d, d2, env, PageNames(i))
    ensures forall j :: i + 1 <= j < n ==> PageGood(task, d1.rows, env, j) == PageGood(task, d.rows, env, j)
    ensures forall j :: i <= j < n ==> (IsDone(d2.rows, Key(task, PageName(j))) <==> PageGood(task, d.rows, env, j))
  {
    PageNotLater(i);
    WithinThen(task, d, d1, d2, env, {PageName(i), Connection("confluence")}, PageNames(i + 1));
    forall j | i + 1 <= j < n ensures PageGood(task, d1.rows, env, j) == PageGood(task, d.rows, env, j) {
      PageUntouched(task, d, d1, env, {PageName(i), Connection("confluence")}, j);
    }
    PageUntouched(task, d1, d2, env, PageNames(i + 1), i);
  }

  lemma {:induction false} PagesExactly(task: TaskId, d: Desk, env: Env, pages: seq<Json>, i: nat, errors: bool)
    requires Manned(task, d) && Alive(env) && i <= |pages| <= MAX_PAGES
    ensures var (d', end) := ReviewPages(task, d, env, pages, i, errors);
            && Within(task, d, d', env, PageNames(i))
            && end == Value(Bool(errors || SomePageFails(task, d.rows, env, i, |pages|)))
            && forall j :: i <= j < |pages| ==> (IsDone(d'.rows, Key(task, PageName(j))) <==> PageGood(task, d.rows, env, j))
    decreases |pages| - i
  {
    if i < |pages| {
      OnePageExactly(task, d, env, pages[i], i);
      var (d1, failed) := ReviewPage(task, d, env, pages[i], i);
      PagesExactly(task, d1, env, pages, i + 1, errors || failed == Value(Bool(true)));
      PageThenRest(task, d, d1, ReviewPages(task, d1, env, pages, i + 1, errors || failed == Value(Bool(true))).0, env, i, |pages|);
      FirstPageFails(task, d.rows, d1.rows, env, i, |pages|);
    }
  }

  /* ---------- the whole review ---------- */

  function IssueGood(task: TaskId, rows: Rows, env: Env): bool {
    Succeeds(task, rows, ISSUE, "jira", env.jira, Play(env, ISSUE))
  }

  /** The links the review goes by: those saved, or those found now. */
  function Links(task: TaskId, rows: Rows, env: Env): Json {
    if IsDone(rows, Key(task, SOURCES)) then Stored(rows, Key(task, SOURCES)) else Object(map["prs" := List(env.prs), "pages" := List(env.pages)])
  }

  function Prs(task: TaskId, rows: Rows, env: Env): seq<Json> {
    Leading(ItemsOf(Links(task, rows, env), "prs"), 5)
  }

  function PagesOf(task: TaskId, rows: Rows, env: Env): seq<Json> {
    Leading(ItemsOf(Links(task, rows, env), "pages"), 3)
  }

  function Leading(items: seq<Json>, limit: nat): seq<Json> {
    items[..if |items| < limit then |items| else limit]
  }

  /** Some source cannot be read. */
  predicate SomeFail(task: TaskId, rows: Rows, env: Env) {
    SomePrFails(task, rows, env, 0, |Prs(task, rows, env)|) || SomePageFails(task, rows, env, 0, |PagesOf(task, rows, env)|)
  }

  lemma IssueAsks(task: TaskId, d: Desk, d1: Desk, env: Env, issue: string, end: End)
    requires Asks(task, d, d1, ISSUE, "jira", env.jira, Text(issue), Play(env, ISSUE), end)
    ensures Within(task, d, d1, env, {ISSUE, Connection("jira")})
  {
    ConnectionNames();
    ConnectionsApart("jira");
    ConnectionsApart("bitbucket");
    ConnectionsApart("confluence");
    assert Key(task, ISSUE).name == ISSUE && Key(task, Connection("jira")).name == Connection("jira");
  }

  lemma SourcesWithin(task: TaskId, d: Desk, d1: Desk, env: Env, end: End)
    requires Manned(task, d) && d1 == PlainStep(d, Key(task, SOURCES), Returns(SourcesJson(env.prs, env.pages))).0
    requires Saved(task, d, d1, Key(task, SOURCES), Returns(SourcesJson(env.prs, env.pages)), end) && !IsDone(d.rows, Key(task, SOURCES))
    ensures Within(task, d, d1, env, {SOURCES})
  {
    ConnectionsApart("bitbucket");
    ConnectionsApart("confluence");
    assert Key(task, SOURCES).name == SOURCES;
  }

  lemma SelfWithin(task: TaskId, d: Desk, env: Env, names: set<string>)
    requires Manned(task, d)
    ensures Within(task, d, d, env, names)
  {
  }

  lemma PrsAreNoPages(j: nat)
    requires j < MAX_PRS
    ensures PrName(j) !in PageNames(0) && BuildsName(j) !in PageNames(0)
  {
    ResultNames(j);
    ConnectionsApart("confluence");
    forall k | 0 <= k < MAX_PAGES ensures PrName(j) != PageName(k) && BuildsName(j) != PageName(k) {
      NamesApart(j, k);
    }
  }

  lemma PagesAreNoPrs(j: nat)
    requires j < MAX_PAGES
    ensures PageName(j) !in PrNames(0)
  {
    ResultNames(j);
    ConnectionsApart("bitbucket");
    forall k | 0 <= k < MAX_PRS ensures PageName(j) != PrName(k) && PageName(j) != BuildsName(k) {
      NamesApart(k, j);
    }
    assert PageName(j) !in PullRequestNames(0) && PageName(j) !in BuildNames(0);
  }

  /** The first steps of a review, and its connections, are no pull requests, builds or pages. */
  const HEAD := {ISSUE, Connection("jira"), SOURCES}

  lemma HeadApart(j: nat)
    ensures j < MAX_PRS ==> PrName(j) !in HEAD && BuildsName(j) !in HEAD
    ensures j < MAX_PAGES ==> PageName(j) !in HEAD
    ensures ISSUE !in PrNames(0) + PageNames(0) && SOURCES !in PrNames(0) + PageNames(0)
  {
    ResultNames(j);
    ConnectionsApart("jira");
    ConnectionsApart("bitbucket");
    ConnectionsApart("confluence");
    forall k | 0 <= k < MAX_PRS ensures IsResultName(PrName(k)) && IsResultName(BuildsName(k)) { ResultNames(k); }
    forall k | 0 <= k < MAX_PAGES ensures IsResultName(PageName(k)) { ResultNames(k); }
    assert ISSUE !in PullRequestNames(0) && ISSUE !in BuildNames(0) && SOURCES !in PullRequestNames(0) && SOURCES !in BuildNames(0);
  }

  /** The issue and the links. */
  lemma HeadExactly(task: TaskId, d: Desk, issue: string, env: Env)
    requires Manned(task, d) && Alive(env) && IssueGood(task, d.rows, env)
    ensures var (d1, found) := ProviderStep(d, Key(task, ISSUE), false, "jira", env.jira, DiesConnecting(env, "jira"), Text(issue), Play(env, ISSUE));
            var (d2, sources) := PlainStep(d1, Key(task, SOURCES), Computed(SourcesJson(env.prs, env.pages), DiesCollecting(env)));
            && found.Value? && sources == Value(Links(task, d.rows, env)) && Within(task, d, d2, env, HEAD)
            && IsDone(d2.rows, Key(task, ISSUE)) && IsDone(d2.rows, Key(task, SOURCES)) && Stored(d2.rows, Key(task, SOURCES)) == Links(task, d.rows, env)
  {
    assert !Blank(ISSUE) && !Blank(SOURCES) by { assert ISSUE[0] == 'j' && SOURCES[0] == 'r'; }
    ConnectionsApart("jira");
    AsksExactly(task, d, ISSUE, "jira", env.jira, Text(issue), Play(env, ISSUE));
    var (d1, found) := ProviderStep(d, Key(task, ISSUE), false, "jira", env.jira, false, Text(issue), Play(env, ISSUE));
    IssueAsks(task, d, d1, env, issue, found);
    assert Key(task, SOURCES).name == SOURCES && SOURCES != ISSUE;
    PlainExactly(task, d1, SOURCES, SourcesJson(env.prs, env.pages));
    var (d2, sources) := PlainStep(d1, Key(task, SOURCES), Returns(SourcesJson(env.prs, env.pages)));
    if IsDone(d1.rows, Key(task, SOURCES)) {
      SelfWithin(task, d1, env, {SOURCES});
    } else {
      SourcesWithin(task, d1, d2, env, sources);
    }
    WithinThen(task, d, d1, d2, env, {ISSUE, Connection("jira")}, {SOURCES});
    assert {ISSUE, Connection("jira")} + {SOURCES} == HEAD;
  }

  /** Everything a review read, when the issue can be read: each pull request, its builds and each page exactly if it
      could be. */
  ghost predicate Collected(task: TaskId, d: Desk, d': Desk, env: Env) {
    && Within(task, d, d', env, HEAD + PrNames(0) + PageNames(0))
    && IsDone(d'.rows, Key(task, ISSUE)) && IsDone(d'.rows, Key(task, SOURCES)) && Stored(d'.rows, Key(task, SOURCES)) == Links(task, d.rows, env)
    && (forall j :: 0 <= j < |Prs(task, d.rows, env)| ==> PrTold(task, d.rows, d'.rows, env, j))
    && (forall j :: 0 <= j < |PagesOf(task, d.rows, env)| ==> (IsDone(d'.rows, Key(task, PageName(j))) <==> PageGood(task, d.rows, env, j)))
  }

  lemma PrsOf(task: TaskId, d: Desk, d2: Desk, d3: Desk, d4: Desk, env: Env, j: nat)
    requires Within(task, d, d2, env, HEAD) && Within(task, d3, d4, env, PageNames(0)) && j < MAX_PRS
    ensures BuildsGood(task, d2.rows, env, j) == BuildsGood(task, d.rows, env, j)
    ensures PrTold(task, d2.rows, d3.rows, env, j) ==> PrTold(task, d.rows, d4.rows, env, j)
  {
    HeadApart(j);
    PrsAreNoPages(j);
    PrUntouched(task, d, d2, env, HEAD, j);
    PrUntouched(task, d3, d4, env, PageNames(0), j);
  }

  lemma PagesStay(task: TaskId, d: Desk, d3: Desk, env: Env, j: nat)
    requires Within(task, d, d3, env, HEAD + PrNames(0)) && j < MAX_PAGES
    ensures PageGood(task, d3.rows, env, j) == PageGood(task, d.rows, env, j)
  {
    HeadApart(j);
    PagesAreNoPrs(j);
    PageUntouched(task, d, d3, env, HEAD + PrNames(0), j);
  }

  lemma SameFailures(task: TaskId, rows: Rows, rows2: Rows, rows3: Rows, env: Env)
    requires forall j :: 0 <= j < |Prs(task, rows, env)| ==> BuildsGood(task, rows2, env, j) == BuildsGood(task, rows, env, j)
    requires forall j :: 0 <= j < |PagesOf(task, rows, env)| ==> PageGood(task, rows3, env, j) == PageGood(task, rows, env, j)
    ensures SomeFail(task, rows, env)
            <==> SomePrFails(task, rows2, env, 0, |Prs(task, rows, env)|) || SomePageFails(task, rows3, env, 0, |PagesOf(task, rows, env)|)
  {
  }

  lemma RestExactly(task: TaskId, d: Desk, d2: Desk, env: Env)
    requires Manned(task, d) && Alive(env) && Within(task, d, d2, env, HEAD)
    requires IsDone(d2.rows, Key(task, ISSUE)) && IsDone(d2.rows, Key(task, SOURCES)) && Stored(d2.rows, Key(task, SOURCES)) == Links(task, d.rows, env)
    ensures var (d3, prs) := ReviewPrs(task, d2, env, Prs(task, d.rows, env), 0, false);
            var (d4, end) := ReviewPages(task, d3, env, PagesOf(task, d.rows, env), 0, prs == Value(Bool(true)));
            && prs.Value? && end == Value(Bool(SomeFail(task, d.rows, env))) && Collected(task, d, d4, env)
  {
    var prs, pages := Prs(task, d.rows, env), PagesOf(task, d.rows, env);
    PrsExactly(task, d2, env, prs, 0, false);
    var (d3, failed) := ReviewPrs(task, d2, env, prs, 0, false);
    PagesExactly(task, d3, env, pages, 0, failed == Value(Bool(true)));
    var d4 := ReviewPages(task, d3, env, pages, 0, failed == Value(Bool(true))).0;
    RestTold(task, d, d2, d3, d4, env);
    SameFailures(task, d.rows, d2.rows, d3.rows, env);
  }

  lemma RestTold(task: TaskId, d: Desk, d2: Desk, d3: Desk, d4: Desk, env: Env)
    requires Within(task, d, d2, env, HEAD) && Within(task, d2, d3, env, PrNames(0)) && Within(task, d3, d4, env, PageNames(0))
    requires IsDone(d2.rows, Key(task, ISSUE)) && IsDone(d2.rows, Key(task, SOURCES)) && Stored(d2.rows, Key(task, SOURCES)) == Links(task, d.rows, env)
    requires forall j :: 0 <= j < |Prs(task, d.rows, env)| ==> PrTold(task, d2.rows, d3.rows, env, j)
    requires forall j :: 0 <= j < |PagesOf(task, d.rows, env)| ==> (IsDone(d4.rows, Key(task, PageName(j))) <==> PageGood(task, d3.rows, env, j))
    ensures Collected(task, d, d4, env)
    ensures forall j :: 0 <= j < |Prs(task, d.rows, env)| ==> BuildsGood(task, d2.rows, env, j) == BuildsGood(task, d.rows, env, j)
    ensures forall j :: 0 <= j < |PagesOf(task, d.rows, env)| ==> PageGood(task, d3.rows, env, j) == PageGood(task, d.rows, env, j)
  {
    WithinThen(task, d, d2, d3, env, HEAD, PrNames(0));
    WithinThen(task, d, d3, d4, env, HEAD + PrNames(0), PageNames(0));
    forall j | 0 <= j < |Prs(task, d.rows, env)|
      ensures BuildsGood(task, d2.rows, env, j) == BuildsGood(task, d.rows, env, j) && PrTold(task, d.rows, d4.rows, env, j)
    {
      assert PrTold(task, d2.rows, d3.rows, env, j);
      PrsOf(task, d, d2, d3, d4, env, j);
    }
    forall j | 0 <= j < |PagesOf(task, d.rows, env)| ensures PageGood(task, d3.rows, env, j) == PageGood(task, d.rows, env, j) {
      PagesStay(task, d, d3, env, j);
    }
  }

  /** A review without deaths, before the task ends: it fails at once if the issue cannot be read, and otherwise reads all
      it can and says whether something is missing. */
  lemma CollectsExactly(task: TaskId, d: Desk, issue: string, env: Env)
    requires Manned(task, d) && Alive(env)
    ensures var (d', end) := Review(task, d, issue, env);
            && Manned(task, d') && d'.rows.tasks == d.rows.tasks
            && if IssueGood(task, d.rows, env) then end == Value(Bool(SomeFail(task, d.rows, env))) && Collected(task, d, d', env)
               else end == Raised && Within(task, d, d', env, {ISSUE, Connection("jira")}) && !IsDone(d'.rows, Key(task, ISSUE))
  {
    assert !Blank(ISSUE) by { assert ISSUE[0] == 'j'; }
    ConnectionsApart("jira");
    AsksExactly(task, d, ISSUE, "jira", env.jira, Text(issue), Play(env, ISSUE));
    var (d1, found) := ProviderStep(d, Key(task, ISSUE), false, "jira", env.jira, false, Text(issue), Play(env, ISSUE));
    if IssueGood(task, d.rows, env) {
      HeadExactly(task, d, issue, env);
      var d2 := PlainStep(d1, Key(task, SOURCES), Returns(SourcesJson(env.prs, env.pages))).0;
      FirstIsLeading(ItemsOf(Links(task, d.rows, env), "prs"), MAX_PRS);
      FirstIsLeading(ItemsOf(Links(task, d.rows, env), "pages"), MAX_PAGES);
      RestExactly(task, d, d2, env);
    } else {
      IssueAsks(task, d, d1, env, issue, found);
    }
  }

  lemma FirstIsLeading(items: seq<Json>, limit: nat)
    ensures First(items, limit) == Leading(items, limit)
  {
  }

  /* ---------- how the task ends ---------- */

  /** The rows of a review that read all it could: completed rows and those of other steps are the same, the issue and the
      links are saved, and each pull request, its builds and each page are saved exactly if they could be read. */
  ghost predicate ReadTold(task: TaskId, rows: Rows, rows': Rows, env: Env) {
    && (forall k: StepKey :: k.task != task || k.name !in HEAD + PrNames(0) + PageNames(0) ==>
          (k in rows'.steps <==> k in rows.steps) && (k in rows.steps ==> rows'.steps[k] == rows.steps[k]))
    && (forall k :: IsDone(rows, k) ==> IsDone(rows', k) && rows'.steps[k] == rows.steps[k])
    && IsDone(rows', Key(task, ISSUE)) && IsDone(rows', Key(task, SOURCES)) && Stored(rows', Key(task, SOURCES)) == Links(task, rows, env)
    && (forall j :: 0 <= j < |Prs(task, rows, env)| ==> PrTold(task, rows, rows', env, j))
    && (forall j :: 0 <= j < |PagesOf(task, rows, env)| ==> (IsDone(rows', Key(task, PageName(j))) <==> PageGood(task, rows, env, j)))
  }

  /** No step of the task is left unfinished. */
  ghost predicate NothingOpen(task: TaskId, rows: Rows) {
    forall key :: key in rows.steps && key.task == task ==> rows.steps[key].status == StepCompleted
  }

  lemma EndsExactly(task: TaskId, d: Desk, end: End, report: Json)
    requires Manned(task, d) && !end.Died?
    ensures var (d', last) := EndTask(task, d, end, report);
            && d'.rows.steps == d.rows.steps && task in d'.rows.tasks
            && var row, row' := d.rows.tasks[task], d'.rows.tasks[task];
               if end == Value(Bool(false)) && NothingOpen(task, d.rows)
               then row'.status == TaskCompleted && row'.result == Some(report) && last == end
               else
                 && row'.status == TaskFailed && (last == if end == Value(Bool(false)) then Raised else end)
                 && row'.result == if end.Value? && end != Value(Bool(false)) && report != Null then Some(report) else row.result
  {
    assert NothingOpen(task, d.rows) <==> AllCompleted(d.rows, task);
  }

  lemma ResumeMans(task: TaskId, d: Desk)
    requires task in d.rows.tasks && d.rows.tasks[task].status != TaskCompleted
    requires forall key :: key in d.rows.steps && key.task == task ==> !d.rows.steps[key].isWrite
    ensures var o := DoResume(d.rows, d.memory, task);
            && o.reply == Done && Manned(task, d.(rows := o.rows, memory := o.memory)) && o.rows.steps == d.rows.steps
            && o.rows.tasks[task].result == d.rows.tasks[task].result
  {
  }

  lemma StepsDecide(task: TaskId, rows: Rows, rows1: Rows, env: Env)
    requires rows1.steps == rows.steps
    ensures IssueGood(task, rows1, env) == IssueGood(task, rows, env) && Links(task, rows1, env) == Links(task, rows, env)
    ensures SomeFail(task, rows1, env) == SomeFail(task, rows, env)
  {
    assert forall j :: 0 <= j < |Prs(task, rows, env)| ==> BuildsGood(task, rows1, env, j) == BuildsGood(task, rows, env, j);
    assert forall j :: 0 <= j < |PagesOf(task, rows, env)| ==> PageGood(task, rows1, env, j) == PageGood(task, rows, env, j);
  }

  lemma CollectedIsRead(task: TaskId, rows: Rows, d0: Desk, d1: Desk, rows': Rows, env: Env)
    requires Collected(task, d0, d1, env) && d0.rows.steps == rows.steps && rows'.steps == d1.rows.steps
    ensures ReadTold(task, rows, rows', env)
  {
    StepsDecide(task, rows, d0.rows, env);
    forall j | 0 <= j < |Prs(task, rows, env)| ensures PrTold(task, rows, rows', env, j) {
      SamePrTold(task, rows, d0.rows, d1.rows, rows', env, j);
    }
    forall j | 0 <= j < |PagesOf(task, rows, env)| ensures IsDone(rows', Key(task, PageName(j))) <==> PageGood(task, rows, env, j) {
      assert PageGood(task, d0.rows, env, j) == PageGood(task, rows, env, j);
    }
  }

  lemma SamePrTold(task: TaskId, rows: Rows, rows0: Rows, rows1: Rows, rows': Rows, env: Env, j: nat)
    requires rows0.steps == rows.steps && rows'.steps == rows1.steps && j < MAX_PRS && PrTold(task, rows0, rows1, env, j)
    ensures PrTold(task, rows, rows', env, j)
  {
  }

  /** A review whose process does not die.  If the issue cannot be read, the task fails.  Otherwise every source that can be
      read is saved, whatever happens to the others; if some fail, the task fails with the report, and if none does, it is
      completed with the report, unless an earlier step of it is still unfinished. */
  lemma ReviewsExactly(task: TaskId, issue: string, d: Desk, env: Env)
    requires task in d.rows.tasks && d.rows.tasks[task].status != TaskCompleted && Alive(env)
    requires forall key :: key in d.rows.steps && key.task == task ==> !d.rows.steps[key].isWrite
    ensures var d' := Perform(task, issue, d, ReviewAgain(env));
            && task in d'.rows.tasks
            && var row, row' := d.rows.tasks[task], d'.rows.tasks[task];
               if !IssueGood(task, d.rows, env) then
                 row'.status == TaskFailed && row'.result == row.result && !IsDone(d'.rows, Key(task, ISSUE))
               else
                 && ReadTold(task, d.rows, d'.rows, env)
                 && if SomeFail(task, d.rows, env) then row'.status == TaskFailed && row'.result == if env.report != Null then Some(env.report) else row.result
                    else if NothingOpen(task, d'.rows) then row'.status == TaskCompleted && row'.result == Some(env.report)
                    else row'.status == TaskFailed && row'.result == row.result
  {
    ResumeMans(task, d);
    var o := DoResume(d.rows, d.memory, task);
    var d0 := d.(rows := o.rows, memory := o.memory);
    StepsDecide(task, d.rows, d0.rows, env);
    CollectsExactly(task, d0, issue, env);
    var (d1, end) := Review(task, d0, issue, env);
    EndsExactly(task, d1, end, env.report);
    if IssueGood(task, d.rows, env) {
      CollectedIsRead(task, d.rows, d0, d1, Perform(task, issue, d, ReviewAgain(env)).rows, env);
    }
  }

  /* ---------- deaths ---------- */

  /** The tasks are as they were, and a dead process remembers nothing. */
  predicate Left(d: Desk, d': Desk, end: End) {
    d'.rows.tasks == d.rows.tasks && (end.Died? ==> d'.memory == EMPTY_MEMORY)
  }

  lemma StepLeaves(d: Desk, key: StepKey, provider: string, target: Option<Target>, dies: bool, about: Json, action: Action)
    ensures var (d', end) := ProviderStep(d, key, false, provider, target, dies, about, action); Left(d, d', end)
  {
    OpenLeaves(d, key);
    var (d1, opening) := Open(d, key, false);
    if opening == Go {
      CallLeaves(d1, key, provider, target, dies, about, action);
      var (d2, result) := CallProvider(d1, key, provider, target, dies, about, action);
      CloseLeaves(d2, key, result);
    }
  }

  lemma OpenLeaves(d: Desk, key: StepKey)
    ensures Open(d, key, false).0.rows.tasks == d.rows.tasks
  {
  }

  lemma CloseLeaves(d: Desk, key: StepKey, action: Action)
    ensures var (d', end) := Close(d, key, action); Left(d, d', end)
  {
  }

  lemma CallLeaves(d: Desk, key: StepKey, provider: string, target: Option<Target>, dies: bool, about: Json, action: Action)
    ensures CallProvider(d, key, provider, target, dies, about, action).0.rows.tasks == d.rows.tasks
  {
    if target.Some? {
      PlainLeaves(d, Key(key.task, Connection(provider)), Computed(TargetJson(target.value), dies));
    }
  }

  lemma PlainLeaves(d: Desk, key: StepKey, action: Action)
    ensures var (d', end) := PlainStep(d, key, action); Left(d, d', end)
  {
    OpenLeaves(d, key);
    CloseLeaves(Open(d, key, false).0, key, action);
  }

  lemma PrLeaves(task: TaskId, d: Desk, env: Env, url: Json, i: nat)
    requires i < MAX_PRS
    ensures var (d', end) := ReviewPr(task, d, env, url, i); Left(d, d', end)
  {
    var dies := DiesConnecting(env, "bitbucket");
    StepLeaves(d, Key(task, PrName(i)), "bitbucket", env.bitbucket, dies, url, Play(env, PrName(i)));
    var (d1, pr) := ProviderStep(d, Key(task, PrName(i)), false, "bitbucket", env.bitbucket, dies, url, Play(env, PrName(i)));
    if pr.Value? {
      StepLeaves(d1, Key(task, BuildsName(i)), "bitbucket", env.bitbucket, dies, pr.value, Play(env, BuildsName(i)));
    }
  }

  lemma {:induction false} PrsLeave(task: TaskId, d: Desk, env: Env, prs: seq<Json>, i: nat, errors: bool)
    requires i <= |prs| <= MAX_PRS
    ensures var (d', end) := ReviewPrs(task, d, env, prs, i, errors); Left(d, d', end)
    decreases |prs| - i
  {
    if i < |prs| {
      PrLeaves(task, d, env, prs[i], i);
      var (d1, failed) := ReviewPr(task, d, env, prs[i], i);
      PrsLeave(task, d1, env, prs, i + 1, errors || failed == Value(Bool(true)));
    }
  }

  lemma {:induction false} PagesLeave(task: TaskId, d: Desk, env: Env, pages: seq<Json>, i: nat, errors: bool)
    requires i <= |pages| <= MAX_PAGES
    ensures var (d', end) := ReviewPages(task, d, env, pages, i, errors); Left(d, d', end)
    decreases |pages| - i
  {
    if i < |pages| {
      StepLeaves(d, Key(task, PageName(i)), "confluence", env.confluence, DiesConnecting(env, "confluence"), pages[i], Play(env, PageName(i)));
      var (d1, failed) := ReviewPage(task, d, env, pages[i], i);
      PagesLeave(task, d1, env, pages, i + 1, errors || failed == Value(Bool(true)));
    }
  }

  /** A process that dies in a review leaves the task running and takes its memory along; so its claims are lost, and the
      next process has to resume the task. */
  lemma DyingLeavesTheTask(task: TaskId, d: Desk, issue: string, env: Env)
    ensures var (d', end) := RunReview(task, d, issue, env); end.Died? ==> d'.rows.tasks == d.rows.tasks && d'.memory == EMPTY_MEMORY
  {
    StepLeaves(d, Key(task, ISSUE), "jira", env.jira, DiesConnecting(env, "jira"), Text(issue), Play(env, ISSUE));
    var (d1, found) := ProviderStep(d, Key(task, ISSUE), false, "jira", env.jira, DiesConnecting(env, "jira"), Text(issue), Play(env, ISSUE));
    if found.Value? {
      PlainLeaves(d1, Key(task, SOURCES), Computed(SourcesJson(env.prs, env.pages), DiesCollecting(env)));
      var (d2, sources) := PlainStep(d1, Key(task, SOURCES), Computed(SourcesJson(env.prs, env.pages), DiesCollecting(env)));
      if sources.Value? {
        PrsLeave(task, d2, env, First(ItemsOf(sources.value, "prs"), MAX_PRS), 0, false);
        var (d3, prs) := ReviewPrs(task, d2, env, First(ItemsOf(sources.value, "prs"), MAX_PRS), 0, false);
        if prs.Value? {
          PagesLeave(task, d3, env, First(ItemsOf(sources.value, "pages"), MAX_PAGES), 0, prs == Value(Bool(true)));
        }
      }
    }
  }
}
