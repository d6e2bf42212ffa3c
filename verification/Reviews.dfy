/** Source reviews over the task store: each provider call is a checkpointed step whose action first
    checkpoints the provider's target (`connection.<provider>`).  A review may fail, die and be run
    again any number of times, with other settings and other answers each time. */
module Reviews {
  import opened Prelude
  import opened TaskStoreModel

  /** The saved part of a provider's settings. */
  datatype Target = Target(url: string, deployment: string)

  /** One call that reached a provider: by which step, about what, and what it returned. */
  datatype Contact = Contact(provider: string, target: Option<Target>, step: string, about: Json, returned: Option<Json>)

  datatype Desk = Desk(rows: Rows, memory: Memory, nextId: nat, contacts: seq<Contact>)

  /** How an action goes, once it runs. */
  datatype Action = Returns(value: Json) | Raises(uncertain: bool) | Dies

  datatype End = Value(value: Json) | Raised | Died

  datatype Opening = Reuse(value: Json) | Go | Stop

  function Key(task: TaskId, name: string): StepKey {
    StepKey(task, name)
  }

  function Connection(provider: string): string {
    "connection." + provider
  }

  function TargetJson(target: Target): Json {
    Object(map["url" := Text(target.url), "deployment" := Text(target.deployment)])
  }

  lemma TargetJsonInjective(a: Target, b: Target)
    requires TargetJson(a) == TargetJson(b)
    ensures a == b
  {
    assert TargetJson(a).fields["url"] == TargetJson(b).fields["url"];
    assert TargetJson(a).fields["deployment"] == TargetJson(b).fields["deployment"];
  }

  predicate IsDone(rows: Rows, key: StepKey) {
    key in rows.steps && rows.steps[key].status == StepCompleted
  }

  /* ---------- `_step` and `_provider` ---------- */

  function Open(d: Desk, key: StepKey, isWrite: bool): (Desk, Opening) {
    var o := DoBegin(d.rows, d.memory, d.nextId, key.task, key.name, isWrite);
    match o.reply
    case Reused(step) => (d.(memory := o.memory), Reuse(if step.result.Some? then step.result.value else Null))
    case Started(_) => (d.(rows := o.rows, memory := o.memory, nextId := d.nextId + 1), Go)
    case _ => (d.(memory := o.memory), Stop)
  }

  function Close(d: Desk, key: StepKey, action: Action): (Desk, End) {
    match action
    case Dies => (d.(memory := EMPTY_MEMORY), Died)
    case Raises(uncertain) =>
      var o := DoFailStep(d.rows, d.memory, key, "", uncertain);
      (d.(rows := o.rows, memory := o.memory), Raised)
    case Returns(value) =>
      var o := DoComplete(d.rows, d.memory, key, value);
      (d.(rows := o.rows, memory := o.memory), if o.reply == Done then Value(value) else Raised)
  }

  /** The action of a step that only computes a value, unless the process dies in it. */
  function Computed(value: Json, dies: bool): Action {
    if dies then Dies else Returns(value)
  }

  /** A step whose action only computes. */
  function PlainStep(d: Desk, key: StepKey, action: Action): (Desk, End) {
    var (d1, opening) := Open(d, key, false);
    match opening
    case Reuse(value) => (d1, Value(value))
    case Stop => (d1, Raised)
    case Go => Close(d1, key, action)
  }

  /** `_provider`: check the target first when the provider is configured, then call it; the process may die
      while it saves the target. */
  function CallProvider(d: Desk, key: StepKey, provider: string, target: Option<Target>, dies: bool, about: Json, action: Action): (Desk, Action) {
    var (d1, saved) :=
      if target.Some? then PlainStep(d, Key(key.task, Connection(provider)), Computed(TargetJson(target.value), dies)) else (d, Value(Null));
    if saved.Died? then (d1, Dies)
    else if !saved.Value? || (target.Some? && saved.value != TargetJson(target.value)) then (d1, Raises(false))
    else
      var returned := if action.Returns? then Some(action.value) else None;
      (d1.(contacts := d1.contacts + [Contact(provider, target, key.name, about, returned)]), action)
  }

  function ProviderStep(d: Desk, key: StepKey, isWrite: bool, provider: string, target: Option<Target>, dies: bool, about: Json, action: Action): (Desk, End) {
    var (d1, opening) := Open(d, key, isWrite);
    match opening
    case Reuse(value) => (d1, Value(value))
    case Stop => (d1, Raised)
    case Go =>
      var (d2, result) := CallProvider(d1, key, provider, target, dies, about, action);
      Close(d2, key, result)
  }

  /* ---------- what one step does ---------- */

  /** Only the row of `key` changes, and not if it is completed; a completed row has a result. */
  ghost predicate OneRow(rows: Rows, rows': Rows, key: StepKey) {
    && rows'.tasks == rows.tasks
    && (forall k :: k != key ==> (k in rows'.steps <==> k in rows.steps) && (k in rows.steps ==> rows'.steps[k] == rows.steps[k]))
    && (IsDone(rows, key) ==> key in rows'.steps && rows'.steps[key] == rows.steps[key])
    && (IsDone(rows', key) && !IsDone(rows, key) ==> rows'.steps[key].result.Some?)
  }

  /** Nothing completed is lost, and what is newly completed has a result. */
  ghost predicate Grows(rows: Rows, rows': Rows) {
    && (forall key :: IsDone(rows, key) ==> key in rows'.steps && rows'.steps[key] == rows.steps[key])
    && (forall key :: IsDone(rows', key) && !IsDone(rows, key) ==> rows'.steps[key].result.Some?)
  }

  ghost predicate OpenFacts(d: Desk, d': Desk, key: StepKey, opening: Opening) {
    && OneRow(d.rows, d'.rows, key) && d'.contacts == d.contacts
    && (forall k :: IsDone(d'.rows, k) <==> IsDone(d.rows, k))
    && (match opening
        case Go => !IsDone(d.rows, key)
        case Reuse(value) => d'.rows == d.rows && IsDone(d.rows, key) && (d.rows.steps[key].result.Some? ==> d.rows.steps[key].result == Some(value))
        case Stop => d'.rows == d.rows)
  }

  lemma OpenFactsHold(d: Desk, key: StepKey, isWrite: bool)
    ensures var (d', opening) := Open(d, key, isWrite); OpenFacts(d, d', key, opening)
  {
  }

  /** A step that just completed has the result its action returned. */
  ghost predicate CloseFacts(d: Desk, d': Desk, key: StepKey, action: Action, end: End) {
    && OneRow(d.rows, d'.rows, key) && d'.contacts == d.contacts
    && (IsDone(d'.rows, key) && !IsDone(d.rows, key) ==> action.Returns? && d'.rows.steps[key].result == Some(action.value))
    && (end.Value? ==> IsDone(d'.rows, key) && (d'.rows.steps[key].result.Some? ==> d'.rows.steps[key].result == Some(end.value)))
  }

  lemma CloseFactsHold(d: Desk, key: StepKey, action: Action)
    requires !IsDone(d.rows, key)
    ensures var (d', end) := Close(d, key, action); CloseFacts(d, d', key, action, end)
  {
  }

  lemma PlainFactsHold(d: Desk, key: StepKey, action: Action)
    ensures var (d', end) := PlainStep(d, key, action); CloseFacts(d, d', key, action, end)
  {
    OpenFactsHold(d, key, false);
    var (d1, opening) := Open(d, key, false);
    if opening == Go {
      CloseFactsHold(d1, key, action);
    }
  }

  /* ---------- one target per provider ---------- */

  ghost predicate ResultsSaved(task: TaskId, rows: Rows) {
    forall key: StepKey :: key.task == task && IsDone(rows, key) ==> rows.steps[key].result.Some?
  }

  /** Every call to a configured provider was made under the target its connection step saved. */
  ghost predicate TargetsSaved(task: TaskId, d: Desk) {
    forall x :: x in d.contacts && x.target.Some? ==>
      IsDone(d.rows, Key(task, Connection(x.provider)))
      && d.rows.steps[Key(task, Connection(x.provider))].result == Some(TargetJson(x.target.value))
  }

  lemma GrowthKeepsTargets(task: TaskId, d: Desk, d': Desk)
    requires TargetsSaved(task, d) && ResultsSaved(task, d.rows) && Grows(d.rows, d'.rows) && d'.contacts == d.contacts
    ensures TargetsSaved(task, d') && ResultsSaved(task, d'.rows)
  {
  }

  /** The contact a provider call adds, if it adds one. */
  ghost predicate CallFacts(d: Desk, d': Desk, key: StepKey, provider: string, target: Option<Target>, about: Json, action: Action, result: Action) {
    && OneRow(d.rows, d'.rows, Key(key.task, Connection(provider)))
    && (|| (d'.contacts == d.contacts && (result == Raises(false) || result == Dies))
        || (result == action
            && d'.contacts == d.contacts + [Contact(provider, target, key.name, about, if action.Returns? then Some(action.value) else None)]))
  }

  lemma CallFactsHold(d: Desk, key: StepKey, provider: string, target: Option<Target>, dies: bool, about: Json, action: Action)
    requires TargetsSaved(key.task, d) && ResultsSaved(key.task, d.rows)
    ensures var (d', result) := CallProvider(d, key, provider, target, dies, about, action);
            CallFacts(d, d', key, provider, target, about, action, result) && TargetsSaved(key.task, d') && ResultsSaved(key.task, d'.rows)
  {
    if target.Some? {
      var connection := Key(key.task, Connection(provider));
      PlainFactsHold(d, connection, Computed(TargetJson(target.value), dies));
      var (d1, saved) := PlainStep(d, connection, Computed(TargetJson(target.value), dies));
      GrowthKeepsTargets(key.task, d, d1);
    }
  }

  /** A provider step that just completed did so with what its last contact returned. */
  ghost predicate ProviderFacts(d: Desk, d': Desk, key: StepKey, provider: string, about: Json, end: End) {
    var connection := Key(key.task, Connection(provider));
    && Grows(d.rows, d'.rows)
    && (forall k :: IsDone(d'.rows, k) && !IsDone(d.rows, k) ==> k == key || k == connection)
    && (forall x :: x in d.contacts ==> x in d'.contacts)
    && (IsDone(d'.rows, key) && !IsDone(d.rows, key) && key != connection ==>
          exists x :: x in d'.contacts && x.step == key.name && x.about == about && x.returned == d'.rows.steps[key].result)
    && (end.Value? ==> IsDone(d'.rows, key) && d'.rows.steps[key].result == Some(end.value))
  }

  lemma ProviderFactsHold(d: Desk, key: StepKey, isWrite: bool, provider: string, target: Option<Target>, dies: bool, about: Json, action: Action)
    requires TargetsSaved(key.task, d) && ResultsSaved(key.task, d.rows) && key.name != Connection(provider)
    ensures var (d', end) := ProviderStep(d, key, isWrite, provider, target, dies, about, action);
            ProviderFacts(d, d', key, provider, about, end) && TargetsSaved(key.task, d') && ResultsSaved(key.task, d'.rows)
  {
    OpenFactsHold(d, key, isWrite);
    var (d1, opening) := Open(d, key, isWrite);
    if opening == Go {
      OpenedFactsHold(d, d1, key, provider, target, dies, about, action);
    }
  }

  lemma OpenedFactsHold(d: Desk, d1: Desk, key: StepKey, provider: string, target: Option<Target>, dies: bool, about: Json, action: Action)
    requires TargetsSaved(key.task, d) && ResultsSaved(key.task, d.rows) && key.name != Connection(provider) && OpenFacts(d, d1, key, Go)
    ensures var (d2, result) := CallProvider(d1, key, provider, target, dies, about, action);
            var (d3, end) := Close(d2, key, result);
            ProviderFacts(d, d3, key, provider, about, end) && TargetsSaved(key.task, d3) && ResultsSaved(key.task, d3.rows)
  {
    GrowthKeepsTargets(key.task, d, d1);
    CallFactsHold(d1, key, provider, target, dies, about, action);
    var (d2, result) := CallProvider(d1, key, provider, target, dies, about, action);
    CloseFactsHold(d2, key, result);
    var (d3, end) := Close(d2, key, result);
    ClosedFactsHold(d, d1, d2, d3, key, provider, target, about, action, result, end);
  }

  lemma ClosedFactsHold(d: Desk, d1: Desk, d2: Desk, d3: Desk, key: StepKey, provider: string, target: Option<Target>,
                        about: Json, action: Action, result: Action, end: End)
    requires OpenFacts(d, d1, key, Go) && CallFacts(d1, d2, key, provider, target, about, action, result) && CloseFacts(d2, d3, key, result, end)
    requires TargetsSaved(key.task, d2) && ResultsSaved(key.task, d2.rows) && key.name != Connection(provider)
    ensures ProviderFacts(d, d3, key, provider, about, end) && TargetsSaved(key.task, d3) && ResultsSaved(key.task, d3.rows)
  {
    GrowthKeepsTargets(key.task, d2, d3);
    Assembled(d, d1, d2, d3, key, provider, target, about, action, result, end);
  }

  lemma Assembled(d: Desk, d1: Desk, d2: Desk, d3: Desk, key: StepKey, provider: string, target: Option<Target>,
                  about: Json, action: Action, result: Action, end: End)
    requires OpenFacts(d, d1, key, Go) && CallFacts(d1, d2, key, provider, target, about, action, result) && CloseFacts(d2, d3, key, result, end)
    requires ResultsSaved(key.task, d3.rows) && key.name != Connection(provider)
    ensures ProviderFacts(d, d3, key, provider, about, end)
  {
    if IsDone(d3.rows, key) {
      var x := d2.contacts[|d2.contacts| - 1];
      assert x in d3.contacts && x.step == key.name && x.about == about && x.returned == d3.rows.steps[key].result;
    }
  }

  /* ---------- `_review` ---------- */

  const MAX_PRS := 5
  const MAX_PAGES := 3
  const ISSUE := "jira.issue"
  const SOURCES := "review.sources"

  function Digit(i: nat): string
    requires i < 10
  {
    ["0", "1", "2", "3", "4", "5", "6", "7", "8", "9"][i]
  }

  function PrName(i: nat): string
    requires i < MAX_PRS
  {
    "bitbucket.pr." + Digit(i)
  }

  function BuildsName(i: nat): string
    requires i < MAX_PRS
  {
    "bitbucket.builds." + Digit(i)
  }

  function PageName(i: nat): string
    requires i < MAX_PAGES
  {
    "confluence.page." + Digit(i)
  }

  /** What one run of a review meets: the settings, the links found now, and how each action goes; for the steps that
      only compute, `plays` says whether the process dies in them.  `report` is the result a complete run gathers. */
  datatype Env = Env(jira: Option<Target>, bitbucket: Option<Target>, confluence: Option<Target>,
                     prs: seq<Json>, pages: seq<Json>, plays: map<string, Action>, report: Json)

  function Play(env: Env, name: string): Action {
    if name in env.plays then env.plays[name] else Raises(false)
  }

  predicate DiesConnecting(env: Env, provider: string) {
    Connection(provider) in env.plays && env.plays[Connection(provider)].Dies?
  }

  predicate DiesCollecting(env: Env) {
    SOURCES in env.plays && env.plays[SOURCES].Dies?
  }

  function SourcesJson(prs: seq<Json>, pages: seq<Json>): Json {
    Object(map["prs" := List(prs), "pages" := List(pages)])
  }

  function ItemsOf(value: Json, name: string): seq<Json> {
    if value.Object? && name in value.fields && value.fields[name].List? then value.fields[name].items else []
  }

  /** Pull request `i` and its builds; the value says whether one of them failed. */
  function ReviewPr(task: TaskId, d: Desk, env: Env, url: Json, i: nat): (Desk, End)
    requires i < MAX_PRS
  {
    var (d1, pr) := ProviderStep(d, Key(task, PrName(i)), false, "bitbucket", env.bitbucket, DiesConnecting(env, "bitbucket"), url, Play(env, PrName(i)));
    match pr
    case Died => (d1, Died)
    case Raised => (d1, Value(Bool(true)))
    case Value(value) =>
      var (d2, builds) := ProviderStep(d1, Key(task, BuildsName(i)), false, "bitbucket", env.bitbucket, DiesConnecting(env, "bitbucket"), value, Play(env, BuildsName(i)));
      (d2, if builds.Died? then Died else Value(Bool(builds.Raised?)))
  }

  /** The pull requests from index `i` on; `errors` says whether one failed already. */
  function ReviewPrs(task: TaskId, d: Desk, env: Env, prs: seq<Json>, i: nat, errors: bool): (Desk, End)
    requires i <= |prs| <= MAX_PRS
    decreases |prs| - i
  {
    if i == |prs| then (d, Value(Bool(errors)))
    else
      var (d1, failed) := ReviewPr(task, d, env, prs[i], i);
      if failed.Died? then (d1, Died) else ReviewPrs(task, d1, env, prs, i + 1, errors || failed == Value(Bool(true)))
  }

  /** Page `i`; the value says whether it failed. */
  function ReviewPage(task: TaskId, d: Desk, env: Env, url: Json, i: nat): (Desk, End)
    requires i < MAX_PAGES
  {
    var (d1, page) := ProviderStep(d, Key(task, PageName(i)), false, "confluence", env.confluence, DiesConnecting(env, "confluence"), url, Play(env, PageName(i)));
    (d1, if page.Died? then Died else Value(Bool(page.Raised?)))
  }

  function ReviewPages(task: TaskId, d: Desk, env: Env, pages: seq<Json>, i: nat, errors: bool): (Desk, End)
    requires i <= |pages| <= MAX_PAGES
    decreases |pages| - i
  {
    if i == |pages| then (d, Value(Bool(errors)))
    else
      var (d1, failed) := ReviewPage(task, d, env, pages[i], i);
      if failed.Died? then (d1, Died) else ReviewPages(task, d1, env, pages, i + 1, errors || failed == Value(Bool(true)))
  }

  function First(items: seq<Json>, limit: nat): seq<Json> {
    if |items| <= limit then items else items[..limit]
  }

  /** The value says whether sources failed that a later run may retry. */
  function Review(task: TaskId, d: Desk, issue: string, env: Env): (Desk, End) {
    var (d1, found) := ProviderStep(d, Key(task, ISSUE), false, "jira", env.jira, DiesConnecting(env, "jira"), Text(issue), Play(env, ISSUE));
    if !found.Value? then (d1, found)
    else
      var (d2, sources) := PlainStep(d1, Key(task, SOURCES), Computed(SourcesJson(env.prs, env.pages), DiesCollecting(env)));
      if !sources.Value? then (d2, sources)
      else
        var (d3, prs) := ReviewPrs(task, d2, env, First(ItemsOf(sources.value, "prs"), MAX_PRS), 0, false);
        if !prs.Value? then (d3, prs)
        else ReviewPages(task, d3, env, First(ItemsOf(sources.value, "pages"), MAX_PAGES), 0, prs == Value(Bool(true)))
  }

  function FailTask(task: TaskId, d: Desk, report: Json): Desk {
    var o := DoFail(d.rows, d.memory, task, "", report);
    d.(rows := o.rows, memory := o.memory)
  }

  /** The task is finished with the report if nothing failed, failed with the report if some sources did, and
      failed without one after any other error, a refused finish included. */
  function EndTask(task: TaskId, d: Desk, end: End, report: Json): (Desk, End) {
    if end == Value(Bool(false)) then
      var o := DoFinish(d.rows, d.memory, task, report);
      if o.reply == Done then (d.(rows := o.rows, memory := o.memory), end) else (FailTask(task, d, Null), Raised)
    else (FailTask(task, d, if end.Value? then report else Null), end)
  }

  function RunReview(task: TaskId, d: Desk, issue: string, env: Env): (Desk, End) {
    var (d1, end) := Review(task, d, issue, env);
    if end.Died? then (d1, end) else EndTask(task, d1, end, env.report)
  }

  /* ---------- what runs keep ---------- */

  /** The sources this task saved. */
  predicate SavedSources(task: TaskId, rows: Rows, prs: seq<Json>, pages: seq<Json>) {
    && IsDone(rows, Key(task, SOURCES)) && rows.steps[Key(task, SOURCES)].result.Some?
    && prs == First(ItemsOf(rows.steps[Key(task, SOURCES)].result.value, "prs"), MAX_PRS)
    && pages == First(ItemsOf(rows.steps[Key(task, SOURCES)].result.value, "pages"), MAX_PAGES)
  }

  /** The saved result of step `name` is what a provider returned to that step about `about`. */
  ghost predicate CameFrom(task: TaskId, d: Desk, name: string, about: Json) {
    && IsDone(d.rows, Key(task, name))
    && exists x :: x in d.contacts && x.step == name && x.about == about && x.returned == d.rows.steps[Key(task, name)].result
  }

  ghost predicate PrOk(task: TaskId, d: Desk, i: nat)
    requires i < MAX_PRS
  {
    && (IsDone(d.rows, Key(task, PrName(i))) ==>
          exists prs, pages :: SavedSources(task, d.rows, prs, pages) && i < |prs| && CameFrom(task, d, PrName(i), prs[i]))
    && (IsDone(d.rows, Key(task, BuildsName(i))) ==>
          IsDone(d.rows, Key(task, PrName(i))) && d.rows.steps[Key(task, PrName(i))].result.Some?
          && CameFrom(task, d, BuildsName(i), d.rows.steps[Key(task, PrName(i))].result.value))
  }

  ghost predicate PageOk(task: TaskId, d: Desk, i: nat)
    requires i < MAX_PAGES
  {
    IsDone(d.rows, Key(task, PageName(i))) ==>
      exists prs, pages :: SavedSources(task, d.rows, prs, pages) && i < |pages| && CameFrom(task, d, PageName(i), pages[i])
  }

  ghost predicate ResultsOk(task: TaskId, d: Desk) {
    (forall i: nat :: i < MAX_PRS ==> PrOk(task, d, i)) && (forall i: nat :: i < MAX_PAGES ==> PageOk(task, d, i))
  }

  ghost predicate Inv(task: TaskId, d: Desk) {
    TargetsSaved(task, d) && ResultsSaved(task, d.rows) && ResultsOk(task, d)
  }

  /* ---------- step names ---------- */

  /** The names of result steps, by kind and index, are told apart from each other and from the rest. */
  predicate IsResultName(name: string) {
    (exists i: nat :: i < MAX_PRS && (name == PrName(i) || name == BuildsName(i))) || (exists i: nat :: i < MAX_PAGES && name == PageName(i))
  }

  lemma NamesApart(i: nat, j: nat)
    requires i < MAX_PRS && j < MAX_PRS
    ensures PrName(i) == PrName(j) || BuildsName(i) == BuildsName(j) ==> i == j
    ensures PrName(i) != BuildsName(j)
    ensures j < MAX_PAGES ==> PrName(i) != PageName(j) && BuildsName(i) != PageName(j)
    ensures i < MAX_PAGES && j < MAX_PAGES && PageName(i) == PageName(j) ==> i == j
  {
    assert PrName(i)[10] == 'p' && BuildsName(j)[10] == 'b';
    assert PrName(i)[0] == 'b' && BuildsName(i)[0] == 'b';
    if j < MAX_PAGES {
      assert PageName(j)[0] == 'c';
    }
    assert PrName(i)[13..] == Digit(i) && BuildsName(i)[17..] == Digit(i);
    assert PrName(j)[13..] == Digit(j) && BuildsName(j)[17..] == Digit(j);
    if i < MAX_PAGES && j < MAX_PAGES {
      assert PageName(i)[16..] == Digit(i) && PageName(j)[16..] == Digit(j);
    }
  }

  lemma ConnectionsApart(provider: string)
    ensures !IsResultName(Connection(provider)) && Connection(provider) != ISSUE && Connection(provider) != SOURCES
    ensures !IsResultName(ISSUE) && !IsResultName(SOURCES)
  {
    var name := Connection(provider);
    assert name[0] == 'c' && name[2] == 'n';
    forall i: nat | i < MAX_PRS ensures name != PrName(i) && name != BuildsName(i) && ISSUE != PrName(i) && ISSUE != BuildsName(i)
                                        && SOURCES != PrName(i) && SOURCES != BuildsName(i)
    {
      assert PrName(i)[0] == 'b' && BuildsName(i)[0] == 'b';
    }
    forall i: nat | i < MAX_PAGES ensures name != PageName(i) && ISSUE != PageName(i) && SOURCES != PageName(i) {
      assert PageName(i)[0] == 'c' && PageName(i)[2] == 'n' && PageName(i)[3] == 'f' && name[3] == 'n';
    }
  }

  /* ---------- one step keeps them ---------- */

  /** Step `name` may be run about `about`: the saved sources, or the saved pull request, say so. */
  ghost predicate Asked(task: TaskId, rows: Rows, name: string, about: Json) {
    && (forall i: nat :: i < MAX_PRS && name == PrName(i) ==>
          exists prs, pages :: SavedSources(task, rows, prs, pages) && i < |prs| && prs[i] == about)
    && (forall i: nat :: i < MAX_PRS && name == BuildsName(i) ==>
          IsDone(rows, Key(task, PrName(i))) && rows.steps[Key(task, PrName(i))].result == Some(about))
    && (forall i: nat :: i < MAX_PAGES && name == PageName(i) ==>
          exists prs, pages :: SavedSources(task, rows, prs, pages) && i < |pages| && pages[i] == about)
  }

  ghost predicate Extends(d: Desk, d': Desk) {
    Grows(d.rows, d'.rows) && (forall x :: x in d.contacts ==> x in d'.contacts)
  }

  lemma CameFromStays(task: TaskId, d: Desk, d': Desk, name: string, about: Json)
    requires Extends(d, d') && CameFrom(task, d, name, about)
    ensures CameFrom(task, d', name, about)
  {
  }

  lemma SourcesStay(task: TaskId, d: Desk, d': Desk, prs: seq<Json>, pages: seq<Json>)
    requires Extends(d, d') && SavedSources(task, d.rows, prs, pages)
    ensures SavedSources(task, d'.rows, prs, pages)
  {
  }

  /** Step `name` completed now, from a contact about `about`, unless it was completed before. */
  ghost predicate Fresh(task: TaskId, d: Desk, d': Desk, name: string, about: Json) {
    IsResultName(name) && IsDone(d'.rows, Key(task, name)) && !IsDone(d.rows, Key(task, name)) ==> CameFrom(task, d', name, about)
  }

  lemma PrStays(task: TaskId, d: Desk, d': Desk, name: string, about: Json, i: nat)
    requires i < MAX_PRS && PrOk(task, d, i) && Extends(d, d') && Asked(task, d.rows, name, about) && Fresh(task, d, d', name, about)
    requires forall n :: IsResultName(n) && n != name && IsDone(d'.rows, Key(task, n)) ==> IsDone(d.rows, Key(task, n))
    ensures PrOk(task, d', i)
  {
    assert IsResultName(PrName(i)) && IsResultName(BuildsName(i));
    if IsDone(d'.rows, Key(task, PrName(i))) {
      if IsDone(d.rows, Key(task, PrName(i))) {
        var prs, pages :| SavedSources(task, d.rows, prs, pages) && i < |prs| && CameFrom(task, d, PrName(i), prs[i]);
        CameFromStays(task, d, d', PrName(i), prs[i]);
        SourcesStay(task, d, d', prs, pages);
      } else {
        var prs, pages :| SavedSources(task, d.rows, prs, pages) && i < |prs| && prs[i] == about;
        SourcesStay(task, d, d', prs, pages);
      }
    }
    if IsDone(d'.rows, Key(task, BuildsName(i))) && IsDone(d.rows, Key(task, BuildsName(i))) {
      CameFromStays(task, d, d', BuildsName(i), d.rows.steps[Key(task, PrName(i))].result.value);
    }
  }

  lemma PageStays(task: TaskId, d: Desk, d': Desk, name: string, about: Json, i: nat)
    requires i < MAX_PAGES && PageOk(task, d, i) && Extends(d, d') && Asked(task, d.rows, name, about) && Fresh(task, d, d', name, about)
    requires forall n :: IsResultName(n) && n != name && IsDone(d'.rows, Key(task, n)) ==> IsDone(d.rows, Key(task, n))
    ensures PageOk(task, d', i)
  {
    assert IsResultName(PageName(i));
    if IsDone(d'.rows, Key(task, PageName(i))) {
      if IsDone(d.rows, Key(task, PageName(i))) {
        var prs, pages :| SavedSources(task, d.rows, prs, pages) && i < |pages| && CameFrom(task, d, PageName(i), pages[i]);
        CameFromStays(task, d, d', PageName(i), pages[i]);
        SourcesStay(task, d, d', prs, pages);
      } else {
        var prs, pages :| SavedSources(task, d.rows, prs, pages) && i < |pages| && pages[i] == about;
        SourcesStay(task, d, d', prs, pages);
      }
    }
  }

  lemma ResultsStay(task: TaskId, d: Desk, d': Desk, name: string, about: Json)
    requires ResultsOk(task, d) && Extends(d, d') && Asked(task, d.rows, name, about) && Fresh(task, d, d', name, about)
    requires forall n :: IsResultName(n) && n != name && IsDone(d'.rows, Key(task, n)) ==> IsDone(d.rows, Key(task, n))
    ensures ResultsOk(task, d')
  {
    forall i: nat | i < MAX_PRS ensures PrOk(task, d', i) { PrStays(task, d, d', name, about, i); }
    forall i: nat | i < MAX_PAGES ensures PageOk(task, d', i) { PageStays(task, d, d', name, about, i); }
  }

  lemma ProviderStepKeepsInv(task: TaskId, d: Desk, name: string, provider: string, target: Option<Target>, dies: bool, about: Json, action: Action)
    requires Inv(task, d) && Asked(task, d.rows, name, about) && name != Connection(provider)
    ensures var (d', end) := ProviderStep(d, Key(task, name), false, provider, target, dies, about, action);
            && Inv(task, d') && Extends(d, d')
            && (end.Value? ==> IsDone(d'.rows, Key(task, name)) && d'.rows.steps[Key(task, name)].result == Some(end.value))
  {
    ProviderFactsHold(d, Key(task, name), false, provider, target, dies, about, action);
    ConnectionsApart(provider);
    var d' := ProviderStep(d, Key(task, name), false, provider, target, dies, about, action).0;
    ResultsStay(task, d, d', name, about);
  }

  lemma NotAsked(task: TaskId, rows: Rows, name: string, about: Json)
    requires !IsResultName(name)
    ensures Asked(task, rows, name, about)
  {
  }

  lemma SourcesStepKeepsInv(task: TaskId, d: Desk, value: Json, dies: bool)
    requires Inv(task, d)
    ensures var (d', end) := PlainStep(d, Key(task, SOURCES), Computed(value, dies));
            && Inv(task, d') && Extends(d, d')
            && (end.Value? ==> IsDone(d'.rows, Key(task, SOURCES)) && d'.rows.steps[Key(task, SOURCES)].result == Some(end.value))
  {
    PlainFactsHold(d, Key(task, SOURCES), Computed(value, dies));
    ConnectionsApart("");
    var d' := PlainStep(d, Key(task, SOURCES), Computed(value, dies)).0;
    GrowthKeepsTargets(task, d, d');
    ResultsStay(task, d, d', SOURCES, Null);
  }

  lemma PrKeepsInv(task: TaskId, d: Desk, env: Env, prs: seq<Json>, pages: seq<Json>, i: nat)
    requires Inv(task, d) && SavedSources(task, d.rows, prs, pages) && i < |prs| <= MAX_PRS
    ensures var (d', end) := ReviewPr(task, d, env, prs[i], i); Inv(task, d') && SavedSources(task, d'.rows, prs, pages) && Extends(d, d')
  {
    PrAsked(task, d.rows, prs, pages, i);
    ConnectionsApart("bitbucket");
    ProviderStepKeepsInv(task, d, PrName(i), "bitbucket", env.bitbucket, DiesConnecting(env, "bitbucket"), prs[i], Play(env, PrName(i)));
    var (d1, pr) := ProviderStep(d, Key(task, PrName(i)), false, "bitbucket", env.bitbucket, DiesConnecting(env, "bitbucket"), prs[i], Play(env, PrName(i)));
    SourcesStay(task, d, d1, prs, pages);
    if pr.Value? {
      BuildsAsked(task, d1.rows, i, pr.value);
      ProviderStepKeepsInv(task, d1, BuildsName(i), "bitbucket", env.bitbucket, DiesConnecting(env, "bitbucket"), pr.value, Play(env, BuildsName(i)));
      var (d2, builds) := ProviderStep(d1, Key(task, BuildsName(i)), false, "bitbucket", env.bitbucket, DiesConnecting(env, "bitbucket"), pr.value, Play(env, BuildsName(i)));
      SourcesStay(task, d1, d2, prs, pages);
    }
  }

  lemma {:induction false} PrsKeepInv(task: TaskId, d: Desk, env: Env, prs: seq<Json>, pages: seq<Json>, i: nat, errors: bool)
    requires Inv(task, d) && SavedSources(task, d.rows, prs, pages) && i <= |prs| <= MAX_PRS
    ensures var (d', end) := ReviewPrs(task, d, env, prs, i, errors); Inv(task, d') && SavedSources(task, d'.rows, prs, pages) && Extends(d, d')
    decreases |prs| - i
  {
    if i < |prs| {
      PrKeepsInv(task, d, env, prs, pages, i);
      var (d1, failed) := ReviewPr(task, d, env, prs[i], i);
      if !failed.Died? {
        PrsKeepInv(task, d1, env, prs, pages, i + 1, errors || failed == Value(Bool(true)));
      }
    }
  }

  lemma PrAsked(task: TaskId, rows: Rows, prs: seq<Json>, pages: seq<Json>, i: nat)
    requires SavedSources(task, rows, prs, pages) && i < |prs| <= MAX_PRS
    ensures Asked(task, rows, PrName(i), prs[i]) && IsResultName(PrName(i)) && IsResultName(BuildsName(i))
  {
    forall j: nat | j < MAX_PRS ensures (PrName(i) == PrName(j) ==> i == j) && PrName(i) != BuildsName(j) { NamesApart(i, j); }
    forall j: nat | j < MAX_PAGES ensures PrName(i) != PageName(j) { NamesApart(i, j); }
  }

  lemma BuildsAsked(task: TaskId, rows: Rows, i: nat, pr: Json)
    requires i < MAX_PRS && IsDone(rows, Key(task, PrName(i))) && rows.steps[Key(task, PrName(i))].result == Some(pr)
    ensures Asked(task, rows, BuildsName(i), pr)
  {
    forall j: nat | j < MAX_PRS ensures (BuildsName(i) == BuildsName(j) ==> i == j) && BuildsName(i) != PrName(j) {
      NamesApart(i, j);
      NamesApart(j, i);
    }
    forall j: nat | j < MAX_PAGES ensures BuildsName(i) != PageName(j) { NamesApart(i, j); }
  }

  lemma PageAsked(task: TaskId, rows: Rows, prs: seq<Json>, pages: seq<Json>, i: nat)
    requires SavedSources(task, rows, prs, pages) && i < |pages| <= MAX_PAGES
    ensures Asked(task, rows, PageName(i), pages[i]) && IsResultName(PageName(i))
  {
    forall j: nat | j < MAX_PRS ensures PageName(i) != PrName(j) && PageName(i) != BuildsName(j) { NamesApart(j, i); }
    forall j: nat | j < MAX_PAGES ensures PageName(i) == PageName(j) ==> i == j { NamesApart(i, j); }
  }

  lemma PageKeepsInv(task: TaskId, d: Desk, env: Env, prs: seq<Json>, pages: seq<Json>, i: nat)
    requires Inv(task, d) && SavedSources(task, d.rows, prs, pages) && i < |pages| <= MAX_PAGES
    ensures var (d', end) := ReviewPage(task, d, env, pages[i], i); Inv(task, d') && SavedSources(task, d'.rows, prs, pages) && Extends(d, d')
  {
    PageAsked(task, d.rows, prs, pages, i);
    ConnectionsApart("confluence");
    ProviderStepKeepsInv(task, d, PageName(i), "confluence", env.confluence, DiesConnecting(env, "confluence"), pages[i], Play(env, PageName(i)));
    SourcesStay(task, d, ReviewPage(task, d, env, pages[i], i).0, prs, pages);
  }

  lemma {:induction false} PagesKeepInv(task: TaskId, d: Desk, env: Env, prs: seq<Json>, pages: seq<Json>, i: nat, errors: bool)
    requires Inv(task, d) && SavedSources(task, d.rows, prs, pages) && i <= |pages| <= MAX_PAGES
    ensures var (d', end) := ReviewPages(task, d, env, pages, i, errors); Inv(task, d') && Extends(d, d')
    decreases |pages| - i
  {
    if i < |pages| {
      PageKeepsInv(task, d, env, prs, pages, i);
      var (d1, failed) := ReviewPage(task, d, env, pages[i], i);
      if !failed.Died? {
        PagesKeepInv(task, d1, env, prs, pages, i + 1, errors || failed == Value(Bool(true)));
      }
    }
  }

  lemma ReviewKeepsInv(task: TaskId, d: Desk, issue: string, env: Env)
    requires Inv(task, d)
    ensures Inv(task, Review(task, d, issue, env).0) && Extends(d, Review(task, d, issue, env).0)
  {
    ConnectionsApart("jira");
    NotAsked(task, d.rows, ISSUE, Text(issue));
    ProviderStepKeepsInv(task, d, ISSUE, "jira", env.jira, DiesConnecting(env, "jira"), Text(issue), Play(env, ISSUE));
    var (d1, found) := ProviderStep(d, Key(task, ISSUE), false, "jira", env.jira, DiesConnecting(env, "jira"), Text(issue), Play(env, ISSUE));
    if found.Value? {
      SourcesStepKeepsInv(task, d1, SourcesJson(env.prs, env.pages), DiesCollecting(env));
      var (d2, sources) := PlainStep(d1, Key(task, SOURCES), Computed(SourcesJson(env.prs, env.pages), DiesCollecting(env)));
      if sources.Value? {
        var prs, pages := First(ItemsOf(sources.value, "prs"), MAX_PRS), First(ItemsOf(sources.value, "pages"), MAX_PAGES);
        PrsKeepInv(task, d2, env, prs, pages, 0, false);
        var (d3, end) := ReviewPrs(task, d2, env, prs, 0, false);
        if end.Value? {
          PagesKeepInv(task, d3, env, prs, pages, 0, end == Value(Bool(true)));
        }
      }
    }
  }

  /* ---------- every run ---------- */

  /** The user runs or resumes the review, cancels the task, or starts a new process. */
  datatype Call = ReviewAgain(env: Env) | CancelTask | Restart

  /** `resume` (and the first run, whose task is already running). */
  function Perform(task: TaskId, issue: string, d: Desk, call: Call): Desk {
    match call
    case ReviewAgain(env) =>
      var o := DoResume(d.rows, d.memory, task);
      if o.reply != Done then d else RunReview(task, d.(rows := o.rows, memory := o.memory), issue, env).0
    case CancelTask => var o := DoCancel(d.rows, d.memory, task); d.(rows := o.rows, memory := o.memory)
    case Restart => d.(memory := EMPTY_MEMORY)
  }

  function Run(task: TaskId, issue: string, d: Desk, calls: seq<Call>): Desk
    decreases |calls|
  {
    if calls == [] then d else Run(task, issue, Perform(task, issue, d, calls[0]), calls[1..])
  }

  lemma SameDoneKeepsInv(task: TaskId, d: Desk, d': Desk)
    requires Inv(task, d) && d'.contacts == d.contacts && Grows(d.rows, d'.rows)
    requires forall key :: IsDone(d'.rows, key) ==> IsDone(d.rows, key)
    ensures Inv(task, d')
  {
    GrowthKeepsTargets(task, d, d');
    ConnectionsApart("");
    NotAsked(task, d.rows, ISSUE, Null);
    ResultsStay(task, d, d', ISSUE, Null);
  }

  lemma EndTaskKeepsInv(task: TaskId, d: Desk, end: End, report: Json)
    requires Inv(task, d)
    ensures Inv(task, EndTask(task, d, end, report).0) && Extends(d, EndTask(task, d, end, report).0)
  {
    SameDoneKeepsInv(task, d, EndTask(task, d, end, report).0);
  }

  lemma RunReviewKeepsInv(task: TaskId, d: Desk, issue: string, env: Env)
    requires Inv(task, d)
    ensures Inv(task, RunReview(task, d, issue, env).0) && Extends(d, RunReview(task, d, issue, env).0)
  {
    ReviewKeepsInv(task, d, issue, env);
    EndTaskKeepsInv(task, Review(task, d, issue, env).0, Review(task, d, issue, env).1, env.report);
  }

  lemma PerformKeepsInv(task: TaskId, issue: string, d: Desk, call: Call)
    requires Inv(task, d)
    ensures Inv(task, Perform(task, issue, d, call)) && Extends(d, Perform(task, issue, d, call))
  {
    match call
    case ReviewAgain(env) =>
      var o := DoResume(d.rows, d.memory, task);
      if o.reply == Done {
        var d1 := d.(rows := o.rows, memory := o.memory);
        SameDoneKeepsInv(task, d, d1);
        RunReviewKeepsInv(task, d1, issue, env);
      }
    case CancelTask => SameDoneKeepsInv(task, d, Perform(task, issue, d, call));
    case Restart => SameDoneKeepsInv(task, d, Perform(task, issue, d, call));
  }

  lemma {:induction false} RunKeepsInv(task: TaskId, issue: string, d: Desk, calls: seq<Call>)
    requires Inv(task, d)
    ensures Inv(task, Run(task, issue, d, calls))
    decreases |calls|
  {
    if calls != [] {
      PerformKeepsInv(task, issue, d, calls[0]);
      RunKeepsInv(task, issue, Perform(task, issue, d, calls[0]), calls[1..]);
    }
  }

  /** A task that has not run a step yet. */
  predicate New(task: TaskId, d: Desk) {
    d.contacts == [] && forall key | key in d.rows.steps :: key.task != task
  }

  /** Whatever fails, dies or is reconfigured in between: a saved pull request or page is what the
      provider returned for the link at its index in the saved sources, and saved builds are what it
      returned for the saved pull request. */
  lemma ReusedResultsMatchTheirSource(task: TaskId, issue: string, d: Desk, calls: seq<Call>, i: nat)
    requires New(task, d)
    ensures var d' := Run(task, issue, d, calls);
            && (i < MAX_PRS ==> PrOk(task, d', i))
            && (i < MAX_PAGES ==> PageOk(task, d', i))
  {
    RunKeepsInv(task, issue, d, calls);
  }

  /** All calls a task makes to a configured provider are made under one url and deployment. */
  lemma OneTargetPerProvider(task: TaskId, issue: string, d: Desk, calls: seq<Call>, x: Contact, y: Contact)
    requires New(task, d)
    requires var contacts := Run(task, issue, d, calls).contacts; x in contacts && y in contacts
    requires x.provider == y.provider && x.target.Some? && y.target.Some?
    ensures x.target == y.target
  {
    RunKeepsInv(task, issue, d, calls);
    TargetJsonInjective(x.target.value, y.target.value);
  }

  /** The saved sources never change once saved, whatever links later runs find. */
  lemma {:induction false} SavedSourcesAreKept(task: TaskId, issue: string, d: Desk, calls: seq<Call>, prs: seq<Json>, pages: seq<Json>)
    requires Inv(task, d) && SavedSources(task, d.rows, prs, pages)
    ensures SavedSources(task, Run(task, issue, d, calls).rows, prs, pages)
    decreases |calls|
  {
    if calls != [] {
      var d1 := Perform(task, issue, d, calls[0]);
      PerformKeepsInv(task, issue, d, calls[0]);
      SourcesStay(task, d, d1, prs, pages);
      SavedSourcesAreKept(task, issue, d1, calls[1..], prs, pages);
    }
  }
}
