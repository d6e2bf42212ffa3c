/** A projection may be written only after a write of the same value to its canonical source. */
module SourceOfTruth {
  import opened Prelude

  type Id = string

  datatype Risk = ReadOnly | LocalGeneration | Higher

  datatype Resource = Resource(system: string, kind: string, id: string)

  datatype Action = Action(target: Resource, risk: Risk, capability: string, dependencies: seq<Id>, parameters: Json)

  /** One dotted part of a selector; `expand` is a trailing `[]`. */
  datatype Segment = Segment(key: string, expand: bool)

  type Selector = seq<Segment>

  /** The keys of the extractors are the allowed capabilities. */
  datatype Rule = Rule(field: string, canonical: Resource, projections: set<Resource>,
                       canonicalExtractors: map<string, seq<Selector>>, projectionExtractors: map<string, seq<Selector>>)

  type Plan = map<Id, Action>

  /** What `ChangePlan` guarantees: dependencies name actions of the plan. */
  predicate KnownDependencies(plan: Plan) {
    forall id | id in plan :: forall d | d in plan[id].dependencies :: d in plan
  }

  /* ---------- dependencies ---------- */

  /** `path` leads from a dependency of the action along dependencies to `id`. */
  predicate Leads(plan: Plan, action: Action, path: seq<Id>, id: Id)
    decreases |path|
  {
    if |path| == 0 then false
    else if |path| == 1 then path[0] == id && id in action.dependencies
    else path[|path| - 1] == id && Leads(plan, action, path[..|path| - 1], path[|path| - 2])
         && path[|path| - 2] in plan && id in plan[path[|path| - 2]].dependencies
  }

  ghost predicate Ancestor(plan: Plan, action: Action, id: Id) {
    exists path :: Leads(plan, action, path, id)
  }

  lemma AncestorStep(plan: Plan, action: Action, id: Id, next: Id)
    requires Ancestor(plan, action, id) && id in plan && next in plan[id].dependencies
    ensures Ancestor(plan, action, next)
  {
    var path :| Leads(plan, action, path, id);
    assert (path + [next])[..|path|] == path;
    assert path[|path| - 1] == id;
    assert Leads(plan, action, path + [next], next);
  }

  lemma DirectAncestor(plan: Plan, action: Action, id: Id)
    requires id in action.dependencies
    ensures Ancestor(plan, action, id)
  {
    assert Leads(plan, action, [id], id);
  }

  /** The set contains the action's dependencies and the dependencies of its own members. */
  predicate Closed(plan: Plan, action: Action, ids: set<Id>) {
    && (forall d | d in action.dependencies :: d in ids)
    && (forall id | id in ids && id in plan :: forall d | d in plan[id].dependencies :: d in ids)
  }

  lemma {:induction false} ClosedHasAll(plan: Plan, action: Action, ids: set<Id>, path: seq<Id>, id: Id)
    requires Closed(plan, action, ids) && Leads(plan, action, path, id)
    ensures id in ids
    decreases |path|
  {
    if |path| > 1 {
      ClosedHasAll(plan, action, ids, path[..|path| - 1], path[|path| - 2]);
    }
  }

  /** The worklist: exactly the direct and transitive dependencies, also when they form cycles. */
  method DependencyAncestors(plan: Plan, action: Action) returns (ancestors: set<Id>)
    requires KnownDependencies(plan) && forall d | d in action.dependencies :: d in plan
    ensures forall id :: id in ancestors <==> Ancestor(plan, action, id)
  {
    ancestors := {};
    var pending := action.dependencies;
    forall d | d in pending ensures Ancestor(plan, action, d) {
      DirectAncestor(plan, action, d);
    }
    while pending != []
      invariant forall id :: id in ancestors || id in pending ==> id in plan && Ancestor(plan, action, id)
      invariant forall d :: d in action.dependencies ==> d in ancestors || d in pending
      invariant forall id, d :: id in ancestors && d in plan[id].dependencies ==> d in ancestors || d in pending
      decreases plan.Keys - ancestors, |pending|
    {
      var dependency := pending[|pending| - 1];
      ghost var before := pending;
      pending := pending[..|pending| - 1];
      assert before == pending + [dependency];
      if dependency in ancestors { continue; }
      ancestors := ancestors + {dependency};
      forall d | d in plan[dependency].dependencies ensures Ancestor(plan, action, d) {
        AncestorStep(plan, action, dependency, d);
      }
      pending := pending + plan[dependency].dependencies;
    }
    forall id | Ancestor(plan, action, id) ensures id in ancestors {
      var path :| Leads(plan, action, path, id);
      ClosedHasAll(plan, action, ancestors, path, id);
    }
  }

  /* ---------- governed values ---------- */

  /** One round of `_select_values` over the current items. */
  function Step(current: seq<Json>, segment: Segment): seq<Json> {
    if current == [] then [] else StepOne(current[0], segment) + Step(current[1..], segment)
  }

  function StepOne(item: Json, segment: Segment): seq<Json> {
    if !item.Object? || segment.key !in item.fields then []
    else if !segment.expand then [item.fields[segment.key]]
    else if item.fields[segment.key].List? then item.fields[segment.key].items
    else []
  }

  function Select(current: seq<Json>, selector: Selector): seq<Json>
    decreases |selector|
  {
    if selector == [] then current else Select(Step(current, selector[0]), selector[1..])
  }

  method SelectRound(current: seq<Json>, segment: Segment) returns (selected: seq<Json>)
    ensures selected == Step(current, segment)
  {
    selected := [];
    for j := 0 to |current|
      invariant selected == Step(current[..j], segment)
    {
      var item := current[j];
      StepOneMore(current, j, segment);
      if item.Object? && segment.key in item.fields {
        var value := item.fields[segment.key];
        if !segment.expand {
          selected := selected + [value];
        } else if value.List? {
          selected := selected + value.items;
        }
      }
    }
    assert current[..|current|] == current;
  }

  lemma StepOneMore(current: seq<Json>, j: nat, segment: Segment)
    requires j < |current|
    ensures Step(current[..j + 1], segment) == Step(current[..j], segment) + StepOne(current[j], segment)
  {
    assert current[..j + 1] == current[..j] + [current[j]];
    StepAppend(current[..j], current[j], segment);
  }

  lemma {:induction false} StepAppend(items: seq<Json>, item: Json, segment: Segment)
    ensures Step(items + [item], segment) == Step(items, segment) + StepOne(item, segment)
  {
    var last := StepOne(item, segment);
    if items == [] {
      assert items + [item] == [item] && [item][1..] == [];
      assert Step([item], segment) == last + Step([], segment);
      assert last + [] == last && [] + last == last;
    } else {
      var first, rest := StepOne(items[0], segment), Step(items[1..], segment);
      StepAppend(items[1..], item, segment);
      assert (items + [item])[1..] == items[1..] + [item] && (items + [item])[0] == items[0];
      Associates(first, rest, last);
    }
  }

  lemma Associates(a: seq<Json>, b: seq<Json>, c: seq<Json>)
    ensures a + (b + c) == a + b + c
  {
  }

  method SelectValues(parameters: Json, selector: Selector) returns (current: seq<Json>)
    ensures current == Select([parameters], selector)
  {
    current := [parameters];
    for i := 0 to |selector|
      invariant Select(current, selector[i..]) == Select([parameters], selector)
    {
      assert selector[i..][0] == selector[i] && selector[i..][1..] == selector[i + 1..];
      current := SelectRound(current, selector[i]);
      if current == [] {
        SelectNothing(selector[i + 1..]);
        return [];
      }
    }
  }

  lemma {:induction false} SelectNothing(selector: Selector)
    ensures Select([], selector) == []
    decreases |selector|
  {
    if selector != [] {
      SelectNothing(selector[1..]);
    }
  }

  /** The item has the segment's key, and there this value, or a list of values with this one. */
  predicate Child(item: Json, segment: Segment, next: Json) {
    && item.Object? && segment.key in item.fields
    && if segment.expand then item.fields[segment.key].List? && next in item.fields[segment.key].items else next == item.fields[segment.key]
  }

  /** Following the selector down from one item can end at the value. */
  ghost predicate Reaches(item: Json, selector: Selector, value: Json)
    decreases |selector|
  {
    if selector == [] then item == value
    else exists next :: Child(item, selector[0], next) && Reaches(next, selector[1..], value)
  }

  lemma {:induction false} StepMembers(current: seq<Json>, segment: Segment, value: Json)
    ensures value in Step(current, segment) <==> exists item | item in current :: Child(item, segment, value)
  {
    if current != [] {
      StepMembers(current[1..], segment, value);
      assert current == [current[0]] + current[1..];
      assert value in StepOne(current[0], segment) <==> Child(current[0], segment, value);
    }
  }

  /** The rounds over all items select exactly what single paths reach. */
  lemma {:induction false} SelectedAreReached(current: seq<Json>, selector: Selector, value: Json)
    ensures value in Select(current, selector) <==> exists item | item in current :: Reaches(item, selector, value)
    decreases |selector|
  {
    if selector != [] {
      SelectedAreReached(Step(current, selector[0]), selector[1..], value);
      if next :| next in Step(current, selector[0]) && Reaches(next, selector[1..], value) {
        StepMembers(current, selector[0], next);
      }
      if item :| item in current && Reaches(item, selector, value) {
        var next :| Child(item, selector[0], next) && Reaches(next, selector[1..], value);
        StepMembers(current, selector[0], next);
      }
    }
  }

  function Strip(s: string): string {
    if s != [] && IsSpace(s[0]) then Strip(s[1..])
    else if s != [] && IsSpace(s[|s| - 1]) then Strip(s[..|s| - 1])
    else s
  }

  lemma FrontCut(s: string, i: nat, j: nat)
    requires s != [] && IsSpace(s[0]) && i <= j <= |s| - 1 && Blank(s[1..][..i]) && Blank(s[1..][j..])
    ensures s[1..][i..j] == s[i + 1..j + 1] && Blank(s[..i + 1]) && Blank(s[j + 1..])
  {
    assert s[1..][j..] == s[j + 1..] && s[..i + 1] == [s[0]] + s[1..][..i];
  }

  lemma BackCut(s: string, i: nat, j: nat)
    requires s != [] && IsSpace(s[|s| - 1]) && i <= j <= |s| - 1 && Blank(s[..|s| - 1][..i]) && Blank(s[..|s| - 1][j..])
    ensures s[..|s| - 1][i..j] == s[i..j] && Blank(s[..i]) && Blank(s[j..])
  {
    var n := |s| - 1;
    assert s[..n][..i] == s[..i] && s[j..] == s[..n][j..] + [s[n]];
  }

  /** It cuts off the blanks at both ends, and nothing else. */
  lemma {:induction false} StripCutsBlanks(s: string) returns (i: nat, j: nat)
    ensures i <= j <= |s| && Strip(s) == s[i..j] && Blank(s[..i]) && Blank(s[j..])
    ensures Strip(s) != "" ==> !IsSpace(s[i]) && !IsSpace(s[j - 1])
    decreases |s|
  {
    if s != [] && IsSpace(s[0]) {
      i, j := StripCutsBlanks(s[1..]);
      FrontCut(s, i, j);
      i, j := i + 1, j + 1;
    } else if s != [] && IsSpace(s[|s| - 1]) {
      i, j := StripCutsBlanks(s[..|s| - 1]);
      BackCut(s, i, j);
    } else {
      i, j := 0, |s|;
    }
  }

  /** `_normalize_value`: text without surrounding blanks, everything else counts for nothing. */
  function Normalize(value: Json): Option<string> {
    if value.Text? && Strip(value.text) != "" then Some(Strip(value.text)) else None
  }

  /** The governed values of an action: what its selectors reach, normalized. */
  ghost predicate Governs(action: Action, selectors: seq<Selector>, value: string) {
    exists s, v :: s in selectors && Reaches(action.parameters, s, v) && Normalize(v) == Some(value)
  }

  method ParameterDigests(action: Action, selectors: seq<Selector>, digest: string -> string) returns (digests: set<string>)
    ensures forall d :: d in digests <==> exists value :: Governs(action, selectors, value) && digest(value) == d
  {
    var values: seq<string> := [];
    for i := 0 to |selectors|
      invariant forall value :: value in values <==> Governs(action, selectors[..i], value)
    {
      var selected := SelectValues(action.parameters, selectors[i]);
      ghost var earlier := values;
      for j := 0 to |selected|
        invariant forall value :: value in values <==> value in earlier || exists k :: 0 <= k < j && Normalize(selected[k]) == Some(value)
      {
        var normalized := Normalize(selected[j]);
        if normalized.Some? {
          values := values + [normalized.value];
        }
      }
      MoreSelectors(action, selectors, i, selected);
    }
    assert selectors[..|selectors|] == selectors;
    digests := set value | value in values :: digest(value);
  }

  lemma MoreSelectors(action: Action, selectors: seq<Selector>, i: nat, selected: seq<Json>)
    requires i < |selectors| && selected == Select([action.parameters], selectors[i])
    ensures forall value :: Governs(action, selectors[..i + 1], value)
              <==> Governs(action, selectors[..i], value) || exists k :: 0 <= k < |selected| && Normalize(selected[k]) == Some(value)
  {
    assert selectors[..i + 1] == selectors[..i] + [selectors[i]];
    forall v ensures v in selected <==> Reaches(action.parameters, selectors[i], v) {
      SelectedAreReached([action.parameters], selectors[i], v);
      assert forall item :: item in [action.parameters] <==> item == action.parameters;
    }
    forall value ensures Governs(action, selectors[..i + 1], value)
              <==> Governs(action, selectors[..i], value) || exists k :: 0 <= k < |selected| && Normalize(selected[k]) == Some(value)
    {
      if Governs(action, selectors[..i + 1], value) {
        var s, v :| s in selectors[..i + 1] && Reaches(action.parameters, s, v) && Normalize(v) == Some(value);
        if s == selectors[i] {
          assert v in selected;
        } else {
          assert s in selectors[..i];
        }
      }
      if k :| 0 <= k < |selected| && Normalize(selected[k]) == Some(value) {
        assert selected[k] in selected && selectors[i] in selectors[..i + 1];
      }
    }
  }

  /* ---------- the check ---------- */

  /** The candidate writes the rule's canonical source. */
  predicate CanonicalWrite(rule: Rule, candidate: Action) {
    candidate.target == rule.canonical && candidate.risk == Higher && candidate.capability in rule.canonicalExtractors
  }

  ghost function DigestsOf(action: Action, selectors: seq<Selector>, digest: string -> string): iset<string> {
    iset value | Governs(action, selectors, value) :: digest(value)
  }

  /** A canonical write whose governed values have the same digests as the projection's. */
  ghost predicate Match(plan: Plan, rule: Rule, action: Action, id: Id, digest: string -> string)
    requires action.capability in rule.projectionExtractors
  {
    && id in plan && CanonicalWrite(rule, plan[id])
    && DigestsOf(plan[id], rule.canonicalExtractors[plan[id].capability], digest)
       == DigestsOf(action, rule.projectionExtractors[action.capability], digest)
  }

  ghost predicate RuleAccepts(plan: Plan, rule: Rule, action: Action, digest: string -> string) {
    if action.target !in rule.projections then true
    else if action.capability !in rule.projectionExtractors then action.risk == ReadOnly
    else (exists d :: DigestsOf(action, rule.projectionExtractors[action.capability], digest) == iset{d})
         && exists id :: Ancestor(plan, action, id) && Match(plan, rule, action, id, digest)
  }

  function Infinite(s: set<string>): iset<string> {
    iset x | x in s
  }

  lemma SameDigests(action: Action, selectors: seq<Selector>, digest: string -> string, digests: set<string>)
    requires forall d :: d in digests <==> exists value :: Governs(action, selectors, value) && digest(value) == d
    ensures Infinite(digests) == DigestsOf(action, selectors, digest)
  {
  }

  lemma EqualSets(a: set<string>, b: set<string>)
    ensures a == b <==> Infinite(a) == Infinite(b)
  {
    if Infinite(a) == Infinite(b) {
      assert forall x :: x in a <==> x in Infinite(a);
      assert forall x :: x in b <==> x in Infinite(b);
    }
  }

  lemma SingleDigest(digests: set<string>)
    ensures |digests| == 1 <==> exists d :: Infinite(digests) == iset{d}
  {
    if |digests| == 1 {
      var d :| d in digests;
      assert |digests - {d}| == 0;
      assert digests == {d};
      assert Infinite(digests) == iset{d};
    }
    if d :| Infinite(digests) == iset{d} {
      assert forall x :: x in digests <==> x in Infinite(digests);
      assert digests == {d};
    }
  }

  datatype Verdict = Accepted | NotApproved | NotOneValue | NoCanonicalWrite | NoMatchingDependency

  /** The canonical writes with the projection's digests. */
  method MatchingWrites(plan: Plan, rule: Rule, action: Action, writes: set<Id>, projection: set<string>, digest: string -> string)
    returns (matching: set<Id>)
    requires action.capability in rule.projectionExtractors
    requires forall id | id in writes :: id in plan && CanonicalWrite(rule, plan[id])
    requires Infinite(projection) == DigestsOf(action, rule.projectionExtractors[action.capability], digest)
    ensures forall id :: id in matching <==> id in writes && Match(plan, rule, action, id, digest)
  {
    var remaining := writes;
    matching := {};
    while remaining != {}
      invariant remaining <= writes
      invariant forall id :: id in matching <==> id in writes - remaining && Match(plan, rule, action, id, digest)
    {
      var id :| id in remaining;
      var selectors := rule.canonicalExtractors[plan[id].capability];
      var digests := ParameterDigests(plan[id], selectors, digest);
      SameDigests(plan[id], selectors, digest, digests);
      EqualSets(digests, projection);
      if digests == projection { matching := matching + {id}; }
      remaining := remaining - {id};
    }
  }

  /** The first reason against a projection, or that there is none. */
  ghost function Judged(plan: Plan, rule: Rule, action: Action, digest: string -> string): Verdict {
    if action.target !in rule.projections then Accepted
    else if action.capability !in rule.projectionExtractors then if action.risk == ReadOnly then Accepted else NotApproved
    else if !exists d :: DigestsOf(action, rule.projectionExtractors[action.capability], digest) == iset{d} then NotOneValue
    else if !exists id :: id in plan && CanonicalWrite(rule, plan[id]) then NoCanonicalWrite
    else if !exists id :: Ancestor(plan, action, id) && Match(plan, rule, action, id, digest) then NoMatchingDependency
    else Accepted
  }

  method CheckRule(plan: Plan, rule: Rule, action: Action, digest: string -> string) returns (verdict: Verdict)
    requires KnownDependencies(plan) && forall d | d in action.dependencies :: d in plan
    ensures verdict == Accepted <==> RuleAccepts(plan, rule, action, digest)
    ensures verdict == Judged(plan, rule, action, digest)
  {
    if action.target !in rule.projections { return Accepted; }
    if action.capability !in rule.projectionExtractors {
      if action.risk == ReadOnly { return Accepted; }
      return NotApproved;
    }
    var projection := ParameterDigests(action, rule.projectionExtractors[action.capability], digest);
    SameDigests(action, rule.projectionExtractors[action.capability], digest, projection);
    SingleDigest(projection);
    if |projection| != 1 { return NotOneValue; }
    var writes := set id | id in plan && CanonicalWrite(rule, plan[id]);
    var ancestors := DependencyAncestors(plan, action);
    if writes == {} {
      assert forall id :: id in plan && CanonicalWrite(rule, plan[id]) ==> id in writes;
      return NoCanonicalWrite;
    }
    var matching := MatchingWrites(plan, rule, action, writes, projection, digest);
    if matching !! ancestors {
      assert exists id :: id in writes;
      return NoMatchingDependency;
    }
    return Accepted;
  }

  method Validate(plan: Plan, rules: seq<Rule>, action: Action, digest: string -> string) returns (verdict: Verdict)
    requires KnownDependencies(plan) && forall d | d in action.dependencies :: d in plan
    ensures verdict == Accepted <==> forall rule :: rule in rules ==> RuleAccepts(plan, rule, action, digest)
    ensures verdict != Accepted ==>
      exists k :: 0 <= k < |rules| && verdict == Judged(plan, rules[k], action, digest) && forall i :: 0 <= i < k ==> RuleAccepts(plan, rules[i], action, digest)
  {
    for i := 0 to |rules|
      invariant forall k :: 0 <= k < i ==> RuleAccepts(plan, rules[k], action, digest)
    {
      verdict := CheckRule(plan, rules[i], action, digest);
      if verdict != Accepted {
        assert rules[i] in rules;
        return;
      }
    }
    return Accepted;
  }

  /* ---------- what acceptance means for every execution order ---------- */

  /** Every action runs after all its dependencies. */
  ghost predicate Respects(plan: Plan, order: seq<Id>) {
    forall j, d :: 0 <= j < |order| && order[j] in plan && d in plan[order[j]].dependencies ==> d in order[..j]
  }

  /** A full execution of the plan: every action once. */
  ghost predicate Schedule(plan: Plan, order: seq<Id>) {
    && Respects(plan, order) && (forall id :: id in order <==> id in plan)
    && Distinct(order)
  }

  ghost predicate Distinct(order: seq<Id>) {
    forall i, j :: 0 <= i < j < |order| ==> order[i] != order[j]
  }

  lemma {:induction false} AncestorsRunEarlier(plan: Plan, order: seq<Id>, p: nat, path: seq<Id>, id: Id)
    requires Respects(plan, order) && p < |order| && order[p] in plan && Leads(plan, plan[order[p]], path, id)
    ensures id in order[..p]
    decreases |path|
  {
    if |path| > 1 {
      var previous := path[|path| - 2];
      AncestorsRunEarlier(plan, order, p, path[..|path| - 1], previous);
      var j :| 0 <= j < p && order[j] == previous;
      assert id in order[..j];
    }
  }

  /** The action exposes this governed value and no other. */
  ghost predicate OnlyValue(action: Action, selectors: seq<Selector>, value: string) {
    forall v :: Governs(action, selectors, v) <==> v == value
  }

  ghost predicate Injective(digest: string -> string) {
    forall a, b :: digest(a) == digest(b) ==> a == b
  }

  lemma OneDigestOneValue(action: Action, selectors: seq<Selector>, digest: string -> string, d: string) returns (value: string)
    requires Injective(digest) && DigestsOf(action, selectors, digest) == iset{d}
    ensures OnlyValue(action, selectors, value) && digest(value) == d
  {
    assert d in DigestsOf(action, selectors, digest);
    value :| Governs(action, selectors, value) && digest(value) == d;
    forall v | Governs(action, selectors, v) ensures v == value {
      assert digest(v) in DigestsOf(action, selectors, digest);
    }
  }

  /** If the check accepts a projection that writes, or that goes through an approved capability, then its capability is
      approved, and in every order that respects the dependencies a canonical write of the same single value runs before it. */
  lemma AcceptedProjectionFollowsItsSource(plan: Plan, rule: Rule, digest: string -> string, order: seq<Id>, p: nat)
    requires Injective(digest) && Respects(plan, order) && p < |order| && order[p] in plan
    requires plan[order[p]].target in rule.projections && (plan[order[p]].risk != ReadOnly || plan[order[p]].capability in rule.projectionExtractors)
    requires RuleAccepts(plan, rule, plan[order[p]], digest)
    ensures plan[order[p]].capability in rule.projectionExtractors
    ensures exists id, value ::
              && id in order[..p] && id in plan && plan[id].target == rule.canonical && plan[id].risk == Higher
              && plan[id].capability in rule.canonicalExtractors
              && OnlyValue(plan[id], rule.canonicalExtractors[plan[id].capability], value)
              && OnlyValue(plan[order[p]], rule.projectionExtractors[plan[order[p]].capability], value)
  {
    var action := plan[order[p]];
    var selectors := rule.projectionExtractors[action.capability];
    var d :| DigestsOf(action, selectors, digest) == iset{d};
    var id :| Ancestor(plan, action, id) && Match(plan, rule, action, id, digest);
    var path :| Leads(plan, action, path, id);
    AncestorsRunEarlier(plan, order, p, path, id);
    var value := OneDigestOneValue(action, selectors, digest, d);
    var other := OneDigestOneValue(plan[id], rule.canonicalExtractors[plan[id].capability], digest, d);
    assert digest(other) == digest(value);
  }

  /* ---------- and why a dependency is needed ---------- */

  /** The members of `ids` in their order. */
  function Keep(order: seq<Id>, ids: set<Id>): seq<Id>
    decreases |order|
  {
    if order == [] then []
    else
      var last := order[|order| - 1];
      Keep(order[..|order| - 1], ids) + if last in ids then [last] else []
  }

  lemma {:induction false} KeptMembers(order: seq<Id>, ids: set<Id>, id: Id)
    ensures id in Keep(order, ids) <==> id in order && id in ids
    decreases |order|
  {
    if order != [] {
      KeptMembers(order[..|order| - 1], ids, id);
      assert order == order[..|order| - 1] + [order[|order| - 1]];
    }
  }

  /** Appending to a respectful sequence what has its dependencies there keeps it respectful and distinct. */
  lemma Append(plan: Plan, done: seq<Id>, id: Id)
    requires Respects(plan, done) && Distinct(done) && id !in done
    requires id in plan ==> forall d :: d in plan[id].dependencies ==> d in done
    ensures Respects(plan, done + [id]) && Distinct(done + [id])
  {
    var all := done + [id];
    forall j, d | 0 <= j < |all| && all[j] in plan && d in plan[all[j]].dependencies ensures d in all[..j] {
      assert j < |done| ==> all[..j] == done[..j] && all[j] == done[j];
      assert j == |done| ==> all[..j] == done;
    }
  }

  /** After `first`, the kept actions can run in their old order when `first` has the dependencies left out. */
  lemma {:induction false} RunKept(plan: Plan, first: seq<Id>, order: seq<Id>, ids: set<Id>)
    requires Respects(plan, first) && Distinct(first) && Respects(plan, order) && Distinct(order)
    requires forall id :: id in ids ==> id !in first
    requires forall id, d :: id in ids && id in plan && d in plan[id].dependencies ==> d in ids || d in first
    ensures Respects(plan, first + Keep(order, ids)) && Distinct(first + Keep(order, ids))
    decreases |order|
  {
    if order == [] {
      assert first + Keep(order, ids) == first;
    } else {
      var n := |order| - 1;
      var earlier := order[..n];
      RespectsPrefix(plan, order, n);
      RunKept(plan, first, earlier, ids);
      var done := first + Keep(earlier, ids);
      KeptMembers(earlier, ids, order[n]);
      if order[n] in ids {
        assert first + Keep(order, ids) == done + [order[n]];
        forall d | order[n] in plan && d in plan[order[n]].dependencies ensures d in done {
          KeptMembers(earlier, ids, d);
        }
        Append(plan, done, order[n]);
      } else {
        assert first + Keep(order, ids) == done;
      }
    }
  }

  lemma RespectsPrefix(plan: Plan, order: seq<Id>, n: nat)
    requires Respects(plan, order) && Distinct(order) && n < |order|
    ensures Respects(plan, order[..n]) && Distinct(order[..n])
    ensures order[n] !in order[..n]
    ensures order[n] in plan ==> forall d :: d in plan[order[n]].dependencies ==> d in order[..n]
  {
    forall j | 0 <= j < n ensures order[..n][..j] == order[..j] {
    }
  }

  /** Some full execution runs, before the action, nothing but its ancestors. */
  lemma AncestorsFirst(plan: Plan, order: seq<Id>, a: Id, ancestors: set<Id>) returns (other: seq<Id>, p: nat)
    requires Schedule(plan, order) && a in plan
    requires forall id :: id in ancestors <==> Ancestor(plan, plan[a], id)
    ensures Schedule(plan, other) && p < |other| && other[p] == a && forall id :: id in other[..p] ==> id in ancestors
  {
    var at :| 0 <= at < |order| && order[at] == a;
    forall id | id in ancestors ensures id != a && id in order {
      var path :| Leads(plan, plan[a], path, id);
      AncestorsRunEarlier(plan, order, at, path, id);
    }
    var rest := plan.Keys - ancestors - {a};
    var before := Keep(order, ancestors);
    forall id, d | id in ancestors && id in plan && d in plan[id].dependencies ensures d in ancestors {
      AncestorStep(plan, plan[a], id, d);
    }
    RunKept(plan, [], order, ancestors);
    assert [] + before == before;
    forall id ensures id in before <==> id in ancestors {
      KeptMembers(order, ancestors, id);
    }
    forall d | d in plan[a].dependencies ensures d in before {
      DirectAncestor(plan, plan[a], d);
    }
    Append(plan, before, a);
    forall id, d | id in rest && id in plan && d in plan[id].dependencies ensures d in rest || d in before + [a] {
      InSchedule(plan, order, id, d);
    }
    RunKept(plan, before + [a], order, rest);
    other, p := before + [a] + Keep(order, rest), |before|;
    AllThere(plan, order, ancestors, a, rest);
    assert other[..p] == before;
  }

  lemma AllThere(plan: Plan, order: seq<Id>, ancestors: set<Id>, a: Id, rest: set<Id>)
    requires (forall id :: id in order <==> id in plan) && a in plan && rest == plan.Keys - ancestors - {a}
    ensures forall id :: id in Keep(order, ancestors) + [a] + Keep(order, rest) <==> id in plan
  {
    forall id ensures id in Keep(order, ancestors) + [a] + Keep(order, rest) <==> id in plan {
      KeptMembers(order, ancestors, id);
      KeptMembers(order, rest, id);
    }
  }

  lemma InSchedule(plan: Plan, order: seq<Id>, id: Id, d: Id)
    requires Schedule(plan, order) && id in plan && d in plan[id].dependencies
    ensures d in plan
  {
    var j :| 0 <= j < |order| && order[j] == id;
    assert d in order[..j];
  }

  /** In every full execution a matching canonical write runs before the action. */
  ghost predicate AlwaysPreceded(plan: Plan, rule: Rule, a: Id, digest: string -> string)
    requires a in plan && plan[a].capability in rule.projectionExtractors
  {
    forall order, p :: Schedule(plan, order) && 0 <= p < |order| && order[p] == a
      ==> exists id :: id in order[..p] && Match(plan, rule, plan[a], id, digest)
  }

  /** For a plan that can run at all, a projection of one value is accepted exactly when every execution
      order puts a matching canonical write before it: a lucky order of the list is not enough. */
  lemma DependencyIsExactlyOrder(plan: Plan, rule: Rule, a: Id, digest: string -> string, some: seq<Id>, ancestors: set<Id>)
    requires Schedule(plan, some) && a in plan && (forall id :: id in ancestors <==> Ancestor(plan, plan[a], id))
    requires plan[a].target in rule.projections && plan[a].capability in rule.projectionExtractors
    requires exists d :: DigestsOf(plan[a], rule.projectionExtractors[plan[a].capability], digest) == iset{d}
    ensures RuleAccepts(plan, rule, plan[a], digest) <==> AlwaysPreceded(plan, rule, a, digest)
  {
    if RuleAccepts(plan, rule, plan[a], digest) {
      var id :| Ancestor(plan, plan[a], id) && Match(plan, rule, plan[a], id, digest);
      var path :| Leads(plan, plan[a], path, id);
      forall order, p | Schedule(plan, order) && 0 <= p < |order| && order[p] == a
        ensures exists id :: id in order[..p] && Match(plan, rule, plan[a], id, digest)
      {
        AncestorsRunEarlier(plan, order, p, path, id);
      }
    }
    if AlwaysPreceded(plan, rule, a, digest) {
      var other, p := AncestorsFirst(plan, some, a, ancestors);
      var id :| id in other[..p] && Match(plan, rule, plan[a], id, digest);
      assert Ancestor(plan, plan[a], id);
    }
  }
}
