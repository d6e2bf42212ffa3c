/** The idempotency ledger: one row per key reserves an action before its side effect runs, and only
    the holder of the reservation's token can end it. */
module IdempotencyClaims {
  import opened Prelude

  type Token = nat   // uuid4 tokens are drawn from one counter that never repeats

  datatype Status = Pending | Completed | Failed | Indeterminate

  datatype Row = Row(fingerprint: Option<string>, status: Status, token: Option<Token>, result: Json)

  /** Why a token was spent. */
  datatype Ending = Success | Failure | Release | Uncertain

  /** What happened to a key.  `Spent` is one successful complete, fail, release or indeterminate. */
  datatype Event =
    | Granted(key: string, token: Token)
    | Spent(key: string, token: Token, ending: Ending)
    | Resolved(key: string)
    | Imported(key: string)
    | Cleared(key: string)

  datatype Ledger = Ledger(table: map<string, Row>, nextToken: Token, history: seq<Event>)

  datatype Reply =
    | Claimed(token: Token, prior: Option<Json>) | AlreadyCompleted(result: Json) | IsIndeterminate(result: Json) | InProgress | Conflict
    | Accepted | Lost

  const RELEASED := Object(map["error" := Object(map["code" := Text("legacy_pre_effect_failure")])])

  function Put(l: Ledger, key: string, row: Row, event: Event): Ledger {
    l.(table := l.table[key := row], history := l.history + [event])
  }

  function Claim(l: Ledger, key: string, fingerprint: string): (Ledger, Reply) {
    if key !in l.table || (l.table[key].fingerprint == Some(fingerprint) && l.table[key].status == Failed) then
      (Put(l, key, Row(Some(fingerprint), Pending, Some(l.nextToken), Object(map[])), Granted(key, l.nextToken)).(nextToken := l.nextToken + 1),
       Claimed(l.nextToken, if key in l.table then Some(l.table[key].result) else None))
    else if l.table[key].fingerprint != Some(fingerprint) then (l, Conflict)
    else (l, match l.table[key].status
             case Completed => AlreadyCompleted(l.table[key].result)
             case Indeterminate => IsIndeterminate(l.table[key].result)
             case _ => InProgress)
  }

  /** The `WHERE` clause of every statement that ends a reservation. */
  predicate Reserved(l: Ledger, key: string, fingerprint: string, token: Token) {
    && key in l.table && l.table[key].fingerprint == Some(fingerprint)
    && l.table[key].status == Pending && l.table[key].token == Some(token)
  }

  /** Completing keeps the token in the row, the other endings erase it. */
  function EndedRow(row: Row, ending: Ending, result: Json): Row {
    match ending
    case Success => row.(status := Completed, result := result)
    case Failure => row.(status := Failed, token := None, result := result)
    case Release => row.(status := Failed, token := None, result := RELEASED)
    case Uncertain => row.(status := Indeterminate, token := None, result := result)
  }

  function Finish(l: Ledger, key: string, fingerprint: string, token: Token, ending: Ending, result: Json): (Ledger, Reply) {
    if Reserved(l, key, fingerprint, token)
    then (Put(l, key, EndedRow(l.table[key], ending, result), Spent(key, token, ending)), Accepted)
    else (l, Lost)
  }

  function Resolve(l: Ledger, key: string, fingerprint: string, expected: Json, result: Json): (Ledger, Reply) {
    if key in l.table && l.table[key].fingerprint == Some(fingerprint) && l.table[key].status == Indeterminate && l.table[key].result == expected
    then (Put(l, key, l.table[key].(status := Completed, result := result), Resolved(key)), Accepted)
    else (l, Lost)
  }

  /** `save_completed`: only inserts. */
  function Import(l: Ledger, key: string, fingerprint: string, result: Json): (Ledger, Reply) {
    if key in l.table then (l, Accepted)
    else (Put(l, key, Row(Some(fingerprint), Completed, None, result), Imported(key)), Accepted)
  }

  function Clear(l: Ledger, key: string, fingerprint: Option<string>): (Ledger, Reply) {
    if key in l.table && (fingerprint.None? || l.table[key].fingerprint == fingerprint)
    then (l.(table := l.table - {key}, history := l.history + [Cleared(key)]), Accepted)
    else (l, Accepted)
  }

  class ActionLedger {
    var table: map<string, Row>
    var nextToken: Token
    var history: seq<Event>

    function Contents(): Ledger
      reads this
    {
      Ledger(table, nextToken, history)
    }

    constructor ()
      ensures Contents() == Ledger(map[], 0, [])
    {
      table, nextToken, history := map[], 0, [];
    }

    method ClaimAction(key: string, fingerprint: string) returns (reply: Reply)
      modifies this
      ensures (Contents(), reply) == old(Claim(Contents(), key, fingerprint))
    {
      var prior := None;
      if key in table {
        var row := table[key];
        if row.fingerprint != Some(fingerprint) { return Conflict; }
        if row.status == Completed { return AlreadyCompleted(row.result); }
        if row.status == Indeterminate { return IsIndeterminate(row.result); }
        if row.status == Pending { return InProgress; }
        prior := Some(row.result);
      }
      var token := nextToken;
      nextToken := nextToken + 1;
      table := table[key := Row(Some(fingerprint), Pending, Some(token), Object(map[]))];
      history := history + [Granted(key, token)];
      return Claimed(token, prior);
    }

    method FinishAction(key: string, fingerprint: string, token: Token, ending: Ending, result: Json) returns (reply: Reply)
      modifies this
      ensures (Contents(), reply) == old(Finish(Contents(), key, fingerprint, token, ending, result))
    {
      if key !in table || table[key].fingerprint != Some(fingerprint) || table[key].status != Pending || table[key].token != Some(token) {
        return Lost;
      }
      table := table[key := EndedRow(table[key], ending, result)];
      history := history + [Spent(key, token, ending)];
      return Accepted;
    }

    method ResolveIndeterminate(key: string, fingerprint: string, expected: Json, result: Json) returns (reply: Reply)
      modifies this
      ensures (Contents(), reply) == old(Resolve(Contents(), key, fingerprint, expected, result))
    {
      if key !in table || table[key].fingerprint != Some(fingerprint) || table[key].status != Indeterminate || table[key].result != expected {
        return Lost;
      }
      table := table[key := table[key].(status := Completed, result := result)];
      history := history + [Resolved(key)];
      return Accepted;
    }

    method SaveCompleted(key: string, fingerprint: string, result: Json) returns (reply: Reply)
      modifies this
      ensures (Contents(), reply) == old(Import(Contents(), key, fingerprint, result))
    {
      if key !in table {
        table := table[key := Row(Some(fingerprint), Completed, None, result)];
        history := history + [Imported(key)];
      }
      return Accepted;
    }

    method ClearCompleted(key: string, fingerprint: Option<string>) returns (reply: Reply)
      modifies this
      ensures (Contents(), reply) == old(Clear(Contents(), key, fingerprint))
    {
      if key in table && (fingerprint.None? || table[key].fingerprint == fingerprint) {
        table := table - {key};
        history := history + [Cleared(key)];
      }
      return Accepted;
    }
  }

  /* ---------- runs ---------- */

  datatype Call =
    | DoClaim(key: string, fingerprint: string)
    | DoFinish(key: string, fingerprint: string, token: Token, ending: Ending, result: Json)
    | DoResolve(key: string, fingerprint: string, expected: Json, result: Json)
    | DoImport(key: string, fingerprint: string, result: Json)
    | DoClear(key: string, only: Option<string>)

  function Perform(l: Ledger, call: Call): Ledger {
    match call
    case DoClaim(key, fingerprint) => Claim(l, key, fingerprint).0
    case DoFinish(key, fingerprint, token, ending, result) => Finish(l, key, fingerprint, token, ending, result).0
    case DoResolve(key, fingerprint, expected, result) => Resolve(l, key, fingerprint, expected, result).0
    case DoImport(key, fingerprint, result) => Import(l, key, fingerprint, result).0
    case DoClear(key, only) => Clear(l, key, only).0
  }

  function Run(l: Ledger, calls: seq<Call>): Ledger
    decreases |calls|
  {
    if calls == [] then l else Run(Perform(l, calls[0]), calls[1..])
  }

  const EMPTY := Ledger(map[], 0, [])

  /** What the history says about a key: no row, reserved under a token, free again, or closed. */
  datatype Phase = Absent | Held(token: Token) | Free | Closed

  function PhaseAfter(e: Event): Phase {
    match e
    case Granted(_, token) => Held(token)
    case Spent(_, _, ending) => if ending == Failure || ending == Release then Free else Closed
    case Resolved(_) => Closed
    case Imported(_) => Closed
    case Cleared(_) => Absent
  }

  function PhaseOf(history: seq<Event>, key: string): Phase
    decreases |history|
  {
    if history == [] then Absent
    else
      var last := history[|history| - 1];
      if last.key == key then PhaseAfter(last) else PhaseOf(history[..|history| - 1], key)
  }

  /** An event may follow a history. */
  predicate Follows(history: seq<Event>, e: Event) {
    match e
    case Granted(key, token) => PhaseOf(history, key) in {Absent, Free} && forall i :: 0 <= i < |history| && history[i].Granted? ==> history[i].token < token
    case Spent(key, token, _) => PhaseOf(history, key) == Held(token)
    case Resolved(key) => PhaseOf(history, key) == Closed
    case Imported(key) => PhaseOf(history, key) == Absent
    case Cleared(key) => PhaseOf(history, key) != Absent
  }

  predicate Orderly(history: seq<Event>) {
    forall i :: 0 <= i < |history| ==> Follows(history[..i], history[i])
  }

  function RowPhase(l: Ledger, key: string): Phase {
    if key !in l.table then Absent
    else match l.table[key].status
         case Pending => if l.table[key].token.Some? then Held(l.table[key].token.value) else Closed
         case Failed => Free
         case _ => Closed
  }

  /** The table says what the history says, and later tokens are new. */
  ghost predicate Inv(l: Ledger) {
    && Orderly(l.history)
    && (forall key :: RowPhase(l, key) == PhaseOf(l.history, key))
    && (forall key :: key in l.table && l.table[key].status == Pending ==> l.table[key].token.Some?)
    && (forall i :: 0 <= i < |l.history| && l.history[i].Granted? ==> l.history[i].token < l.nextToken)
  }

  lemma OneMore(history: seq<Event>, e: Event)
    requires Orderly(history) && Follows(history, e)
    ensures Orderly(history + [e])
    ensures forall key :: key != e.key ==> PhaseOf(history + [e], key) == PhaseOf(history, key)
  {
    var all := history + [e];
    assert all[..|all| - 1] == history;
    forall i | 0 <= i < |all| ensures Follows(all[..i], all[i]) {
      assert i < |history| ==> all[..i] == history[..i];
    }
  }

  /** One event about one key: the other rows are the same, the key's row agrees with the new history. */
  ghost predicate OneEvent(l: Ledger, l': Ledger, e: Event) {
    && l'.history == l.history + [e] && l'.nextToken >= l.nextToken
    && (forall key :: key != e.key ==> (key in l'.table <==> key in l.table) && (key in l.table ==> l'.table[key] == l.table[key]))
    && (e.Granted? ==> e.token < l'.nextToken)
    && (e.key in l'.table && l'.table[e.key].status == Pending ==> l'.table[e.key].token.Some?)
    && Follows(l.history, e) && RowPhase(l', e.key) == PhaseOf(l'.history, e.key)
  }

  lemma OneEventKeepsInv(l: Ledger, l': Ledger, e: Event)
    requires Inv(l) && OneEvent(l, l', e)
    ensures Inv(l')
  {
    OneMore(l.history, e);
    forall key ensures RowPhase(l', key) == PhaseOf(l'.history, key) {
      assert RowPhase(l, key) == PhaseOf(l.history, key);
    }
  }

  lemma LastPhase(history: seq<Event>, e: Event)
    ensures var all := history + [e]; all[..|all| - 1] == history && all[|all| - 1] == e
  {
  }

  lemma ClaimKeepsInv(l: Ledger, key: string, fingerprint: string)
    requires Inv(l)
    ensures Inv(Claim(l, key, fingerprint).0)
  {
    var (l', reply) := Claim(l, key, fingerprint);
    if reply.Claimed? {
      assert RowPhase(l, key) == PhaseOf(l.history, key);
      LastPhase(l.history, Granted(key, l.nextToken));
      OneEventKeepsInv(l, l', Granted(key, l.nextToken));
    }
  }

  lemma FinishKeepsInv(l: Ledger, key: string, fingerprint: string, token: Token, ending: Ending, result: Json)
    requires Inv(l)
    ensures Inv(Finish(l, key, fingerprint, token, ending, result).0)
  {
    if Reserved(l, key, fingerprint, token) {
      assert RowPhase(l, key) == PhaseOf(l.history, key);
      LastPhase(l.history, Spent(key, token, ending));
      OneEventKeepsInv(l, Finish(l, key, fingerprint, token, ending, result).0, Spent(key, token, ending));
    }
  }

  lemma OthersKeepInv(l: Ledger, call: Call)
    requires Inv(l) && !call.DoClaim? && !call.DoFinish?
    ensures Inv(Perform(l, call))
  {
    var l' := Perform(l, call);
    if l' != l {
      var e := if call.DoResolve? then Resolved(call.key) else if call.DoImport? then Imported(call.key) else Cleared(call.key);
      assert RowPhase(l, call.key) == PhaseOf(l.history, call.key);
      LastPhase(l.history, e);
      OneEventKeepsInv(l, l', e);
    }
  }

  lemma PerformKeepsInv(l: Ledger, call: Call)
    requires Inv(l)
    ensures Inv(Perform(l, call))
  {
    match call
    case DoClaim(key, fingerprint) => ClaimKeepsInv(l, key, fingerprint);
    case DoFinish(key, fingerprint, token, ending, result) => FinishKeepsInv(l, key, fingerprint, token, ending, result);
    case _ => OthersKeepInv(l, call);
  }

  lemma {:induction false} RunKeepsInv(l: Ledger, calls: seq<Call>)
    requires Inv(l)
    ensures Inv(Run(l, calls))
    decreases |calls|
  {
    if calls != [] {
      PerformKeepsInv(l, calls[0]);
      RunKeepsInv(Perform(l, calls[0]), calls[1..]);
    }
  }

  /* ---------- the promises ---------- */

  /** The event frees the key for another grant: it was cleared, or `token`'s holder gave up before any effect. */
  predicate Frees(e: Event, key: string, token: Token) {
    e == Cleared(key) || e == Spent(key, token, Failure) || e == Spent(key, token, Release)
  }

  lemma {:induction false} HeldUntilFreed(history: seq<Event>, key: string, token: Token, i: nat, m: nat)
    requires Orderly(history) && i < m <= |history| && history[i] == Granted(key, token)
    requires forall k :: i < k < m ==> !Frees(history[k], key, token)
    ensures PhaseOf(history[..m], key) in {Held(token), Closed}
    decreases m
  {
    PhaseStep(history, key, m);
    if m > i + 1 {
      HeldUntilFreed(history, key, token, i, m - 1);
      assert Follows(history[..m - 1], history[m - 1]);
    }
  }

  /** Two grants of one key are separated by a failure or release of the first token, or by a clear. */
  lemma GrantsAreSeparated(calls: seq<Call>, key: string, i: nat, j: nat, s: Token, t: Token)
    requires var h := Run(EMPTY, calls).history; i < j < |h| && h[i] == Granted(key, s) && h[j] == Granted(key, t)
    ensures var h := Run(EMPTY, calls).history; exists k :: i < k < j && Frees(h[k], key, s)
  {
    RunKeepsInv(EMPTY, calls);
    var h := Run(EMPTY, calls).history;
    assert Follows(h[..j], h[j]);
    if forall k :: i < k < j ==> !Frees(h[k], key, s) {
      HeldUntilFreed(h, key, s, i, j);
      assert false;
    }
  }

  /** A held key was granted under that token, and nothing happened to it since. */
  lemma {:induction false} HeldSinceGrant(history: seq<Event>, key: string, token: Token) returns (g: nat)
    requires PhaseOf(history, key) == Held(token)
    ensures g < |history| && history[g] == Granted(key, token)
    ensures forall k :: g < k < |history| ==> history[k].key != key
    decreases |history|
  {
    var n := |history| - 1;
    if history[n].key == key {
      g := n;
    } else {
      g := HeldSinceGrant(history[..n], key, token);
    }
  }

  /** Tokens grow from grant to grant, so no two grants share one. */
  lemma LaterTokensAreLarger(history: seq<Event>, g: nat, h: nat)
    requires Orderly(history) && g < h < |history| && history[g].Granted? && history[h].Granted?
    ensures history[g].token < history[h].token
  {
    assert Follows(history[..h], history[h]) && history[..h][g] == history[g];
  }

  /** A token is spent at most once, whatever its ending and whichever key names it. */
  lemma TokensAreSpentOnce(calls: seq<Call>, i: nat, j: nat)
    requires var h := Run(EMPTY, calls).history; i < j < |h| && h[i].Spent? && h[j].Spent?
    ensures var h := Run(EMPTY, calls).history; h[i].token != h[j].token
  {
    RunKeepsInv(EMPTY, calls);
    var h := Run(EMPTY, calls).history;
    assert Follows(h[..i], h[i]) && Follows(h[..j], h[j]);
    var g := HeldSinceGrant(h[..i], h[i].key, h[i].token);
    var g' := HeldSinceGrant(h[..j], h[j].key, h[j].token);
    assert h[g] == Granted(h[i].key, h[i].token) && h[g'] == Granted(h[j].key, h[j].token) && h[..j][i] == h[i];
    if g < g' {
      LaterTokensAreLarger(h, g, g');
    } else if g' < g {
      LaterTokensAreLarger(h, g', g);
    } else {
      assert false;
    }
  }

  lemma PhaseStep(history: seq<Event>, key: string, m: nat)
    requires 0 < m <= |history|
    ensures PhaseOf(history[..m], key) == if history[m - 1].key == key then PhaseAfter(history[m - 1]) else PhaseOf(history[..m - 1], key)
  {
    assert history[..m][..m - 1] == history[..m - 1];
  }

  /** What may happen to a closed key leaves it closed, unless it is cleared. */
  lemma ClosedStays(before: seq<Event>, e: Event, key: string)
    requires Follows(before, e) && PhaseOf(before, key) == Closed && e.key == key && e != Cleared(key)
    ensures PhaseAfter(e) == Closed
  {
  }

  lemma {:induction false} ClosedUntilCleared(history: seq<Event>, key: string, i: nat, m: nat)
    requires Orderly(history) && i < m <= |history| && PhaseOf(history[..i + 1], key) == Closed
    requires forall k :: i < k < m ==> history[k] != Cleared(key)
    ensures PhaseOf(history[..m], key) == Closed
    decreases m
  {
    if m > i + 1 {
      ClosedUntilCleared(history, key, i, m - 1);
      PhaseStep(history, key, m);
      assert Follows(history[..m - 1], history[m - 1]);
      if history[m - 1].key == key {
        ClosedStays(history[..m - 1], history[m - 1], key);
      }
    }
  }

  /** After an uncertain, successful or imported outcome only a clear makes the key claimable again. */
  lemma ClosedKeysNeedClearing(calls: seq<Call>, i: nat, j: nat, token: Token)
    requires var h := Run(EMPTY, calls).history;
             && i < j < |h| && h[j] == Granted(h[i].key, token)
             && ((h[i].Spent? && h[i].ending in {Uncertain, Success}) || h[i].Imported? || h[i].Resolved?)
    ensures var h := Run(EMPTY, calls).history; exists k :: i < k < j && h[k] == Cleared(h[i].key)
  {
    RunKeepsInv(EMPTY, calls);
    var h := Run(EMPTY, calls).history;
    assert Follows(h[..j], h[j]);
    PhaseStep(h, h[i].key, i + 1);
    if forall k :: i < k < j ==> h[k] != Cleared(h[i].key) {
      ClosedUntilCleared(h, h[i].key, i, j);
      assert false;
    }
  }

  /** A claim conflicts exactly when a row of another action exists, and then changes nothing. */
  lemma ConflictsAreOtherActions(l: Ledger, key: string, fingerprint: string)
    ensures Claim(l, key, fingerprint).1 == Conflict <==> key in l.table && l.table[key].fingerprint != Some(fingerprint)
    ensures !Claim(l, key, fingerprint).1.Claimed? ==> Claim(l, key, fingerprint).0 == l
  {
  }

  /** As long as a key is not cleared its row stays and keeps its fingerprint, so another action's
      claim keeps conflicting. */
  lemma {:induction false} FingerprintsStay(l: Ledger, calls: seq<Call>, key: string, other: string)
    requires key in l.table && l.table[key].fingerprint != Some(other)
    requires forall i :: 0 <= i < |calls| && calls[i].DoClear? ==> calls[i].key != key
    ensures var l' := Run(l, calls);
            key in l'.table && l'.table[key].fingerprint == l.table[key].fingerprint && Claim(l', key, other) == (l', Conflict)
    decreases |calls|
  {
    if calls != [] {
      FingerprintsStay(Perform(l, calls[0]), calls[1..], key, other);
    }
  }

  /* ---------- which result a claim reports ---------- */

  /** The call leaves the row of the key alone, if that row holds an ended action of this fingerprint. */
  predicate Spares(call: Call, key: string, fingerprint: string, status: Status) {
    && !(call.DoClear? && call.key == key)
    && (status == Indeterminate ==> !(call.DoResolve? && call.key == key))
    && (status == Failed ==> !(call.DoClaim? && call.key == key && call.fingerprint == fingerprint))
  }

  lemma {:induction false} EndedRowStays(l: Ledger, calls: seq<Call>, key: string, fingerprint: string)
    requires key in l.table && l.table[key].fingerprint == Some(fingerprint) && l.table[key].status != Pending
    requires forall i :: 0 <= i < |calls| ==> Spares(calls[i], key, fingerprint, l.table[key].status)
    ensures key in Run(l, calls).table && Run(l, calls).table[key] == l.table[key]
    decreases |calls|
  {
    if calls != [] {
      assert Spares(calls[0], key, fingerprint, l.table[key].status);
      EndedRowStays(Perform(l, calls[0]), calls[1..], key, fingerprint);
    }
  }

  function StatusOf(ending: Ending): Status {
    match ending
    case Success => Completed
    case Uncertain => Indeterminate
    case _ => Failed
  }

  /** Whatever is done to other keys and by other actions, an ended action answers the next claim by how it ended: a
      completed one with its result, an uncertain one with the result that has to be looked into, and a failed or released
      one by a new grant that is handed the result of the one before. */
  lemma OutcomesAreReported(l: Ledger, key: string, fingerprint: string, token: Token, ending: Ending, result: Json, calls: seq<Call>)
    requires Finish(l, key, fingerprint, token, ending, result).1 == Accepted
    requires forall i :: 0 <= i < |calls| ==> Spares(calls[i], key, fingerprint, StatusOf(ending))
    ensures var l' := Run(Finish(l, key, fingerprint, token, ending, result).0, calls);
            var reply := Claim(l', key, fingerprint).1;
            match ending
            case Success => reply == AlreadyCompleted(result)
            case Uncertain => reply == IsIndeterminate(result)
            case Failure => reply == Claimed(l'.nextToken, Some(result))
            case Release => reply == Claimed(l'.nextToken, Some(RELEASED))
  {
    EndedRowStays(Finish(l, key, fingerprint, token, ending, result).0, calls, key, fingerprint);
  }

  /** An uncertain outcome is resolved exactly by a caller that names its result. */
  lemma UncertainIsResolvedExactly(l: Ledger, key: string, fingerprint: string, token: Token, result: Json, calls: seq<Call>, expected: Json, resolved: Json)
    requires Finish(l, key, fingerprint, token, Uncertain, result).1 == Accepted
    requires forall i :: 0 <= i < |calls| ==> Spares(calls[i], key, fingerprint, Indeterminate)
    ensures var l' := Run(Finish(l, key, fingerprint, token, Uncertain, result).0, calls);
            && (Resolve(l', key, fingerprint, expected, resolved).1 == Accepted <==> expected == result)
            && (expected != result ==> Resolve(l', key, fingerprint, expected, resolved) == (l', Lost))
  {
    EndedRowStays(Finish(l, key, fingerprint, token, Uncertain, result).0, calls, key, fingerprint);
  }

  /** A resolved result is what later claims report. */
  lemma ResolvedResultIsReported(l: Ledger, key: string, fingerprint: string, expected: Json, result: Json, calls: seq<Call>)
    requires Resolve(l, key, fingerprint, expected, result).1 == Accepted
    requires forall i :: 0 <= i < |calls| ==> Spares(calls[i], key, fingerprint, Completed)
    ensures Claim(Run(Resolve(l, key, fingerprint, expected, result).0, calls), key, fingerprint).1 == AlreadyCompleted(result)
  {
    EndedRowStays(Resolve(l, key, fingerprint, expected, result).0, calls, key, fingerprint);
  }

  /** An imported result is reported if the key was free, and does not disturb a row that exists. */
  lemma ImportedResultIsReported(l: Ledger, key: string, fingerprint: string, result: Json, calls: seq<Call>)
    requires forall i :: 0 <= i < |calls| ==> Spares(calls[i], key, fingerprint, Completed)
    ensures if key in l.table then Import(l, key, fingerprint, result).0 == l
            else Claim(Run(Import(l, key, fingerprint, result).0, calls), key, fingerprint).1 == AlreadyCompleted(result)
  {
    if key !in l.table {
      EndedRowStays(Import(l, key, fingerprint, result).0, calls, key, fingerprint);
    }
  }

  lemma {:induction false} HeldRowStays(l: Ledger, calls: seq<Call>, key: string, fingerprint: string, token: Token)
    requires Reserved(l, key, fingerprint, token)
    requires forall i :: 0 <= i < |calls| ==> !(calls[i].DoClear? && calls[i].key == key)
    requires forall i :: 0 <= i < |calls| ==> !(calls[i].DoFinish? && calls[i].key == key && calls[i].fingerprint == fingerprint && calls[i].token == token)
    ensures key in Run(l, calls).table && Run(l, calls).table[key] == l.table[key]
    decreases |calls|
  {
    if calls != [] {
      HeldRowStays(Perform(l, calls[0]), calls[1..], key, fingerprint, token);
    }
  }

  /** From its grant until its holder ends it, or it is cleared, a reservation is reported as in progress; its holder, and
      no other token, can end it then, and it cannot be resolved. */
  lemma GrantsAreHeld(l: Ledger, key: string, fingerprint: string, calls: seq<Call>, other: Token, ending: Ending, result: Json)
    requires Claim(l, key, fingerprint).1.Claimed?
    requires forall i :: 0 <= i < |calls| ==> !(calls[i].DoClear? && calls[i].key == key)
    requires var token := Claim(l, key, fingerprint).1.token;
             forall i :: 0 <= i < |calls| ==> !(calls[i].DoFinish? && calls[i].key == key && calls[i].fingerprint == fingerprint && calls[i].token == token)
    ensures var token := Claim(l, key, fingerprint).1.token;
            var l' := Run(Claim(l, key, fingerprint).0, calls);
            && Claim(l', key, fingerprint) == (l', InProgress)
            && (Finish(l', key, fingerprint, other, ending, result).1 == Accepted <==> other == token)
            && (other != token ==> Finish(l', key, fingerprint, other, ending, result) == (l', Lost))
            && (forall expected :: Resolve(l', key, fingerprint, expected, result) == (l', Lost))
  {
    HeldRowStays(Claim(l, key, fingerprint).0, calls, key, fingerprint, Claim(l, key, fingerprint).1.token);
  }

  /** A free key is granted under the next token, and clearing frees exactly the key, or exactly its row of that action. */
  lemma ClearedKeysAreGranted(l: Ledger, key: string, only: Option<string>, fingerprint: string)
    ensures key !in l.table ==> Claim(l, key, fingerprint).1 == Claimed(l.nextToken, None)
    ensures var l' := Perform(l, DoClear(key, only));
            if key in l.table && only.Some? && l.table[key].fingerprint != only then l' == l
            else Claim(l', key, fingerprint).1 == Claimed(l.nextToken, None)
  {
  }

  /** A call about one key leaves the rows of all others, and so what claims of them report. */
  lemma {:induction false} OtherKeysAreUntouched(l: Ledger, calls: seq<Call>, key: string)
    requires forall i :: 0 <= i < |calls| ==> calls[i].key != key
    ensures var l' := Run(l, calls); (key in l'.table <==> key in l.table) && (key in l.table ==> l'.table[key] == l.table[key])
    decreases |calls|
  {
    if calls != [] {
      OtherKeysAreUntouched(Perform(l, calls[0]), calls[1..], key);
    }
  }
}
