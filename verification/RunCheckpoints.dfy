/** Run checkpoints: one row per run, advanced only by a caller that names the state it expects. */
module RunCheckpoints {
  import opened Prelude

  datatype Row = Row(plan: string, fingerprint: string, state: string, sequence: nat, bindings: string, result: Option<string>)

  datatype Request = Request(run: string, plan: string, fingerprint: string, state: string, bindings: string,
                             expected: Option<string>, result: Option<string>)

  datatype Reply = Malformed | Missing | Differs | Saved(row: Row)

  /** A request that was saved, with the row it left. */
  datatype Save = Save(request: Request, row: Row)

  /** `saves` records what happened; no operation reads it. */
  datatype Store = Store(rows: map<string, Row>, saves: seq<Save>)

  predicate IsSha256(value: string) {
    |value| == 64 && forall c | c in value :: '0' <= c <= '9' || 'a' <= c <= 'f'
  }

  predicate WellFormed(q: Request) {
    && IsSha256(q.fingerprint) && IsSha256(q.bindings) && (q.result.Some? ==> IsSha256(q.result.value))
    && q.state != "" && forall c | c in q.state :: c < '\U{80}'
  }

  /** The request continues exactly this row. */
  predicate Continues(row: Row, q: Request) {
    row.plan == q.plan && row.fingerprint == q.fingerprint && q.expected == Some(row.state) && row.bindings == q.bindings
  }

  function RowOf(q: Request, sequence: nat): Row {
    Row(q.plan, q.fingerprint, q.state, sequence, q.bindings, q.result)
  }

  function Checkpoint(s: Store, q: Request): (Store, Reply) {
    if !WellFormed(q) then (s, Malformed)
    else if q.run !in s.rows && q.expected.Some? then (s, Missing)
    else if q.run in s.rows && !Continues(s.rows[q.run], q) then (s, Differs)
    else
      var row := RowOf(q, if q.run in s.rows then s.rows[q.run].sequence + 1 else 0);
      (Store(s.rows[q.run := row], s.saves + [Save(q, row)]), Saved(row))
  }

  class CheckpointTable {
    var rows: map<string, Row>
    var saves: seq<Save>

    function Contents(): Store
      reads this
    {
      Store(rows, saves)
    }

    constructor ()
      ensures Contents() == Store(map[], [])
    {
      rows, saves := map[], [];
    }

    method CheckpointRun(q: Request) returns (reply: Reply)
      modifies this
      ensures (Contents(), reply) == old(Checkpoint(Contents(), q))
    {
      if !IsSha256(q.fingerprint) || !IsSha256(q.bindings) { return Malformed; }
      if q.result.Some? && !IsSha256(q.result.value) { return Malformed; }
      if !WellFormed(q) { return Malformed; }
      var sequence := 0;
      if q.run !in rows {
        if q.expected.Some? { return Missing; }
      } else {
        var existing := rows[q.run];
        if existing.plan != q.plan || existing.fingerprint != q.fingerprint || Some(existing.state) != q.expected || existing.bindings != q.bindings {
          return Differs;
        }
        sequence := existing.sequence + 1;
      }
      var row := Row(q.plan, q.fingerprint, q.state, sequence, q.bindings, q.result);
      rows := rows[q.run := row];
      saves := saves + [Save(q, row)];
      return Saved(row);
    }
  }

  /* ---------- any number of processes ---------- */

  function Run(s: Store, qs: seq<Request>): Store
    decreases |qs|
  {
    if qs == [] then s else Run(Checkpoint(s, qs[0]).0, qs[1..])
  }

  /** The saves of one run, in order. */
  function SavesOf(saves: seq<Save>, run: string): seq<Save>
    decreases |saves|
  {
    if saves == [] then []
    else
      var last := saves[|saves| - 1];
      SavesOf(saves[..|saves| - 1], run) + if last.request.run == run then [last] else []
  }

  /** Save `k` starts the run or continues the row of save `k - 1`. */
  ghost predicate Linked(saves: seq<Save>, k: nat)
    requires k < |saves|
  {
    && saves[k].row == RowOf(saves[k].request, k)
    && if k == 0 then saves[k].request.expected == None else Continues(saves[k - 1].row, saves[k].request)
  }

  ghost predicate OneLine(saves: seq<Save>) {
    forall k: nat :: k < |saves| ==> Linked(saves, k)
  }

  /** The row of a run is its last save. */
  ghost predicate RunOk(s: Store, run: string) {
    var saves := SavesOf(s.saves, run);
    && OneLine(saves)
    && (if saves == [] then run !in s.rows else run in s.rows && s.rows[run] == saves[|saves| - 1].row)
  }

  lemma OneMoreLinked(saves: seq<Save>, save: Save)
    requires OneLine(saves) && Linked(saves + [save], |saves|)
    ensures OneLine(saves + [save])
  {
    forall k: nat | k < |saves| + 1 ensures Linked(saves + [save], k) {
      if k < |saves| {
        assert Linked(saves, k);
      }
    }
  }

  lemma CheckpointKeeps(s: Store, q: Request, run: string)
    requires RunOk(s, run)
    ensures RunOk(Checkpoint(s, q).0, run)
  {
    var (s', reply) := Checkpoint(s, q);
    if reply.Saved? {
      var save := Save(q, reply.row);
      assert s'.saves[..|s'.saves| - 1] == s.saves;
      if q.run == run {
        var saves := SavesOf(s.saves, run);
        assert saves != [] ==> Linked(saves, |saves| - 1);
        assert SavesOf(s'.saves, run) == saves + [save];
        OneMoreLinked(saves, save);
      } else {
        assert SavesOf(s'.saves, run) == SavesOf(s.saves, run);
      }
    }
  }

  lemma {:induction false} RunKeeps(s: Store, qs: seq<Request>, run: string)
    requires RunOk(s, run)
    ensures RunOk(Run(s, qs), run)
    decreases |qs|
  {
    if qs != [] {
      CheckpointKeeps(s, qs[0], run);
      RunKeeps(Checkpoint(s, qs[0]).0, qs[1..], run);
    }
  }

  /** Whatever the processes ask, in any order: the saves of a run are numbered 0, 1, 2, ..., each expects the
      state the one before it wrote, and all have one plan, fingerprint and binding. */
  lemma SavesFormOneLine(qs: seq<Request>, run: string, k: nat)
    requires k < |SavesOf(Run(Store(map[], []), qs).saves, run)|
    ensures var saves := SavesOf(Run(Store(map[], []), qs).saves, run);
            && saves[k].row.sequence == k
            && saves[k].request.expected == (if k == 0 then None else Some(saves[k - 1].row.state))
            && saves[k].row.plan == saves[0].row.plan && saves[k].row.fingerprint == saves[0].row.fingerprint
            && saves[k].row.bindings == saves[0].row.bindings
  {
    RunKeeps(Store(map[], []), qs, run);
    SameIdentity(SavesOf(Run(Store(map[], []), qs).saves, run), k);
  }

  lemma {:induction false} SameIdentity(saves: seq<Save>, k: nat)
    requires OneLine(saves) && k < |saves|
    ensures Linked(saves, k)
    ensures saves[k].row.plan == saves[0].row.plan && saves[k].row.fingerprint == saves[0].row.fingerprint
    ensures saves[k].row.bindings == saves[0].row.bindings
  {
    assert Linked(saves, k);
    if k > 0 {
      SameIdentity(saves, k - 1);
    }
  }

  /** Two saves that expect one state have between them a save that wrote it again: while states do not recur,
      only one process advances from each. */
  lemma AdvancesAreSeparated(qs: seq<Request>, run: string, i: nat, j: nat)
    requires var saves := SavesOf(Run(Store(map[], []), qs).saves, run);
             i < j < |saves| && saves[i].request.expected == saves[j].request.expected
    ensures var saves := SavesOf(Run(Store(map[], []), qs).saves, run);
            i > 0 && saves[j - 1].row.state == saves[i - 1].row.state && i - 1 < j - 1
  {
    SavesFormOneLine(qs, run, i);
    SavesFormOneLine(qs, run, j);
  }

  /** The state of a run's checkpoint, if there is one. */
  function StateOf(s: Store, run: string): Option<string> {
    if run in s.rows then Some(s.rows[run].state) else None
  }

  lemma {:induction false} IdentityStays(s: Store, qs: seq<Request>, run: string)
    requires run in s.rows
    ensures var after := Run(s, qs).rows;
            run in after && after[run].plan == s.rows[run].plan && after[run].fingerprint == s.rows[run].fingerprint
            && after[run].bindings == s.rows[run].bindings
    decreases |qs|
  {
    if qs != [] {
      IdentityStays(Checkpoint(s, qs[0]).0, qs[1..], run);
    }
  }

  /** A request that would have been saved once is saved later, whatever happened in between, exactly if the
      run is in the state the request expects (or still has no checkpoint, if it expects none): neither the
      sequence nor the time that passed counts. */
  lemma StaleRequestsAreAcceptedExactly(s: Store, q: Request, qs: seq<Request>)
    requires Checkpoint(s, q).1.Saved?
    ensures Checkpoint(Run(s, qs), q).1.Saved? <==> StateOf(Run(s, qs), q.run) == q.expected
  {
    if q.run in s.rows {
      IdentityStays(s, qs, q.run);
    }
  }

  /** So a detour that leads back to the expected state hides two saves from a request prepared before them. */
  lemma RecurringStateIsAccepted(s: Store, q: Request, there: string, back: string)
    requires Checkpoint(s, q).1.Saved? && q.run in s.rows && q.expected == Some(back)
    requires WellFormed(q.(state := there)) && WellFormed(q.(state := back))
    ensures var moved := Run(s, [q.(state := there), q.(state := back, expected := Some(there))]);
            |moved.saves| == |s.saves| + 2 && Checkpoint(moved, q).1.Saved?
  {
    var away, home := q.(state := there), q.(state := back, expected := Some(there));
    var s1 := Checkpoint(s, away).0;
    assert Run(s1, [home]) == Checkpoint(s1, home).0 by { assert Run(Checkpoint(s1, home).0, []) == Checkpoint(s1, home).0; }
    assert [away, home][1..] == [home];
  }

  /* ---------- the answers, exactly ---------- */

  predicate LowerHex64(text: string) {
    |text| == 64 && forall i :: 0 <= i < 64 ==> text[i] in "0123456789abcdef"
  }

  lemma Sha256IsLowerHex(text: string)
    ensures IsSha256(text) <==> LowerHex64(text)
  {
    forall c ensures c in "0123456789abcdef" <==> '0' <= c <= '9' || 'a' <= c <= 'f' {
      HexDigits(c);
    }
    if IsSha256(text) {
      assert forall i :: 0 <= i < |text| ==> text[i] in text;
    }
  }

  lemma HexDigits(c: char)
    ensures c in "0123456789abcdef" <==> '0' <= c <= '9' || 'a' <= c <= 'f'
  {
    var digits := "0123456789abcdef";
    assert digits[0] == '0' && digits[1] == '1' && digits[2] == '2' && digits[3] == '3' && digits[4] == '4' && digits[5] == '5' && digits[6] == '6'
        && digits[7] == '7' && digits[8] == '8' && digits[9] == '9' && digits[10] == 'a' && digits[11] == 'b' && digits[12] == 'c'
        && digits[13] == 'd' && digits[14] == 'e' && digits[15] == 'f';
  }

  /** The fields of the request are well formed: three digests and a nonempty ASCII state. */
  predicate Proper(q: Request) {
    && LowerHex64(q.fingerprint) && LowerHex64(q.bindings) && (q.result.Some? ==> LowerHex64(q.result.value))
    && |q.state| > 0 && forall i :: 0 <= i < |q.state| ==> q.state[i] as int < 128
  }

  lemma ProperIsWellFormed(q: Request)
    ensures Proper(q) <==> WellFormed(q)
  {
    Sha256IsLowerHex(q.fingerprint);
    Sha256IsLowerHex(q.bindings);
    if q.result.Some? {
      Sha256IsLowerHex(q.result.value);
    }
    assert forall i :: 0 <= i < |q.state| ==> q.state[i] in q.state && (q.state[i] < '\U{80}' <==> q.state[i] as int < 128);
  }

  /** A save needs a proper request that starts the run, or names plan, fingerprint, bindings and state of its row; what it
      leaves is the request's data under the next sequence number, and every other answer leaves everything as it was. */
  lemma AnswersExactly(s: Store, q: Request)
    ensures var (s', reply) := Checkpoint(s, q);
            && (reply == Malformed <==> !Proper(q))
            && (reply == Missing <==> Proper(q) && q.run !in s.rows && q.expected.Some?)
            && (reply == Differs <==> Proper(q) && q.run in s.rows
                                      && (s.rows[q.run].plan != q.plan || s.rows[q.run].fingerprint != q.fingerprint
                                          || s.rows[q.run].bindings != q.bindings || q.expected != Some(s.rows[q.run].state)))
            && (!reply.Saved? ==> s' == s)
            && (reply.Saved? ==>
                  && q.run in s'.rows && s'.rows[q.run] == reply.row && s'.rows == s.rows[q.run := reply.row]
                  && reply.row == Row(q.plan, q.fingerprint, q.state, if q.run in s.rows then s.rows[q.run].sequence + 1 else 0, q.bindings, q.result))
  {
    ProperIsWellFormed(q);
  }

  /** What is read for a run is the data of its last save, numbered by the saves before it; nothing if there is none. */
  lemma LastSaveIsRead(qs: seq<Request>, run: string)
    ensures var s := Run(Store(map[], []), qs);
            var saves := SavesOf(s.saves, run);
            && (run in s.rows <==> saves != [])
            && (saves != [] ==>
                  var q := saves[|saves| - 1].request;
                  s.rows[run] == Row(q.plan, q.fingerprint, q.state, |saves| - 1, q.bindings, q.result))
  {
    RunKeeps(Store(map[], []), qs, run);
    var saves := SavesOf(Run(Store(map[], []), qs).saves, run);
    if saves != [] {
      SameIdentity(saves, |saves| - 1);
    }
  }
}
