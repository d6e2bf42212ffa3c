/** The hash-linked audit log: every event's hash covers the previous event's hash and its own fields,
    and a one-row checkpoint holds the number of events and the last hash. */
module AuditChain {
  import opened Prelude

  const GENESIS := "GENESIS"

  datatype Row = Row(timestamp: string, runId: string, planId: string, actionId: Option<string>,
                     eventType: string, payload: string, previousHash: string, eventHash: string)

  /** What a caller records, with the clock reading of the call. */
  datatype Event = Event(timestamp: string, runId: string, planId: string, actionId: Option<string>, eventType: string, payload: string)

  datatype Checkpoint = Checkpoint(count: int, head: string)

  datatype Log = Log(rows: seq<Row>, checkpoint: Option<Checkpoint>)

  datatype RecordError = MissingCheckpoint | ChainMismatch

  datatype Verdict =
    | Verified(count: nat) | NoEvents | NoCheckpoint | BrokenLink(index: nat) | HashMismatch(index: nat)
    | CountMismatch | HeadMismatch

  function Join(parts: seq<string>): string {
    if parts == [] then "" else if |parts| == 1 then parts[0] else parts[0] + "|" + Join(parts[1..])
  }

  /** `str(action_id or "")`. */
  function ActionText(actionId: Option<string>): string {
    if actionId.Some? then actionId.value else ""
  }

  function Parts(row: Row): seq<string> {
    [row.previousHash, row.timestamp, row.runId, row.planId, ActionText(row.actionId), row.eventType, row.payload]
  }

  function Material(row: Row): string {
    Join(Parts(row))
  }

  /** The hash the next event links to. */
  function Tip(rows: seq<Row>): string {
    if rows == [] then GENESIS else rows[|rows| - 1].eventHash
  }

  function NewRow(digest: string -> string, event: Event, previous: string): Row {
    var row := Row(event.timestamp, event.runId, event.planId, event.actionId, event.eventType, event.payload, previous, "");
    row.(eventHash := digest(Material(row)))
  }

  function Recorded(digest: string -> string, log: Log, event: Event): Result<Log, RecordError> {
    if log.checkpoint.None? then Err(MissingCheckpoint)
    else if Tip(log.rows) != log.checkpoint.value.head then Err(ChainMismatch)
    else
      var row := NewRow(digest, event, log.checkpoint.value.head);
      Ok(Log(log.rows + [row], Some(Checkpoint(log.checkpoint.value.count + 1, row.eventHash))))
  }

  /* ---------- the declarative meaning of a valid log ---------- */

  predicate Linked(rows: seq<Row>, i: nat)
    requires i < |rows|
  {
    rows[i].previousHash == Tip(rows[..i])
  }

  predicate Hashed(digest: string -> string, row: Row) {
    row.eventHash == digest(Material(row))
  }

  predicate Chained(digest: string -> string, rows: seq<Row>) {
    forall i :: 0 <= i < |rows| ==> Linked(rows, i) && Hashed(digest, rows[i])
  }

  predicate Accepted(digest: string -> string, log: Log) {
    log.rows != [] && Chained(digest, log.rows) && log.checkpoint == Some(Checkpoint(|log.rows|, Tip(log.rows)))
  }

  class AuditLog {
    const digest: string -> string
    var rows: seq<Row>
    var checkpoint: Option<Checkpoint>

    function Contents(): Log
      reads this
    {
      Log(rows, checkpoint)
    }

    /** `_initialize` on a database without events. */
    constructor (digest: string -> string)
      ensures this.digest == digest && Contents() == Log([], Some(Checkpoint(0, GENESIS)))
    {
      this.digest := digest;
      rows, checkpoint := [], Some(Checkpoint(0, GENESIS));
    }

    method Record(event: Event) returns (result: Result<string, RecordError>)
      modifies this
      ensures match old(Recorded(digest, Contents(), event))
              case Ok(log) => Contents() == log && result == Ok(log.checkpoint.value.head)
              case Err(error) => Contents() == old(Contents()) && result == Err(error)
    {
      if checkpoint.None? { return Err(MissingCheckpoint); }
      var previous := checkpoint.value.head;
      var latest := GENESIS;
      if |rows| > 0 { latest := rows[|rows| - 1].eventHash; }
      if latest != previous { return Err(ChainMismatch); }
      var row := NewRow(digest, event, previous);
      rows := rows + [row];
      checkpoint := Some(Checkpoint(checkpoint.value.count + 1, row.eventHash));
      return Ok(row.eventHash);
    }

    /** `_verify_connection`: succeeds exactly on the accepted logs, and otherwise names the first
        event whose link or hash is wrong. */
    method Verify() returns (verdict: Verdict)
      ensures verdict.Verified? <==> Accepted(digest, Contents())
      ensures verdict.Verified? ==> verdict.count == |rows|
      ensures verdict.BrokenLink? ==> 1 <= verdict.index <= |rows| && Chained(digest, rows[..verdict.index - 1]) && !Linked(rows, verdict.index - 1)
      ensures verdict.HashMismatch? ==>
        1 <= verdict.index <= |rows| && Chained(digest, rows[..verdict.index - 1]) && Linked(rows, verdict.index - 1) && !Hashed(digest, rows[verdict.index - 1])
      ensures verdict.NoEvents? <==> rows == []
      ensures verdict.NoCheckpoint? <==> rows != [] && checkpoint.None?
      ensures verdict.CountMismatch? <==> rows != [] && checkpoint.Some? && Chained(digest, rows) && checkpoint.value.count != |rows|
      ensures verdict.HeadMismatch? <==>
        rows != [] && checkpoint.Some? && Chained(digest, rows) && checkpoint.value.count == |rows| && checkpoint.value.head != Tip(rows)
    {
      if rows == [] { return NoEvents; }
      if checkpoint.None? { return NoCheckpoint; }
      var expected := GENESIS;
      for i := 0 to |rows|
        invariant expected == Tip(rows[..i])
        invariant Chained(digest, rows[..i])
      {
        var row := rows[i];
        NextTip(rows, i);
        if row.previousHash != expected { return BrokenLink(i + 1); }
        if digest(Material(row)) != row.eventHash { return HashMismatch(i + 1); }
        ChainGrows(digest, rows[..i], row);
        expected := row.eventHash;
      }
      assert rows[..|rows|] == rows;
      if checkpoint.value.count != |rows| { return CountMismatch; }
      if checkpoint.value.head != expected { return HeadMismatch; }
      return Verified(|rows|);
    }
  }

  lemma NextTip(rows: seq<Row>, i: nat)
    requires i < |rows|
    ensures rows[..i + 1] == rows[..i] + [rows[i]] && Tip(rows[..i + 1]) == rows[i].eventHash
  {
  }

  /* ---------- recording keeps the chain ---------- */

  lemma ChainGrows(digest: string -> string, rows: seq<Row>, row: Row)
    requires Chained(digest, rows) && row.previousHash == Tip(rows) && Hashed(digest, row)
    ensures Chained(digest, rows + [row])
  {
    var all := rows + [row];
    forall i | 0 <= i < |all| ensures Linked(all, i) && Hashed(digest, all[i]) {
      if i < |rows| {
        assert all[..i] == rows[..i];
        assert Linked(rows, i);
      } else {
        assert all[..i] == rows;
      }
    }
  }

  predicate InStep(digest: string -> string, log: Log) {
    Chained(digest, log.rows) && log.checkpoint == Some(Checkpoint(|log.rows|, Tip(log.rows)))
  }

  lemma RecordStaysInStep(digest: string -> string, log: Log, event: Event)
    requires InStep(digest, log)
    ensures var r := Recorded(digest, log, event);
            r.Ok? && InStep(digest, r.value) && Accepted(digest, r.value) && log.rows <= r.value.rows && |r.value.rows| == |log.rows| + 1
            && Holds(r.value.rows[|log.rows|], event)
  {
    ChainGrows(digest, log.rows, NewRow(digest, event, log.checkpoint.value.head));
  }

  lemma Peel(parts: seq<string>, i: nat)
    requires i + 1 < |parts|
    ensures Join(parts[i..]) == parts[i] + "|" + Join(parts[i + 1..])
  {
    assert parts[i..][1..] == parts[i + 1..];
  }

  lemma AppendText(a: string, b: string, c: string)
    ensures a + (b + c) == a + b + c
  {
  }

  /** What is hashed: the fields in this order, with bars between them. */
  lemma MaterialText(row: Row)
    ensures Material(row) == row.previousHash + ("|" + row.timestamp + ("|" + row.runId + ("|" + row.planId + ("|" + ActionText(row.actionId)
                             + ("|" + row.eventType + ("|" + row.payload))))))
  {
    var p := Parts(row);
    assert p[0..] == p && Join(p[6..]) == p[6];
    forall i | 0 <= i < 6 ensures Join(p[i..]) == p[i] + ("|" + Join(p[i + 1..])) {
      Peel(p, i);
      AppendText(p[i], "|", Join(p[i + 1..]));
    }
    AppendText("|", p[1], "|" + Join(p[2..]));
    AppendText("|", p[2], "|" + Join(p[3..]));
    AppendText("|", p[3], "|" + Join(p[4..]));
    AppendText("|", p[4], "|" + Join(p[5..]));
    AppendText("|", p[5], "|" + Join(p[6..]));
  }

  /** Recording heals nothing: it goes ahead exactly if the checkpoint names the last hash, and gives a log that is accepted
      exactly if the log before was in step, every earlier row and the count included. */
  lemma RecordingHealsNothing(digest: string -> string, log: Log, event: Event)
    ensures var r := Recorded(digest, log, event);
            && (r == Err(MissingCheckpoint) <==> log.checkpoint.None?)
            && (r == Err(ChainMismatch) <==> log.checkpoint.Some? && log.checkpoint.value.head != Tip(log.rows))
            && (r.Ok? ==> (Accepted(digest, r.value) <==> InStep(digest, log)))
            && (r.Ok? ==> log.rows <= r.value.rows && |r.value.rows| == |log.rows| + 1)
  {
    var r := Recorded(digest, log, event);
    if r.Ok? {
      var n := |log.rows|;
      assert r.value.rows[..n] == log.rows;
      if Accepted(digest, r.value) {
        PrefixChained(digest, r.value.rows, n);
      }
      if InStep(digest, log) {
        RecordStaysInStep(digest, log, event);
      }
    }
  }

  function RecordAll(digest: string -> string, log: Log, events: seq<Event>): Result<Log, RecordError>
    decreases |events|
  {
    if events == [] then Ok(log)
    else
      var r := Recorded(digest, log, events[0]);
      if r.Err? then r else RecordAll(digest, r.value, events[1..])
  }

  /** Row `i` of the log holds event `i`. */
  predicate Holds(row: Row, event: Event) {
    Event(row.timestamp, row.runId, row.planId, row.actionId, row.eventType, row.payload) == event
  }

  /** The rows from index `n` on hold the events, one each. */
  predicate HoldAll(rows: seq<Row>, n: nat, events: seq<Event>) {
    |rows| == n + |events| && forall i :: 0 <= i < |events| ==> Holds(rows[n + i], events[i])
  }

  lemma HoldsOneMore(rows: seq<Row>, n: nat, events: seq<Event>)
    requires events != [] && n < |rows| && Holds(rows[n], events[0]) && HoldAll(rows, n + 1, events[1..])
    ensures HoldAll(rows, n, events)
  {
    forall i | 0 <= i < |events| ensures Holds(rows[n + i], events[i]) {
      if i > 0 {
        assert Holds(rows[n + 1 + (i - 1)], events[1..][i - 1]);
      }
    }
  }

  lemma RecordedFirst(before: seq<Row>, next: seq<Row>, all: seq<Row>, events: seq<Event>)
    requires events != [] && before <= next <= all && |next| == |before| + 1 && Holds(next[|before|], events[0]) && HoldAll(all, |next|, events[1..])
    ensures before <= all && HoldAll(all, |before|, events)
  {
    assert all[|before|] == next[|before|];
    HoldsOneMore(all, |before|, events);
  }

  lemma {:induction false} RecordingFrom(digest: string -> string, log: Log, events: seq<Event>)
    requires InStep(digest, log)
    ensures var r := RecordAll(digest, log, events);
            r.Ok? && InStep(digest, r.value) && log.rows <= r.value.rows && HoldAll(r.value.rows, |log.rows|, events)
    decreases |events|
  {
    if events != [] {
      RecordStaysInStep(digest, log, events[0]);
      var next := Recorded(digest, log, events[0]).value;
      RecordingFrom(digest, next, events[1..]);
      RecordedFirst(log.rows, next.rows, RecordAll(digest, next, events[1..]).value.rows, events);
    }
  }

  /** Any run of records from a new database succeeds, keeps every event in order, and is accepted. */
  lemma RecordedLogsAreAccepted(digest: string -> string, events: seq<Event>)
    ensures var r := RecordAll(digest, Log([], Some(Checkpoint(0, GENESIS))), events);
            && r.Ok? && HoldAll(r.value.rows, 0, events)
            && (events != [] ==> Accepted(digest, r.value))
  {
    RecordingFrom(digest, Log([], Some(Checkpoint(0, GENESIS))), events);
  }

  /* ---------- the checkpoint determines the chain ---------- */

  predicate NoBar(text: string) {
    '|' !in text
  }

  /** The fields before the payload are free of the separator. */
  predicate Clean(row: Row) {
    NoBar(row.previousHash) && NoBar(row.timestamp) && NoBar(row.runId) && NoBar(row.planId) && NoBar(ActionText(row.actionId)) && NoBar(row.eventType)
  }

  /** The same row, up to a missing versus an empty action id. */
  predicate SameRow(a: Row, b: Row) {
    ActionText(a.actionId) == ActionText(b.actionId) && a.(actionId := None) == b.(actionId := None)
  }

  lemma SplitAtBar(a: string, x: string, b: string, y: string)
    requires NoBar(a) && NoBar(b) && a + "|" + x == b + "|" + y
    ensures a == b && x == y
  {
    var s := a + "|" + x;
    assert forall k :: 0 <= k < |a| ==> s[k] == a[k];
    assert forall k :: 0 <= k < |b| ==> s[k] == b[k];
    assert s[|a|] == '|' && s[|b|] == '|';
    assert a == s[..|a|] && b == s[..|b|] && x == s[|a| + 1..] && y == s[|b| + 1..];
  }

  /** As many leading parts as are free of bars can be read off the joined text. */
  lemma {:induction false} JoinSplits(a: seq<string>, b: seq<string>, n: nat)
    requires |a| == |b| && n < |a| && Join(a) == Join(b)
    requires forall i :: 0 <= i < n ==> NoBar(a[i]) && NoBar(b[i])
    ensures a[..n] == b[..n] && Join(a[n..]) == Join(b[n..])
    decreases n
  {
    if n == 0 {
      assert a[0..] == a && b[0..] == b;
    } else {
      SplitAtBar(a[0], Join(a[1..]), b[0], Join(b[1..]));
      JoinSplits(a[1..], b[1..], n - 1);
      assert a[..n] == [a[0]] + a[1..][..n - 1] && b[..n] == [b[0]] + b[1..][..n - 1];
      assert a[1..][n - 1..] == a[n..] && b[1..][n - 1..] == b[n..];
    }
  }

  lemma SameParts(a: Row, b: Row)
    requires Parts(a) == Parts(b)
    ensures SameRow(a.(eventHash := b.eventHash), b)
  {
    var p, q := Parts(a), Parts(b);
    assert p[0] == q[0] && p[1] == q[1] && p[2] == q[2] && p[3] == q[3] && p[4] == q[4] && p[5] == q[5] && p[6] == q[6];
  }

  lemma MaterialIsUnambiguous(a: Row, b: Row)
    requires Clean(a) && Clean(b) && Material(a) == Material(b)
    ensures SameRow(a.(eventHash := b.eventHash), b)
  {
    var p, q := Parts(a), Parts(b);
    JoinSplits(p, q, 6);
    assert p == p[..6] + [p[6]] && q == q[..6] + [q[6]] && p[6..] == [p[6]] && q[6..] == [q[6]];
    SameParts(a, b);
  }

  /** Two events with different material and one hash. */
  predicate Collision(digest: string -> string, a: Row, b: Row) {
    Material(a) != Material(b) && digest(Material(a)) == digest(Material(b))
  }

  /** Rows at one index with one material are the same row. */
  predicate Decided(a: Row, b: Row) {
    Material(a) == Material(b) ==> SameRow(a.(eventHash := b.eventHash), b)
  }

  predicate Comparable(digest: string -> string, a: seq<Row>, b: seq<Row>) {
    |a| == |b| && forall i :: 0 <= i < |a| ==> Decided(a[i], b[i]) && !Collision(digest, a[i], b[i])
  }

  predicate SameRows(a: seq<Row>, b: seq<Row>) {
    |a| == |b| && forall i :: 0 <= i < |a| ==> SameRow(a[i], b[i])
  }

  lemma {:induction false} SameTipSameChain(digest: string -> string, a: seq<Row>, b: seq<Row>)
    requires Chained(digest, a) && Chained(digest, b) && Comparable(digest, a, b) && Tip(a) == Tip(b)
    ensures SameRows(a, b)
    decreases |a|
  {
    if a != [] {
      var n := |a| - 1;
      LastRowsAgree(digest, a, b);
      PrefixChained(digest, a, n);
      PrefixChained(digest, b, n);
      PrefixComparable(digest, a, b, n);
      SameTipSameChain(digest, a[..n], b[..n]);
      SameRowsAndLast(a, b);
    }
  }

  lemma PrefixComparable(digest: string -> string, a: seq<Row>, b: seq<Row>, n: nat)
    requires Comparable(digest, a, b) && n <= |a|
    ensures Comparable(digest, a[..n], b[..n])
  {
  }

  lemma SameRowsAndLast(a: seq<Row>, b: seq<Row>)
    requires |a| == |b| && a != [] && SameRows(a[..|a| - 1], b[..|b| - 1]) && SameRow(a[|a| - 1], b[|b| - 1])
    ensures SameRows(a, b)
  {
    forall i | 0 <= i < |a| ensures SameRow(a[i], b[i]) {
      assert i < |a| - 1 ==> SameRow(a[..|a| - 1][i], b[..|b| - 1][i]);
    }
  }

  lemma LastRowsAgree(digest: string -> string, a: seq<Row>, b: seq<Row>)
    requires Chained(digest, a) && Chained(digest, b) && Comparable(digest, a, b) && a != [] && Tip(a) == Tip(b)
    ensures SameRow(a[|a| - 1], b[|b| - 1]) && Tip(a[..|a| - 1]) == Tip(b[..|b| - 1])
  {
    var n := |a| - 1;
    assert Linked(a, n) && Linked(b, n) && Hashed(digest, a[n]) && Hashed(digest, b[n]);
    assert Decided(a[n], b[n]) && !Collision(digest, a[n], b[n]);
  }

  lemma PrefixChained(digest: string -> string, rows: seq<Row>, n: nat)
    requires Chained(digest, rows) && n <= |rows|
    ensures Chained(digest, rows[..n])
  {
    forall i | 0 <= i < n ensures Linked(rows[..n], i) && Hashed(digest, rows[..n][i]) {
      assert rows[..n][..i] == rows[..i];
      assert Linked(rows, i);
    }
  }

  /** Tampering needs a collision: two accepted logs with one checkpoint hold the same events, or at
      some index their events have different material and one hash. */
  lemma CheckpointDeterminesChain(digest: string -> string, a: Log, b: Log)
    requires Accepted(digest, a) && Accepted(digest, b) && a.checkpoint == b.checkpoint
    requires forall i :: 0 <= i < |a.rows| ==> Clean(a.rows[i])
    requires forall i :: 0 <= i < |b.rows| ==> Clean(b.rows[i])
    ensures |a.rows| == |b.rows|
    ensures || SameRows(a.rows, b.rows)
            || (exists i :: 0 <= i < |a.rows| && Collision(digest, a.rows[i], b.rows[i]))
  {
    if forall i :: 0 <= i < |a.rows| ==> !Collision(digest, a.rows[i], b.rows[i]) {
      forall i | 0 <= i < |a.rows| ensures Decided(a.rows[i], b.rows[i]) {
        if Material(a.rows[i]) == Material(b.rows[i]) {
          MaterialIsUnambiguous(a.rows[i], b.rows[i]);
        }
      }
      SameTipSameChain(digest, a.rows, b.rows);
    }
  }
}
