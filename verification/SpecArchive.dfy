/** Archiving a change: its deltas are applied to the current requirements, the change moves to the
    archive, and the whole tree is validated again or put back. */
module SpecArchive {
  import opened Prelude
  import opened Specifications

  const MAX_DELTAS := 128

  /* ---------- the validator's rules ---------- */

  function At(current: map<string, Document>, path: string): Option<Document> {
    if path in current then Some(current[path]) else None
  }

  /** `PurePosixPath(path).name`. */
  function FileName(path: string): string {
    if '/' !in path then path else FileName(path[1..])
  }

  predicate Absent(current: map<string, Document>, requirement: string) {
    forall path | path in current :: current[path].requirement != Some(requirement)
  }

  predicate UniqueRequirements(current: map<string, Document>) {
    forall p, q | p in current && q in current :: current[p].requirement == current[q].requirement ==> p == q
  }

  predicate CurrentOk(current: map<string, Document>) {
    && (forall p | p in current :: current[p].requirement.Some? && FileName(p) == current[p].requirement.value + ".md")
    && UniqueRequirements(current)
  }

  function Content(c: Change, d: Delta): Option<Document> {
    if d.source.Some? && d.source.value in c.files then Some(c.files[d.source.value]) else None
  }

  /** What the delta leaves at its destination. */
  function Final(c: Change, d: Delta): Option<Document> {
    if d.operation == Remove then None else Content(c, d)
  }

  predicate DeltaOk(c: Change, d: Delta) {
    && FileName(d.destination) == d.requirement + ".md"
    && (d.source.None? <==> d.operation == Remove)
    && (d.operation != Remove ==> Content(c, d).Some? && Content(c, d).value.requirement == Some(d.requirement))
  }

  predicate DistinctDeltas(deltas: seq<Delta>) {
    forall i, j | 0 <= i < j < |deltas| :: deltas[i].requirement != deltas[j].requirement && deltas[i].destination != deltas[j].destination
  }

  predicate ChangeOk(id: string, c: Change) {
    && c.meta.id == id && c.meta.issue >= 1 && 1 <= |c.meta.deltas| <= MAX_DELTAS && DistinctDeltas(c.meta.deltas)
    && (forall d | d in c.meta.deltas :: DeltaOk(c, d))
    && c.total > 0 && (c.meta.stage in {Verifying, Archived} ==> c.complete == c.total)
  }

  /** An active delta still fits the current requirements. */
  predicate Fits(current: map<string, Document>, d: Delta) {
    if d.operation == Add then Absent(current, d.requirement) && d.destination !in current
    else d.destination in current && current[d.destination].requirement == Some(d.requirement)
  }

  predicate AllFit(current: map<string, Document>, c: Change) {
    forall d | d in c.meta.deltas :: Fits(current, d)
  }

  predicate ActiveOk(t: Tree) {
    forall id | id in t.changes :: ChangeOk(id, t.changes[id]) && !t.changes[id].meta.stage.Terminal() && AllFit(t.current, t.changes[id])
  }

  predicate ArchiveOk(t: Tree) {
    forall id | id in t.archive :: ChangeOk(id, t.archive[id]) && t.archive[id].meta.stage.Terminal()
  }

  predicate Apart(a: Change, b: Change) {
    forall d, e | d in a.meta.deltas && e in b.meta.deltas :: d.requirement != e.requirement && d.destination != e.destination
  }

  predicate ActiveApart(changes: map<string, Change>) {
    forall a, b | a in changes && b in changes && a != b :: Apart(changes[a], changes[b])
  }

  predicate IssuesDiffer(some: map<string, Change>, others: map<string, Change>) {
    forall a, b | a in some && b in others && a != b :: some[a].meta.issue != others[b].meta.issue
  }

  predicate IdsAndIssuesOk(t: Tree) {
    && (forall id | id in t.changes :: id !in t.archive)
    && IssuesDiffer(t.changes, t.changes) && IssuesDiffer(t.changes, t.archive) && IssuesDiffer(t.archive, t.archive)
  }

  predicate Touches(c: Change, requirement: string) {
    c.meta.stage == Archived && exists d | d in c.meta.deltas :: d.requirement == requirement
  }

  /** No archived change with a larger issue touches the requirement. */
  predicate Latest(archive: map<string, Change>, issue: nat, requirement: string) {
    forall o | o in archive && Touches(archive[o], requirement) :: archive[o].meta.issue <= issue
  }

  /** The current requirements are as the archived delta left them. */
  predicate Matches(current: map<string, Document>, c: Change, d: Delta) {
    if d.operation == Remove then Absent(current, d.requirement) && d.destination !in current
    else d.destination in current && current[d.destination].requirement == Some(d.requirement) && Content(c, d) == Some(current[d.destination])
  }

  predicate LatestMatches(t: Tree, id: string, d: Delta)
    requires id in t.archive
  {
    t.archive[id].meta.stage == Archived && Latest(t.archive, t.archive[id].meta.issue, d.requirement)
    ==> Matches(t.current, t.archive[id], d)
  }

  predicate HistoryAgrees(t: Tree) {
    forall id | id in t.archive :: forall d | d in t.archive[id].meta.deltas :: LatestMatches(t, id, d)
  }

  predicate Rules(t: Tree) {
    CurrentOk(t.current) && ActiveOk(t) && ArchiveOk(t) && IdsAndIssuesOk(t) && ActiveApart(t.changes) && HistoryAgrees(t)
  }

  /* ---------- what archiving does ---------- */

  function Put(current: map<string, Document>, path: string, document: Option<Document>): map<string, Document> {
    if document.None? then current - {path} else current[path := document.value]
  }

  /** All deltas applied, first to last. */
  function Applied(current: map<string, Document>, c: Change, deltas: seq<Delta>): map<string, Document>
    decreases |deltas|
  {
    if deltas == [] then current
    else
      var last := deltas[|deltas| - 1];
      Put(Applied(current, c, deltas[..|deltas| - 1]), last.destination, Final(c, last))
  }

  function ArchivedChange(c: Change, today: string): Change {
    c.(meta := c.meta.(stage := Archived, updated := today))
  }

  function ArchivedTree(t: Tree, id: string, today: string): Tree
    requires id in t.changes
  {
    var c := t.changes[id];
    Tree(Applied(t.current, c, c.meta.deltas), t.changes - {id}, t.archive[id := ArchivedChange(c, today)])
  }

  /** The operations that may fail, by position in the list of deltas where there are several.
      `CopyAside` copies the change before anything is touched, `Cleanup` deletes the copies. */
  datatype Op = CopyAside | Backup(i: nat) | Write(i: nat) | MoveActive | Install | Cleanup

  datatype Reply = Refused | RolledBack | CleanupFailed | Done

  /** `validate_repository`; `rest` stands for its checks of texts, references and limits. */
  predicate Passes(t: Tree, rest: Tree -> bool) {
    Rules(t) && rest(t)
  }

  /** Saving or writing destination number `i` fails. */
  predicate Fails(current: map<string, Document>, d: Delta, i: nat, faults: set<Op>) {
    Write(i) in faults || (d.destination in current && Backup(i) in faults)
  }

  predicate Undisturbed(current: map<string, Document>, deltas: seq<Delta>, faults: set<Op>) {
    forall i: nat | 0 <= i < |deltas| :: !Fails(current, deltas[i], i, faults)
  }

  predicate Smooth(current: map<string, Document>, c: Change, faults: set<Op>) {
    Undisturbed(current, c.meta.deltas, faults) && MoveActive !in faults && Install !in faults
  }

  /** Nothing is refused before the first change to a file. */
  predicate Starts(t: Tree, id: string, rest: Tree -> bool, faults: set<Op>) {
    Passes(t, rest) && id in t.changes && t.changes[id].meta.stage == Verifying && CopyAside !in faults
  }

  predicate Commits(t: Tree, id: string, today: string, rest: Tree -> bool, faults: set<Op>) {
    && Starts(t, id, rest, faults) && Smooth(t.current, t.changes[id], faults)
    && Passes(ArchivedTree(t, id, today), rest)
  }

  lemma {:induction false} AppliedElsewhere(current: map<string, Document>, c: Change, deltas: seq<Delta>, path: string)
    requires forall d :: d in deltas ==> d.destination != path
    ensures At(Applied(current, c, deltas), path) == At(current, path)
    decreases |deltas|
  {
    if deltas != [] {
      AppliedElsewhere(current, c, deltas[..|deltas| - 1], path);
    }
  }

  /** After all deltas every destination holds what its own delta says. */
  lemma {:induction false} AppliedAt(current: map<string, Document>, c: Change, deltas: seq<Delta>, i: nat)
    requires DistinctDeltas(deltas) && i < |deltas|
    ensures At(Applied(current, c, deltas), deltas[i].destination) == Final(c, deltas[i])
    decreases |deltas|
  {
    if i < |deltas| - 1 {
      AppliedAt(current, c, deltas[..|deltas| - 1], i);
    }
  }

  lemma SameAt(a: map<string, Document>, b: map<string, Document>)
    requires forall path :: At(a, path) == At(b, path)
    ensures a == b
  {
    forall path ensures path in a <==> path in b {
      assert At(a, path) == At(b, path);
    }
    forall path | path in a ensures a[path] == b[path] {
      assert At(a, path) == At(b, path);
    }
  }

  /** Every backup is what its destination held before. */
  predicate Saved(backups: seq<(string, Option<Document>)>, before: map<string, Document>) {
    forall k | 0 <= k < |backups| :: backups[k].1 == At(before, backups[k].0)
  }

  /** Nothing changed outside the backed-up destinations. */
  ghost predicate OnlyThere(backups: seq<(string, Option<Document>)>, current: map<string, Document>, before: map<string, Document>) {
    forall path :: (forall k :: 0 <= k < |backups| ==> backups[k].0 != path) ==> At(current, path) == At(before, path)
  }

  predicate Covers(backups: seq<(string, Option<Document>)>, deltas: seq<Delta>) {
    |backups| >= |deltas| && forall k | 0 <= k < |deltas| :: backups[k].0 == deltas[k].destination
  }

  lemma CoveredChanges(backups: seq<(string, Option<Document>)>, before: map<string, Document>, c: Change, deltas: seq<Delta>)
    requires Covers(backups, deltas)
    ensures OnlyThere(backups, Applied(before, c, deltas), before)
  {
    forall path | forall k :: 0 <= k < |backups| ==> backups[k].0 != path
      ensures At(Applied(before, c, deltas), path) == At(before, path)
    {
      forall d | d in deltas ensures d.destination != path {
        var k :| 0 <= k < |deltas| && deltas[k] == d;
        assert backups[k].0 != path;
      }
      AppliedElsewhere(before, c, deltas, path);
    }
  }

  lemma OneBackupMore(backups: seq<(string, Option<Document>)>, path: string, backup: Option<Document>, current: map<string, Document>, before: map<string, Document>)
    requires Saved(backups, before) && OnlyThere(backups, current, before) && backup == At(before, path)
    ensures Saved(backups + [(path, backup)], before) && OnlyThere(backups + [(path, backup)], current, before)
  {
    var more := backups + [(path, backup)];
    forall other | forall k :: 0 <= k < |more| ==> more[k].0 != other ensures At(current, other) == At(before, other) {
      assert forall k :: 0 <= k < |backups| ==> backups[k] == more[k];
    }
  }

  /** What a passed preflight says about one active change. */
  lemma ReadyChange(t: Tree, id: string, rest: Tree -> bool)
    requires Passes(t, rest)
    ensures id in t.changes ==> id !in t.archive && AllFit(t.current, t.changes[id])
    ensures id in t.changes ==> ChangeOk(id, t.changes[id])
  {
  }

  /** Restoring the last backup leaves the others to restore. */
  lemma Restored(backups: seq<(string, Option<Document>)>, later: map<string, Document>, now: map<string, Document>, before: map<string, Document>)
    requires |backups| > 0 && OnlyThere(backups, later, before)
    requires var (path, backup) := backups[|backups| - 1]; backup == At(before, path) && now == Put(later, path, backup)
    ensures OnlyThere(backups[..|backups| - 1], now, before)
  {
    var n := |backups| - 1;
    forall path | forall k :: 0 <= k < n ==> backups[..n][k].0 != path ensures At(now, path) == At(before, path) {
      if path != backups[n].0 {
        assert forall k :: 0 <= k < n ==> backups[..n][k].0 == backups[k].0;
        assert At(later, path) == At(before, path);
      }
    }
  }

  class SpecTree {
    var current: map<string, Document>
    var changes: map<string, Change>
    var archive: map<string, Change>

    function Contents(): Tree
      reads this
    {
      Tree(current, changes, archive)
    }

    /** Looks at every delta before anything is changed; a valid tree gives it nothing to refuse. */
    method StageDeltas(c: Change) returns (ok: bool, staged: seq<Option<Document>>)
      requires AllFit(current, c) && (forall d | d in c.meta.deltas :: DeltaOk(c, d))
      ensures ok && |staged| == |c.meta.deltas|
      ensures forall k | 0 <= k < |staged| :: staged[k] == Final(c, c.meta.deltas[k])
    {
      staged := [];
      for i := 0 to |c.meta.deltas|
        invariant |staged| == i
        invariant forall k | 0 <= k < i :: staged[k] == Final(c, c.meta.deltas[k])
      {
        var delta := c.meta.deltas[i];
        assert Fits(current, delta) && DeltaOk(c, delta);
        if delta.operation != Add && delta.destination !in current { return false, staged; }
        if delta.operation == Add && delta.destination in current { return false, staged; }
        if delta.operation != Add && current[delta.destination].requirement != Some(delta.requirement) { return false, staged; }
        var content := None;
        if delta.operation != Remove {
          if delta.source.None? || delta.source.value !in c.files { return false, staged; }
          content := Some(c.files[delta.source.value]);
          if content.value.requirement != Some(delta.requirement) { return false, staged; }
        }
        staged := staged + [content];
      }
      return true, staged;
    }

    /** Writes one staged content. */
    method ApplyDelta(c: Change, i: nat, content: Option<Document>, faults: set<Op>) returns (failed: bool, backup: Option<Option<Document>>)
      requires i < |c.meta.deltas| && content == Final(c, c.meta.deltas[i])
      modifies `current
      ensures failed <==> old(Fails(current, c.meta.deltas[i], i, faults))
      ensures backup.Some? ==> backup.value == old(At(current, c.meta.deltas[i].destination))
      ensures backup.None? ==> failed
      ensures current == old(if failed then current else Put(current, c.meta.deltas[i].destination, content))
    {
      var destination := c.meta.deltas[i].destination;
      backup := Some(None);
      if destination in current {
        if Backup(i) in faults { return true, None; }
        backup := Some(Some(current[destination]));
      }
      if Write(i) in faults { return true, backup; }
      current := if c.meta.deltas[i].operation == Remove then current - {destination} else Put(current, destination, content);
      return false, backup;
    }

    /** Writes the staged contents in order, remembering what each destination held before. */
    method ApplyDeltas(c: Change, staged: seq<Option<Document>>, faults: set<Op>)
      returns (failed: bool, backups: seq<(string, Option<Document>)>)
      requires DistinctDeltas(c.meta.deltas) && |staged| == |c.meta.deltas|
      requires forall k | 0 <= k < |staged| :: staged[k] == Final(c, c.meta.deltas[k])
      modifies `current
      ensures Saved(backups, old(current)) && OnlyThere(backups, current, old(current))
      ensures failed <==> !Undisturbed(old(current), c.meta.deltas, faults)
      ensures !failed ==> current == old(Applied(current, c, c.meta.deltas))
    {
      ghost var before := current;
      var deltas := c.meta.deltas;
      backups := [];
      for i := 0 to |deltas|
        invariant |backups| == i && Covers(backups, deltas[..i]) && Saved(backups, before)
        invariant current == Applied(before, c, deltas[..i])
        invariant Undisturbed(before, deltas[..i], faults)
      {
        AppliedElsewhere(before, c, deltas[..i], deltas[i].destination);
        CoveredChanges(backups, before, c, deltas[..i]);
        assert At(current, deltas[i].destination) == At(before, deltas[i].destination);
        var stop, backup := ApplyDelta(c, i, staged[i], faults);
        if backup.Some? {
          OneBackupMore(backups, deltas[i].destination, backup.value, Applied(before, c, deltas[..i]), before);
          backups := backups + [(deltas[i].destination, backup.value)];
        }
        if stop { return true, backups; }
        assert deltas[..i + 1][..i] == deltas[..i];
      }
      assert deltas[..|deltas|] == deltas;
      CoveredChanges(backups, before, c, deltas);
      return false, backups;
    }

    /** Moves the change into the archive and validates the result. */
    method MoveChange(id: string, change: Change, today: string, rest: Tree -> bool, faults: set<Op>)
      returns (failed: bool, moved: bool, installed: bool)
      requires id in changes && changes[id] == change && id !in archive
      modifies `changes, `archive
      ensures changes == old(if moved then changes - {id} else changes)
      ensures archive == old(if installed then archive[id := ArchivedChange(change, today)] else archive)
      ensures installed ==> moved
      ensures !failed <==> installed && Passes(Contents(), rest)
      ensures installed <==> MoveActive !in faults && Install !in faults
    {
      if MoveActive in faults { return true, false, false; }
      changes := changes - {id};
      if Install in faults { return true, true, false; }
      archive := archive[id := ArchivedChange(change, today)];
      return !Passes(Contents(), rest), true, true;
    }

    /** Puts back what was remembered, last write first. */
    method Restore(backups: seq<(string, Option<Document>)>, ghost before: map<string, Document>)
      requires Saved(backups, before) && OnlyThere(backups, current, before)
      modifies `current
      ensures current == before
    {
      var j := |backups|;
      while j > 0
        invariant 0 <= j <= |backups|
        invariant OnlyThere(backups[..j], current, before)
      {
        j := j - 1;
        var (path, backup) := backups[j];
        ghost var later := current;
        if backup.None? {
          if path in current { current := current - {path}; }
        } else {
          current := current[path := backup.value];
        }
        Restored(backups[..j + 1], later, current, before);
        assert backups[..j + 1][..j] == backups[..j];
      }
      SameAt(current, before);
    }

    /** Removes the installed copy, brings the change back and restores the documents. */
    method Undo(id: string, change: Change, moved: bool, installed: bool, backups: seq<(string, Option<Document>)>, ghost before: Tree)
      requires id in before.changes && before.changes[id] == change && id !in before.archive
      requires changes == if moved then before.changes - {id} else before.changes
      requires archive.Keys == before.archive.Keys + if installed then {id} else {}
      requires forall k | k in before.archive :: archive[k] == before.archive[k]
      requires Saved(backups, before.current) && OnlyThere(backups, current, before.current)
      modifies this
      ensures Contents() == before
    {
      if installed && id in archive { archive := archive - {id}; }
      if moved && id !in changes { changes := changes[id := change]; }
      Restore(backups, before.current);
    }

    /** The part that changes files: applies, moves and validates, or puts everything back. */
    method Transact(id: string, change: Change, staged: seq<Option<Document>>, today: string, rest: Tree -> bool, faults: set<Op>)
      returns (ok: bool)
      requires id in changes && changes[id] == change && id !in archive
      requires DistinctDeltas(change.meta.deltas) && |staged| == |change.meta.deltas|
      requires forall k | 0 <= k < |staged| :: staged[k] == Final(change, change.meta.deltas[k])
      modifies this
      ensures ok <==> old(Smooth(current, change, faults) && Passes(ArchivedTree(Contents(), id, today), rest))
      ensures Contents() == old(if ok then ArchivedTree(Contents(), id, today) else Contents())
    {
      ghost var before := Contents();
      var failed, backups := ApplyDeltas(change, staged, faults);
      var moved, installed := false, false;
      if !failed {
        failed, moved, installed := MoveChange(id, change, today, rest, faults);
      }
      if failed {
        Undo(id, change, moved, installed, backups, before);
      }
      return !failed;
    }

    /** All or nothing: either the whole archived tree is in place, or every file is as it was. */
    method ArchiveChange(id: string, today: string, rest: Tree -> bool, faults: set<Op>) returns (reply: Reply)
      modifies this
      ensures reply in {Done, CleanupFailed} <==> old(Commits(Contents(), id, today, rest, faults))
      ensures reply in {Done, CleanupFailed} ==> Contents() == old(ArchivedTree(Contents(), id, today))
      ensures reply !in {Done, CleanupFailed} ==> Contents() == old(Contents())
      ensures reply == CleanupFailed <==> old(Commits(Contents(), id, today, rest, faults)) && Cleanup in faults
      ensures reply == Refused <==> !old(Starts(Contents(), id, rest, faults))
    {
      if !Passes(Contents(), rest) { return Refused; }
      if id !in changes || id in archive {
        ReadyChange(Contents(), id, rest);
        return Refused;
      }
      var change := changes[id];
      ReadyChange(Contents(), id, rest);
      if change.meta.stage != Verifying || change.total == 0 || change.complete != change.total { return Refused; }
      var staging, staged := StageDeltas(change);
      if !staging || CopyAside in faults { return Refused; }
      var ok := Transact(id, change, staged, today, rest, faults);
      return if !ok then RolledBack else if Cleanup in faults then CleanupFailed else Done;
    }
  }
}
