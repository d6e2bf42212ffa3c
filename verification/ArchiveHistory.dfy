/** Why the current requirements agree with the ordered history of archived changes. */
module ArchiveHistory {
  import opened Prelude
  import opened Specifications
  import opened SpecArchive
  import ChangeToml

  /* ---------- one archival ---------- */

  /** `after` is `before` with the deltas of `c` applied. */
  ghost predicate IsApplied(before: map<string, Document>, after: map<string, Document>, c: Change) {
    && (forall d :: d in c.meta.deltas ==> At(after, d.destination) == Final(c, d))
    && (forall path :: (forall d :: d in c.meta.deltas ==> d.destination != path) ==> At(after, path) == At(before, path))
  }

  /** Every destination holds what its delta says and no other file changed: the order of the deltas does not matter. */
  lemma AppliedIsPointwise(current: map<string, Document>, c: Change)
    requires DistinctDeltas(c.meta.deltas)
    ensures IsApplied(current, Applied(current, c, c.meta.deltas), c)
  {
    forall d | d in c.meta.deltas ensures At(Applied(current, c, c.meta.deltas), d.destination) == Final(c, d) {
      var i :| 0 <= i < |c.meta.deltas| && c.meta.deltas[i] == d;
      AppliedAt(current, c, c.meta.deltas, i);
    }
    forall path | forall d :: d in c.meta.deltas ==> d.destination != path
      ensures At(Applied(current, c, c.meta.deltas), path) == At(current, path)
    {
      AppliedElsewhere(current, c, c.meta.deltas, path);
    }
  }

  /** A change whose deltas are well formed and fit, and the documents before and after it. */
  ghost predicate Archival(before: map<string, Document>, after: map<string, Document>, c: Change) {
    && IsApplied(before, after, c) && CurrentOk(before) && DistinctDeltas(c.meta.deltas) && AllFit(before, c)
    && (forall d :: d in c.meta.deltas ==> DeltaOk(c, d))
  }

  ghost predicate Changed(c: Change, requirement: string) {
    exists d :: d in c.meta.deltas && d.requirement == requirement
  }

  /** Two deltas of well-formed changes name one file only if they name one requirement. */
  lemma NamesDecide(a: string, b: string)
    requires a + ".md" == b + ".md"
    ensures a == b
  {
    assert a == (a + ".md")[..|a|] && b == (b + ".md")[..|b|];
  }

  /** A document present afterwards was written by the change, or was there and is not concerned. */
  lemma Origin(before: map<string, Document>, after: map<string, Document>, c: Change, path: string)
    requires Archival(before, after, c) && path in after
    ensures (exists d :: d in c.meta.deltas && d.destination == path && Some(after[path]) == Final(c, d) && after[path].requirement == Some(d.requirement))
            || (path in before && after[path] == before[path] && after[path].requirement.Some? && !Changed(c, after[path].requirement.value))
  {
    if d :| d in c.meta.deltas && d.destination == path {
      assert At(after, d.destination) == Final(c, d) && DeltaOk(c, d);
    } else {
      assert At(after, path) == At(before, path);
      forall d | d in c.meta.deltas ensures before[path].requirement != Some(d.requirement) {
        assert Fits(before, d);
      }
    }
  }

  lemma CurrentStaysOk(before: map<string, Document>, after: map<string, Document>, c: Change)
    requires Archival(before, after, c)
    ensures CurrentOk(after)
  {
    forall p | p in after ensures after[p].requirement.Some? && FileName(p) == after[p].requirement.value + ".md" {
      Origin(before, after, c, p);
      if d :| d in c.meta.deltas && d.destination == p && after[p].requirement == Some(d.requirement) {
        assert DeltaOk(c, d);
      }
    }
    forall p, q | p in after && q in after && after[p].requirement == after[q].requirement ensures p == q {
      Origin(before, after, c, p);
      Origin(before, after, c, q);
    }
  }

  /** For requirements the change does not name, nothing is different. */
  lemma Unconcerned(before: map<string, Document>, after: map<string, Document>, c: Change, requirement: string, path: string)
    requires Archival(before, after, c) && !Changed(c, requirement) && FileName(path) == requirement + ".md"
    ensures At(after, path) == At(before, path)
    ensures Absent(after, requirement) <==> Absent(before, requirement)
  {
    forall d | d in c.meta.deltas ensures d.destination != path {
      assert DeltaOk(c, d);
      if d.destination == path {
        NamesDecide(d.requirement, requirement);
      }
    }
    forall p | p in before && before[p].requirement == Some(requirement) ensures p in after && after[p] == before[p] {
      forall d | d in c.meta.deltas ensures d.destination != p {
        assert DeltaOk(c, d) && FileName(p) == requirement + ".md";
        if d.destination == p {
          NamesDecide(d.requirement, requirement);
        }
      }
      assert At(after, p) == At(before, p);
    }
    forall p | p in after && after[p].requirement == Some(requirement) ensures p in before && after[p] == before[p] {
      Origin(before, after, c, p);
    }
  }

  /** The requirement of an applied delta is where the delta put it, or gone. */
  lemma Concerned(before: map<string, Document>, after: map<string, Document>, c: Change, d: Delta)
    requires Archival(before, after, c) && d in c.meta.deltas
    ensures Matches(after, c, d)
  {
    assert At(after, d.destination) == Final(c, d) && DeltaOk(c, d) && Fits(before, d);
    if d.operation == Remove {
      forall p | p in after ensures after[p].requirement != Some(d.requirement) {
        Origin(before, after, c, p);
        if e :| e in c.meta.deltas && e.destination == p && after[p].requirement == Some(e.requirement) {
          assert e == d || e.requirement != d.requirement;
        }
      }
    }
  }

  /** The delta writes what is already there. */
  predicate Unchanged(current: map<string, Document>, c: Change, d: Delta) {
    d.operation == Modify && Content(c, d) == At(current, d.destination)
  }

  /** An older archived delta that described the requirement still does exactly if nothing changed. */
  lemma OlderDelta(before: map<string, Document>, after: map<string, Document>, c: Change, d: Delta, o: Change, e: Delta)
    requires Archival(before, after, c) && d in c.meta.deltas
    requires DeltaOk(o, e) && e.requirement == d.requirement && Matches(before, o, e)
    ensures Matches(after, o, e) <==> Unchanged(before, c, d)
  {
    Concerned(before, after, c, d);
    CurrentStaysOk(before, after, c);
    assert Fits(before, d) && DeltaOk(c, d);
    if e.operation == Remove {
      assert d.operation == Add && d.destination in after;
    } else {
      assert d.operation != Add;
      assert before[e.destination].requirement == before[d.destination].requirement;
    }
  }

  /* ---------- the whole tree ---------- */

  /** Every archived change touching the requirement has a smaller issue. */
  predicate Newest(archive: map<string, Change>, issue: nat, requirement: string) {
    forall o | o in archive && Touches(archive[o], requirement) :: archive[o].meta.issue < issue
  }

  /** What a caller can check before archiving. */
  predicate InOrder(t: Tree, c: Change) {
    forall d | d in c.meta.deltas :: Newest(t.archive, c.meta.issue, d.requirement) || Unchanged(t.current, c, d)
  }

  lemma ArchivalOf(t: Tree, id: string, today: string)
    requires Rules(t) && id in t.changes
    ensures Archival(t.current, ArchivedTree(t, id, today).current, t.changes[id])
    ensures ChangeOk(id, t.changes[id]) && id !in t.archive
  {
    assert ChangeOk(id, t.changes[id]) && AllFit(t.current, t.changes[id]);
    AppliedIsPointwise(t.current, t.changes[id]);
  }

  lemma OthersStillFit(t: Tree, id: string, today: string)
    requires Rules(t) && id in t.changes
    ensures ActiveOk(ArchivedTree(t, id, today)) && CurrentOk(ArchivedTree(t, id, today).current)
  {
    var t' := ArchivedTree(t, id, today);
    var c := t.changes[id];
    ArchivalOf(t, id, today);
    CurrentStaysOk(t.current, t'.current, c);
    forall other | other in t'.changes ensures AllFit(t'.current, t'.changes[other]) {
      assert Apart(t.changes[id], t.changes[other]) && AllFit(t.current, t.changes[other]) && ChangeOk(other, t.changes[other]);
      forall d | d in t.changes[other].meta.deltas ensures Fits(t'.current, d) {
        assert Fits(t.current, d) && DeltaOk(t.changes[other], d);
        Unconcerned(t.current, t'.current, c, d.requirement, d.destination);
      }
    }
  }

  lemma ArchiveStaysOk(t: Tree, id: string, today: string)
    requires Rules(t) && id in t.changes && t.changes[id].meta.stage == Verifying
    ensures ArchiveOk(ArchivedTree(t, id, today))
  {
    var archived := ArchivedTree(t, id, today).archive[id];
    ArchivalOf(t, id, today);
    forall d | d in archived.meta.deltas ensures DeltaOk(archived, d) {
      assert DeltaOk(t.changes[id], d);
    }
  }

  lemma ChangesStayApart(t: Tree, id: string, today: string)
    requires Rules(t) && id in t.changes
    ensures var t' := ArchivedTree(t, id, today); IdsAndIssuesOk(t') && ActiveApart(t'.changes)
  {
    assert ChangeOk(id, t.changes[id]);
  }

  /** A requirement touched by some archived change has a latest one, with at least that issue. */
  lemma LatestExists(archive: map<string, Change>, start: string, requirement: string) returns (last: string)
    requires start in archive && Touches(archive[start], requirement)
    ensures last in archive && Touches(archive[last], requirement)
    ensures archive[last].meta.issue >= archive[start].meta.issue && Latest(archive, archive[last].meta.issue, requirement)
    decreases |set o | o in archive && archive[o].meta.issue > archive[start].meta.issue|
  {
    if Latest(archive, archive[start].meta.issue, requirement) {
      return start;
    }
    var next :| next in archive && Touches(archive[next], requirement) && archive[next].meta.issue > archive[start].meta.issue;
    var above := set o | o in archive && archive[o].meta.issue > archive[start].meta.issue;
    var higher := set o | o in archive && archive[o].meta.issue > archive[next].meta.issue;
    assert next in above && next !in higher && higher <= above - {next};
    SubsetSize(higher, above - {next});
    last := LatestExists(archive, next, requirement);
  }

  /** The archived deltas of another change, seen in the new tree. */
  lemma OlderChange(t: Tree, id: string, today: string, other: string, e: Delta)
    requires Rules(t) && id in t.changes && InOrder(t, t.changes[id])
    requires other in t.archive && e in t.archive[other].meta.deltas
    ensures LatestMatches(ArchivedTree(t, id, today), other, e)
  {
    var t' := ArchivedTree(t, id, today);
    var c := t.changes[id];
    var o := t.archive[other];
    ArchivalOf(t, id, today);
    if o.meta.stage == Archived && Latest(t'.archive, o.meta.issue, e.requirement) {
      assert ChangeOk(other, o) && DeltaOk(o, e) && LatestMatches(t, other, e);
      assert forall k :: k in t.archive ==> k in t'.archive && t'.archive[k] == t.archive[k];
      assert Latest(t.archive, o.meta.issue, e.requirement);
      if d :| d in c.meta.deltas && d.requirement == e.requirement {
        assert Touches(t'.archive[id], e.requirement) && Touches(o, e.requirement);
        OlderDelta(t.current, t'.current, c, d, o, e);
      } else {
        Unconcerned(t.current, t'.current, c, e.requirement, e.destination);
      }
    }
  }

  lemma InOrderKeepsHistory(t: Tree, id: string, today: string)
    requires Rules(t) && id in t.changes && InOrder(t, t.changes[id])
    ensures HistoryAgrees(ArchivedTree(t, id, today))
  {
    var t' := ArchivedTree(t, id, today);
    ArchivalOf(t, id, today);
    forall other, e | other in t'.archive && e in t'.archive[other].meta.deltas ensures LatestMatches(t', other, e) {
      if other == id {
        Concerned(t.current, t'.current, t.changes[id], e);
      } else {
        OlderChange(t, id, today, other, e);
      }
    }
  }

  lemma HistoryNeedsOrder(t: Tree, id: string, today: string)
    requires Rules(t) && id in t.changes && HistoryAgrees(ArchivedTree(t, id, today))
    ensures InOrder(t, t.changes[id])
  {
    var t' := ArchivedTree(t, id, today);
    var c := t.changes[id];
    ArchivalOf(t, id, today);
    forall d | d in c.meta.deltas ensures Newest(t.archive, c.meta.issue, d.requirement) || Unchanged(t.current, c, d) {
      if o :| o in t.archive && Touches(t.archive[o], d.requirement) && t.archive[o].meta.issue >= c.meta.issue {
        var last := LatestExists(t.archive, o, d.requirement);
        var e :| e in t.archive[last].meta.deltas && e.requirement == d.requirement;
        assert Latest(t'.archive, t'.archive[last].meta.issue, d.requirement);
        assert LatestMatches(t, last, e) && LatestMatches(t', last, e) && ChangeOk(last, t.archive[last]);
        OlderDelta(t.current, t'.current, c, d, t.archive[last], e);
      }
    }
  }

  /** In a valid tree, archiving a verifying change gives a valid tree exactly when each of its deltas is
      newer than every archived change touching the same requirement, or changes nothing. */
  lemma ArchivingKeepsRules(t: Tree, id: string, today: string)
    requires Rules(t) && id in t.changes && t.changes[id].meta.stage == Verifying
    ensures Rules(ArchivedTree(t, id, today)) <==> InOrder(t, t.changes[id])
  {
    OthersStillFit(t, id, today);
    ArchiveStaysOk(t, id, today);
    ChangesStayApart(t, id, today);
    if InOrder(t, t.changes[id]) {
      InOrderKeepsHistory(t, id, today);
    }
    if HistoryAgrees(ArchivedTree(t, id, today)) {
      HistoryNeedsOrder(t, id, today);
    }
  }

  /** So a change is archived exactly when the tree is valid, the change is verifying and in order, no operation fails, and
      the checks of texts and limits accept the tree before and after. */
  lemma CommitsInOrder(t: Tree, id: string, today: string, rest: Tree -> bool, faults: set<Op>)
    ensures Commits(t, id, today, rest, faults)
            <==> && Rules(t) && rest(t) && id in t.changes && t.changes[id].meta.stage == Verifying
                 && InOrder(t, t.changes[id]) && rest(ArchivedTree(t, id, today))
                 && CopyAside !in faults && MoveActive !in faults && Install !in faults
                 && forall i :: 0 <= i < |t.changes[id].meta.deltas| ==>
                      Write(i) !in faults && (t.changes[id].meta.deltas[i].destination in t.current ==> Backup(i) !in faults)
  {
    if Rules(t) && id in t.changes && t.changes[id].meta.stage == Verifying {
      ArchivingKeepsRules(t, id, today);
      assert forall i: nat :: i < |t.changes[id].meta.deltas| ==>
        (Fails(t.current, t.changes[id].meta.deltas[i], i, faults)
         <==> Write(i) in faults || (t.changes[id].meta.deltas[i].destination in t.current && Backup(i) in faults));
    }
  }

  /** The archived tree: the change moves with its files, closed and dated; the destination of each delta holds the file it
      names, or nothing after a removal; all else is as it was. */
  lemma ArchivedTreeTold(t: Tree, id: string, today: string)
    requires Rules(t) && id in t.changes
    ensures var t', c := ArchivedTree(t, id, today), t.changes[id];
            && t'.changes == t.changes - {id} && id in t'.archive
            && (forall k :: k != id ==> (k in t'.archive <==> k in t.archive) && (k in t.archive ==> t'.archive[k] == t.archive[k]))
            && t'.archive[id].files == c.files && t'.archive[id].complete == c.complete && t'.archive[id].total == c.total
            && t'.archive[id].meta.stage == Archived && t'.archive[id].meta.updated == today
            && t'.archive[id].meta.(stage := c.meta.stage, updated := c.meta.updated) == c.meta
            && (forall d :: d in c.meta.deltas ==>
                  if d.operation == Remove then d.destination !in t'.current
                  else d.destination in t'.current && d.source.Some? && d.source.value in c.files && t'.current[d.destination] == c.files[d.source.value])
            && (forall path :: (forall d :: d in c.meta.deltas ==> d.destination != path) ==>
                  (path in t'.current <==> path in t.current) && (path in t.current ==> t'.current[path] == t.current[path]))
  {
    var t', c := ArchivedTree(t, id, today), t.changes[id];
    ArchivalOf(t, id, today);
    AppliedIsPointwise(t.current, c);
    forall d | d in c.meta.deltas
      ensures if d.operation == Remove then d.destination !in t'.current
              else d.destination in t'.current && d.source.Some? && d.source.value in c.files && t'.current[d.destination] == c.files[d.source.value]
    {
      assert At(t'.current, d.destination) == Final(c, d) && DeltaOk(c, d);
    }
    forall path | forall d :: d in c.meta.deltas ==> d.destination != path
      ensures (path in t'.current <==> path in t.current) && (path in t.current ==> t'.current[path] == t.current[path])
    {
      assert At(t'.current, path) == At(t.current, path);
    }
  }

  /** The last component of a path. */
  lemma {:induction false} FileNameIsLast(path: string) returns (n: nat)
    ensures n <= |path| && FileName(path) == path[n..] && '/' !in path[n..] && (n > 0 ==> path[n - 1] == '/')
  {
    if '/' !in path {
      n := 0;
    } else {
      var rest := path[1..];
      var m := FileNameIsLast(rest);
      assert rest[m..] == path[m + 1..];
      n := m + 1;
      if m == 0 {
        assert rest[0..] == rest && path == [path[0]] + rest;
      } else {
        assert rest[m - 1] == path[m];
      }
    }
  }

  /** The document at a path declares this requirement. */
  predicate DeclaredAt(current: map<string, Document>, path: string, requirement: string) {
    path in current && current[path].requirement == Some(requirement)
  }

  /** What an archived change was: verifying, with all of its tasks done; with up to 128 deltas of different requirements
      and destinations, each destination named after its requirement; adding only what was nowhere, and modifying and
      removing only what was there; its files declaring what they are written for. */
  lemma CommittedChange(t: Tree, id: string, today: string, rest: Tree -> bool, faults: set<Op>)
    requires Commits(t, id, today, rest, faults)
    ensures var c := t.changes[id];
            var deltas := c.meta.deltas;
            && c.meta.id == id && c.meta.issue > 0 && c.meta.stage == Verifying && c.complete == c.total > 0 && 0 < |deltas| <= 128
            && (forall i, j :: 0 <= i < j < |deltas| ==> deltas[i].requirement != deltas[j].requirement && deltas[i].destination != deltas[j].destination)
            && forall d :: d in deltas ==>
                 && FileName(d.destination) == d.requirement + ".md"
                 && (if d.operation == Add then d.destination !in t.current && forall p :: !DeclaredAt(t.current, p, d.requirement)
                     else DeclaredAt(t.current, d.destination, d.requirement))
                 && (if d.operation == Remove then d.source.None?
                     else d.source.Some? && d.source.value in c.files && c.files[d.source.value].requirement == Some(d.requirement))
  {
    var c := t.changes[id];
    assert ChangeOk(id, c) && AllFit(t.current, c);
    forall d | d in c.meta.deltas
      ensures FileName(d.destination) == d.requirement + ".md"
      ensures if d.operation == Add then d.destination !in t.current && forall p :: !DeclaredAt(t.current, p, d.requirement)
              else DeclaredAt(t.current, d.destination, d.requirement)
      ensures if d.operation == Remove then d.source.None?
              else d.source.Some? && d.source.value in c.files && c.files[d.source.value].requirement == Some(d.requirement)
    {
      assert DeltaOk(c, d) && Fits(t.current, d);
    }
  }

  /** What archiving leaves: each document is named after the requirement it declares, no requirement is declared twice,
      and no change or issue number is there twice. */
  lemma CommittedTree(t: Tree, id: string, today: string, rest: Tree -> bool, faults: set<Op>)
    requires Commits(t, id, today, rest, faults)
    ensures var t' := ArchivedTree(t, id, today);
            && (forall p :: p in t'.current ==> t'.current[p].requirement.Some? && FileName(p) == t'.current[p].requirement.value + ".md")
            && (forall p, q, r :: DeclaredAt(t'.current, p, r) && DeclaredAt(t'.current, q, r) ==> p == q)
            && (forall a :: a in t'.changes ==> a !in t'.archive && !t'.changes[a].meta.stage.Terminal())
            && (forall a, b :: a in t'.archive && b in t'.archive && t'.archive[a].meta.issue == t'.archive[b].meta.issue ==> a == b)
            && (forall a, b :: a in t'.changes && b in t'.changes && t'.changes[a].meta.issue == t'.changes[b].meta.issue ==> a == b)
            && (forall a, b :: a in t'.changes && b in t'.archive ==> t'.changes[a].meta.issue != t'.archive[b].meta.issue)
            && (forall a, b, d, e :: a in t'.changes && b in t'.changes && a != b && d in t'.changes[a].meta.deltas && e in t'.changes[b].meta.deltas ==>
                  d.requirement != e.requirement && d.destination != e.destination)
  {
    var t' := ArchivedTree(t, id, today);
    assert CurrentOk(t'.current) && ActiveOk(t') && IdsAndIssuesOk(t') && ActiveApart(t'.changes);
    forall a, b, d, e | a in t'.changes && b in t'.changes && a != b && d in t'.changes[a].meta.deltas && e in t'.changes[b].meta.deltas
      ensures d.requirement != e.requirement && d.destination != e.destination
    {
      assert Apart(t'.changes[a], t'.changes[b]);
    }
  }

  /** The validator reads every archived change from the file the archiver rendered. */
  ghost predicate ReadsMetadata(rest: Tree -> bool, rules: Metadata -> bool) {
    forall t, id :: rest(t) && id in t.archive ==> ChangeToml.Read(ChangeToml.Render(t.archive[id].meta), rules) == Some(t.archive[id].meta)
  }

  /** A change whose title, destinations or sources hold DEL or a control character is never archived: what the
      archiver renders cannot be read by the validation that follows, and everything is put back. */
  lemma UnreadableMetadataIsRolledBack(t: Tree, id: string, today: string, rest: Tree -> bool, rules: Metadata -> bool, faults: set<Op>)
    requires ReadsMetadata(rest, rules) && id in t.changes
    requires ChangeToml.Loadable(ArchivedChange(t.changes[id], today).meta, rules)
    requires !ChangeToml.AllQuotable(t.changes[id].meta)
    ensures !Commits(t, id, today, rest, faults)
  {
    var t' := ArchivedTree(t, id, today);
    ChangeToml.RenderReadsBack(t'.archive[id].meta, rules);
  }

  /* ---------- the ordered history ---------- */

  /** One archived delta together with the change it belongs to. */
  datatype Record = Record(change: Change, delta: Delta)

  predicate LexNotAfter(a: string, b: string) {
    a == [] || (b != [] && (a[0] < b[0] || (a[0] == b[0] && LexNotAfter(a[1..], b[1..]))))
  }

  /** The sort key is the issue, then the change ID. */
  predicate NotAfter(a: Change, b: Change) {
    a.meta.issue < b.meta.issue || (a.meta.issue == b.meta.issue && LexNotAfter(a.meta.id, b.meta.id))
  }

  function Insert(c: Change, sorted: seq<Change>): (r: seq<Change>)
    ensures forall x :: x in r <==> x == c || x in sorted
  {
    if sorted == [] || NotAfter(c, sorted[0]) then [c] + sorted else [sorted[0]] + Insert(c, sorted[1..])
  }

  lemma {:induction false} InsertKeepsOrder(c: Change, sorted: seq<Change>)
    requires ByIssue(sorted)
    ensures ByIssue(Insert(c, sorted))
  {
    if !(sorted == [] || NotAfter(c, sorted[0])) {
      var rest := Insert(c, sorted[1..]);
      InsertKeepsOrder(c, sorted[1..]);
      assert forall x :: x in sorted[1..] ==> sorted[0].meta.issue <= x.meta.issue;
      assert Insert(c, sorted) == [sorted[0]] + rest;
      forall i, j | 0 <= i < j < |rest| + 1 ensures Insert(c, sorted)[i].meta.issue <= Insert(c, sorted)[j].meta.issue {
        assert rest[j - 1] in rest;
        assert i > 0 ==> rest[i - 1].meta.issue <= rest[j - 1].meta.issue;
      }
    }
  }

  /** Python's `sorted` by key. */
  function Sorted(cs: seq<Change>): (r: seq<Change>)
    ensures forall x :: x in r <==> x in cs
    ensures ByIssue(r)
  {
    if cs == [] then [] else
      InsertKeepsOrder(cs[0], Sorted(cs[1..]));
      Insert(cs[0], Sorted(cs[1..]))
  }

  ghost predicate ByIssue(cs: seq<Change>) {
    forall i, j :: 0 <= i < j < |cs| ==> cs[i].meta.issue <= cs[j].meta.issue
  }

  function RecordsOf(c: Change, deltas: seq<Delta>): seq<Record> {
    seq(|deltas|, i requires 0 <= i < |deltas| => Record(c, deltas[i]))
  }

  function History(cs: seq<Change>): seq<Record>
    decreases |cs|
  {
    if cs == [] then [] else History(cs[..|cs| - 1]) + RecordsOf(cs[|cs| - 1], cs[|cs| - 1].meta.deltas)
  }

  /** The last record of each requirement. */
  function LatestOf(records: seq<Record>): map<string, Record>
    decreases |records|
  {
    if records == [] then map[]
    else
      var last := records[|records| - 1];
      LatestOf(records[..|records| - 1])[last.delta.requirement := last]
  }

  /** Replaying the history into an empty set of requirements: where each one is and what it says. */
  function Replay(records: seq<Record>): map<string, (string, Option<Document>)>
    decreases |records|
  {
    if records == [] then map[]
    else
      var Record(c, d) := records[|records| - 1];
      var earlier := Replay(records[..|records| - 1]);
      if d.operation == Remove then earlier - {d.requirement} else earlier[d.requirement := (d.destination, Content(c, d))]
  }

  predicate AllMatch(current: map<string, Document>, latest: map<string, Record>) {
    forall r | r in latest :: Matches(current, latest[r].change, latest[r].delta)
  }

  method Collect(latest: map<string, Record>, c: Change, ghost earlier: seq<Record>) returns (now: map<string, Record>)
    requires latest == LatestOf(earlier)
    ensures now == LatestOf(earlier + RecordsOf(c, c.meta.deltas))
  {
    now := latest;
    assert earlier + RecordsOf(c, c.meta.deltas[..0]) == earlier;
    for j := 0 to |c.meta.deltas|
      invariant now == LatestOf(earlier + RecordsOf(c, c.meta.deltas[..j]))
    {
      var record := Record(c, c.meta.deltas[j]);
      now := now[record.delta.requirement := record];
      ghost var records := earlier + RecordsOf(c, c.meta.deltas[..j + 1]);
      assert records[..|records| - 1] == earlier + RecordsOf(c, c.meta.deltas[..j]);
    }
    assert c.meta.deltas[..|c.meta.deltas|] == c.meta.deltas;
  }

  /** The validator: collects the last record of each requirement, then compares each with the documents. */
  method ValidateLatest(current: map<string, Document>, listing: seq<Change>) returns (ok: bool)
    ensures ok <==> AllMatch(current, LatestOf(History(Sorted(listing))))
  {
    var sorted := Sorted(listing);
    var latest: map<string, Record> := map[];
    for i := 0 to |sorted|
      invariant latest == LatestOf(History(sorted[..i]))
    {
      latest := Collect(latest, sorted[i], History(sorted[..i]));
      assert sorted[..i + 1][..i] == sorted[..i];
    }
    assert sorted[..|sorted|] == sorted;
    ok := true;
    var remaining := latest.Keys;
    while remaining != {}
      invariant remaining <= latest.Keys
      invariant ok <==> forall r | r in latest.Keys - remaining :: Matches(current, latest[r].change, latest[r].delta)
    {
      var r :| r in remaining;
      if !Matches(current, latest[r].change, latest[r].delta) { ok := false; }
      remaining := remaining - {r};
    }
  }

  ghost predicate Names(c: Change, requirement: string) {
    exists d :: d in c.meta.deltas && d.requirement == requirement
  }

  /** A change's records overwrite what it names and keep the rest. */
  lemma {:induction false} LatestAfter(earlier: seq<Record>, c: Change, deltas: seq<Delta>, requirement: string)
    ensures var latest := LatestOf(earlier + RecordsOf(c, deltas));
            if exists d :: d in deltas && d.requirement == requirement
            then requirement in latest && latest[requirement].change == c && latest[requirement].delta in deltas
                 && latest[requirement].delta.requirement == requirement
            else (requirement in latest <==> requirement in LatestOf(earlier))
                 && (requirement in latest ==> latest[requirement] == LatestOf(earlier)[requirement])
    decreases |deltas|
  {
    var records := earlier + RecordsOf(c, deltas);
    if deltas == [] {
      assert records == earlier;
    } else {
      var n := |deltas| - 1;
      assert records[..|records| - 1] == earlier + RecordsOf(c, deltas[..n]) && deltas == deltas[..n] + [deltas[n]];
      LatestAfter(earlier, c, deltas[..n], requirement);
    }
  }

  /** The record belongs to the change with the largest issue among those that name the requirement. */
  ghost predicate IsLargest(record: Record, cs: seq<Change>, requirement: string) {
    && record.change in cs && record.delta in record.change.meta.deltas && record.delta.requirement == requirement
    && forall c :: c in cs && Names(c, requirement) ==> c.meta.issue <= record.change.meta.issue
  }

  lemma {:induction false} LatestIsLargest(cs: seq<Change>, requirement: string)
    requires ByIssue(cs)
    ensures if exists c :: c in cs && Names(c, requirement)
            then requirement in LatestOf(History(cs)) && IsLargest(LatestOf(History(cs))[requirement], cs, requirement)
            else requirement !in LatestOf(History(cs))
    decreases |cs|
  {
    if cs != [] {
      var n := |cs| - 1;
      LatestIsLargest(cs[..n], requirement);
      LatestAfter(History(cs[..n]), cs[n], cs[n].meta.deltas, requirement);
      assert cs == cs[..n] + [cs[n]];
      assert Names(cs[n], requirement) <==> exists d :: d in cs[n].meta.deltas && d.requirement == requirement;
      if Names(cs[n], requirement) {
        assert cs[n] in cs;
      }
    }
  }

  /** The listing has exactly the changes whose archived deltas count. */
  ghost predicate Lists(listing: seq<Change>, archive: map<string, Change>) {
    forall c :: c in listing <==> exists id :: id in archive && archive[id] == c && c.meta.stage == Archived
  }

  /** The loop over the sorted changes checks exactly the declarative rule. */
  lemma ValidatorChecksHistory(t: Tree, listing: seq<Change>)
    requires ArchiveOk(t) && IssuesDiffer(t.archive, t.archive) && Lists(listing, t.archive)
    ensures AllMatch(t.current, LatestOf(History(Sorted(listing)))) <==> HistoryAgrees(t)
  {
    var latest := LatestOf(History(Sorted(listing)));
    if AllMatch(t.current, latest) {
      forall id, d | id in t.archive && d in t.archive[id].meta.deltas ensures LatestMatches(t, id, d) {
        if t.archive[id].meta.stage == Archived && Latest(t.archive, t.archive[id].meta.issue, d.requirement) {
          LatestIsUnique(t, listing, id, d);
        }
      }
    }
    if HistoryAgrees(t) {
      forall r | r in latest ensures Matches(t.current, latest[r].change, latest[r].delta) {
        var id := LatestInArchive(t, listing, r);
        assert LatestMatches(t, id, latest[r].delta);
      }
    }
  }

  lemma LatestInArchive(t: Tree, listing: seq<Change>, requirement: string) returns (id: string)
    requires Lists(listing, t.archive) && requirement in LatestOf(History(Sorted(listing)))
    ensures var record := LatestOf(History(Sorted(listing)))[requirement];
            && id in t.archive && t.archive[id] == record.change && record.change.meta.stage == Archived
            && record.delta in record.change.meta.deltas && record.delta.requirement == requirement
            && Latest(t.archive, record.change.meta.issue, requirement)
  {
    LatestIsLargest(Sorted(listing), requirement);
    var record := LatestOf(History(Sorted(listing)))[requirement];
    assert record.change in listing;
    id :| id in t.archive && t.archive[id] == record.change && record.change.meta.stage == Archived;
    forall o | o in t.archive && Touches(t.archive[o], requirement) ensures t.archive[o].meta.issue <= record.change.meta.issue {
      assert t.archive[o] in listing && Names(t.archive[o], requirement);
    }
  }

  lemma LatestIsUnique(t: Tree, listing: seq<Change>, id: string, d: Delta)
    requires ArchiveOk(t) && IssuesDiffer(t.archive, t.archive) && Lists(listing, t.archive)
    requires id in t.archive && d in t.archive[id].meta.deltas && t.archive[id].meta.stage == Archived
    requires Latest(t.archive, t.archive[id].meta.issue, d.requirement)
    ensures var latest := LatestOf(History(Sorted(listing)));
            d.requirement in latest && latest[d.requirement] == Record(t.archive[id], d)
  {
    var latest := LatestOf(History(Sorted(listing)));
    LatestIsLargest(Sorted(listing), d.requirement);
    assert t.archive[id] in listing && Names(t.archive[id], d.requirement);
    var other := LatestInArchive(t, listing, d.requirement);
    assert Touches(t.archive[other], d.requirement) && ChangeOk(id, t.archive[id]);
    assert latest[d.requirement].change == t.archive[id];
  }

  /** What the replay says about a requirement is decided by its latest record. */
  lemma {:induction false} ReplayIsLatest(records: seq<Record>, requirement: string)
    ensures var latest := LatestOf(records);
            && (requirement in Replay(records) <==> requirement in latest && latest[requirement].delta.operation != Remove)
            && (requirement in Replay(records) ==>
                  Replay(records)[requirement] == (latest[requirement].delta.destination, Content(latest[requirement].change, latest[requirement].delta)))
    decreases |records|
  {
    if records != [] {
      ReplayIsLatest(records[..|records| - 1], requirement);
    }
  }

  /** In a valid tree, replaying all archived deltas in issue order gives the current place and content of
      every requirement they touch, and no document declares a requirement whose last delta removed it. */
  lemma CurrentIsReplay(t: Tree, listing: seq<Change>, requirement: string)
    requires Rules(t) && Lists(listing, t.archive)
    requires exists c :: c in listing && Names(c, requirement)
    ensures var replay := Replay(History(Sorted(listing)));
            if requirement in replay
            then replay[requirement].0 in t.current && replay[requirement].1 == Some(t.current[replay[requirement].0])
                 && t.current[replay[requirement].0].requirement == Some(requirement)
            else (forall p :: !DeclaredAt(t.current, p, requirement))
                 && exists c, d :: c in listing && d in c.meta.deltas && d.requirement == requirement && d.operation == Remove && d.destination !in t.current
  {
    ValidatorChecksHistory(t, listing);
    LatestIsLargest(Sorted(listing), requirement);
    ReplayIsLatest(History(Sorted(listing)), requirement);
    var last := LatestOf(History(Sorted(listing)))[requirement];
    assert last.change in listing && last.delta in last.change.meta.deltas && Matches(t.current, last.change, last.delta);
  }
}
