// One message row whose edits, deletions and reaction calls interleave: each call reads the row and
// checks it, then writes. An edit writes back the reactions it read, whatever the row has become.
module RowRaces {
  import R = Reactions
  import opened Prelude

  /** What an edit that has read the row is going to store. */
  datatype Edit = Edit(content: string, reactions: R.Reactions)

  datatype Deletion = Deletion(user: string, at: int)

  datatype Row = Row(
    content: string,
    reactions: R.Reactions,
    editedAt: Option<int>,
    deleted: Option<Deletion>,
    edits: multiset<Edit>,     // edits past their checks that have not stored
    checked: multiset<R.Op>,   // reaction calls past their checks that have not committed
    commits: seq<R.Op>)

  datatype Step =
    | ReadForEdit(content: string)
    | Store(edit: Edit, now: int)
    | Check(op: R.Op)
    | Commit(op: R.Op)
    | Delete(user: string, now: int)

  /** Checks and the statement of a deletion look at `deleted_at`; stores and commits do not. Every
      store writes the edit time. */
  function Next(r: Row, s: Step): Row {
    match s
    case ReadForEdit(content) =>
      if r.deleted.None? then r.(edits := r.edits + multiset{Edit(content, r.reactions)}) else r
    case Store(e, now) =>
      if e in r.edits
      then r.(content := e.content, reactions := e.reactions, editedAt := Some(now), edits := r.edits - multiset{e})
      else r
    case Check(op) => if r.deleted.None? then r.(checked := r.checked + multiset{op}) else r
    case Commit(op) =>
      if op in r.checked
      then r.(reactions := R.Apply(r.reactions, op), checked := r.checked - multiset{op}, commits := r.commits + [op])
      else r
    case Delete(user, now) => if r.deleted.None? then r.(deleted := Some(Deletion(user, now))) else r
  }

  function RunFrom(r: Row, steps: seq<Step>): Row {
    if steps == [] then r else Next(RunFrom(r, steps[..|steps| - 1]), steps[|steps| - 1])
  }

  function Run(content: string, steps: seq<Step>): Row {
    RunFrom(Row(content, map[], None, None, multiset{}, multiset{}, []), steps)
  }

  /** A call with nothing in between: on a live row an edit stores its text and time and keeps the
      reactions, and a reaction call does what it says; on a deleted row neither does anything. */
  lemma UninterruptedCalls(r: Row, content: string, now: int, op: R.Op)
    requires r.edits == multiset{} && r.checked == multiset{}
    ensures var edited := Next(Next(r, ReadForEdit(content)), Store(Edit(content, r.reactions), now));
            var reacted := Next(Next(r, Check(op)), Commit(op));
            if r.deleted.Some? then edited == r && reacted == r
            else
              && edited == r.(content := content, editedAt := Some(now))
              && reacted == r.(reactions := R.Apply(r.reactions, op), commits := r.commits + [op])
  {
  }

  // ---------- Deleted rows ----------

  predicate SameMessage(r: Row, r': Row) {
    r'.content == r.content && r'.reactions == r.reactions && r'.editedAt == r.editedAt && r'.deleted == r.deleted
  }

  /** The clock shows `from` or later whenever a step writes it. */
  predicate NoEarlier(steps: seq<Step>, from: int) {
    forall s | s in steps :: (s.Store? ==> s.now >= from) && (s.Delete? ==> s.now >= from)
  }

  ghost predicate Frozen(r: Row, from: int) {
    forall steps | NoEarlier(steps, from) :: SameMessage(r, RunFrom(r, steps))
  }

  /** No edit is past its check, and no reaction call past its check would change anything. */
  predicate Settled(r: Row) {
    r.edits == multiset{} && forall op | op in r.checked :: R.Apply(r.reactions, op) == r.reactions
  }

  predicate Unmoved(r: Row, r': Row) {
    SameMessage(r, r') && r'.edits == multiset{} && forall op | op in r'.checked :: op in r.checked
  }

  lemma StepUnmoved(r: Row, r': Row, s: Step)
    requires r.deleted.Some? && Settled(r) && Unmoved(r, r')
    ensures Unmoved(r, Next(r', s))
  {
  }

  lemma {:induction false} SettledStays(r: Row, steps: seq<Step>)
    requires r.deleted.Some? && Settled(r)
    ensures Unmoved(r, RunFrom(r, steps))
  {
    if steps != [] {
      var before := steps[..|steps| - 1];
      SettledStays(r, before);
      StepUnmoved(r, RunFrom(r, before), steps[|steps| - 1]);
    }
  }

  lemma SomethingWrites(r: Row, from: int) returns (s: Step)
    requires !Settled(r)
    ensures NoEarlier([s], from) && !SameMessage(r, Next(r, s))
  {
    if op :| op in r.checked && R.Apply(r.reactions, op) != r.reactions {
      s := Commit(op);
    } else {
      var e :| e in r.edits;
      s := Store(e, if r.editedAt == Some(from) then from + 1 else from);
    }
  }

  /** A deleted row never changes again, whatever interleaves from any time on, exactly when no edit is
      past its check and every reaction call past its check would change nothing. */
  lemma DeletedIsFrozenIff(r: Row, from: int)
    requires r.deleted.Some?
    ensures Frozen(r, from) <==> Settled(r)
  {
    if Settled(r) {
      forall steps | NoEarlier(steps, from) ensures SameMessage(r, RunFrom(r, steps)) {
        SettledStays(r, steps);
      }
    } else {
      var s := SomethingWrites(r, from);
      assert [s][..0] == [];
      assert !SameMessage(r, RunFrom(r, [s]));
    }
  }

  /** An edit past its check always changes the row, even one that stores the text it found. */
  lemma PendingEditThaws(r: Row, e: Edit, from: int)
    requires r.deleted.Some? && e in r.edits
    ensures !Frozen(r, from)
  {
    DeletedIsFrozenIff(r, from);
  }

  /** A deletion with nothing past its check freezes the row for good. */
  lemma QuietDeletionFreezes(r: Row, user: string, now: int)
    requires r.deleted.None? && r.edits == multiset{} && r.checked == multiset{}
    ensures Frozen(Next(r, Delete(user, now)), now)
  {
    DeletedIsFrozenIff(Next(r, Delete(user, now)), now);
  }

  /** The first deletion stays on record in every interleaving. */
  lemma {:induction false} FirstDeleterStays(r: Row, steps: seq<Step>)
    requires r.deleted.Some?
    ensures RunFrom(r, steps).deleted == r.deleted
  {
    if steps != [] {
      FirstDeleterStays(r, steps[..|steps| - 1]);
    }
  }

  // ---------- Reactions under edits ----------

  /** The stored reactions are those of the commit history. */
  ghost predicate Faithful(content: string, steps: seq<Step>) {
    forall n | 0 <= n <= |steps| :: FoldsAt(content, steps, n)
  }

  predicate FoldsAt(content: string, steps: seq<Step>, n: nat)
    requires n <= |steps|
  {
    Run(content, steps[..n]).reactions == R.Fold(Run(content, steps[..n]).commits)
  }

  /** The edit stores the reactions that the row still has. */
  predicate Fresh(r: Row, s: Step) { s.Store? && s.edit in r.edits ==> s.edit.reactions == r.reactions }

  ghost predicate AllFresh(content: string, steps: seq<Step>) {
    forall k | 0 <= k < |steps| :: Fresh(Run(content, steps[..k]), steps[k])
  }

  lemma CommitFolds(commits: seq<R.Op>, op: R.Op)
    ensures R.Fold(commits + [op]) == R.Apply(R.Fold(commits), op)
  {
    assert (commits + [op])[..|commits|] == commits;
  }

  lemma StepFolds(r: Row, s: Step)
    requires r.reactions == R.Fold(r.commits)
    ensures Next(r, s).reactions == R.Fold(Next(r, s).commits) <==> Fresh(r, s)
  {
    var r' := Next(r, s);
    if s.Commit? && s.op in r.checked {
      CommitFolds(r.commits, s.op);
      assert r'.commits == r.commits + [s.op];
    } else {
      assert r'.commits == r.commits;
    }
  }

  lemma {:induction false} FreshFolds(content: string, steps: seq<Step>, n: nat)
    requires AllFresh(content, steps) && n <= |steps|
    ensures FoldsAt(content, steps, n)
  {
    if n > 0 {
      FreshFolds(content, steps, n - 1);
      assert steps[..n][..n - 1] == steps[..n - 1];
      StepFolds(Run(content, steps[..n - 1]), steps[n - 1]);
    }
  }

  lemma StaleBreaks(content: string, steps: seq<Step>, k: nat)
    requires k < |steps| && !Fresh(Run(content, steps[..k]), steps[k])
    ensures !FoldsAt(content, steps, k) || !FoldsAt(content, steps, k + 1)
  {
    assert steps[..k + 1][..k] == steps[..k];
    if FoldsAt(content, steps, k) {
      StepFolds(Run(content, steps[..k]), steps[k]);
    }
  }

  /** With edits in between, the stored reactions stay those of the commit history exactly when no
      edit stores reactions that a commit has changed since it read them. */
  lemma ReactionsSurviveEditsIff(content: string, steps: seq<Step>)
    ensures Faithful(content, steps) <==> AllFresh(content, steps)
  {
    if AllFresh(content, steps) {
      forall n | 0 <= n <= |steps| ensures FoldsAt(content, steps, n) {
        FreshFolds(content, steps, n);
      }
    } else {
      var k :| 0 <= k < |steps| && !Fresh(Run(content, steps[..k]), steps[k]);
      StaleBreaks(content, steps, k);
      assert !FoldsAt(content, steps, k) || !FoldsAt(content, steps, k + 1);
    }
  }
}
