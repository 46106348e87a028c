// Reaction maps of internal/service/message_service.go, edited by the closures that
// UpdateReactionsTx of internal/repository/message_repo.go runs inside a transaction.
module Reactions {
  import opened Prelude

  type Reactions = map<string, seq<string>>

  /** One reaction call: put `user` under `emoji`, or take it off. */
  datatype Op = Op(add: bool, emoji: string, user: string)

  function UsersOf(r: Reactions, emoji: string): seq<string> {
    if emoji in r then r[emoji] else []
  }

  /** `users` without the first `user`. */
  function Without(users: seq<string>, user: string): seq<string> {
    if users == [] then []
    else if users[0] == user then users[1..]
    else [users[0]] + Without(users[1..], user)
  }

  function AddUser(r: Reactions, emoji: string, user: string): Reactions {
    if user in UsersOf(r, emoji) then r else r[emoji := UsersOf(r, emoji) + [user]]
  }

  function RemoveUser(r: Reactions, emoji: string, user: string): Reactions {
    if user !in UsersOf(r, emoji) then r
    else
      var rest := Without(UsersOf(r, emoji), user);
      if rest == [] then r - {emoji} else r[emoji := rest]
  }

  function Apply(r: Reactions, op: Op): Reactions {
    if op.add then AddUser(r, op.emoji, op.user) else RemoveUser(r, op.emoji, op.user)
  }

  // ---------- The closures ----------

  method AddTransform(current: Reactions, emoji: string, user: string) returns (r: Reactions)
    ensures r == AddUser(current, emoji, user)
  {
    var users := if emoji in current then current[emoji] else [];
    for i := 0 to |users|
      invariant user !in users[..i]
    {
      if users[i] == user { return current; }
    }
    assert users[..|users|] == users;
    r := current[emoji := users + [user]];
  }

  method RemoveTransform(current: Reactions, emoji: string, user: string) returns (r: Reactions)
    ensures r == RemoveUser(current, emoji, user)
  {
    var users := if emoji in current then current[emoji] else [];
    for i := 0 to |users|
      invariant user !in users[..i]
    {
      if users[i] == user {
        WithoutAt(users, i);
        r := current[emoji := users[..i] + users[i + 1..]];
        if |r[emoji]| == 0 { r := r - {emoji}; }
        return;
      }
    }
    assert users[..|users|] == users;
    r := current;
  }

  lemma {:induction false} WithoutAt(users: seq<string>, i: nat)
    requires i < |users| && users[i] !in users[..i]
    ensures Without(users, users[i]) == users[..i] + users[i + 1..]
  {
    if i > 0 {
      assert users[1..][..i - 1] == users[..i][1..];
      WithoutAt(users[1..], i - 1);
      assert users[..i] + users[i + 1..] == [users[0]] + (users[1..][..i - 1] + users[1..][i..]);
    }
  }

  // ---------- What a commit history means ----------

  /** The commit that put `user` under `emoji` where it still is, or -1 when it is not there: the
      first addition since the last removal. */
  function PutAt(commits: seq<Op>, emoji: string, user: string): (k: int)
    ensures -1 <= k < |commits|
    ensures k >= 0 ==> commits[k] == Op(true, emoji, user)
  {
    if commits == [] then -1
    else
      var before, last := commits[..|commits| - 1], commits[|commits| - 1];
      var k := PutAt(before, emoji, user);
      if last.emoji != emoji || last.user != user then k
      else if !last.add then -1
      else if k == -1 then |commits| - 1
      else k
  }

  /** Commit `k` adds the pair and no later one removes it. */
  predicate LastAdd(commits: seq<Op>, emoji: string, user: string, k: int)
    requires 0 <= k < |commits|
  {
    commits[k] == Op(true, emoji, user) && forall j | k < j < |commits| :: commits[j] != Op(false, emoji, user)
  }

  /** A user has reacted exactly when its last committed call for that emoji was an addition. */
  lemma {:induction false} PutAtIffLastAdds(commits: seq<Op>, emoji: string, user: string)
    ensures PutAt(commits, emoji, user) >= 0 <==>
            exists k | 0 <= k < |commits| :: LastAdd(commits, emoji, user, k)
  {
    if commits != [] {
      var before, last := commits[..|commits| - 1], commits[|commits| - 1];
      PutAtIffLastAdds(before, emoji, user);
      assert LastAdd(commits, emoji, user, |before|) <==> last == Op(true, emoji, user);
      assert last == Op(false, emoji, user) ==> forall k | 0 <= k < |commits| :: !LastAdd(commits, emoji, user, k);
      assert last != Op(false, emoji, user) ==>
        forall k | 0 <= k < |before| :: LastAdd(commits, emoji, user, k) <==> LastAdd(before, emoji, user, k);
    }
  }

  function Fold(commits: seq<Op>): Reactions {
    if commits == [] then map[] else Apply(Fold(commits[..|commits| - 1]), commits[|commits| - 1])
  }

  /** A list holds the users with a position, in increasing order of it, and so without repetition. */
  ghost predicate Reflects(users: seq<string>, position: string -> int) {
    Lists(users, position) && InOrder(users, position)
  }

  ghost predicate Lists(users: seq<string>, position: string -> int) {
    forall u :: u in users <==> position(u) >= 0
  }

  predicate InOrder(users: seq<string>, position: string -> int) {
    forall i, j | 0 <= i < j < |users| :: position(users[i]) < position(users[j])
  }

  lemma {:induction false} WithoutMembers(users: seq<string>, user: string)
    requires forall i, j | 0 <= i < j < |users| :: users[i] != users[j]
    ensures forall u :: u in Without(users, user) <==> u in users && u != user
  {
    if users != [] && users[0] != user {
      WithoutMembers(users[1..], user);
      assert users == [users[0]] + users[1..];
    }
  }

  /** Dropping one user keeps the others in their order. */
  lemma {:induction false} WithoutKeepsOrder(users: seq<string>, user: string) returns (at: seq<int>)
    requires user in users
    ensures SelectedAt(users, at, Without(users, user))
  {
    var i :| 0 <= i < |users| && users[i] == user && user !in users[..i] by { FirstOf(users, user); }
    WithoutAt(users, i);
    at := seq(|users| - 1, k => if k < i then k else k + 1);
  }

  lemma {:induction false} FirstOf(users: seq<string>, user: string)
    requires user in users
    ensures exists i :: 0 <= i < |users| && users[i] == user && user !in users[..i]
  {
    if users[0] == user {
      assert user !in users[..0];
    } else {
      FirstOf(users[1..], user);
      var i :| 0 <= i < |users[1..]| && users[1..][i] == user && user !in users[1..][..i];
      assert users[..i + 1] == [users[0]] + users[1..][..i];
      assert users[i + 1] == user;
    }
  }

  lemma AddReflects(users: seq<string>, before: string -> int, after: string -> int, user: string, next: int)
    requires Reflects(users, before)
    requires forall u :: before(u) < next
    requires forall u :: after(u) == if u == user && before(u) < 0 then next else before(u)
    requires next >= 0
    ensures Reflects(if user in users then users else users + [user], after)
  {
    forall i | 0 <= i < |users| ensures users[i] in users && before(users[i]) >= 0 {}
  }

  lemma OrderedOnce(users: seq<string>, position: string -> int)
    requires InOrder(users, position)
    ensures forall i, j | 0 <= i < j < |users| :: users[i] != users[j]
  {
    forall i, j | 0 <= i < j < |users| ensures users[i] != users[j] {
      assert position(users[i]) < position(users[j]);
    }
  }

  lemma RestInOrder(users: seq<string>, position: string -> int, user: string)
    requires InOrder(users, position) && user in users
    ensures InOrder(Without(users, user), position)
  {
    var rest := Without(users, user);
    var at := WithoutKeepsOrder(users, user);
    forall i, j | 0 <= i < j < |rest| ensures position(rest[i]) < position(rest[j]) {
      assert rest[i] == users[at[i]] && rest[j] == users[at[j]] && at[i] < at[j];
    }
  }

  lemma SamePositions(users: seq<string>, before: string -> int, after: string -> int, user: string)
    requires InOrder(users, before) && user !in users
    requires forall u | u != user :: after(u) == before(u)
    ensures InOrder(users, after)
  {
    forall i | 0 <= i < |users| ensures after(users[i]) == before(users[i]) {
      assert users[i] in users;
    }
  }

  lemma RemoveReflects(users: seq<string>, before: string -> int, after: string -> int, user: string)
    requires Reflects(users, before)
    requires forall u :: after(u) == if u == user then -1 else before(u)
    ensures Reflects(if user in users then Without(users, user) else users, after)
  {
    var rest := if user in users then Without(users, user) else users;
    OrderedOnce(users, before);
    if user in users {
      WithoutMembers(users, user);
      RestInOrder(users, before, user);
    }
    SamePositions(rest, before, after, user);
    assert Lists(rest, after) by {
      forall u ensures u in rest <==> after(u) >= 0 {
        assert u in users <==> before(u) >= 0;
      }
    }
  }

  function Position(commits: seq<Op>, emoji: string): string -> int {
    u => PutAt(commits, emoji, u)
  }

  lemma PositionAfter(commits: seq<Op>, op: Op, emoji: string, u: string)
    ensures var k := Position(commits, emoji)(u);
            Position(commits + [op], emoji)(u) ==
            if op.emoji != emoji || op.user != u then k
            else if !op.add then -1
            else if k < 0 then |commits| else k
  {
    assert (commits + [op])[..|commits|] == commits;
  }

  /** One emoji's list after one commit. */
  function AfterOp(users: seq<string>, op: Op, emoji: string): seq<string> {
    if op.emoji != emoji || (op.add <==> op.user in users) then users
    else if op.add then users + [op.user]
    else Without(users, op.user)
  }

  lemma ApplyOneList(r: Reactions, op: Op, emoji: string)
    requires emoji in r ==> r[emoji] != []
    ensures UsersOf(Apply(r, op), emoji) == AfterOp(UsersOf(r, emoji), op, emoji)
    ensures emoji in Apply(r, op) ==> Apply(r, op)[emoji] != []
  {
  }

  lemma ApplyReflects(users: seq<string>, commits: seq<Op>, op: Op, emoji: string)
    requires Reflects(users, Position(commits, emoji))
    ensures Reflects(AfterOp(users, op, emoji), Position(commits + [op], emoji))
  {
    var before, after := Position(commits, emoji), Position(commits + [op], emoji);
    forall u ensures after(u) == if op.emoji != emoji || op.user != u then before(u)
                                 else if !op.add then -1
                                 else if before(u) < 0 then |commits| else before(u) {
      PositionAfter(commits, op, emoji, u);
    }
    if op.emoji == emoji {
      if op.add {
        AddReflects(users, before, after, op.user, |commits|);
      } else {
        RemoveReflects(users, before, after, op.user);
      }
    }
  }

  /** The stored lists are exactly the history's set of pairs, in the order they were put there. */
  lemma {:induction false} FoldReflects(commits: seq<Op>, emoji: string)
    ensures Reflects(UsersOf(Fold(commits), emoji), Position(commits, emoji))
    ensures emoji in Fold(commits) ==> Fold(commits)[emoji] != []
  {
    if commits != [] {
      var before, op := commits[..|commits| - 1], commits[|commits| - 1];
      FoldReflects(before, emoji);
      assert commits == before + [op];
      ApplyOneList(Fold(before), op, emoji);
      ApplyReflects(UsersOf(Fold(before), emoji), before, op, emoji);
    }
  }

  // ---------- Interleaved calls ----------

  /** One message: each call first checks, then commits its transaction; other calls come between. */
  datatype Row = Row(
    reactions: Reactions,
    deleted: bool,
    members: set<string>,
    checked: multiset<Op>,  // calls past their checks whose transaction has not run
    commits: seq<Op>)

  datatype Step = Check(op: Op) | Commit(op: Op) | Delete | SetMembers(members: set<string>)

  function Next(r: Row, s: Step): Row {
    match s
    case Check(op) =>
      if !r.deleted && op.user in r.members then r.(checked := r.checked + multiset{op}) else r
    case Commit(op) =>
      if op in r.checked
      then r.(reactions := Apply(r.reactions, op), checked := r.checked - multiset{op}, commits := r.commits + [op])
      else r
    case Delete => r.(deleted := true)
    case SetMembers(members) => r.(members := members)
  }

  function RunFrom(r: Row, steps: seq<Step>): Row {
    if steps == [] then r else Next(RunFrom(r, steps[..|steps| - 1]), steps[|steps| - 1])
  }

  function Run(steps: seq<Step>): Row { RunFrom(Row(map[], false, {}, multiset{}, []), steps) }

  lemma {:induction false} RunIsFold(steps: seq<Step>)
    ensures Run(steps).reactions == Fold(Run(steps).commits)
  {
    if steps != [] {
      var r, s := Run(steps[..|steps| - 1]), steps[|steps| - 1];
      RunIsFold(steps[..|steps| - 1]);
      if s.Commit? && s.op in r.checked {
        assert (r.commits + [s.op])[..|r.commits|] == r.commits;
      }
    }
  }

  /** In every interleaving the stored map refines the set of (emoji, user) pairs of the commit
      history: lists are never empty, repeat nobody, and keep the order in which users were put. */
  lemma ReactionsRefineASet(steps: seq<Step>, emoji: string)
    ensures var r := Run(steps);
            && (emoji in r.reactions ==> r.reactions[emoji] != [])
            && Reflects(UsersOf(r.reactions, emoji), Position(r.commits, emoji))
  {
    RunIsFold(steps);
    FoldReflects(Run(steps).commits, emoji);
  }

  /** At step `n` the call's check saw a live message and a member. */
  predicate Checked(steps: seq<Step>, n: nat, op: Op) {
    n < |steps| && steps[n] == Check(op) && !Run(steps[..n]).deleted && op.user in Run(steps[..n]).members
  }

  predicate Seen(r: Row, op: Op) { op in r.commits || op in r.checked }

  lemma SeenByCheckOnly(r: Row, s: Step, op: Op)
    requires Seen(Next(r, s), op) && !Seen(r, op)
    ensures s == Check(op) && !r.deleted && op.user in r.members
  {
  }

  /** Only a call whose check saw a live message and a member is ever committed. */
  lemma {:induction false} CommitsWereChecked(steps: seq<Step>, op: Op)
    requires Seen(Run(steps), op)
    ensures exists n: nat :: Checked(steps, n, op)
  {
    var before := steps[..|steps| - 1];
    if Seen(Run(before), op) {
      CommitsWereChecked(before, op);
      var n: nat :| Checked(before, n, op);
      assert steps[..n] == before[..n];
      assert Checked(steps, n, op);
    } else {
      SeenByCheckOnly(Run(before), steps[|before|], op);
      assert steps[..|before|] == before;
      assert Checked(steps, |before|, op);
    }
  }

  /** A check that ran before a deletion lets its commit change the deleted row. */
  lemma LateCommitChangesDeletedRow()
    ensures exists steps, op ::
              Run(steps).deleted && Next(Run(steps), Commit(op)).reactions != Run(steps).reactions
  {
    var op := Op(true, "e", "u");
    var s0, s1, s2 := [SetMembers({"u"})], [SetMembers({"u"}), Check(op)], [SetMembers({"u"}), Check(op), Delete];
    assert s0[..0] == [] && s1[..1] == s0 && s2[..2] == s1;
    assert Run([]).members == {};
    assert Run(s0) == Row(map[], false, {"u"}, multiset{}, []);
    assert Run(s1) == Row(map[], false, {"u"}, multiset{op}, []);
    assert Run(s2) == Row(map[], true, {"u"}, multiset{op}, []);
    assert Run(s2).deleted && "e" !in Run(s2).reactions && "e" in Next(Run(s2), Commit(op)).reactions;
  }
}
