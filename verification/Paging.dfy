// Cursor paging of a room's messages: GetByRoom of internal/repository/message_repo.go, called
// again and again with the last row's time as `before`.
module Paging {
  import opened Prelude

  datatype Row = Row(id: int, roomID: string, createdAt: int, deleted: bool)

  /** The rows the WHERE clause lets through. */
  function Visible(table: set<Row>, roomID: string, before: Option<int>): set<Row> {
    set r | r in table && r.roomID == roomID && !r.deleted && (before.Some? ==> r.createdAt < before.value)
  }

  predicate NewestFirst(rows: seq<Row>) {
    forall i, j | 0 <= i < j < |rows| :: rows[i] != rows[j] && rows[i].createdAt >= rows[j].createdAt
  }

  /** What ORDER BY created_at DESC LIMIT may answer; rows of one instant come in any order. */
  ghost predicate IsPage(v: set<Row>, limit: nat, page: seq<Row>) {
    && NewestFirst(page)
    && (forall r | r in page :: r in v)
    && |page| == (if |v| < limit then |v| else limit)
    && (forall r, p | r in v && r !in page && p in page :: r.createdAt <= p.createdAt)
  }

  /** The query, row by row: each time the newest row not yet taken. */
  method GetByRoom(table: set<Row>, roomID: string, limit: nat, before: Option<int>) returns (messages: seq<Row>)
    ensures IsPage(Visible(table, roomID, before), limit, messages)
    ensures forall r | r in messages ::
              r in table && r.roomID == roomID && !r.deleted && (before.None? || r.createdAt < before.value)
    ensures |messages| <= limit
    ensures forall r | r in table && r.roomID == roomID && !r.deleted && (before.None? || r.createdAt < before.value) ::
              r in messages || (|messages| == limit && forall p | p in messages :: r.createdAt <= p.createdAt)
  {
    var v := Visible(table, roomID, before);
    var rest := v;
    messages := [];
    while rest != {} && |messages| < limit
      invariant rest <= v && (forall r :: r in messages <==> r in v - rest)
      invariant |messages| == |v| - |rest| && |messages| <= limit
      invariant NewestFirst(messages)
      invariant forall r, p | r in rest && p in messages :: r.createdAt <= p.createdAt
      decreases rest
    {
      var next := Newest(rest);
      assert forall i | 0 <= i < |messages| :: messages[i] in messages;
      messages := messages + [next];
      rest := rest - {next};
    }
    PageInFields(table, roomID, limit, before, messages);
  }

  /** What a page is, in the fields of the rows: live rows of the room before the cursor, and no newer
      one left out; none at all is left out of a page short of the limit. */
  lemma PageInFields(table: set<Row>, roomID: string, limit: nat, before: Option<int>, page: seq<Row>)
    requires IsPage(Visible(table, roomID, before), limit, page)
    ensures forall r | r in page ::
              r in table && r.roomID == roomID && !r.deleted && (before.None? || r.createdAt < before.value)
    ensures |page| <= limit
    ensures forall r | r in table && r.roomID == roomID && !r.deleted && (before.None? || r.createdAt < before.value) ::
              r in page || (|page| == limit && forall p | p in page :: r.createdAt <= p.createdAt)
  {
    var v := Visible(table, roomID, before);
    forall r | r in v && r !in page ensures |page| == limit {
      if |page| < limit {
        var taken := set p | p in page;
        assert taken <= v - {r};
        SubsetSize(taken, v - {r});
        PageSize(page);
      }
    }
  }

  lemma {:induction false} PageSize(page: seq<Row>)
    requires NewestFirst(page)
    ensures |set p | p in page| == |page|
  {
    if page == [] {
      assert (set p | p in page) == {};
    } else {
      var before, last := page[..|page| - 1], page[|page| - 1];
      PageSize(before);
      assert (set p | p in page) == (set p | p in before) + {last};
    }
  }

  method Newest(rows: set<Row>) returns (newest: Row)
    requires rows != {}
    ensures newest in rows
    ensures forall r | r in rows :: r.createdAt <= newest.createdAt
  {
    newest :| newest in rows;
    var todo := rows - {newest};
    while todo != {}
      invariant todo <= rows && newest in rows
      invariant forall r | r in rows - todo :: r.createdAt <= newest.createdAt
      decreases todo
    {
      var r :| r in todo;
      if r.createdAt > newest.createdAt { newest := r; }
      todo := todo - {r};
    }
  }

  // ---------- Walking through the pages ----------

  /** A client's pages: each asked for with the last row's time, up to the first empty one. */
  ghost predicate IsWalk(table: set<Row>, roomID: string, limit: nat, before: Option<int>, pages: seq<seq<Row>>)
    decreases |pages|
  {
    && pages != []
    && IsPage(Visible(table, roomID, before), limit, pages[0])
    && if pages[0] == [] then |pages| == 1
       else IsWalk(table, roomID, limit, Some(pages[0][|pages[0]| - 1].createdAt), pages[1..])
  }

  function Concat(pages: seq<seq<Row>>): seq<Row> {
    if pages == [] then [] else pages[0] + Concat(pages[1..])
  }

  ghost predicate DistinctTimes(v: set<Row>) {
    forall r, q | r in v && q in v && r.createdAt == q.createdAt :: r == q
  }

  /** Exactly the visible rows, newest first, each once. */
  ghost predicate Complete(v: set<Row>, rows: seq<Row>) {
    NewestFirst(rows) && forall r :: r in rows <==> r in v
  }

  /** What the next page will be chosen from: everything older than this page's last row. */
  lemma RestIsOlder(table: set<Row>, roomID: string, before: Option<int>, limit: nat, page: seq<Row>)
    requires IsPage(Visible(table, roomID, before), limit, page) && page != []
    ensures var v := Visible(table, roomID, before);
            var rest := Visible(table, roomID, Some(page[|page| - 1].createdAt));
            && rest <= v && (forall r | r in rest :: r !in page) && |rest| < |v|
            && (DistinctTimes(v) ==> forall r | r in v :: r in page || r in rest)
  {
    var v := Visible(table, roomID, before);
    var last := page[|page| - 1];
    var rest := Visible(table, roomID, Some(last.createdAt));
    assert last in page && last in v && last !in rest;
    assert rest <= v - {last};
    SubsetSize(rest, v - {last});
  }

  /** Paging stops: a walk has at most one page for each visible row, and the empty one. */
  lemma {:induction false} WalksEnd(table: set<Row>, roomID: string, limit: nat, before: Option<int>, pages: seq<seq<Row>>)
    requires IsWalk(table, roomID, limit, before, pages)
    ensures |pages| <= |Visible(table, roomID, before)| + 1
    decreases |pages|
  {
    if pages[0] != [] {
      RestIsOlder(table, roomID, before, limit, pages[0]);
      WalksEnd(table, roomID, limit, Some(pages[0][|pages[0]| - 1].createdAt), pages[1..]);
    }
  }

  lemma JoinPages(v: set<Row>, page: seq<Row>, rest: set<Row>, tail: seq<Row>)
    requires NewestFirst(page) && page != [] && Complete(rest, tail)
    requires forall r | r in rest :: r.createdAt < page[|page| - 1].createdAt
    requires forall r :: r in v <==> r in page || r in rest
    ensures Complete(v, page + tail)
  {
    var all, last := page + tail, page[|page| - 1];
    forall i, j | 0 <= i < j < |all|
      ensures all[i] != all[j] && all[i].createdAt >= all[j].createdAt
    {
      if i < |page| <= j {
        assert all[j] in tail;
        assert page[i].createdAt >= last.createdAt;
      }
    }
  }

  lemma {:induction false} WalkCompletes(table: set<Row>, roomID: string, limit: nat, before: Option<int>,
                                         pages: seq<seq<Row>>)
    requires limit >= 1 && IsWalk(table, roomID, limit, before, pages)
    requires DistinctTimes(Visible(table, roomID, before))
    ensures Complete(Visible(table, roomID, before), Concat(pages))
    decreases |pages|
  {
    var v := Visible(table, roomID, before);
    if pages[0] == [] {
      assert v == {};
      assert pages[1..] == [];
    } else {
      var cursor := pages[0][|pages[0]| - 1].createdAt;
      RestIsOlder(table, roomID, before, limit, pages[0]);
      WalkCompletes(table, roomID, limit, Some(cursor), pages[1..]);
      JoinPages(v, pages[0], Visible(table, roomID, Some(cursor)), Concat(pages[1..]));
    }
  }

  lemma InFields(table: set<Row>, roomID: string, before: Option<int>)
    ensures var v := Visible(table, roomID, before);
            forall r :: r in v <==>
              r in table && r.roomID == roomID && !r.deleted && (before.None? || r.createdAt < before.value)
  {
  }

  /** With distinct times every walk from any cursor yields exactly the room's undeleted rows before it,
      newest first, each once. */
  lemma WalksAreComplete(table: set<Row>, roomID: string, limit: nat, before: Option<int>, pages: seq<seq<Row>>)
    requires limit >= 1 && IsWalk(table, roomID, limit, before, pages)
    requires DistinctTimes(Visible(table, roomID, before))
    ensures NewestFirst(Concat(pages))
    ensures forall r :: r in Concat(pages) <==>
              r in table && r.roomID == roomID && !r.deleted && (before.None? || r.createdAt < before.value)
  {
    WalkCompletes(table, roomID, limit, before, pages);
    InFields(table, roomID, before);
  }

  // ---------- Rows of one instant ----------

  lemma {:induction false} NewestExists(rows: set<Row>)
    requires rows != {}
    ensures exists n :: n in rows && forall r | r in rows :: r.createdAt <= n.createdAt
    decreases rows
  {
    var r :| r in rows;
    if rows == {r} {
      assert forall q | q in rows :: q.createdAt <= r.createdAt;
    } else {
      assert rows == (rows - {r}) + {r};
      NewestExists(rows - {r});
      var n :| n in rows - {r} && forall q | q in rows - {r} :: q.createdAt <= n.createdAt;
      var m := if r.createdAt > n.createdAt then r else n;
      assert m in rows && forall q | q in rows :: q.createdAt <= m.createdAt;
    }
  }

  lemma {:induction false} WalkExists(table: set<Row>, roomID: string, before: Option<int>) returns (pages: seq<seq<Row>>)
    ensures IsWalk(table, roomID, 1, before, pages)
    decreases |Visible(table, roomID, before)|
  {
    var v := Visible(table, roomID, before);
    if v == {} {
      pages := [[]];
    } else {
      NewestExists(v);
      var n :| n in v && forall r | r in v :: r.createdAt <= n.createdAt;
      assert |v| >= 1 by { assert v == (v - {n}) + {n}; }
      assert IsPage(v, 1, [n]);
      RestIsOlder(table, roomID, before, 1, [n]);
      var tail := WalkExists(table, roomID, Some(n.createdAt));
      pages := [[n]] + tail;
      assert pages[1..] == tail;
    }
  }

  /** With pages of one row, two rows of one instant never both come. */
  lemma {:induction false} OneOfATie(table: set<Row>, roomID: string, before: Option<int>, pages: seq<seq<Row>>, r: Row, q: Row)
    requires IsWalk(table, roomID, 1, before, pages) && r != q && r.createdAt == q.createdAt
    ensures !(r in Concat(pages) && q in Concat(pages))
    decreases |pages|
  {
    if pages[0] != [] {
      var cursor := pages[0][0].createdAt;
      OneOfATie(table, roomID, Some(cursor), pages[1..], r, q);
      AllVisible(table, roomID, Some(cursor), 1, pages[1..]);
      assert Concat(pages) == pages[0] + Concat(pages[1..]);
      assert pages[0] == [pages[0][0]];
    } else {
      assert pages[1..] == [];
    }
  }

  lemma {:induction false} AllVisible(table: set<Row>, roomID: string, before: Option<int>, limit: nat, pages: seq<seq<Row>>)
    requires IsWalk(table, roomID, limit, before, pages)
    ensures forall r | r in Concat(pages) :: r in Visible(table, roomID, before)
    decreases |pages|
  {
    if pages[0] != [] {
      RestIsOlder(table, roomID, before, limit, pages[0]);
      AllVisible(table, roomID, Some(pages[0][|pages[0]| - 1].createdAt), limit, pages[1..]);
    } else {
      assert pages[1..] == [];
    }
  }

  ghost predicate AlwaysComplete(table: set<Row>, roomID: string) {
    forall limit: nat, pages | limit >= 1 && IsWalk(table, roomID, limit, None, pages) ::
      Complete(Visible(table, roomID, None), Concat(pages))
  }

  lemma AlwaysCompleteIff(table: set<Row>, roomID: string)
    ensures AlwaysComplete(table, roomID) <==> DistinctTimes(Visible(table, roomID, None))
  {
    var v := Visible(table, roomID, None);
    if DistinctTimes(v) {
      forall limit: nat, pages | limit >= 1 && IsWalk(table, roomID, limit, None, pages)
        ensures Complete(v, Concat(pages))
      {
        WalkCompletes(table, roomID, limit, None, pages);
      }
    } else {
      var r, q :| r in v && q in v && r.createdAt == q.createdAt && r != q;
      var pages := WalkExists(table, roomID, None);
      OneOfATie(table, roomID, None, pages, r, q);
      assert !Complete(v, Concat(pages));
    }
  }

  /** Exactly the room's undeleted rows, newest first, each once. */
  ghost predicate ShowsAll(table: set<Row>, roomID: string, rows: seq<Row>) {
    NewestFirst(rows) && forall r :: r in rows <==> r in table && r.roomID == roomID && !r.deleted
  }

  lemma CompleteShowsAll(table: set<Row>, roomID: string, rows: seq<Row>)
    ensures Complete(Visible(table, roomID, None), rows) <==> ShowsAll(table, roomID, rows)
  {
    InFields(table, roomID, None);
  }

  ghost predicate AlwaysShowsAll(table: set<Row>, roomID: string) {
    forall limit: nat, pages | limit >= 1 && IsWalk(table, roomID, limit, None, pages) ::
      ShowsAll(table, roomID, Concat(pages))
  }

  lemma AlwaysCompleteShowsAll(table: set<Row>, roomID: string)
    requires AlwaysComplete(table, roomID)
    ensures AlwaysShowsAll(table, roomID)
  {
    forall limit: nat, pages | limit >= 1 && IsWalk(table, roomID, limit, None, pages)
      ensures ShowsAll(table, roomID, Concat(pages))
    {
      CompleteShowsAll(table, roomID, Concat(pages));
    }
  }

  lemma AlwaysShowsAllIsComplete(table: set<Row>, roomID: string)
    requires AlwaysShowsAll(table, roomID)
    ensures AlwaysComplete(table, roomID)
  {
    forall limit: nat, pages | limit >= 1 && IsWalk(table, roomID, limit, None, pages)
      ensures Complete(Visible(table, roomID, None), Concat(pages))
    {
      CompleteShowsAll(table, roomID, Concat(pages));
    }
  }

  /** No two undeleted rows of the room share their time. */
  ghost predicate NoTies(table: set<Row>, roomID: string) {
    forall r, q | r in table && q in table && r.roomID == roomID && q.roomID == roomID
                  && !r.deleted && !q.deleted && r.createdAt == q.createdAt :: r == q
  }

  lemma NoTiesIsDistinct(table: set<Row>, roomID: string)
    ensures NoTies(table, roomID) <==> DistinctTimes(Visible(table, roomID, None))
  {
    InFields(table, roomID, None);
  }

  /** Paging back from the newest row shows all, for every page size and every walk, exactly without ties. */
  lemma CompleteIffDistinctTimes(table: set<Row>, roomID: string)
    ensures AlwaysShowsAll(table, roomID) <==> NoTies(table, roomID)
  {
    AlwaysCompleteIff(table, roomID);
    NoTiesIsDistinct(table, roomID);
    if AlwaysComplete(table, roomID) {
      AlwaysCompleteShowsAll(table, roomID);
    } else if AlwaysShowsAll(table, roomID) {
      AlwaysShowsAllIsComplete(table, roomID);
    }
  }
}
