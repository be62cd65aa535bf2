/**
 Keyset pagination of an account's messages (messages.service.ts, `listForAccount`) over a
 table that may grow between two pages.

 The database is assumed to return the rows the query asks for, in the order it asks for.
 */
module MessagePages {
  import opened Common

  /** `id` is a UUID, ordered as a number. */
  datatype Row = Row(id: nat, accountId: nat, sentAt: int)

  datatype Page = Page(messages: seq<Row>, nextCursor: Option<nat>)

  /** `orderBy: [{ sentAt: 'desc' }, { id: 'desc' }]` */
  predicate Above(a: Row, b: Row) {
    a.sentAt > b.sentAt || (a.sentAt == b.sentAt && a.id > b.id)
  }

  ghost predicate Descending(s: seq<Row>) {
    forall i, j :: 0 <= i < j < |s| ==> Above(s[i], s[j])
  }

  /** `id` is the primary key. */
  ghost predicate Keyed(t: set<Row>) {
    forall a, b :: a in t && b in t && a.id == b.id ==> a == b
  }

  // ---------------------------------------------------------------- the query

  function OfAccount(t: set<Row>, account: nat): set<Row> {
    set r | r in t && r.accountId == account
  }

  ghost predicate IsTop(t: set<Row>, r: Row) {
    r in t && forall x :: x in t && x != r ==> Above(r, x)
  }

  lemma {:induction false} TopExists(t: set<Row>)
    requires t != {} && Keyed(t)
    ensures exists r :: IsTop(t, r)
    decreases |t|
  {
    var x :| x in t;
    if t == {x} {
      assert IsTop(t, x);
    } else {
      var rest := t - {x};
      TopExists(rest);
      var y :| IsTop(rest, y);
      if Above(x, y) {
        forall z | z in t && z != x ensures Above(x, z) {
          assert z in rest;
        }
        assert IsTop(t, x);
      } else {
        assert x.id != y.id;
        assert IsTop(t, y);
      }
    }
  }

  /** The rows in the order of the query. */
  ghost function Listing(t: set<Row>): (s: seq<Row>)
    requires Keyed(t)
    ensures Descending(s)
    ensures forall r :: r in s <==> r in t
    decreases |t|
  {
    if t == {} then []
    else
      TopExists(t);
      var r :| IsTop(t, r);
      var rest := Listing(t - {r});
      assert forall i :: 0 <= i < |rest| ==> rest[i] in t - {r};
      [r] + rest
  }

  /** The order leaves no choice: only one descending sequence has given members. */
  lemma {:induction false} DescendingIsUnique(a: seq<Row>, b: seq<Row>)
    requires Descending(a) && Descending(b) && forall r :: r in a <==> r in b
    ensures a == b
    decreases |a|
  {
    assert a != [] ==> a[0] in b;
    assert b != [] ==> b[0] in a;
    if a != [] {
      assert a[0] == b[0];
      forall r ensures r in a[1..] <==> r in b[1..] {
        assert r in a <==> r == a[0] || r in a[1..];
        assert r in b <==> r == b[0] || r in b[1..];
        assert a[0] !in a[1..] && b[0] !in b[1..];
      }
      DescendingIsUnique(a[1..], b[1..]);
      assert a == [a[0]] + a[1..] && b == [b[0]] + b[1..];
    }
  }

  /** The rows from the cursor row on. */
  function FromCursor(s: seq<Row>, cursor: Row): seq<Row> {
    if s == [] then [] else if Above(s[0], cursor) then FromCursor(s[1..], cursor) else s
  }

  /** `findMany` with its optional cursor and `skip: 1`, before `take`. An unknown cursor matches nothing. */
  ghost function Matching(t: set<Row>, account: nat, cursor: Option<nat>): seq<Row>
    requires Keyed(t)
  {
    var all := Listing(OfAccount(t, account));
    match cursor
    case None => all
    case Some(id) =>
      if c :| c in t && c.id == id then
        var from := FromCursor(all, c);
        if from == [] then [] else from[1..]
      else []
  }

  function Take(s: seq<Row>, n: nat): seq<Row> {
    if |s| <= n then s else s[..n]
  }

  /** One call, once the account is known to be the caller's. */
  ghost function ListPage(t: set<Row>, account: nat, cursor: Option<nat>, limit: nat): Page
    requires Keyed(t)
  {
    var rows := Take(Matching(t, account, cursor), limit + 1);
    var page := Take(rows, limit);
    Page(page, if |rows| > limit && page != [] then Some(page[|page| - 1].id) else None)
  }

  predicate Owns(owner: map<nat, nat>, user: nat, account: nat) {
    account in owner && owner[account] == user
  }

  /** `listForAccount`: nothing of an account that is not the caller's. */
  ghost function ListForAccount(t: set<Row>, owner: map<nat, nat>, user: nat, account: nat, cursor: Option<nat>, limit: nat): Option<Page>
    requires Keyed(t)
  {
    if Owns(owner, user, account) then Some(ListPage(t, account, cursor, limit)) else None
  }

  // ---------------------------------------------------------------- what one page is

  /** The rows a page may still show: those of the account strictly after the cursor row. */
  ghost predicate Remaining(t: set<Row>, account: nat, after: Option<Row>, r: Row) {
    r in t && r.accountId == account && (after.Some? ==> Above(after.value, r))
  }

  lemma {:induction false} FromCursorIs(s: seq<Row>, c: Row)
    requires Descending(s) && c in s
    ensures FromCursor(s, c) != [] && FromCursor(s, c)[0] == c
    ensures Descending(FromCursor(s, c)) && Descending(FromCursor(s, c)[1..])
    ensures forall r :: r in FromCursor(s, c)[1..] <==> r in s && Above(c, r)
    decreases |s|
  {
    if Above(s[0], c) {
      FromCursorIs(s[1..], c);
    } else {
      assert s[0] == c;
      assert forall r :: r in s <==> r == s[0] || r in s[1..];
    }
  }

  lemma MatchingIs(t: set<Row>, account: nat, after: Option<Row>)
    requires Keyed(t) && (after.Some? ==> after.value in t && after.value.accountId == account)
    ensures var s := Matching(t, account, if after.Some? then Some(after.value.id) else None);
            Descending(s) && forall r :: r in s <==> Remaining(t, account, after, r)
  {
    if after.Some? {
      var all := Listing(OfAccount(t, account));
      assert after.value in all;
      FromCursorIs(all, after.value);
    }
  }

  lemma {:induction false} FromCursorIsPart(s: seq<Row>, c: Row)
    ensures forall r :: r in FromCursor(s, c) ==> r in s
    decreases |s|
  {
    if s != [] && Above(s[0], c) {
      FromCursorIsPart(s[1..], c);
    }
  }

  lemma {:induction false} FromForeignCursor(s: seq<Row>, c: Row)
    requires Descending(s) && forall r :: r in s ==> r.id != c.id
    ensures Descending(FromCursor(s, c))
    ensures forall r :: r in FromCursor(s, c) <==> r in s && Above(c, r)
    decreases |s|
  {
    if s != [] {
      assert forall r :: r in s <==> r == s[0] || r in s[1..];
      assert forall r :: r in s[1..] ==> Above(s[0], r);
      if Above(s[0], c) {
        FromForeignCursor(s[1..], c);
      }
    }
  }

  function Below(t: set<Row>, account: nat, c: Row): set<Row> {
    set r | r in t && r.accountId == account && Above(c, r)
  }

  /** With the cursor of another account the skipped row is one of this account's: the first below the cursor. */
  lemma ForeignCursorSkipsOne(t: set<Row>, account: nat, c: Row)
    requires Keyed(t) && c in t && c.accountId != account
    ensures var below := Listing(Below(t, account, c));
            Matching(t, account, Some(c.id)) == if below == [] then [] else below[1..]
  {
    var all := Listing(OfAccount(t, account));
    FromForeignCursor(all, c);
    DescendingIsUnique(FromCursor(all, c), Listing(Below(t, account, c)));
  }

  /** Whatever cursor is sent, even an id of someone else's row, a caller only sees an account of its own. */
  lemma OnlyTheCallersMail(t: set<Row>, owner: map<nat, nat>, user: nat, account: nat, cursor: Option<nat>, limit: nat)
    requires Keyed(t)
    ensures var page := ListForAccount(t, owner, user, account, cursor, limit);
            && (page.Some? <==> Owns(owner, user, account))
            && (page.Some? ==>
                  && |page.value.messages| <= limit
                  && (forall r :: r in page.value.messages ==> r in t && r.accountId == account && Owns(owner, user, r.accountId))
                  && (cursor.Some? && (forall r :: r in t ==> r.id != cursor.value) ==> page.value == Page([], None)))
  {
    var all := Listing(OfAccount(t, account));
    var s := Matching(t, account, cursor);
    forall r | r in s ensures r in OfAccount(t, account) {
      if cursor.Some? && exists c :: c in t && c.id == cursor.value {
        var c :| c in t && c.id == cursor.value;
        FromCursorIsPart(all, c);
      }
    }
    var page := ListPage(t, account, cursor, limit);
    forall r | r in page.messages ensures r in s {
    }
  }

  // ---------------------------------------------------------------- walking the pages

  datatype Walked = Walked(rows: seq<Row>, finished: bool)

  function CursorOf(after: Option<Row>): Option<nat> {
    match after case None => None case Some(r) => Some(r.id)
  }

  /** A caller follows `nextCursor`, one table state and one limit for each request, until it is denied or done. */
  ghost function Walk(tables: seq<set<Row>>, limits: seq<nat>, owner: map<nat, nat>, user: nat, account: nat, cursor: Option<nat>): Walked
    requires |limits| == |tables| && forall t :: t in tables ==> Keyed(t)
    decreases |tables|
  {
    if tables == [] then Walked([], false)
    else match ListForAccount(tables[0], owner, user, account, cursor, limits[0])
      case None => Walked([], false)
      case Some(page) =>
        if page.nextCursor.None? then Walked(page.messages, true)
        else
          var rest := Walk(tables[1..], limits[1..], owner, user, account, page.nextCursor);
          Walked(page.messages + rest.rows, rest.finished)
  }

  /** Rows are only ever inserted. */
  ghost predicate Growing(tables: seq<set<Row>>) {
    forall i, j :: 0 <= i <= j < |tables| ==> tables[i] <= tables[j]
  }

  ghost predicate Sane(tables: seq<set<Row>>, limits: seq<nat>) {
    && |limits| == |tables| && Growing(tables)
    && (forall t :: t in tables ==> Keyed(t))
    && (forall n :: n in limits ==> n >= 1)
  }

  lemma SaneTail(tables: seq<set<Row>>, limits: seq<nat>)
    requires Sane(tables, limits) && tables != []
    ensures Sane(tables[1..], limits[1..]) && (|tables| > 1 ==> tables[0] <= tables[1])
    ensures Keyed(tables[0]) && limits[0] >= 1
  {
    assert limits[0] in limits;
    assert forall n :: n in limits[1..] ==> n in limits;
  }

  /** A page shows the next rows in order, and offers a cursor exactly when rows remain after it. */
  ghost predicate PageOk(page: Page, t: set<Row>, account: nat, after: Option<Row>, limit: nat) {
    && Descending(page.messages)
    && (forall r :: r in page.messages ==> Remaining(t, account, after, r))
    && (page.nextCursor.None? ==> forall r :: Remaining(t, account, after, r) ==> r in page.messages)
    && (page.nextCursor.Some? ==>
          && |page.messages| == limit >= 1
          && var last := page.messages[limit - 1];
             && last.id == page.nextCursor.value
             && (forall r :: Remaining(t, account, after, r) ==> r in page.messages || Above(last, r))
             && exists r :: Remaining(t, account, after, r) && Above(last, r))
  }

  /** A full page of a longer list. */
  lemma FullPage(s: seq<Row>, t: set<Row>, account: nat, after: Option<Row>, limit: nat)
    requires Descending(s) && (forall r :: r in s <==> Remaining(t, account, after, r)) && 1 <= limit < |s|
    ensures PageOk(Page(s[..limit], Some(s[limit - 1].id)), t, account, after, limit)
  {
    var last := s[limit - 1];
    assert s[..limit][limit - 1] == last;
    forall r | r in s ensures r in s[..limit] || Above(last, r) {
      var i :| 0 <= i < |s| && s[i] == r;
      if i < limit { assert s[..limit][i] == r; }
    }
    assert s[limit] in s;
    assert Remaining(t, account, after, s[limit]) && Above(last, s[limit]);
    forall r | r in s[..limit] ensures r in s {
    }
  }

  lemma OwnPageIs(t: set<Row>, account: nat, after: Option<Row>, limit: nat)
    requires Keyed(t) && limit >= 1 && (after.Some? ==> after.value in t && after.value.accountId == account)
    ensures PageOk(ListPage(t, account, CursorOf(after), limit), t, account, after, limit)
  {
    MatchingIs(t, account, after);
    PageOfMatching(t, account, CursorOf(after), limit);
    var s := Matching(t, account, CursorOf(after));
    if |s| > limit {
      FullPage(s, t, account, after, limit);
    }
  }

  /** What the caller is answered: the page after its cursor if the account is its own, and otherwise nothing. */
  lemma PageIs(t: set<Row>, owner: map<nat, nat>, user: nat, account: nat, after: Option<Row>, limit: nat)
    requires Keyed(t) && limit >= 1 && (after.Some? ==> after.value in t && after.value.accountId == account)
    ensures var answer := ListForAccount(t, owner, user, account, CursorOf(after), limit);
            && (answer.Some? <==> Owns(owner, user, account))
            && (answer.Some? ==> PageOk(answer.value, t, account, after, limit))
  {
    OwnPageIs(t, account, after, limit);
  }

  lemma PageOfMatching(t: set<Row>, account: nat, cursor: Option<nat>, limit: nat)
    requires Keyed(t) && limit >= 1
    ensures var s := Matching(t, account, cursor);
            ListPage(t, account, cursor, limit) == if |s| > limit then Page(s[..limit], Some(s[limit - 1].id)) else Page(s, None)
  {
    var s := Matching(t, account, cursor);
    if |s| > limit {
      assert Take(Take(s, limit + 1), limit) == s[..limit];
    }
  }

  /** What a walk from `after` promises, between the first table it reads and the last. */
  ghost predicate WalkOk(w: Walked, first: set<Row>, last: set<Row>, requests: nat, account: nat, after: Option<Row>) {
    && Descending(w.rows)
    && (forall r :: r in w.rows ==> Remaining(last, account, after, r))
    && (w.finished ==> forall r :: Remaining(first, account, after, r) ==> r in w.rows)
    && (!w.finished ==> |w.rows| >= requests)
  }

  lemma PageThenRest(page: seq<Row>, rest: Walked, t0: set<Row>, t1: set<Row>, tn: set<Row>, n: nat, account: nat, after: Option<Row>)
    requires t0 <= t1 <= tn && page != [] && Descending(page)
    requires forall r :: r in page ==> Remaining(t0, account, after, r)
    requires var end := page[|page| - 1];
             && (forall r :: Remaining(t0, account, after, r) ==> r in page || Above(end, r))
             && WalkOk(rest, t1, tn, n, account, Some(end))
    ensures WalkOk(Walked(page + rest.rows, rest.finished), t0, tn, n + 1, account, after)
  {
    var end := page[|page| - 1];
    assert end in page;
    JoinDescending(page, rest.rows);
    forall r | rest.finished && Remaining(t0, account, after, r) ensures r in page + rest.rows {
      if r !in page { assert Remaining(t1, account, Some(end), r); }
    }
  }

  lemma FirstPage(tables: seq<set<Row>>, limits: seq<nat>, owner: map<nat, nat>, user: nat, account: nat, after: Option<Row>) returns (page: Page)
    requires Sane(tables, limits) && tables != [] && Owns(owner, user, account)
    requires after.Some? ==> after.value in tables[0] && after.value.accountId == account
    ensures PageOk(page, tables[0], account, after, limits[0])
    ensures Sane(tables[1..], limits[1..])
    ensures Walk(tables, limits, owner, user, account, CursorOf(after)) ==
            if page.nextCursor.None? then Walked(page.messages, true)
            else
              var rest := Walk(tables[1..], limits[1..], owner, user, account, page.nextCursor);
              Walked(page.messages + rest.rows, rest.finished)
  {
    SaneTail(tables, limits);
    PageIs(tables[0], owner, user, account, after, limits[0]);
    page := ListForAccount(tables[0], owner, user, account, CursorOf(after), limits[0]).value;
  }

  lemma LastPage(page: Page, t0: set<Row>, tn: set<Row>, n: nat, account: nat, after: Option<Row>, limit: nat)
    requires t0 <= tn && page.nextCursor.None? && PageOk(page, t0, account, after, limit)
    ensures WalkOk(Walked(page.messages, true), t0, tn, n, account, after)
  {
  }

  lemma MorePages(page: Page, rest: Walked, t0: set<Row>, t1: set<Row>, tn: set<Row>, n: nat, account: nat, after: Option<Row>, limit: nat)
    requires t0 <= t1 <= tn && page.nextCursor.Some? && PageOk(page, t0, account, after, limit)
    requires WalkOk(rest, t1, tn, n, account, Some(page.messages[limit - 1]))
    ensures WalkOk(Walked(page.messages + rest.rows, rest.finished), t0, tn, n + 1, account, after)
  {
    PageThenRest(page.messages, rest, t0, t1, tn, n, account, after);
  }

  lemma EndOfPage(page: Page, t: set<Row>, account: nat, after: Option<Row>, limit: nat) returns (end: Row)
    requires page.nextCursor.Some? && PageOk(page, t, account, after, limit)
    ensures limit >= 1 && |page.messages| == limit && end == page.messages[limit - 1]
    ensures end.id == page.nextCursor.value && end in t && end.accountId == account
  {
    end := page.messages[limit - 1];
    assert end in page.messages;
  }

  lemma NothingYet(t: set<Row>, account: nat, after: Option<Row>)
    ensures WalkOk(Walked([], false), t, t, 0, account, after)
  {
  }

  /** What a walk from a cursor row shows, whatever is inserted meanwhile. */
  lemma {:induction false} WalkFrom(tables: seq<set<Row>>, limits: seq<nat>, owner: map<nat, nat>, user: nat, account: nat, after: Option<Row>)
    requires Sane(tables, limits) && tables != [] && Owns(owner, user, account)
    requires after.Some? ==> after.value in tables[0] && after.value.accountId == account
    ensures WalkOk(Walk(tables, limits, owner, user, account, CursorOf(after)), tables[0], tables[|tables| - 1], |tables|, account, after)
    decreases |tables|
  {
    var t0, tn, limit := tables[0], tables[|tables| - 1], limits[0];
    var page := FirstPage(tables, limits, owner, user, account, after);
    assert t0 <= tn;
    if page.nextCursor.None? {
      LastPage(page, t0, tn, |tables|, account, after, limit);
    } else {
      var end := EndOfPage(page, t0, account, after, limit);
      var rest := Walk(tables[1..], limits[1..], owner, user, account, Some(end.id));
      if |tables| == 1 {
        NothingYet(tn, account, Some(end));
        MorePages(page, rest, tn, tn, tn, 0, account, after, limit);
      } else {
        WalkFrom(tables[1..], limits[1..], owner, user, account, Some(end));
        MorePages(page, rest, t0, tables[1], tn, |tables| - 1, account, after, limit);
      }
    }
  }

  lemma JoinDescending(a: seq<Row>, b: seq<Row>)
    requires Descending(a) && Descending(b) && a != []
    requires forall r :: r in b ==> Above(a[|a| - 1], r)
    ensures Descending(a + b)
  {
    forall i, j | 0 <= i < j < |a + b| ensures Above((a + b)[i], (a + b)[j]) {
      if i < |a| <= j { assert b[j - |a|] in b; }
    }
  }

  lemma {:induction false} DistinctFits(s: seq<Row>, t: set<Row>)
    requires Descending(s) && forall r :: r in s ==> r in t
    ensures |s| <= |t|
    decreases |s|
  {
    if s != [] {
      forall r | r in s[1..] ensures r in t - {s[0]} {
        assert Above(s[0], r);
      }
      assert s[0] in t;
      DistinctFits(s[1..], t - {s[0]});
    }
  }

  /**
   An owner who follows `nextCursor` while rows are inserted sees a strictly descending list,
   so nothing twice; only rows of the account; every row that was there from the start; and
   reaches the end within one request more than the account ever has rows.
   */
  lemma WalkMissesNothing(tables: seq<set<Row>>, limits: seq<nat>, owner: map<nat, nat>, user: nat, account: nat)
    requires Sane(tables, limits) && tables != [] && Owns(owner, user, account)
    ensures var w := Walk(tables, limits, owner, user, account, None);
            var last := OfAccount(tables[|tables| - 1], account);
            && (forall i, j :: 0 <= i < j < |w.rows| ==>
                  w.rows[i].sentAt > w.rows[j].sentAt || (w.rows[i].sentAt == w.rows[j].sentAt && w.rows[i].id > w.rows[j].id))
            && (forall r :: r in w.rows ==> r in last)
            && (w.finished ==> forall r :: r in OfAccount(tables[0], account) ==> r in w.rows)
            && (|tables| > |last| ==> w.finished)
  {
    WalkFrom(tables, limits, owner, user, account, None);
    var w := Walk(tables, limits, owner, user, account, None);
    var last := OfAccount(tables[|tables| - 1], account);
    assert forall r :: r in OfAccount(tables[0], account) ==> Remaining(tables[0], account, None, r);
    DistinctFits(w.rows, last);
  }

  /** Without inserts the pages are the whole sorted table, and nothing for anyone else. */
  lemma QuietWalkIsTheListing(t: set<Row>, limits: seq<nat>, owner: map<nat, nat>, user: nat, account: nat)
    requires Keyed(t) && |limits| > |OfAccount(t, account)| && forall n :: n in limits ==> n >= 1
    ensures Walk(seq(|limits|, _ => t), limits, owner, user, account, None)
            == if Owns(owner, user, account) then Walked(Listing(OfAccount(t, account)), true) else Walked([], false)
  {
    if Owns(owner, user, account) {
      var tables := seq(|limits|, _ => t);
      WalkMissesNothing(tables, limits, owner, user, account);
      var w := Walk(tables, limits, owner, user, account, None);
      assert forall i, j :: 0 <= i < j < |w.rows| ==> Above(w.rows[i], w.rows[j]);
      DescendingIsUnique(w.rows, Listing(OfAccount(t, account)));
    }
  }
}
