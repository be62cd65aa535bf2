/**
 The Zoho adapter's view of a mailbox (zoho.provider.ts). Zoho keeps no change log: a cursor
 is a received-time watermark and pages are offsets into the mailbox, newest first.
 */
module ZohoFeed {
  import opened Common

  type MessageId = nat

  datatype Msg = Msg(id: MessageId, receivedTime: nat)

  type Mailbox = seq<Msg>

  const PAGE := 200

  /** `sortBy=date&sortorder=false` */
  ghost predicate NewestFirst(b: Mailbox) {
    forall i, j :: 0 <= i <= j < |b| ==> b[i].receivedTime >= b[j].receivedTime
  }

  ghost predicate DistinctIds(b: Mailbox) {
    forall i, j :: 0 <= i < j < |b| ==> b[i].id != b[j].id
  }

  /** `/messages/view?start=..&limit=..`; offsets are 1-based. */
  function View(b: Mailbox, start: nat, limit: nat): seq<Msg>
    requires start >= 1
  {
    if start - 1 >= |b| then []
    else if start - 1 + limit >= |b| then b[start - 1..]
    else b[start - 1..start - 1 + limit]
  }

  function Ids(ms: seq<Msg>): (ids: seq<MessageId>)
    ensures |ids| == |ms| && forall i :: 0 <= i < |ms| ==> ids[i] == ms[i].id
  {
    seq(|ms|, i requires 0 <= i < |ms| => ms[i].id)
  }

  /** The messages at or above the watermark. */
  function Fresh(ms: seq<Msg>, since: nat): seq<Msg> {
    if ms == [] then []
    else if ms[0].receivedTime >= since then [ms[0]] + Fresh(ms[1..], since)
    else Fresh(ms[1..], since)
  }

  datatype ChangePage = ChangePage(messageIds: seq<MessageId>, nextPageToken: Option<nat>, cursor: Option<nat>, cursorInvalid: bool)

  function ListChanged(b: Mailbox, since: nat, start: nat): ChangePage
    requires start >= 1
  {
    var data := View(b, start, PAGE);
    var recent := Fresh(data, since);
    ChangePage(
      Ids(recent),
      if |recent| == |data| && |data| == PAGE then Some(start + PAGE) else None,
      if start == 1 && data != [] then Some(data[0].receivedTime) else None,
      false)
  }

  /** The watermark `getProfile` takes: the newest received time, or zero for an empty mailbox. */
  function ProfileCursor(b: Mailbox): nat {
    if b == [] then 0 else b[0].receivedTime
  }

  function Min(x: nat, y: nat): nat { if x <= y then x else y }

  function ListIds(b: Mailbox, start: nat, maxResults: nat): (seq<MessageId>, Option<nat>)
    requires start >= 1
  {
    var limit := Min(maxResults, 200);
    var data := View(b, start, limit);
    (Ids(data), if |data| == limit then Some(start + limit) else None)
  }

  /** Following the listing's pages to their end. */
  function ListAll(b: Mailbox, start: nat, maxResults: nat): seq<MessageId>
    requires start >= 1 && maxResults >= 1
    decreases |b| + 1 - start
  {
    var (ids, next) := ListIds(b, start, maxResults);
    if next.None? || start > |b| then ids else ids + ListAll(b, next.value, maxResults)
  }

  /** The pages of a listing are the mailbox cut up, at most 200 at a time, and together all of it. */
  lemma {:induction false} ListingIsTheMailbox(b: Mailbox, start: nat, maxResults: nat)
    requires 1 <= start <= |b| + 1 && maxResults >= 1
    ensures |ListIds(b, start, maxResults).0| <= maxResults && |ListIds(b, start, maxResults).0| <= 200
    ensures ListAll(b, start, maxResults) == Ids(b[start - 1..])
    decreases |b| + 1 - start
  {
    var limit := Min(maxResults, 200);
    var (ids, next) := ListIds(b, start, maxResults);
    if next.Some? {
      ListingIsTheMailbox(b, start + limit, maxResults);
      assert Ids(b[start - 1..]) == ids + Ids(b[start - 1 + limit..]);
    }
  }

  // ---------------------------------------------------------------- the fresh messages

  /** In a newest-first list the fresh messages are the front. */
  lemma {:induction false} FreshIsPrefix(ms: seq<Msg>, since: nat)
    requires NewestFirst(ms)
    ensures Fresh(ms, since) <= ms
    ensures forall i :: 0 <= i < |ms| ==> (ms[i].receivedTime >= since <==> i < |Fresh(ms, since)|)
    decreases |ms|
  {
    if ms != [] {
      FreshIsPrefix(ms[1..], since);
      var rest := Fresh(ms[1..], since);
      assert forall i :: 0 < i < |ms| ==> ms[i] == ms[1..][i-1];
      assert rest != [] ==> |ms| > 1 && ms[1].receivedTime >= since;
    }
  }

  lemma ViewIsNewestFirst(b: Mailbox, start: nat, limit: nat)
    requires NewestFirst(b) && start >= 1
    ensures NewestFirst(View(b, start, limit))
    ensures |View(b, start, limit)| == Min(limit, if start - 1 >= |b| then 0 else |b| - (start - 1))
    ensures forall i :: 0 <= i < |View(b, start, limit)| ==> View(b, start, limit)[i] == b[start - 1 + i]
  {
  }

  /**
   One page, read off the mailbox: its ids are the fresh messages among its positions, it has a
   successor exactly when it is full and recent, and only the first one carries a cursor.
   */
  lemma PageIs(b: Mailbox, since: nat, start: nat)
    requires NewestFirst(b) && start >= 1
    ensures var page := ListChanged(b, since, start);
            && (forall id :: id in page.messageIds ==> FreshIn(b, since, id))
            && (forall k :: start - 1 <= k < |b| && k < start - 1 + PAGE && b[k].receivedTime >= since ==> b[k].id in page.messageIds)
            && (page.nextPageToken.Some? ==> page.nextPageToken.value == start + PAGE)
            && (page.nextPageToken.Some? <==> start - 1 + PAGE <= |b| && b[start - 2 + PAGE].receivedTime >= since)
            && (page.cursor.Some? <==> start == 1 && b != [])
            && (page.cursor.Some? ==> page.cursor.value == b[0].receivedTime)
  {
    var data := View(b, start, PAGE);
    ViewIsNewestFirst(b, start, PAGE);
    FreshIsPrefix(data, since);
    var recent := Fresh(data, since);
    var page := ListChanged(b, since, start);
    if |data| == PAGE {
      assert data[PAGE - 1] == b[start - 1 + (PAGE - 1)];
      assert data[PAGE - 1].receivedTime >= since <==> |recent| == PAGE;
    }
    forall id | id in page.messageIds
      ensures FreshIn(b, since, id)
    {
      var i :| 0 <= i < |recent| && page.messageIds[i] == id;
      assert recent[i] == data[i] == b[start - 1 + i];
      assert b[start - 1 + i] in b;
    }
    forall k | start - 1 <= k < |b| && k < start - 1 + PAGE && b[k].receivedTime >= since
      ensures b[k].id in page.messageIds
    {
      var i := k - (start - 1);
      assert data[i] == b[k] && recent[i] == data[i];
      assert page.messageIds[i] == b[k].id;
    }
  }

  // ---------------------------------------------------------------- following the pages

  datatype Followed = Followed(ids: seq<MessageId>, finished: bool)

  /** The adapter's own paging, one mailbox state for each request. */
  function Follow(boxes: seq<Mailbox>, since: nat, start: nat): Followed
    requires start >= 1
    decreases |boxes|
  {
    if boxes == [] then Followed([], false)
    else
      var page := ListChanged(boxes[0], since, start);
      if page.nextPageToken.None? then Followed(page.messageIds, true)
      else
        var rest := Follow(boxes[1..], since, start + PAGE);
        Followed(page.messageIds + rest.ids, rest.finished)
  }

  /** New mail is prepended; nothing leaves. */
  predicate Extends(b: Mailbox, b': Mailbox) {
    |b| <= |b'| && b'[|b'| - |b|..] == b
  }

  ghost predicate Arriving(boxes: seq<Mailbox>) {
    && (forall i :: 0 <= i < |boxes| ==> NewestFirst(boxes[i]))
    && (forall i :: 0 <= i < |boxes| - 1 ==> Extends(boxes[i], boxes[i+1]))
  }

  lemma ArrivingTail(boxes: seq<Mailbox>)
    requires Arriving(boxes) && boxes != []
    ensures Arriving(boxes[1..]) && NewestFirst(boxes[0])
    ensures |boxes| > 1 ==> Extends(boxes[0], boxes[1])
  {
    var tail := boxes[1..];
    assert forall i :: 0 <= i < |tail| ==> tail[i] == boxes[i+1];
    forall i | 0 <= i < |tail| - 1 ensures Extends(tail[i], tail[i+1]) {
      assert Extends(boxes[i+1], boxes[i+1+1]);
    }
    if |boxes| > 1 { assert Extends(boxes[0], boxes[0+1]); }
  }

  lemma ExtendsShifts(b: Mailbox, b': Mailbox, k: nat)
    requires Extends(b, b') && k < |b|
    ensures b'[k + (|b'| - |b|)] == b[k] && b[k] in b'
  {
    assert b'[|b'| - |b|..][k] == b[k];
  }

  lemma {:induction false} ArrivingGrows(boxes: seq<Mailbox>, m: Msg)
    requires Arriving(boxes) && boxes != [] && m in boxes[0]
    ensures m in boxes[|boxes| - 1]
    decreases |boxes|
  {
    if |boxes| > 1 {
      ArrivingTail(boxes);
      var k :| 0 <= k < |boxes[0]| && boxes[0][k] == m;
      ExtendsShifts(boxes[0], boxes[1], k);
      ArrivingGrows(boxes[1..], m);
    }
  }

  /** What following the pages of `b` from an offset promises, `last` being the final mailbox. */
  ghost predicate FollowOk(f: Followed, b: Mailbox, last: Mailbox, since: nat, offset: nat, requests: nat) {
    && (f.finished ==> forall k :: offset <= k < |b| && b[k].receivedTime >= since ==> b[k].id in f.ids)
    && (forall id :: id in f.ids ==> FreshIn(last, since, id))
    && (!f.finished ==> offset + PAGE * requests <= |last|)
  }

  lemma PageThenRest(page: seq<MessageId>, rest: Followed, b: Mailbox, b1: Mailbox, last: Mailbox, since: nat, offset: nat, n: nat)
    requires Extends(b, b1)
    requires forall k :: offset <= k < |b| && k < offset + PAGE && b[k].receivedTime >= since ==> b[k].id in page
    requires forall id :: id in page ==> FreshIn(last, since, id)
    requires FollowOk(rest, b1, last, since, offset + PAGE, n)
    ensures FollowOk(Followed(page + rest.ids, rest.finished), b, last, since, offset, n + 1)
  {
    forall k | rest.finished && offset <= k < |b| && b[k].receivedTime >= since
      ensures b[k].id in page + rest.ids
    {
      if k >= offset + PAGE {
        ExtendsShifts(b, b1, k);
        assert b1[k + (|b1| - |b|)].id in rest.ids;
      }
    }
  }

  lemma FreshStaysFresh(boxes: seq<Mailbox>, since: nat, id: MessageId)
    requires Arriving(boxes) && boxes != [] && FreshIn(boxes[0], since, id)
    ensures FreshIn(boxes[|boxes| - 1], since, id)
  {
    var m :| m in boxes[0] && m.id == id && m.receivedTime >= since;
    ArrivingGrows(boxes, m);
  }

  lemma FirstRequest(boxes: seq<Mailbox>, since: nat, start: nat) returns (page: ChangePage)
    requires Arriving(boxes) && boxes != [] && start >= 1
    ensures page == ListChanged(boxes[0], since, start)
    ensures Arriving(boxes[1..]) && (|boxes| > 1 ==> Extends(boxes[0], boxes[1]))
    ensures forall id :: id in page.messageIds ==> FreshIn(boxes[|boxes| - 1], since, id)
    ensures Follow(boxes, since, start) ==
            if page.nextPageToken.None? then Followed(page.messageIds, true)
            else
              var rest := Follow(boxes[1..], since, start + PAGE);
              Followed(page.messageIds + rest.ids, rest.finished)
  {
    page := ListChanged(boxes[0], since, start);
    ArrivingTail(boxes);
    PageIs(boxes[0], since, start);
    forall id | id in page.messageIds ensures FreshIn(boxes[|boxes| - 1], since, id) {
      FreshStaysFresh(boxes, since, id);
    }
  }

  lemma LastRequest(b: Mailbox, since: nat, start: nat)
    requires NewestFirst(b) && start >= 1 && ListChanged(b, since, start).nextPageToken.Some?
    requires forall id :: id in ListChanged(b, since, start).messageIds ==> FreshIn(b, since, id)
    ensures FollowOk(Followed(ListChanged(b, since, start).messageIds + [], false), b, b, since, start - 1, 1)
  {
    PageIs(b, since, start);
    PageThenRest(ListChanged(b, since, start).messageIds, Followed([], false), b, b, b, since, start - 1, 0);
  }

  lemma NextRequest(b: Mailbox, b1: Mailbox, last: Mailbox, rest: Followed, since: nat, start: nat, n: nat)
    requires NewestFirst(b) && start >= 1 && Extends(b, b1)
    requires forall id :: id in ListChanged(b, since, start).messageIds ==> FreshIn(last, since, id)
    requires FollowOk(rest, b1, last, since, start - 1 + PAGE, n)
    ensures FollowOk(Followed(ListChanged(b, since, start).messageIds + rest.ids, rest.finished), b, last, since, start - 1, n + 1)
  {
    PageIs(b, since, start);
    PageThenRest(ListChanged(b, since, start).messageIds, rest, b, b1, last, since, start - 1, n);
  }

  /** Positions only grow, so what a page has not reached yet lies at or beyond the next offset. */
  lemma {:induction false} FollowFrom(boxes: seq<Mailbox>, since: nat, start: nat)
    requires Arriving(boxes) && boxes != [] && start >= 1
    ensures FollowOk(Follow(boxes, since, start), boxes[0], boxes[|boxes| - 1], since, start - 1, |boxes|)
    decreases |boxes|
  {
    var b, last := boxes[0], boxes[|boxes| - 1];
    var page := FirstRequest(boxes, since, start);
    if page.nextPageToken.None? {
      EndOfPages(b, since, start);
    } else if |boxes| == 1 {
      assert Follow(boxes[1..], since, start + PAGE) == Followed([], false);
      LastRequest(b, since, start);
    } else {
      FollowFrom(boxes[1..], since, start + PAGE);
      assert boxes[1..][0] == boxes[1] && boxes[1..][|boxes| - 2] == last;
      NextRequest(b, boxes[1], last, Follow(boxes[1..], since, start + PAGE), since, start, |boxes| - 1);
    }
  }

  /** A page without a successor holds every fresh message from its offset on. */
  lemma EndOfPages(b: Mailbox, since: nat, start: nat)
    requires NewestFirst(b) && start >= 1 && ListChanged(b, since, start).nextPageToken.None?
    ensures forall k :: start - 1 <= k < |b| && b[k].receivedTime >= since ==> b[k].id in ListChanged(b, since, start).messageIds
  {
    PageIs(b, since, start);
  }

  predicate FreshIn(b: Mailbox, since: nat, id: MessageId) {
    exists m :: m in b && m.id == id && m.receivedTime >= since
  }

  /**
   Followed to its end while mail keeps arriving, the paging collects every message that was at
   or above the watermark when it began and none below it; and it does end, within one request
   more than the final mailbox has full pages.
   */
  lemma PagingMissesNothing(boxes: seq<Mailbox>, since: nat)
    requires Arriving(boxes) && boxes != []
    ensures var f := Follow(boxes, since, 1);
            var last := boxes[|boxes| - 1];
            && (f.finished ==> forall m :: m in boxes[0] && m.receivedTime >= since ==> m.id in f.ids)
            && (forall id :: id in f.ids ==> FreshIn(last, since, id))
            && (|boxes| > |last| / PAGE ==> f.finished)
  {
    FollowFrom(boxes, since, 1);
  }
}
