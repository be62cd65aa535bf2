/**
 One sync run (mail-sync.service.ts) over the answers the provider gives it: the paging loop
 with its cap, the dedupe before the fetch, and the cursor that is written last or not at all.
 */
module MailSync {
  import opened Common
  import opened ZohoFeed

  const MAX_IDS_PER_RUN := 200
  const INITIAL_BATCH := 50

  /** `fetchRawMessage`: the message, null because it is gone, or an exception. */
  datatype Fetched = Raw | Gone | Throws

  datatype Counts = Counts(fetched: nat, created: nat, skipped: nat, gone: nat)

  datatype Mode = Initial | Incremental

  /** Retried on `Failed`, never on `Unrecoverable`. */
  datatype Outcome = Synced(mode: Mode, counts: Counts) | Failed | Unrecoverable

  datatype AccountStatus = ACTIVE | REAUTH_REQUIRED | DISABLED

  /**
   The provider during one run. A request without an answer threw. `raced` are the ids another
   worker stores after this one's dedupe and before its insert.
   */
  datatype Provider = Provider(
    feed: seq<Option<ChangePage>>,
    profile: Option<nat>,
    firstPage: Option<seq<MessageId>>,
    fetch: MessageId -> Fetched,
    raced: set<MessageId>)

  // ---------------------------------------------------------------- sets in insertion order

  /** `ids.forEach((id) => collected.add(id))` on a JavaScript `Set`. */
  function AddAll(collected: seq<MessageId>, ids: seq<MessageId>): seq<MessageId>
    decreases |ids|
  {
    if ids == [] then collected
    else AddAll(if ids[0] in collected then collected else collected + [ids[0]], ids[1..])
  }

  predicate Distinct(s: seq<MessageId>) {
    forall i, j :: 0 <= i < j < |s| ==> s[i] != s[j]
  }

  lemma {:induction false} AddAllIs(collected: seq<MessageId>, ids: seq<MessageId>)
    requires Distinct(collected)
    ensures Distinct(AddAll(collected, ids))
    ensures forall id :: id in AddAll(collected, ids) <==> id in collected || id in ids
    decreases |ids|
  {
    if ids != [] {
      AddAllIs(if ids[0] in collected then collected else collected + [ids[0]], ids[1..]);
    }
  }

  lemma {:induction false} AddAllFresh(collected: seq<MessageId>, ids: seq<MessageId>)
    requires Distinct(collected + ids)
    ensures AddAll(collected, ids) == collected + ids
    decreases |ids|
  {
    if ids == [] {
      assert collected + ids == collected;
    } else {
      assert (collected + ids)[|collected|] == ids[0];
      assert forall i :: 0 <= i < |collected| ==> (collected + ids)[i] == collected[i];
      assert collected + [ids[0]] + ids[1..] == collected + ids;
      AddAllFresh(collected + [ids[0]], ids[1..]);
    }
  }

  // ---------------------------------------------------------------- the paging loop

  /** What the loop leaves: the collected ids and the next cursor, or why it stopped early. */
  datatype Collected = Collected(ids: seq<MessageId>, next: nat, pages: nat) | CursorRejected | ListingFailed

  function Collect(feed: seq<Option<ChangePage>>, ids: seq<MessageId>, next: nat, pages: nat): Collected
    requires Ends(feed)
    decreases |feed|
  {
    match feed[0]
    case None => ListingFailed
    case Some(page) =>
      if page.cursorInvalid then CursorRejected
      else
        var ids' := AddAll(ids, page.messageIds);
        var next' := if page.cursor.Some? then page.cursor.value else next;
        if page.nextPageToken.Some? && |ids'| < MAX_IDS_PER_RUN
        then Collect(feed[1..], ids', next', pages + 1)
        else Collected(ids', next', pages + 1)
  }

  /** The provider's paging stops: some page has no successor, rejects the cursor or fails. */
  predicate Ends(feed: seq<Option<ChangePage>>) {
    feed != [] && (feed[0].None? || feed[0].value.cursorInvalid || feed[0].value.nextPageToken.None? || Ends(feed[1..]))
  }

  /** The ids on the first `n` pages. */
  function IdsOn(feed: seq<Option<ChangePage>>, n: nat): set<MessageId>
    requires n <= |feed|
  {
    set i, id | 0 <= i < n && feed[i].Some? && id in feed[i].value.messageIds :: id
  }

  /** The last cursor the first `n` pages carry. */
  function CursorAfter(feed: seq<Option<ChangePage>>, n: nat, start: nat): nat
    requires n <= |feed|
  {
    if n == 0 then start
    else if feed[n - 1].Some? && feed[n - 1].value.cursor.Some? then feed[n - 1].value.cursor.value
    else CursorAfter(feed, n - 1, start)
  }

  /** Nothing is read after page `k`: it failed, rejects the cursor, has no successor, or fills the cap. */
  predicate StopsAt(feed: seq<Option<ChangePage>>, k: nat)
    requires k < |feed|
  {
    feed[k].None? || feed[k].value.cursorInvalid || feed[k].value.nextPageToken.None? || |IdsOn(feed, k + 1)| >= 200
  }

  /** Page `k` is the first that stops the loop, and the result is what was read by then. */
  ghost predicate ReadTo(feed: seq<Option<ChangePage>>, start: nat, k: nat, c: Collected) {
    && k < |feed| && StopsAt(feed, k) && (forall i :: 0 <= i < k ==> !StopsAt(feed, i))
    && (c.ListingFailed? <==> feed[k].None?)
    && (c.CursorRejected? <==> feed[k].Some? && feed[k].value.cursorInvalid)
    && (c.Collected? ==>
          && c.pages == k + 1 && c.next == CursorAfter(feed, k + 1, start)
          && Distinct(c.ids) && (forall id :: id in c.ids <==> id in IdsOn(feed, k + 1)))
  }

  lemma OneMorePage(feed: seq<Option<ChangePage>>, k: nat, ids: seq<MessageId>)
    requires k < |feed| && feed[k].Some? && Distinct(ids) && forall id :: id in ids <==> id in IdsOn(feed, k)
    ensures var ids' := AddAll(ids, feed[k].value.messageIds);
            Distinct(ids') && (forall id :: id in ids' <==> id in IdsOn(feed, k + 1)) && |ids'| == |IdsOn(feed, k + 1)|
  {
    var ids' := AddAll(ids, feed[k].value.messageIds);
    AddAllIs(ids, feed[k].value.messageIds);
    assert IdsOn(feed, k + 1) == IdsOn(feed, k) + (set id | id in feed[k].value.messageIds);
    DistinctIffSize(ids', IdsOn(feed, k + 1));
  }

  lemma {:induction false} CollectFrom(feed: seq<Option<ChangePage>>, start: nat, k: nat, ids: seq<MessageId>) returns (last: nat)
    requires k < |feed| && Ends(feed[k..]) && forall i :: 0 <= i < k ==> !StopsAt(feed, i)
    requires Distinct(ids) && forall id :: id in ids <==> id in IdsOn(feed, k)
    ensures ReadTo(feed, start, last, Collect(feed[k..], ids, CursorAfter(feed, k, start), k))
    decreases |feed| - k
  {
    last := k;
    assert feed[k..][1..] == feed[k+1..];
    if feed[k].Some? && !feed[k].value.cursorInvalid {
      OneMorePage(feed, k, ids);
      if !StopsAt(feed, k) {
        last := CollectFrom(feed, start, k + 1, AddAll(ids, feed[k].value.messageIds));
      }
    }
  }

  /**
   What the capped paging collects from any feed: every id on the pages up to the first that
   ends the listing or brings the ids to the cap, each once, and the last cursor they carry.
   */
  lemma CollectIs(feed: seq<Option<ChangePage>>, start: nat) returns (last: nat)
    requires Ends(feed)
    ensures ReadTo(feed, start, last, Collect(feed, [], start, 0))
  {
    assert feed[0..] == feed;
    last := CollectFrom(feed, start, 0, []);
  }

  /** The provider would serve these pages, and no more, to a run without a cap. */
  predicate WholeFeed(feed: seq<Option<ChangePage>>, pages: nat) {
    && 1 <= pages <= |feed|
    && (forall i :: 0 <= i < pages ==> feed[i].Some? && !feed[i].value.cursorInvalid)
    && (forall i :: 0 <= i < pages ==> (feed[i].value.nextPageToken.None? <==> i == pages - 1))
  }

  /** Pages are left unread, behind the cursor the run will persist, iff all but the last already hold 200 ids. */
  lemma CapLeavesPagesUnread(feed: seq<Option<ChangePage>>, start: nat, pages: nat)
    requires WholeFeed(feed, pages) && Ends(feed)
    ensures var c := Collect(feed, [], start, 0);
            c.Collected? && c.pages <= pages && (c.pages < pages <==> |IdsOn(feed, pages - 1)| >= 200)
  {
    var k := CollectIs(feed, start);
    assert StopsAt(feed, pages - 1);
    if k < pages - 1 {
      SubsetSize(IdsOn(feed, k + 1), IdsOn(feed, pages - 1));
    } else if pages > 1 {
      assert !StopsAt(feed, pages - 2);
    }
  }

  // ---------------------------------------------------------------- storing a batch

  function Known(ids: seq<MessageId>, stored: set<MessageId>): set<MessageId> {
    set id | id in ids && id in stored
  }

  function ToFetch(ids: seq<MessageId>, known: set<MessageId>): seq<MessageId> {
    if ids == [] then []
    else if ids[0] in known then ToFetch(ids[1..], known)
    else [ids[0]] + ToFetch(ids[1..], known)
  }

  /** The fetch-and-insert loop from `todo` on; it gives up at the first exception. */
  function FetchAll(todo: seq<MessageId>, p: Provider, stored: set<MessageId>, c: Counts): (set<MessageId>, Option<Counts>)
    decreases |todo|
  {
    if todo == [] then (stored, Some(c))
    else match p.fetch(todo[0])
      case Throws => (stored, None)
      case Gone => FetchAll(todo[1..], p, stored, c.(gone := c.gone + 1))
      case Raw =>
        var now := if todo[0] in p.raced then stored + {todo[0]} else stored;
        if todo[0] in now then FetchAll(todo[1..], p, now, c.(skipped := c.skipped + 1))
        else FetchAll(todo[1..], p, now + {todo[0]}, c.(created := c.created + 1))
  }

  function IngestSpec(ids: seq<MessageId>, p: Provider, stored: set<MessageId>): (set<MessageId>, Option<Counts>) {
    var known := Known(ids, stored);
    var toFetch := ToFetch(ids, known);
    FetchAll(toFetch, p, stored, Counts(|toFetch|, 0, |known|, 0))
  }

  /** What a run leaves behind. */
  datatype After = After(stored: set<MessageId>, cursor: Option<nat>, outcome: Outcome)

  function InitialSpec(p: Provider, stored: set<MessageId>, cursor: Option<nat>): After {
    if p.profile.None? || p.firstPage.None? then After(stored, cursor, Failed)
    else
      var (stored', counts) := IngestSpec(p.firstPage.value, p, stored);
      if counts.None? then After(stored', cursor, Failed)
      else After(stored', p.profile, Synced(Initial, counts.value))
  }

  function IncrementalSpec(p: Provider, stored: set<MessageId>, cursor: nat): After
    requires Ends(p.feed)
  {
    match Collect(p.feed, [], cursor, 0)
    case ListingFailed => After(stored, Some(cursor), Failed)
    case CursorRejected => InitialSpec(p, stored, None)
    case Collected(ids, next, _) =>
      var (stored', counts) := IngestSpec(ids, p, stored);
      if counts.None? then After(stored', Some(cursor), Failed)
      else After(stored', Some(next), Synced(Incremental, counts.value))
  }

  // ---------------------------------------------------------------- the service

  class MailSyncService {
    var stored: set<MessageId>          // the account's rows in the message table
    var syncCursor: Option<nat>
    var lastSyncError: bool

    constructor ()
      ensures stored == {} && syncCursor == None && !lastSyncError
    {
      stored := {};
      syncCursor := None;
      lastSyncError := false;
    }

    method IngestAll(ids: seq<MessageId>, p: Provider) returns (counts: Option<Counts>)
      modifies this`stored
      ensures (stored, counts) == IngestSpec(ids, p, old(stored))
    {
      var known := Known(ids, stored);
      var toFetch := ToFetch(ids, known);
      var created: nat, skipped: nat, gone: nat := 0, |known|, 0;
      var i := 0;
      assert toFetch[0..] == toFetch;
      while i < |toFetch|
        invariant 0 <= i <= |toFetch|
        invariant FetchAll(toFetch[i..], p, stored, Counts(|toFetch|, created, skipped, gone)) == IngestSpec(ids, p, old(stored))
      {
        var id := toFetch[i];
        assert toFetch[i..][1..] == toFetch[i+1..];
        i := i + 1;
        match p.fetch(id)
        case Throws => return None;
        case Gone => gone := gone + 1;
        case Raw =>
          if id in p.raced {
            stored := stored + {id};       // the other worker's insert
          }
          if id in stored {
            skipped := skipped + 1;
          } else {
            stored := stored + {id};
            created := created + 1;
          }
      }
      counts := Some(Counts(|toFetch|, created, skipped, gone));
    }

    method InitialSync(p: Provider) returns (outcome: Outcome)
      modifies this`stored, this`syncCursor
      ensures After(stored, syncCursor, outcome) == InitialSpec(p, old(stored), old(syncCursor))
    {
      // The cursor is taken before the listing, so mail arriving meanwhile is not skipped.
      if p.profile.None? || p.firstPage.None? {
        return Failed;
      }
      var counts := IngestAll(p.firstPage.value, p);
      if counts.None? {
        return Failed;
      }
      syncCursor := p.profile;
      outcome := Synced(Initial, counts.value);
    }

    method IncrementalSync(p: Provider) returns (outcome: Outcome)
      requires syncCursor.Some? && Ends(p.feed)
      modifies this`stored, this`syncCursor
      ensures After(stored, syncCursor, outcome) == IncrementalSpec(p, old(stored), old(syncCursor).value)
    {
      var cursor := syncCursor.value;
      var collected: seq<MessageId> := [];
      var nextCursor := cursor;
      var request := 0;
      assert p.feed[0..] == p.feed;
      while true
        invariant 0 <= request < |p.feed| && Ends(p.feed[request..])
        invariant stored == old(stored) && syncCursor == old(syncCursor)
        invariant Collect(p.feed[request..], collected, nextCursor, request) == Collect(p.feed, [], cursor, 0)
        decreases |p.feed| - request
      {
        var answer := p.feed[request];
        assert p.feed[request..][1..] == p.feed[request+1..];
        if answer.None? {
          return Failed;
        }
        var page := answer.value;
        if page.cursorInvalid {
          syncCursor := None;
          outcome := InitialSync(p);
          return;
        }
        collected := AddAll(collected, page.messageIds);
        if page.cursor.Some? {
          nextCursor := page.cursor.value;
        }
        request := request + 1;
        if page.nextPageToken.None? || |collected| >= MAX_IDS_PER_RUN {
          break;
        }
      }
      var counts := IngestAll(collected, p);
      if counts.None? {
        return Failed;
      }
      syncCursor := Some(nextCursor);
      outcome := Synced(Incremental, counts.value);
    }

    method SyncAccount(status: Option<AccountStatus>, connected: bool, p: Provider) returns (outcome: Outcome)
      requires Ends(p.feed)
      modifies this
      ensures status != Some(ACTIVE) ==>
                outcome == Unrecoverable && stored == old(stored) && syncCursor == old(syncCursor) && lastSyncError == old(lastSyncError)
      ensures status == Some(ACTIVE) && !connected ==>
                outcome == Failed && stored == old(stored) && syncCursor == old(syncCursor)
      ensures status == Some(ACTIVE) && connected ==>
                After(stored, syncCursor, outcome) ==
                if old(syncCursor).Some? then IncrementalSpec(p, old(stored), old(syncCursor).value)
                else InitialSpec(p, old(stored), old(syncCursor))
      ensures status == Some(ACTIVE) ==> lastSyncError == outcome.Failed?
    {
      if status.None? || status.value != ACTIVE {
        return Unrecoverable;
      }
      if !connected {
        outcome := Failed;
      } else if syncCursor.Some? {
        outcome := IncrementalSync(p);
      } else {
        outcome := InitialSync(p);
      }
      lastSyncError := outcome.Failed?;
    }
  }

  // ---------------------------------------------------------------- what a run promises

  lemma {:induction false} ToFetchIs(ids: seq<MessageId>, known: set<MessageId>)
    ensures forall id :: id in ToFetch(ids, known) <==> id in ids && id !in known
    ensures |ToFetch(ids, known)| <= |ids|
    decreases |ids|
  {
    if ids != [] {
      ToFetchIs(ids[1..], known);
    }
  }

  /** The loop only ever adds, and when it gets through, every id is stored or gone. */
  lemma {:induction false} FetchAllStores(todo: seq<MessageId>, p: Provider, stored: set<MessageId>, c: Counts)
    ensures var (stored', counts) := FetchAll(todo, p, stored, c);
            && stored <= stored' && (forall id :: id in stored' ==> id in stored || id in todo)
            && (counts.Some? <==> forall id :: id in todo ==> p.fetch(id) != Throws)
            && (counts.Some? ==> forall id :: id in todo ==> id in stored' || p.fetch(id) == Gone)
    decreases |todo|
  {
    if todo != [] {
      var id := todo[0];
      assert forall x :: x in todo <==> x == id || x in todo[1..];
      match p.fetch(id)
      case Throws =>
      case Gone => FetchAllStores(todo[1..], p, stored, c.(gone := c.gone + 1));
      case Raw =>
        var now := if id in p.raced then stored + {id} else stored;
        if id in now {
          FetchAllStores(todo[1..], p, now, c.(skipped := c.skipped + 1));
        } else {
          FetchAllStores(todo[1..], p, now + {id}, c.(created := c.created + 1));
        }
    }
  }

  /** The first exception ends the batch: what came before it is stored or gone, what comes after is left alone. */
  lemma {:induction false} FirstExceptionEndsIt(todo: seq<MessageId>, p: Provider, stored: set<MessageId>, c: Counts, k: nat)
    requires k < |todo| && p.fetch(todo[k]) == Throws && forall i :: 0 <= i < k ==> p.fetch(todo[i]) != Throws
    ensures var (stored', counts) := FetchAll(todo, p, stored, c);
            && counts.None? && stored <= stored'
            && (forall id :: id in stored' ==> id in stored || id in todo[..k])
            && (forall i :: 0 <= i < k ==> todo[i] in stored' || p.fetch(todo[i]) == Gone)
    decreases k
  {
    if k > 0 {
      var id, rest := todo[0], todo[1..];
      assert todo[..k] == [id] + rest[..k-1];
      var now := if id in p.raced then stored + {id} else stored;
      match p.fetch(id)
      case Gone => FirstExceptionEndsIt(rest, p, stored, c.(gone := c.gone + 1), k - 1);
      case Raw =>
        if id in now {
          FirstExceptionEndsIt(rest, p, now, c.(skipped := c.skipped + 1), k - 1);
        } else {
          FirstExceptionEndsIt(rest, p, now + {id}, c.(created := c.created + 1), k - 1);
        }
    }
  }

  lemma OthersInsert(before: set<MessageId>, now: set<MessageId>, end: set<MessageId>, raced: set<MessageId>)
    requires before <= now <= before + raced
    ensures (end - before) - raced == (end - now) - raced
  {
  }

  lemma OwnInsert(before: set<MessageId>, now: set<MessageId>, id: MessageId, end: set<MessageId>, raced: set<MessageId>)
    requires before <= now <= before + raced && id !in now && id !in raced && id in end
    ensures |(end - before) - raced| == |(end - (now + {id})) - raced| + 1
  {
    assert (end - before) - raced == ((end - (now + {id})) - raced) + {id};
  }

  /** The ids the provider answers null for, in the order asked. */
  function GoneAmong(todo: seq<MessageId>, p: Provider): seq<MessageId> {
    if todo == [] then []
    else (if p.fetch(todo[0]) == Gone then [todo[0]] else []) + GoneAmong(todo[1..], p)
  }

  lemma {:induction false} GoneAmongIs(todo: seq<MessageId>, p: Provider)
    ensures forall id :: id in GoneAmong(todo, p) <==> id in todo && p.fetch(id) == Gone
    ensures Distinct(todo) ==> Distinct(GoneAmong(todo, p))
    decreases |todo|
  {
    if todo != [] {
      GoneAmongIs(todo[1..], p);
      var rest := GoneAmong(todo[1..], p);
      if p.fetch(todo[0]) == Gone {
        assert GoneAmong(todo, p) == [todo[0]] + rest;
        assert Distinct(todo) ==> todo[0] !in rest;
      } else {
        assert GoneAmong(todo, p) == rest;
      }
    }
  }

  lemma {:induction false} ToFetchDistinct(ids: seq<MessageId>, known: set<MessageId>)
    requires Distinct(ids)
    ensures Distinct(ToFetch(ids, known))
    decreases |ids|
  {
    if ids != [] {
      ToFetchDistinct(ids[1..], known);
      ToFetchIs(ids[1..], known);
    }
  }

  /** Each id is counted once, and `created` counts exactly this worker's own inserts. */
  lemma {:induction false} FetchAllCounts(todo: seq<MessageId>, p: Provider, stored: set<MessageId>, c: Counts)
    ensures var (stored', counts) := FetchAll(todo, p, stored, c);
            counts.Some? ==>
              && counts.value.fetched == c.fetched
              && counts.value.created + counts.value.skipped + counts.value.gone == c.created + c.skipped + c.gone + |todo|
              && counts.value.created - c.created == |(stored' - stored) - p.raced|
    decreases |todo|
  {
    if todo == [] {
      assert stored - stored == {};
    } else {
      var id := todo[0];
      match p.fetch(id)
      case Throws =>
      case Gone => FetchAllCounts(todo[1..], p, stored, c.(gone := c.gone + 1));
      case Raw =>
        var now := if id in p.raced then stored + {id} else stored;
        if id in now {
          var c' := c.(skipped := c.skipped + 1);
          FetchAllCounts(todo[1..], p, now, c');
          var stored' := FetchAll(todo[1..], p, now, c').0;
          OthersInsert(stored, now, stored', p.raced);
        } else {
          var c' := c.(created := c.created + 1);
          FetchAllCounts(todo[1..], p, now + {id}, c');
          FetchAllStores(todo[1..], p, now + {id}, c');
          var stored' := FetchAll(todo[1..], p, now + {id}, c').0;
          OwnInsert(stored, now, id, stored', p.raced);
        }
    }
  }

  lemma {:induction false} FetchAllGone(todo: seq<MessageId>, p: Provider, stored: set<MessageId>, c: Counts)
    ensures var counts := FetchAll(todo, p, stored, c).1;
            counts.Some? ==> counts.value.gone == c.gone + |GoneAmong(todo, p)|
    decreases |todo|
  {
    if todo != [] {
      var id := todo[0];
      var now := if id in p.raced then stored + {id} else stored;
      match p.fetch(id)
      case Throws =>
      case Gone => FetchAllGone(todo[1..], p, stored, c.(gone := c.gone + 1));
      case Raw =>
        if id in now {
          FetchAllGone(todo[1..], p, now, c.(skipped := c.skipped + 1));
        } else {
          FetchAllGone(todo[1..], p, now + {id}, c.(created := c.created + 1));
        }
    }
  }

  /** The ids of a batch that are stored already, with repeats. */
  function KnownList(ids: seq<MessageId>, stored: set<MessageId>): seq<MessageId> {
    if ids == [] then []
    else if ids[0] in stored then [ids[0]] + KnownList(ids[1..], stored)
    else KnownList(ids[1..], stored)
  }

  lemma {:induction false} BatchSplits(ids: seq<MessageId>, stored: set<MessageId>, known: set<MessageId>)
    requires forall id :: id in ids ==> (id in known <==> id in stored)
    ensures |ToFetch(ids, known)| + |KnownList(ids, stored)| == |ids|
    ensures forall id :: id in KnownList(ids, stored) <==> id in ids && id in stored
    ensures Distinct(ids) ==> Distinct(KnownList(ids, stored))
    decreases |ids|
  {
    if ids != [] {
      BatchSplits(ids[1..], stored, known);
    }
  }

  lemma {:induction false} DistinctIffSize(s: seq<MessageId>, elements: set<MessageId>)
    requires forall id :: id in s <==> id in elements
    ensures |elements| <= |s| && (|elements| == |s| <==> Distinct(s))
    decreases |s|
  {
    if s == [] {
      assert elements == {};
    } else if s[0] in s[1..] {
      DistinctIffSize(s[1..], elements);
      var j :| 0 <= j < |s[1..]| && s[1..][j] == s[0];
      assert s[0] == s[j + 1];
    } else {
      DistinctIffSize(s[1..], elements - {s[0]});
      assert forall j :: 0 < j < |s| ==> s[j] == s[1..][j - 1];
      assert Distinct(s[1..]) ==> Distinct(s);
      assert Distinct(s) ==> Distinct(s[1..]);
    }
  }

  function Unstored(ids: seq<MessageId>, stored: set<MessageId>): set<MessageId> {
    set id | id in ids && id !in stored
  }

  /** The unstored ids the provider no longer has. */
  function GoneIds(ids: seq<MessageId>, p: Provider, stored: set<MessageId>): set<MessageId> {
    set id | id in ids && id !in stored && p.fetch(id) == Gone
  }

  /**
   The counts of a finished batch: what was fetched, what this run inserted, what the provider
   no longer has, and the rest. They add up to the batch exactly when no stored id was listed
   twice.
   */
  ghost predicate Tally(c: Counts, ids: seq<MessageId>, p: Provider, before: set<MessageId>, after: set<MessageId>) {
    && c.fetched == |ToFetch(ids, Known(ids, before))|
    && c.created == |(after - before) - p.raced|
    && c.gone == |GoneAmong(ToFetch(ids, Known(ids, before)), p)|
    && c.created + c.skipped + c.gone == c.fetched + |Known(ids, before)|
    && (c.created + c.skipped + c.gone == |ids| <==> Distinct(KnownList(ids, before)))
    && (Distinct(ids) ==>
          && c.fetched == |Unstored(ids, before)|
          && c.gone == |GoneIds(ids, p, before)|
          && c.created + c.skipped + c.gone == |ids|)
  }

  lemma DistinctTally(ids: seq<MessageId>, p: Provider, before: set<MessageId>)
    requires Distinct(ids)
    ensures var toFetch := ToFetch(ids, Known(ids, before));
            && |toFetch| == |Unstored(ids, before)|
            && |GoneAmong(toFetch, p)| == |GoneIds(ids, p, before)|
  {
    var toFetch := ToFetch(ids, Known(ids, before));
    ToFetchIs(ids, Known(ids, before));
    ToFetchDistinct(ids, Known(ids, before));
    GoneAmongIs(toFetch, p);
    DistinctIffSize(toFetch, Unstored(ids, before));
    DistinctIffSize(GoneAmong(toFetch, p), GoneIds(ids, p, before));
  }

  /**
   A batch that finishes leaves every id stored or reported gone, never fetches a stored id,
   and its counts add up to the batch exactly when no stored id was listed twice.
   */
  lemma IngestConserves(ids: seq<MessageId>, p: Provider, stored: set<MessageId>)
    ensures var (stored', counts) := IngestSpec(ids, p, stored);
            && stored <= stored'
            && (forall id :: id in ToFetch(ids, Known(ids, stored)) ==> id !in stored)
            && (counts.Some? ==>
                  && (forall id :: id in ids ==> id in stored' || p.fetch(id) == Gone)
                  && Tally(counts.value, ids, p, stored, stored'))
  {
    var known := Known(ids, stored);
    var toFetch := ToFetch(ids, known);
    ToFetchIs(ids, known);
    FetchAllStores(toFetch, p, stored, Counts(|toFetch|, 0, |known|, 0));
    FetchAllCounts(toFetch, p, stored, Counts(|toFetch|, 0, |known|, 0));
    FetchAllGone(toFetch, p, stored, Counts(|toFetch|, 0, |known|, 0));
    BatchSplits(ids, stored, known);
    DistinctIffSize(KnownList(ids, stored), known);
    if Distinct(ids) { DistinctTally(ids, p, stored); }
  }

  lemma BatchStores(ids: seq<MessageId>, p: Provider, stored: set<MessageId>)
    ensures stored <= IngestSpec(ids, p, stored).0
    ensures forall id :: id in IngestSpec(ids, p, stored).0 ==> id in stored || id in ids
    ensures IngestSpec(ids, p, stored).1.Some? <==> forall id :: id in ids && id !in stored ==> p.fetch(id) != Throws
    ensures IngestSpec(ids, p, stored).1.Some? ==> forall id :: id in ids ==> id in IngestSpec(ids, p, stored).0 || p.fetch(id) == Gone
  {
    var toFetch := ToFetch(ids, Known(ids, stored));
    ToFetchIs(ids, Known(ids, stored));
    FetchAllStores(toFetch, p, stored, Counts(|toFetch|, 0, |Known(ids, stored)|, 0));
  }

  /**
   An initial run succeeds iff both requests are answered and no fetch of an unstored id throws.
   Only then is the cursor moved, to the watermark taken before the listing, and every listed id
   is stored or gone by then.
   */
  lemma InitialMovesCursorLast(p: Provider, stored: set<MessageId>, cursor: Option<nat>)
    ensures var after := InitialSpec(p, stored, cursor);
            && stored <= after.stored
            && (after.outcome.Synced? <==>
                  p.profile.Some? && p.firstPage.Some? && forall id :: id in p.firstPage.value && id !in stored ==> p.fetch(id) != Throws)
            && (!after.outcome.Synced? ==> after.outcome.Failed? && after.cursor == cursor)
            && (after.outcome.Synced? ==>
                  && after.outcome.mode == Initial && after.cursor == p.profile
                  && Tally(after.outcome.counts, p.firstPage.value, p, stored, after.stored)
                  && forall id :: id in p.firstPage.value ==> id in after.stored || p.fetch(id) == Gone)
  {
    if p.profile.Some? && p.firstPage.Some? {
      BatchStores(p.firstPage.value, p, stored);
      IngestConserves(p.firstPage.value, p, stored);
    }
  }

  /**
   The cursor is all or nothing: a run that does not finish leaves it (or, once the provider
   rejected it, clears it), a run that finishes has stored or found gone every id it collected,
   and no run ever loses a stored message.
   */
  lemma CursorAllOrNothing(p: Provider, stored: set<MessageId>, cursor: nat)
    requires Ends(p.feed)
    ensures var after := IncrementalSpec(p, stored, cursor);
            var collected := Collect(p.feed, [], cursor, 0);
            && stored <= after.stored
            && (after.outcome.Synced? || after.outcome.Failed?)
            && (after.outcome.Failed? && !collected.CursorRejected? ==> after.cursor == Some(cursor))
            && (after.outcome.Failed? && collected.CursorRejected? ==> after.cursor == None)
            && (collected.ListingFailed? ==> after.outcome.Failed? && after.stored == stored)
            && (collected.Collected? ==> (after.outcome.Synced? <==> forall id :: id in collected.ids && id !in stored ==> p.fetch(id) != Throws))
            && (collected.Collected? && after.outcome.Synced? ==>
                  && after.cursor == Some(collected.next) && after.outcome.mode == Incremental
                  && Tally(after.outcome.counts, collected.ids, p, stored, after.stored)
                  && forall id :: id in collected.ids ==> id in after.stored || p.fetch(id) == Gone)
            && (collected.CursorRejected? ==> after == InitialSpec(p, stored, None))
            && (collected.CursorRejected? && after.outcome.Synced? ==>
                  && after.cursor == p.profile && p.profile.Some? && p.firstPage.Some? && after.outcome.mode == Initial
                  && Tally(after.outcome.counts, p.firstPage.value, p, stored, after.stored)
                  && forall id :: id in p.firstPage.value ==> id in after.stored || p.fetch(id) == Gone)
  {
    match Collect(p.feed, [], cursor, 0)
    case ListingFailed =>
    case CursorRejected => InitialMovesCursorLast(p, stored, None);
    case Collected(ids, _, _) =>
      BatchStores(ids, p, stored);
      IngestConserves(ids, p, stored);
  }

  /**
   The cap over any paged feed: a finished run moves the cursor as far as the pages it read say,
   and has settled the whole feed iff the cap did not stop it early, or every id on the unread
   pages was on a read one, stored before, or is gone.
   */
  lemma RunSettlesFeedIff(p: Provider, stored: set<MessageId>, cursor: nat, pages: nat)
    requires WholeFeed(p.feed, pages) && Ends(p.feed) && IncrementalSpec(p, stored, cursor).outcome.Synced?
    ensures Collect(p.feed, [], cursor, 0).Collected?
    ensures var after, read := IncrementalSpec(p, stored, cursor), Collect(p.feed, [], cursor, 0).pages;
            && read <= pages && after.cursor == Some(CursorAfter(p.feed, read, cursor))
            && ((forall id :: id in IdsOn(p.feed, pages) ==> id in after.stored || p.fetch(id) == Gone)
                <==> || |IdsOn(p.feed, pages - 1)| < 200
                     || forall id :: id in IdsOn(p.feed, pages) ==>
                          id in IdsOn(p.feed, read) || id in stored || p.fetch(id) == Gone)
  {
    CapLeavesPagesUnread(p.feed, cursor, pages);
    var _ := CollectIs(p.feed, cursor);
    BatchStores(Collect(p.feed, [], cursor, 0).ids, p, stored);
  }

  // ---------------------------------------------------------------- the cap against Zoho's pages

  lemma {:induction false} FreshIds(b: Mailbox, n: nat)
    requires DistinctIds(b) && n <= |b|
    ensures Distinct(Ids(b[..n]))
  {
  }

  /** The first page holds exactly the newest `min(200, n)` of the n messages at or above the watermark. */
  lemma FirstPageIs(b: Mailbox, since: nat)
    requires NewestFirst(b)
    ensures var n := |Fresh(b, since)|;
            && n <= |b|
            && (forall k :: 0 <= k < |b| ==> (b[k].receivedTime >= since <==> k < n))
            && ListChanged(b, since, 1).messageIds == Ids(b[..Min(200, n)])
  {
    var data := View(b, 1, PAGE);
    var n := |Fresh(b, since)|;
    ViewIsNewestFirst(b, 1, PAGE);
    FreshIsPrefix(b, since);
    FreshIsPrefix(data, since);
    var m := |Fresh(data, since)|;
    assert m == Min(200, n) by {
      if m < |data| { assert data[m] == b[m]; }
      if m > 0 { assert data[m - 1] == b[m - 1]; }
    }
    assert Fresh(data, since) == data[..m] == b[..m];
  }

  /** An initial listing holds the newest `min(50, n)` of the n messages there are. */
  lemma InitialListingIs(b: Mailbox)
    ensures ListIds(b, 1, INITIAL_BATCH).0 == Ids(b[..Min(50, |b|)])
  {
    assert View(b, 1, INITIAL_BATCH) == b[..Min(50, |b|)];
  }

  /**
   Against Zoho the loop never reads a second page: it collects exactly the newest
   `min(200, n)` of the n messages at or above the watermark, and moves the cursor to the newest
   message whether or not that was all of them.
   */
  lemma ZohoRunReadsOnePage(b: Mailbox, since: nat, feed: seq<Option<ChangePage>>)
    requires NewestFirst(b) && DistinctIds(b) && Ends(feed) && feed[0] == Some(ListChanged(b, since, 1))
    ensures var n := |Fresh(b, since)|;
            && n <= |b|
            && ListChanged(b, since, 1).messageIds == Ids(b[..Min(200, n)])
            && Collect(feed, [], since, 0) == Collected(Ids(b[..Min(200, n)]), NextCursor(b, since), 1)
    ensures forall k :: 0 <= k < |b| ==> (b[k].receivedTime >= since <==> k < |Fresh(b, since)|)
  {
    FirstPageIs(b, since);
    PageIs(b, since, 1);
    var m := Min(200, |Fresh(b, since)|);
    FreshIds(b, m);
    assert [] + Ids(b[..m]) == Ids(b[..m]);
    AddAllFresh([], Ids(b[..m]));
  }

  function NextCursor(b: Mailbox, since: nat): nat {
    if b == [] then since else b[0].receivedTime
  }
}
