/**
 Sequences of Zoho sync runs over a mailbox that keeps changing. Any number of workers run at
 once, each suspended at every await; mail arrives, is deleted, and runs throw, anywhere in
 between. The question is whether a message can slip below the persisted watermark unstored:
 every message counts that arrived after the `getProfile` of the run that first set a cursor.

 A run lists one page: against Zoho the paging loop never asks for a second one
 (MailSync.ZohoRunReadsOnePage).
 */
module SyncRuns {
  import opened Common
  import opened ZohoFeed
  import MailSync

  type WorkerId = nat

  /** Where a run stands. `mark` is set on initial runs: the arrivals before their `getProfile`. */
  datatype Worker =
    | Started(cursor: Option<nat>)                                       // the account row is read
    | Profiled(watermark: nat, before: nat)                              // initial: the watermark is taken
    | Listed(ids: seq<MessageId>, next: nat, mark: Option<nat>)
    | Fetching(todo: seq<MessageId>, next: nat, mark: Option<nat>)       // stored ids filtered out
    | Finished
    | Thrown

  /** `id` numbers the arrivals; the code only ever compares ids for equality. */
  datatype State = State(
    mailbox: Mailbox,
    clock: nat,                 // the latest received time so far
    arrivals: nat,
    stored: set<MessageId>,
    gone: set<MessageId>,       // ids the provider answered null for
    cursor: Option<nat>,
    baseline: nat,              // arrivals before the getProfile of the run that first set the cursor
    workers: map<WorkerId, Worker>)

  datatype Action =
    | Arrive(time: nat)
    | Delete(id: MessageId)
    | Begin(w: WorkerId)
    | Proceed(w: WorkerId, found: bool)    // the run's next await settles
    | Throw(w: WorkerId)

  predicate Empty(s: State) {
    s == State([], 0, 0, {}, {}, None, 0, map[])
  }

  function Remove(b: Mailbox, id: MessageId): Mailbox {
    if b == [] then [] else if b[0].id == id then b[1..] else [b[0]] + Remove(b[1..], id)
  }

  function SetWorker(s: State, w: WorkerId, p: Worker): State {
    s.(workers := s.workers[w := p])
  }

  predicate Holds(b: Mailbox, id: MessageId) {
    exists m :: m in b && m.id == id
  }

  function Step(s: State, a: Action): State {
    match a
    case Arrive(time) =>
      if time < s.clock then s
      else s.(mailbox := [Msg(s.arrivals, time)] + s.mailbox, clock := time, arrivals := s.arrivals + 1)
    case Delete(id) => s.(mailbox := Remove(s.mailbox, id))
    case Begin(w) => if w in s.workers then s else SetWorker(s, w, Started(s.cursor))
    case Throw(w) => if w in s.workers && !s.workers[w].Finished? then SetWorker(s, w, Thrown) else s
    case Proceed(w, found) => if w in s.workers then NextAwait(s, w, found) else s
  }

  function NextAwait(s: State, w: WorkerId, found: bool): State
    requires w in s.workers
  {
    match s.workers[w]
    case Started(None) => SetWorker(s, w, Profiled(ProfileCursor(s.mailbox), s.arrivals))
    case Profiled(cursor, mark) => SetWorker(s, w, Listed(ListIds(s.mailbox, 1, MailSync.INITIAL_BATCH).0, cursor, Some(mark)))
    case Started(Some(cursor)) =>
      SetWorker(s, w, Listed(ListChanged(s.mailbox, cursor, 1).messageIds, MailSync.NextCursor(s.mailbox, cursor), None))
    case Listed(ids, next, mark) =>
      SetWorker(s, w, Fetching(MailSync.ToFetch(ids, MailSync.Known(ids, s.stored)), next, mark))
    case Fetching(todo, next, mark) =>
      if todo == [] then
        SetWorker(s.(cursor := Some(next), baseline := if s.cursor.None? && mark.Some? then mark.value else s.baseline), w, Finished)
      else
        var s' := SetWorker(s, w, Fetching(todo[1..], next, mark));
        if found && Holds(s.mailbox, todo[0]) then s'.(stored := s'.stored + {todo[0]})
        else s'.(gone := s'.gone + {todo[0]})
    case _ => s
  }

  function Run(s: State, acts: seq<Action>): State
    decreases |acts|
  {
    if acts == [] then s else Run(Step(s, acts[0]), acts[1..])
  }

  // ---------------------------------------------------------------- the promise

  predicate Settled(s: State, id: MessageId) {
    id in s.stored || id in s.gone
  }

  /** It came after the baseline, a cursor at `time` is beyond it, and no run has stored it or found it gone. */
  predicate Lost(s: State, m: Msg, time: nat) {
    m.id >= s.baseline && m.receivedTime < time && !Settled(s, m.id)
  }

  /** Under a cursor at `time`, the messages still there are lost only if they are on the list. */
  predicate NoneMissingBelow(s: State, time: nat, list: seq<MessageId>) {
    forall m :: m in s.mailbox && Lost(s, m, time) ==> m.id in list
  }

  /** No gap: everything that arrived after the baseline and lies below the persisted cursor is settled. */
  predicate NoGap(s: State) {
    s.cursor.Some? ==> NoneMissingBelow(s, s.cursor.value, [])
  }

  /**
   The cap does no harm: what an incremental listing at this moment would leave beyond its
   first page is settled already, predates the baseline, or shares the newest time and so stays
   listed.
   */
  predicate Covered(s: State, cursor: nat) {
    forall k :: PAGE <= k < |s.mailbox| && s.mailbox[k].receivedTime >= cursor ==>
      !Lost(s, s.mailbox[k], s.mailbox[0].receivedTime)
  }

  /** The same of an initial listing made when a cursor is already set. */
  predicate CoveredInitially(s: State, watermark: nat) {
    forall k :: MailSync.INITIAL_BATCH <= k < |s.mailbox| ==> !Lost(s, s.mailbox[k], watermark)
  }

  /** The list an initial run already holds reaches back to the baseline `mark` another one sets. */
  predicate ReachesBack(s: State, p: Worker, mark: nat) {
    match p
    case Listed(ids, next, _) => NoneMissingBelow(s.(baseline := mark), next, ids)
    case Fetching(todo, next, _) => NoneMissingBelow(s.(baseline := mark), next, todo)
    case _ => true
  }

  predicate Lists(s: State, a: Action) {
    a.Proceed? && a.w in s.workers && s.workers[a.w].Started? && s.workers[a.w].cursor.Some?
  }

  /** This await loses nothing: each listing is covered, and so is what other initial runs hold at the first persist. */
  predicate Covers(s: State, a: Action) {
    a.Proceed? && a.w in s.workers ==>
      match s.workers[a.w]
      case Started(Some(cursor)) => Covered(s, cursor)
      case Profiled(watermark, _) => s.cursor.Some? ==> CoveredInitially(s, watermark)
      case Fetching(todo, _, Some(mark)) =>
        todo == [] && s.cursor.None? ==> forall v :: v in s.workers && v != a.w ==> ReachesBack(s, s.workers[v], mark)
      case _ => true
  }

  predicate CoveredRun(s: State, acts: seq<Action>)
    decreases |acts|
  {
    acts != [] ==> Covers(s, acts[0]) && CoveredRun(Step(s, acts[0]), acts[1..])
  }

  // ---------------------------------------------------------------- invariant

  ghost predicate IdsDescend(b: Mailbox) {
    forall i, j :: 0 <= i < j < |b| ==> b[i].id > b[j].id
  }

  /** The mailbox is newest first and ids number the arrivals. */
  ghost predicate MailboxOk(s: State) {
    && NewestFirst(s.mailbox)
    && IdsDescend(s.mailbox)
    && (forall m :: m in s.mailbox ==> m.id < s.arrivals && m.receivedTime <= s.clock)
    && s.baseline <= s.arrivals
    && (s.cursor.Some? ==> s.cursor.value <= s.clock)
  }

  /** Arrivals from `mark` on carry at least this time. */
  predicate AllFrom(s: State, mark: nat, time: nat) {
    forall m :: m in s.mailbox && m.id >= mark ==> m.receivedTime >= time
  }

  predicate WorkerOk(s: State, p: Worker) {
    match p
    case Started(None) => true
    case Started(Some(cursor)) => s.cursor.Some? && cursor <= s.clock && NoneMissingBelow(s, cursor, [])
    case Profiled(cursor, mark) => cursor <= s.clock && mark <= s.arrivals && AllFrom(s, mark, cursor)
    case Listed(ids, next, mark) => ListOk(s, ids, next, mark)
    case Fetching(todo, next, mark) => ListOk(s, todo, next, mark)
    case _ => true
  }

  predicate ListOk(s: State, list: seq<MessageId>, next: nat, mark: Option<nat>) {
    && next <= s.clock
    && (s.cursor.Some? ==> NoneMissingBelow(s, next, list))
    && match mark
       case None => s.cursor.Some?
       case Some(m) => m <= s.arrivals && AllFrom(s, m, next)
  }

  ghost predicate Inv(s: State) {
    && MailboxOk(s)
    && NoGap(s)
    && forall w :: w in s.workers ==> WorkerOk(s, s.workers[w])
  }

  lemma {:induction false} RemoveKeeps(b: Mailbox, id: MessageId)
    ensures forall m :: m in Remove(b, id) ==> m in b
    decreases |b|
  {
    if b != [] && b[0].id != id {
      RemoveKeeps(b[1..], id);
    }
  }

  /** A deletion leaves the order as it was. */
  lemma {:induction false} RemoveIs(b: Mailbox, id: MessageId)
    requires IdsDescend(b) && NewestFirst(b)
    ensures NewestFirst(Remove(b, id)) && IdsDescend(Remove(b, id))
    decreases |b|
  {
    if b != [] && b[0].id != id {
      var rest, r := b[1..], Remove(b[1..], id);
      assert forall i :: 0 <= i < |rest| ==> rest[i] == b[i + 1];
      RemoveIs(rest, id);
      RemoveKeeps(rest, id);
      forall k | 0 <= k < |r| ensures b[0].id > r[k].id && b[0].receivedTime >= r[k].receivedTime {
        assert r[k] in rest;
        var i :| 0 <= i < |rest| && rest[i] == r[k];
        assert b[i + 1] == r[k];
      }
      PrependKeepsOrder(b[0], r);
    }
  }

  lemma PrependKeepsOrder(m: Msg, r: Mailbox)
    requires NewestFirst(r) && IdsDescend(r)
    requires forall k :: 0 <= k < |r| ==> m.id > r[k].id && m.receivedTime >= r[k].receivedTime
    ensures NewestFirst([m] + r) && IdsDescend([m] + r)
  {
    var b := [m] + r;
    forall i, j | 0 <= i < j < |b| ensures b[i].id > b[j].id && b[i].receivedTime >= b[j].receivedTime {
      assert b[j] == r[j - 1];
      if i > 0 { assert b[i] == r[i - 1]; }
    }
  }

  lemma ArrivalKeepsOrder(s: State, time: nat)
    requires MailboxOk(s) && time >= s.clock
    ensures MailboxOk(Step(s, Arrive(time)))
  {
    var b := s.mailbox;
    forall k | 0 <= k < |b| ensures s.arrivals > b[k].id && time >= b[k].receivedTime {
      assert b[k] in b;
    }
    PrependKeepsOrder(Msg(s.arrivals, time), b);
  }

  lemma ProceedKeepsMailboxOk(s: State, w: WorkerId, found: bool)
    requires MailboxOk(s) && w in s.workers && WorkerOk(s, s.workers[w])
    ensures MailboxOk(NextAwait(s, w, found))
  {
    assert NextAwait(s, w, found).mailbox == s.mailbox;
  }

  lemma StepMailboxOk(s: State, a: Action)
    requires Inv(s)
    ensures MailboxOk(Step(s, a))
  {
    match a
    case Delete(id) =>
      RemoveIs(s.mailbox, id);
      RemoveKeeps(s.mailbox, id);
    case Arrive(time) => if time >= s.clock { ArrivalKeepsOrder(s, time); }
    case Proceed(w, found) => if w in s.workers { ProceedKeepsMailboxOk(s, w, found); }
    case _ =>
  }

  /** The same facts about the world, or more settled, later arrivals, fewer messages; the baseline is set once. */
  ghost predicate Later(s: State, s': State) {
    && s.clock <= s'.clock && s.arrivals <= s'.arrivals
    && s.stored <= s'.stored && s.gone <= s'.gone
    && (s.cursor.Some? ==> s'.cursor.Some? && s'.baseline == s.baseline)
    && (forall m :: m in s'.mailbox ==> m in s.mailbox || (m.id >= s.arrivals && m.receivedTime >= s.clock))
  }

  lemma StepLater(s: State, a: Action)
    requires Inv(s)
    ensures Later(s, Step(s, a))
  {
    if a.Delete? { RemoveKeeps(s.mailbox, a.id); }
  }

  lemma NoneMissingStays(s: State, s': State, time: nat, list: seq<MessageId>)
    requires Later(s, s') && s.cursor.Some? && time <= s.clock && NoneMissingBelow(s, time, list)
    ensures NoneMissingBelow(s', time, list)
  {
  }

  lemma WorkerStaysOk(s: State, s': State, p: Worker)
    requires Later(s, s') && WorkerOk(s, p) && (s.cursor.Some? || s'.cursor.None?)
    ensures WorkerOk(s', p)
  {
    if s.cursor.Some? {
      match p
      case Started(Some(cursor)) => NoneMissingStays(s, s', cursor, []);
      case Listed(ids, next, _) => NoneMissingStays(s, s', next, ids);
      case Fetching(todo, next, _) => NoneMissingStays(s, s', next, todo);
      case _ =>
    }
  }

  /** The lists held when the first cursor is set are good for it if they reach back to its baseline. */
  lemma FirstPersistKeeps(s: State, w: WorkerId, found: bool, v: WorkerId)
    requires Inv(s) && s.cursor.None? && Covers(s, Proceed(w, found))
    requires w in s.workers && s.workers[w].Fetching? && s.workers[w].todo == []
    requires v in s.workers && v != w
    ensures WorkerOk(NextAwait(s, w, found), s.workers[v])
  {
    assert WorkerOk(s, s.workers[w]) && WorkerOk(s, s.workers[v]);
    assert ReachesBack(s, s.workers[v], s.workers[w].mark.value);
  }

  /** What the incremental listing leaves out is exactly what may be missing below the new cursor. */
  lemma ListingMissesNothing(s: State, cursor: nat)
    requires MailboxOk(s) && NoneMissingBelow(s, cursor, [])
    ensures NoneMissingBelow(s, MailSync.NextCursor(s.mailbox, cursor), ListChanged(s.mailbox, cursor, 1).messageIds)
            <==> Covered(s, cursor)
  {
    var b := s.mailbox;
    var next, ids := MailSync.NextCursor(b, cursor), ListChanged(b, cursor, 1).messageIds;
    PageIs(b, cursor, 1);
    if Covered(s, cursor) {
      forall m | m in b && Lost(s, m, next) ensures m.id in ids {
        var k :| 0 <= k < |b| && b[k] == m;
        assert b[k].receivedTime >= cursor && k < PAGE;
      }
    } else {
      var k :| PAGE <= k < |b| && b[k].receivedTime >= cursor && Lost(s, b[k], b[0].receivedTime);
      assert b[k] in b;
      BeyondTheCapIsNotListed(s, cursor, k);
    }
  }

  lemma BeyondTheCapIsNotListed(s: State, cursor: nat, k: nat)
    requires MailboxOk(s) && PAGE <= k < |s.mailbox|
    ensures s.mailbox[k].id !in ListChanged(s.mailbox, cursor, 1).messageIds
  {
    var b := s.mailbox;
    var data := View(b, 1, PAGE);
    ViewIsNewestFirst(b, 1, PAGE);
    FreshIsPrefix(data, cursor);
    var ids := ListChanged(b, cursor, 1).messageIds;
    forall i | 0 <= i < |ids| ensures ids[i] != b[k].id {
      assert ids[i] == Fresh(data, cursor)[i].id == data[i].id == b[i].id;
    }
  }

  /** An initial listing holds the newest 50 and leaves out the rest. */
  lemma InitialListing(s: State, watermark: nat)
    requires MailboxOk(s)
    ensures NoneMissingBelow(s, watermark, ListIds(s.mailbox, 1, MailSync.INITIAL_BATCH).0) <==> CoveredInitially(s, watermark)
  {
    var b := s.mailbox;
    var data := View(b, 1, MailSync.INITIAL_BATCH);
    var ids := ListIds(b, 1, MailSync.INITIAL_BATCH).0;
    forall k | 0 <= k < |b| ensures b[k] in b && (b[k].id in ids <==> k < MailSync.INITIAL_BATCH) {
      if k < MailSync.INITIAL_BATCH {
        assert ids[k] == data[k].id == b[k].id;
      } else {
        forall i | 0 <= i < |ids| ensures ids[i] != b[k].id { assert ids[i] == b[i].id; }
      }
    }
  }

  lemma ProfileIsBelowArrivals(s: State)
    requires MailboxOk(s)
    ensures ProfileCursor(s.mailbox) <= s.clock && AllFrom(s, s.arrivals, ProfileCursor(s.mailbox))
  {
    if s.mailbox != [] { assert s.mailbox[0] in s.mailbox; }
  }

  lemma DedupeMissesNothing(s: State, ids: seq<MessageId>, time: nat)
    ensures NoneMissingBelow(s, time, ids) <==> NoneMissingBelow(s, time, MailSync.ToFetch(ids, MailSync.Known(ids, s.stored)))
  {
    MailSync.ToFetchIs(ids, MailSync.Known(ids, s.stored));
  }

  /** Fetching one id settles it. */
  lemma FetchMissesNothing(s: State, w: WorkerId, found: bool)
    requires w in s.workers && s.workers[w].Fetching? && s.workers[w].todo != []
    ensures var s', todo, next := NextAwait(s, w, found), s.workers[w].todo, s.workers[w].next;
            s'.baseline == s.baseline && (NoneMissingBelow(s, next, todo) ==> NoneMissingBelow(s', next, todo[1..]))
  {
    assert forall id :: id in s.workers[w].todo <==> id == s.workers[w].todo[0] || id in s.workers[w].todo[1..];
  }

  lemma NextWorkerOk(s: State, w: WorkerId, found: bool)
    requires Inv(s) && w in s.workers && Covers(s, Proceed(w, found))
    ensures var s' := NextAwait(s, w, found); WorkerOk(s', s'.workers[w])
  {
    var s' := NextAwait(s, w, found);
    assert WorkerOk(s, s.workers[w]);
    match s.workers[w]
    case Started(None) => ProfileIsBelowArrivals(s);
    case Started(Some(cursor)) =>
      ListingMissesNothing(s, cursor);
      if s.mailbox != [] { assert s.mailbox[0] in s.mailbox; }
    case Profiled(watermark, _) => InitialListing(s, watermark);
    case Listed(ids, next, mark) => DedupeMissesNothing(s, ids, next);
    case Fetching(todo, next, mark) => if todo != [] { FetchMissesNothing(s, w, found); }
    case _ =>
  }

  lemma PersistNoGap(s: State, w: WorkerId, found: bool)
    requires Inv(s) && w in s.workers && s.workers[w].Fetching? && s.workers[w].todo == []
    ensures NoGap(NextAwait(s, w, found))
  {
    assert WorkerOk(s, s.workers[w]);
  }

  lemma StepNoGap(s: State, a: Action)
    requires Inv(s)
    ensures NoGap(Step(s, a))
  {
    StepLater(s, a);
    if a.Proceed? && a.w in s.workers && s.workers[a.w].Fetching? && s.workers[a.w].todo == [] {
      PersistNoGap(s, a.w, a.found);
    } else if s.cursor.Some? {
      NoneMissingStays(s, Step(s, a), s.cursor.value, []);
    }
  }

  /** The step that sets the first cursor. */
  predicate FirstPersist(s: State, a: Action) {
    s.cursor.None? && a.Proceed? && a.w in s.workers && s.workers[a.w].Fetching? && s.workers[a.w].todo == []
  }

  lemma OnlyPersistSetsCursor(s: State, a: Action)
    requires !FirstPersist(s, a)
    ensures s.cursor.None? ==> Step(s, a).cursor.None?
  {
  }

  lemma StepKeepsInv(s: State, a: Action)
    requires Inv(s) && Covers(s, a)
    ensures Inv(Step(s, a))
  {
    var s' := Step(s, a);
    StepMailboxOk(s, a);
    StepLater(s, a);
    StepNoGap(s, a);
    forall w | w in s'.workers ensures WorkerOk(s', s'.workers[w]) {
      if a.Proceed? && a.w == w {
        NextWorkerOk(s, w, a.found);
      } else if w in s.workers && s'.workers[w] == s.workers[w] {
        if FirstPersist(s, a) {
          FirstPersistKeeps(s, a.w, a.found, w);
        } else {
          OnlyPersistSetsCursor(s, a);
          WorkerStaysOk(s, s', s.workers[w]);
        }
      } else if a.Begin? && s.cursor.Some? {
        NoneMissingStays(s, s', s.cursor.value, []);
      }
    }
  }

  lemma {:induction false} RunKeepsInv(s: State, acts: seq<Action>)
    requires Inv(s) && CoveredRun(s, acts)
    ensures Inv(Run(s, acts))
    decreases |acts|
  {
    if acts != [] {
      StepKeepsInv(s, acts[0]);
      RunKeepsInv(Step(s, acts[0]), acts[1..]);
    }
  }

  // ---------------------------------------------------------------- no gap

  /**
   No gap, ever: over any interleaving of any number of runs, with mail arriving and leaving and
   runs throwing at any await, every message still there that arrived after the baseline and
   lies below the persisted cursor is stored or was reported gone, provided each listing was
   covered, and the lists other initial runs hold when the first cursor is set reach back to it.
   */
  lemma NoMailSlipsBelowTheCursor(s: State, acts: seq<Action>)
    requires Empty(s) && CoveredRun(s, acts)
    ensures NoGap(Run(s, acts))
  {
    RunKeepsInv(s, acts);
  }

  /** At most a page of messages at or above the watermark is always covered. */
  lemma AtMostAPageIsCovered(s: State, cursor: nat)
    requires NewestFirst(s.mailbox) && |Fresh(s.mailbox, cursor)| <= PAGE
    ensures Covered(s, cursor)
  {
    FreshIsPrefix(s.mailbox, cursor);
  }

  // ---------------------------------------------------------------- stored or gone

  /** This step settles `id`: its turn has come in some run, and the provider has it or not. */
  predicate Fetches(s: State, a: Action, id: MessageId, found: bool) {
    && a.Proceed? && a.w in s.workers && s.workers[a.w].Fetching?
    && s.workers[a.w].todo != [] && s.workers[a.w].todo[0] == id
    && (found <==> a.found && Holds(s.mailbox, id))
  }

  /** A message is stored when a fetch of it finds it, is gone when one does not, and at no other step. */
  lemma StepSettles(s: State, a: Action, id: MessageId)
    ensures id in Step(s, a).stored <==> id in s.stored || Fetches(s, a, id, true)
    ensures id in Step(s, a).gone <==> id in s.gone || Fetches(s, a, id, false)
  {
  }

  ghost predicate FetchedIn(s: State, acts: seq<Action>, id: MessageId, found: bool) {
    exists i :: 0 <= i < |acts| && Fetches(Run(s, acts[..i]), acts[i], id, found)
  }

  lemma FetchedFirstOrLater(s: State, acts: seq<Action>, id: MessageId, found: bool)
    requires acts != []
    ensures FetchedIn(s, acts, id, found) <==> Fetches(s, acts[0], id, found) || FetchedIn(Step(s, acts[0]), acts[1..], id, found)
  {
    assert Run(s, acts[..0]) == s;
    forall i | 0 <= i < |acts| - 1 ensures Run(s, acts[..i+1]) == Run(Step(s, acts[0]), acts[1..][..i]) {
      assert acts[..i+1][1..] == acts[1..][..i];
    }
    if FetchedIn(s, acts, id, found) {
      var i :| 0 <= i < |acts| && Fetches(Run(s, acts[..i]), acts[i], id, found);
      if i > 0 {
        assert Fetches(Run(s, acts[..i-1+1]), acts[1..][i-1], id, found);
      }
    }
    if i :| 0 <= i < |acts[1..]| && Fetches(Run(Step(s, acts[0]), acts[1..][..i]), acts[1..][i], id, found) {
      assert Fetches(Run(s, acts[..i+1]), acts[i+1], id, found);
    }
  }

  /**
   Over any run, stored and gone mean what they say: a message is stored in the end iff it was
   at the start or some fetch of the run found it, and gone iff some fetch did not.
   */
  lemma {:induction false} SettledByFetching(s: State, acts: seq<Action>, id: MessageId)
    ensures id in Run(s, acts).stored <==> id in s.stored || FetchedIn(s, acts, id, true)
    ensures id in Run(s, acts).gone <==> id in s.gone || FetchedIn(s, acts, id, false)
    decreases |acts|
  {
    if acts != [] {
      StepSettles(s, acts[0], id);
      SettledByFetching(Step(s, acts[0]), acts[1..], id);
      FetchedFirstOrLater(s, acts, id, true);
      FetchedFirstOrLater(s, acts, id, false);
    }
  }

  /** Every fetch the provider answers finds its message, and nothing is deleted. */
  predicate NothingVanishes(acts: seq<Action>) {
    forall i :: 0 <= i < |acts| ==> !acts[i].Delete? && (acts[i].Proceed? ==> acts[i].found)
  }

  /** Every id a run still holds is in the mailbox. */
  ghost predicate ListsAreReal(s: State) {
    forall w, id :: w in s.workers && id in Held(s.workers[w]) ==> Holds(s.mailbox, id)
  }

  lemma HoldsMore(s: State, a: Action, id: MessageId)
    requires !a.Delete? && Holds(s.mailbox, id)
    ensures Holds(Step(s, a).mailbox, id)
  {
    var m :| m in s.mailbox && m.id == id;
    assert m in Step(s, a).mailbox;
  }

  lemma HeldOrigin(s: State, a: Action, w: WorkerId, id: MessageId)
    requires MailboxOk(s) && w in Step(s, a).workers && id in Held(Step(s, a).workers[w])
    ensures (w in s.workers && id in Held(s.workers[w])) || Holds(s.mailbox, id)
  {
    if a.Proceed? && a.w == w && w in s.workers {
      match s.workers[w]
      case Started(Some(cursor)) =>
        PageIs(s.mailbox, cursor, 1);
        assert FreshIn(s.mailbox, cursor, id);
      case Profiled(_, _) =>
        var data := View(s.mailbox, 1, MailSync.INITIAL_BATCH);
        var i :| 0 <= i < |Ids(data)| && Ids(data)[i] == id;
        assert data[i] == s.mailbox[i];
      case Listed(ids, _, _) => MailSync.ToFetchIs(ids, MailSync.Known(ids, s.stored));
      case _ =>
    }
  }

  lemma StepListsAreReal(s: State, a: Action)
    requires MailboxOk(s) && ListsAreReal(s) && !a.Delete?
    ensures ListsAreReal(Step(s, a))
  {
    forall w, id | w in Step(s, a).workers && id in Held(Step(s, a).workers[w])
      ensures Holds(Step(s, a).mailbox, id)
    {
      HeldOrigin(s, a, w, id);
      HoldsMore(s, a, id);
    }
  }

  lemma {:induction false} NothingIsGone(s: State, acts: seq<Action>)
    requires Inv(s) && CoveredRun(s, acts) && NothingVanishes(acts) && ListsAreReal(s)
    ensures Run(s, acts).gone == s.gone
    decreases |acts|
  {
    if acts != [] {
      var a := acts[0];
      StepKeepsInv(s, a);
      StepListsAreReal(s, a);
      forall id ensures !Fetches(s, a, id, false) {
        if a.Proceed? && a.w in s.workers { assert id in Held(s.workers[a.w]) ==> Holds(s.mailbox, id); }
      }
      forall id ensures id in Step(s, a).gone <==> id in s.gone { StepSettles(s, a, id); }
      assert forall i :: 0 <= i < |acts[1..]| ==> acts[1..][i] == acts[i + 1];
      NothingIsGone(Step(s, a), acts[1..]);
    }
  }

  /** While nothing vanishes at the provider, every message after the baseline and below the cursor is stored. */
  lemma EverythingBelowTheCursorIsStored(s: State, acts: seq<Action>, m: Msg)
    requires Empty(s) && CoveredRun(s, acts) && NothingVanishes(acts)
    requires var s' := Run(s, acts);
             m in s'.mailbox && m.id >= s'.baseline && s'.cursor.Some? && m.receivedTime < s'.cursor.value
    ensures m.id in Run(s, acts).stored
  {
    NoMailSlipsBelowTheCursor(s, acts);
    NothingIsGone(s, acts);
    assert !Lost(Run(s, acts), m, Run(s, acts).cursor.value);
  }

  /** The id is on the filtered list a run is fetching from. */
  predicate MayFetch(s: State, w: WorkerId, id: MessageId) {
    w in s.workers && s.workers[w].Fetching? && id in s.workers[w].todo
  }

  lemma StoredIsFilteredOut(s: State, a: Action, w: WorkerId, id: MessageId)
    requires id in s.stored && MayFetch(Step(s, a), w, id)
    ensures MayFetch(s, w, id)
  {
    if a.Proceed? && a.w == w && s.workers[w].Listed? {
      MailSync.ToFetchIs(s.workers[w].ids, MailSync.Known(s.workers[w].ids, s.stored));
    }
  }

  /** A run never spends a request on a message that was stored before it filtered its list. */
  lemma {:induction false} StoredIsNotFetched(s: State, acts: seq<Action>, w: WorkerId, id: MessageId)
    requires id in s.stored && !MayFetch(s, w, id)
    ensures !MayFetch(Run(s, acts), w, id)
    decreases |acts|
  {
    if acts != [] {
      if MayFetch(Step(s, acts[0]), w, id) { StoredIsFilteredOut(s, acts[0], w, id); }
      StepSettles(s, acts[0], id);
      StoredIsNotFetched(Step(s, acts[0]), acts[1..], w, id);
    }
  }

  // ---------------------------------------------------------------- deletions and exceptions

  lemma {:induction false} RemoveTakesOne(b: Mailbox, id: MessageId)
    requires IdsDescend(b)
    ensures forall m :: m in Remove(b, id) <==> m in b && m.id != id
    decreases |b|
  {
    if b != [] {
      assert forall m :: m in b <==> m == b[0] || m in b[1..];
      assert forall m :: m in b[1..] ==> m.id < b[0].id;
      if b[0].id != id { RemoveTakesOne(b[1..], id); }
    }
  }

  /** A deleted message is gone from the mailbox for good, and no other is; whoever still fetches it finds it gone. */
  lemma DeletedIsGone(s: State, acts: seq<Action>, id: MessageId)
    requires Inv(s) && id < s.arrivals
    ensures forall m :: m in Step(s, Delete(id)).mailbox <==> m in s.mailbox && m.id != id
    ensures !Holds(Run(Step(s, Delete(id)), acts).mailbox, id)
    ensures forall a :: !Fetches(Run(Step(s, Delete(id)), acts), a, id, true)
  {
    RemoveTakesOne(s.mailbox, id);
    NeverComesBack(Step(s, Delete(id)), acts, id);
  }

  lemma {:induction false} NeverComesBack(s: State, acts: seq<Action>, id: MessageId)
    requires id < s.arrivals && !Holds(s.mailbox, id)
    ensures !Holds(Run(s, acts).mailbox, id)
    decreases |acts|
  {
    if acts != [] {
      if acts[0].Delete? { RemoveKeeps(s.mailbox, acts[0].id); }
      NeverComesBack(Step(s, acts[0]), acts[1..], id);
    }
  }

  /** An exception stops a run for good: what it stored stays, it settles nothing more, and it never writes a cursor. */
  lemma {:induction false} ThrownRunIsOver(s: State, acts: seq<Action>, w: WorkerId)
    requires w in s.workers && s.workers[w].Thrown?
    ensures w in Run(s, acts).workers && Run(s, acts).workers[w].Thrown?
    decreases |acts|
  {
    if acts != [] {
      ThrownRunIsOver(Step(s, acts[0]), acts[1..], w);
    }
  }

  lemma ThrowKeepsCursor(s: State, acts: seq<Action>, w: WorkerId, found: bool)
    requires w in s.workers && !s.workers[w].Finished?
    ensures var s' := Step(s, Throw(w));
            && s'.cursor == s.cursor && s'.stored == s.stored && s'.gone == s.gone
            && Step(Run(s', acts), Proceed(w, found)) == Run(s', acts)
  {
    ThrownRunIsOver(Step(s, Throw(w)), acts, w);
  }

  // ---------------------------------------------------------------- initial runs one at a time

  predicate InitialInFlight(s: State, w: WorkerId) {
    w in s.workers
    && match s.workers[w]
       case Started(cursor) => cursor.None?
       case Profiled(_, _) => true
       case Listed(_, _, mark) => mark.Some?
       case Fetching(_, _, mark) => mark.Some?
       case _ => false
  }

  /** The next initial run waits for the one before to persist or throw. */
  predicate Waits(s: State, a: Action) {
    a.Begin? && s.cursor.None? ==> forall w :: w in s.workers ==> !InitialInFlight(s, w)
  }

  /** Initial runs never overlap and each incremental listing is covered. */
  predicate SerialRun(s: State, acts: seq<Action>)
    decreases |acts|
  {
    acts != [] ==>
      && Waits(s, acts[0])
      && (Lists(s, acts[0]) ==> Covered(s, s.workers[acts[0].w].cursor.value))
      && SerialRun(Step(s, acts[0]), acts[1..])
  }

  ghost predicate Serial(s: State) {
    && (forall w :: InitialInFlight(s, w) ==> s.cursor.None?)
    && (forall v, w :: InitialInFlight(s, v) && InitialInFlight(s, w) ==> v == w)
  }

  lemma FlightOrigin(s: State, a: Action, w: WorkerId)
    requires InitialInFlight(Step(s, a), w)
    ensures InitialInFlight(s, w) || (a.Begin? && a.w == w && w !in s.workers && s.cursor.None?)
    ensures FirstPersist(s, a) ==> a.w != w
  {
  }

  lemma StepKeepsSerial(s: State, a: Action)
    requires Inv(s) && Serial(s) && Waits(s, a)
    ensures Serial(Step(s, a))
  {
    var s' := Step(s, a);
    forall w | InitialInFlight(s', w) ensures s'.cursor.None? {
      FlightOrigin(s, a, w);
      if FirstPersist(s, a) {
        assert WorkerOk(s, s.workers[a.w]);
        assert InitialInFlight(s, a.w);
      }
    }
    forall v, w | InitialInFlight(s', v) && InitialInFlight(s', w) ensures v == w {
      FlightOrigin(s, a, v);
      FlightOrigin(s, a, w);
    }
  }

  lemma SerialCovers(s: State, a: Action)
    requires Inv(s) && Serial(s) && (Lists(s, a) ==> Covered(s, s.workers[a.w].cursor.value))
    ensures Covers(s, a)
  {
    if a.Proceed? && a.w in s.workers && s.workers[a.w].Fetching? && s.workers[a.w].mark.Some? && s.cursor.None? {
      assert InitialInFlight(s, a.w);
      forall v | v in s.workers && v != a.w ensures ReachesBack(s, s.workers[v], s.workers[a.w].mark.value) {
        assert !InitialInFlight(s, v) && WorkerOk(s, s.workers[v]);
      }
    } else if a.Proceed? && a.w in s.workers && s.workers[a.w].Profiled? {
      assert InitialInFlight(s, a.w);
    }
  }

  lemma {:induction false} SerialRunIsCovered(s: State, acts: seq<Action>)
    requires Inv(s) && Serial(s) && SerialRun(s, acts)
    ensures CoveredRun(s, acts)
    decreases |acts|
  {
    if acts != [] {
      SerialCovers(s, acts[0]);
      StepKeepsSerial(s, acts[0]);
      StepKeepsInv(s, acts[0]);
      SerialRunIsCovered(Step(s, acts[0]), acts[1..]);
    }
  }

  /** If initial runs do not overlap, only the incremental listings can lose a message. */
  lemma SerialRunsLeaveNoGap(s: State, acts: seq<Action>)
    requires Empty(s) && SerialRun(s, acts)
    ensures NoGap(Run(s, acts))
  {
    SerialRunIsCovered(s, acts);
    NoMailSlipsBelowTheCursor(s, acts);
  }

  // ---------------------------------------------------------------- the conditions are exact

  /** Only this run's awaits settle; mail may go on arriving. */
  predicate Undisturbed(acts: seq<Action>, w: WorkerId) {
    forall i :: 0 <= i < |acts| ==> acts[i].Arrive? || (acts[i].Proceed? && acts[i].w == w)
  }

  predicate Holding(s: State, w: WorkerId) {
    w in s.workers && (s.workers[w].Listed? || s.workers[w].Fetching?)
  }

  /** The ids a run holds and has not settled yet. */
  function Held(p: Worker): seq<MessageId> {
    match p
    case Listed(ids, _, _) => ids
    case Fetching(todo, _, _) => todo
    case _ => []
  }

  /** The run holds or has persisted the cursor `next`. */
  predicate Heading(s: State, w: WorkerId, next: nat) {
    w in s.workers
    && match s.workers[w]
       case Listed(_, n, _) => n == next
       case Fetching(_, n, _) => n == next
       case Finished => s.cursor == Some(next)
       case _ => false
  }

  /** A message the run is passing by: unsettled, not on its list, and after the baseline it will leave. */
  predicate PassedBy(s: State, w: WorkerId, m: Msg) {
    && w in s.workers && m in s.mailbox && !Settled(s, m.id) && m.id !in Held(s.workers[w])
    && if s.cursor.Some? then s.baseline <= m.id
       else Holding(s, w) && s.workers[w].mark.Some? && s.workers[w].mark.value <= m.id
  }

  lemma NextPassedBy(s: State, a: Action, w: WorkerId, next: nat, m: Msg)
    requires Heading(s, w, next) && PassedBy(s, w, m) && (a.Arrive? || (a.Proceed? && a.w == w))
    ensures Heading(Step(s, a), w, next) && PassedBy(Step(s, a), w, m)
  {
    if a.Proceed? && s.workers[w].Listed? {
      MailSync.ToFetchIs(s.workers[w].ids, MailSync.Known(s.workers[w].ids, s.stored));
    }
  }

  lemma {:induction false} StaysPassedBy(s: State, acts: seq<Action>, w: WorkerId, next: nat, m: Msg)
    requires Heading(s, w, next) && PassedBy(s, w, m) && Undisturbed(acts, w)
    ensures Heading(Run(s, acts), w, next) && PassedBy(Run(s, acts), w, m)
    decreases |acts|
  {
    if acts != [] {
      NextPassedBy(s, acts[0], w, next, m);
      assert forall i :: 0 <= i < |acts[1..]| ==> acts[1..][i] == acts[i + 1];
      StaysPassedBy(Step(s, acts[0]), acts[1..], w, next, m);
    }
  }

  lemma NextNoneMissing(s: State, a: Action, w: WorkerId, next: nat)
    requires Heading(s, w, next) && s.cursor.Some? && next <= s.clock && (a.Arrive? || (a.Proceed? && a.w == w))
    requires NoneMissingBelow(s, next, Held(s.workers[w]))
    ensures var s' := Step(s, a);
            && Heading(s', w, next) && s'.cursor.Some? && next <= s'.clock
            && NoneMissingBelow(s', next, Held(s'.workers[w]))
  {
    if a.Proceed? {
      match s.workers[w]
      case Listed(ids, _, _) => DedupeMissesNothing(s, ids, next);
      case Fetching(todo, _, _) => if todo != [] { FetchMissesNothing(s, w, a.found); }
      case _ =>
    }
  }

  lemma {:induction false} StaysNoneMissing(s: State, acts: seq<Action>, w: WorkerId, next: nat)
    requires Heading(s, w, next) && s.cursor.Some? && next <= s.clock && Undisturbed(acts, w)
    requires NoneMissingBelow(s, next, Held(s.workers[w]))
    ensures var s' := Run(s, acts); Heading(s', w, next) && NoneMissingBelow(s', next, Held(s'.workers[w]))
    decreases |acts|
  {
    if acts != [] {
      NextNoneMissing(s, acts[0], w, next);
      assert forall i :: 0 <= i < |acts[1..]| ==> acts[1..][i] == acts[i + 1];
      StaysNoneMissing(Step(s, acts[0]), acts[1..], w, next);
    }
  }

  /** A run that holds a list and finishes undisturbed leaves no gap iff everything lost below its cursor was on it. */
  lemma FinishLeavesNoGapIff(s: State, w: WorkerId, acts: seq<Action>)
    requires Holding(s, w) && s.cursor.Some? && s.workers[w].next <= s.clock
    requires Undisturbed(acts, w) && w in Run(s, acts).workers && Run(s, acts).workers[w].Finished?
    ensures NoGap(Run(s, acts)) <==> NoneMissingBelow(s, s.workers[w].next, Held(s.workers[w]))
  {
    var next, s' := s.workers[w].next, Run(s, acts);
    if NoneMissingBelow(s, next, Held(s.workers[w])) {
      StaysNoneMissing(s, acts, w, next);
    } else {
      var m :| m in s.mailbox && Lost(s, m, next) && m.id !in Held(s.workers[w]);
      StaysPassedBy(s, acts, w, next, m);
      assert Lost(s', m, next);
    }
  }

  /**
   The condition on a listing is exact: from a state without a gap, a run that lists and then
   finishes undisturbed, whatever its fetches answer, leaves no gap if and only if its listing
   was covered. A message it left out is behind the cursor for good.
   */
  lemma RunLeavesNoGapIffCovered(s: State, w: WorkerId, found: bool, acts: seq<Action>)
    requires Inv(s) && s.cursor.Some? && w in s.workers && (s.workers[w].Started? || s.workers[w].Profiled?)
    requires s.workers[w].Started? ==> s.workers[w].cursor.Some?
    requires Undisturbed(acts, w)
    requires var s' := Run(Step(s, Proceed(w, found)), acts); w in s'.workers && s'.workers[w].Finished?
    ensures NoGap(Run(Step(s, Proceed(w, found)), acts)) <==> Covers(s, Proceed(w, found))
  {
    assert WorkerOk(s, s.workers[w]);
    match s.workers[w] {
      case Started(Some(cursor)) =>
        ListingMissesNothing(s, cursor);
        if s.mailbox != [] { assert s.mailbox[0] in s.mailbox; }
      case Profiled(watermark, _) => InitialListing(s, watermark);
    }
    FinishLeavesNoGapIff(Step(s, Proceed(w, found)), w, acts);
  }

  /** So is the condition on the first persist, for each other initial run that then finishes undisturbed. */
  lemma LateFinishLeavesNoGapIff(s: State, w: WorkerId, found: bool, v: WorkerId, acts: seq<Action>)
    requires Inv(s) && FirstPersist(s, Proceed(w, found)) && v != w && Holding(s, v)
    requires Undisturbed(acts, v)
    requires var s' := Run(Step(s, Proceed(w, found)), acts); v in s'.workers && s'.workers[v].Finished?
    ensures NoGap(Run(Step(s, Proceed(w, found)), acts)) <==> ReachesBack(s, s.workers[v], s.workers[w].mark.value)
  {
    assert WorkerOk(s, s.workers[w]) && WorkerOk(s, s.workers[v]);
    FinishLeavesNoGapIff(Step(s, Proceed(w, found)), v, acts);
  }

  // ---------------------------------------------------------------- two ways to lose a message

  lemma {:induction false} RunSplit(s: State, a: seq<Action>, b: seq<Action>)
    ensures Run(s, a + b) == Run(Run(s, a), b)
    decreases |a|
  {
    if a == [] {
      assert a + b == b;
    } else {
      assert (a + b)[0] == a[0] && (a + b)[1..] == a[1..] + b;
      RunSplit(Step(s, a[0]), a[1..], b);
    }
  }

  lemma RunSnoc(s: State, acts: seq<Action>, a: Action)
    ensures Run(s, acts + [a]) == Step(Run(s, acts), a)
  {
    RunSplit(s, acts, [a]);
    assert Run(Step(Run(s, acts), a), [a][1..]) == Step(Run(s, acts), a);
  }

  function Turns(w: WorkerId, n: nat): seq<Action> {
    seq(n, _ => Proceed(w, true))
  }

  function TurnsLeft(p: Worker): nat {
    match p
    case Listed(ids, _, _) => |ids| + 2
    case Fetching(todo, _, _) => |todo| + 1
    case _ => 0
  }

  /** Enough turns finish a run that holds its list. */
  lemma {:induction false} TurnsFinish(s: State, w: WorkerId, n: nat)
    requires w in s.workers && (s.workers[w].Listed? || s.workers[w].Fetching? || s.workers[w].Finished?)
    requires n >= TurnsLeft(s.workers[w])
    ensures w in Run(s, Turns(w, n)).workers && Run(s, Turns(w, n)).workers[w].Finished?
    decreases n
  {
    if n > 0 {
      var s1 := Step(s, Proceed(w, true));
      assert Turns(w, n)[1..] == Turns(w, n - 1);
      if s.workers[w].Listed? {
        MailSync.ToFetchIs(s.workers[w].ids, MailSync.Known(s.workers[w].ids, s.stored));
      }
      TurnsFinish(s1, w, n - 1);
    }
  }

  /** One message a tick, from 1 to n. */
  function Arrivals(n: nat): seq<Action> {
    seq(n, i requires 0 <= i => Arrive(i + 1))
  }

  function Arrived(n: nat): Mailbox {
    seq(n, i requires 0 <= i < n => Msg(n - 1 - i, n - i))
  }

  lemma {:induction false} ArrivalsArrive(s: State, n: nat)
    requires s.mailbox == [] && s.clock == 0 && s.arrivals == 0
    ensures Run(s, Arrivals(n)) == s.(mailbox := Arrived(n), clock := n, arrivals := n)
    decreases n
  {
    if n > 0 {
      ArrivalsArrive(s, n - 1);
      assert Arrivals(n) == Arrivals(n - 1) + [Arrive(n)];
      RunSnoc(s, Arrivals(n - 1), Arrive(n));
      assert Arrived(n) == [Msg(n - 1, n)] + Arrived(n - 1);
    }
  }

  // One initial run on an empty mailbox, 201 arrivals, one incremental run.

  function FirstRun(): seq<Action> {
    [Begin(0)] + Turns(0, 4)
  }

  function CapRun(): seq<Action> {
    FirstRun() + Arrivals(201) + [Begin(1)] + [Proceed(1, true)] + Turns(1, 202)
  }

  lemma RunOne(s: State, a: Action)
    ensures Run(s, [a]) == Step(s, a)
  {
    assert Run(Step(s, a), [a][1..]) == Step(s, a);
  }

  lemma FirstRunBaselines(s: State)
    requires Empty(s)
    ensures Run(s, FirstRun()) == s.(cursor := Some(0), workers := map[0 := Finished])
  {
    var p := Proceed(0, true);
    assert Turns(0, 4) == [p] + [p] + [p] + [p];
    RunOne(s, Begin(0));
    RunSnoc(s, [Begin(0)], p);
    RunSnoc(s, [Begin(0)] + [p], p);
    RunSnoc(s, [Begin(0)] + [p] + [p], p);
    RunSnoc(s, [Begin(0)] + [p] + [p] + [p], p);
    assert FirstRun() == [Begin(0)] + [p] + [p] + [p] + [p];
    var s2 := Step(Step(s, Begin(0)), p);
    assert s2.workers == map[0 := Profiled(0, 0)];
    var s3 := Step(s2, p);
    assert s3.workers == map[0 := Listed([], 0, Some(0))];
    var s4 := Step(s3, p);
    assert s4.workers == map[0 := Fetching([], 0, Some(0))];
    assert Step(s4, p).workers == map[0 := Finished];
  }

  lemma FullPageLeavesOne(s: State)
    requires s.mailbox == Arrived(201) && s.clock == 201 && s.arrivals == 201 && s.baseline == 0 && s.cursor == Some(0)
    ensures |ListChanged(s.mailbox, 0, 1).messageIds| <= 200
    ensures Msg(0, 1) in s.mailbox && 0 !in ListChanged(s.mailbox, 0, 1).messageIds
  {
    assert s.mailbox[200] == Msg(0, 1);
    assert MailboxOk(s);
    BeyondTheCapIsNotListed(s, 0, 200);
    FreshIsPrefix(View(s.mailbox, 1, PAGE), 0);
  }

  /** Passing the message by, a run that finishes leaves its cursor beyond it. */
  lemma FinishLoses(s: State, w: WorkerId, next: nat, n: nat, m: Msg)
    requires Heading(s, w, next) && PassedBy(s, w, m) && n >= TurnsLeft(s.workers[w]) && m.receivedTime < next
    ensures var s' := Run(s, Turns(w, n));
            s'.cursor == Some(next) && m in s'.mailbox && s'.baseline <= m.id && !Settled(s', m.id) && !NoGap(s')
  {
    TurnsFinish(s, w, n);
    StaysPassedBy(s, Turns(w, n), w, next, m);
    assert Lost(Run(s, Turns(w, n)), m, next);
  }

  lemma FirstRunThenArrivals(s: State)
    requires Empty(s)
    ensures Run(s, FirstRun() + Arrivals(201))
            == s.(cursor := Some(0), workers := map[0 := Finished], mailbox := Arrived(201), clock := 201, arrivals := 201)
  {
    FirstRunBaselines(s);
    ArrivalsArrive(Run(s, FirstRun()), 201);
    RunSplit(s, FirstRun(), Arrivals(201));
  }

  /** The listing of an incremental run that begins now. */
  lemma ListsAPage(s: State)
    requires s.mailbox == Arrived(201) && s.clock == 201 && s.arrivals == 201 && s.baseline == 0 && s.cursor == Some(0)
    requires 1 !in s.workers && !Settled(s, 0)
    ensures var s' := Step(Step(s, Begin(1)), Proceed(1, true));
            && 1 in s'.workers && s'.workers[1].Listed? && TurnsLeft(s'.workers[1]) <= 202
            && Heading(s', 1, 201) && PassedBy(s', 1, Msg(0, 1))
  {
    FullPageLeavesOne(s);
    assert Step(s, Begin(1)).workers[1] == Started(Some(0));
    assert MailSync.NextCursor(s.mailbox, 0) == 201;
  }

  /** Where the incremental run has its list, 201 messages after the first run. */
  lemma CapListing(s: State) returns (s': State)
    requires Empty(s)
    ensures s' == Run(s, FirstRun() + Arrivals(201) + [Begin(1)] + [Proceed(1, true)])
    ensures 1 in s'.workers && s'.workers[1].Listed? && TurnsLeft(s'.workers[1]) <= 202
    ensures Heading(s', 1, 201) && PassedBy(s', 1, Msg(0, 1))
  {
    var acts := FirstRun() + Arrivals(201);
    FirstRunThenArrivals(s);
    RunSnoc(s, acts, Begin(1));
    RunSnoc(s, acts + [Begin(1)], Proceed(1, true));
    ListsAPage(Run(s, acts));
    s' := Step(Step(Run(s, acts), Begin(1)), Proceed(1, true));
  }

  /**
   More than a page of new mail: after a first run on an empty mailbox, 201 messages arrive and
   one incremental run moves the cursor past the oldest of them without storing it.
   */
  lemma CapLosesMail(s: State)
    requires Empty(s)
    ensures var s' := Run(s, CapRun());
            !NoGap(s') && Msg(0, 1) in s'.mailbox && !Settled(s', 0) && s'.baseline <= 0 && s'.cursor == Some(201)
  {
    var s1 := CapListing(s);
    RunSplit(s, FirstRun() + Arrivals(201) + [Begin(1)] + [Proceed(1, true)], Turns(1, 202));
    FinishLoses(s1, 1, 201, 202, Msg(0, 1));
  }

  // Two initial runs that overlap: the second profiles after 52 arrivals, before the first persists.

  function OverlapStart(): seq<Action> {
    [Begin(0)] + [Begin(1)] + [Proceed(0, true)] + Arrivals(52) + [Proceed(1, true)] + [Proceed(0, true)]
  }

  function OverlapRun(): seq<Action> {
    OverlapStart() + Turns(0, 52) + [Proceed(1, true)] + Turns(1, 52)
  }

  lemma OverlapProfiles(s: State)
    requires Empty(s)
    ensures Run(s, [Begin(0)] + [Begin(1)] + [Proceed(0, true)]) == s.(workers := map[0 := Profiled(0, 0), 1 := Started(None)])
  {
    RunOne(s, Begin(0));
    RunSnoc(s, [Begin(0)], Begin(1));
    RunSnoc(s, [Begin(0)] + [Begin(1)], Proceed(0, true));
    var s2 := Step(Step(s, Begin(0)), Begin(1));
    assert s2.workers == map[0 := Started(None), 1 := Started(None)];
    assert Step(s2, Proceed(0, true)).workers == map[0 := Profiled(0, 0), 1 := Started(None)];
  }

  /** The newest 50 of 52 leave out the first two. */
  lemma NewestFiftyLeaveTwo(b: Mailbox)
    requires b == Arrived(52)
    ensures var ids := ListIds(b, 1, MailSync.INITIAL_BATCH).0; |ids| <= 50 && 0 !in ids
    ensures Msg(0, 1) in b && b[0] == Msg(51, 52)
  {
    assert b[51] == Msg(0, 1);
  }

  lemma ProfilesThenLists(s: State)
    requires s.mailbox == Arrived(52) && s.arrivals == 52 && s.cursor == None && !Settled(s, 0)
    requires s.workers == map[0 := Profiled(0, 0), 1 := Started(None)]
    ensures var s' := Step(Step(s, Proceed(1, true)), Proceed(0, true));
            && s'.mailbox == Arrived(52) && 0 in s'.workers && s'.workers[0].Listed? && TurnsLeft(s'.workers[0]) <= 52
            && Heading(s', 0, 0) && PassedBy(s', 0, Msg(0, 1))
            && 1 in s'.workers && s'.workers[1] == Profiled(52, 52)
  {
    NewestFiftyLeaveTwo(s.mailbox);
  }

  lemma OverlapListing(s: State) returns (s': State)
    requires Empty(s)
    ensures s' == Run(s, OverlapStart()) && s'.mailbox == Arrived(52)
    ensures 0 in s'.workers && s'.workers[0].Listed? && TurnsLeft(s'.workers[0]) <= 52
    ensures Heading(s', 0, 0) && PassedBy(s', 0, Msg(0, 1))
    ensures 1 in s'.workers && s'.workers[1] == Profiled(52, 52)
  {
    var start := [Begin(0)] + [Begin(1)] + [Proceed(0, true)];
    var s1 := Run(s, start);
    OverlapProfiles(s);
    ArrivalsArrive(s1, 52);
    RunSplit(s, start, Arrivals(52));
    RunSnoc(s, start + Arrivals(52), Proceed(1, true));
    RunSnoc(s, start + Arrivals(52) + [Proceed(1, true)], Proceed(0, true));
    ProfilesThenLists(Run(s1, Arrivals(52)));
    s' := Step(Step(Run(s1, Arrivals(52)), Proceed(1, true)), Proceed(0, true));
  }

  lemma {:induction false} TurnsTouchOne(s: State, w: WorkerId, n: nat, v: WorkerId)
    requires v in s.workers && v != w
    ensures var s' := Run(s, Turns(w, n)); s'.mailbox == s.mailbox && v in s'.workers && s'.workers[v] == s.workers[v]
    decreases n
  {
    if n > 0 {
      assert Turns(w, n)[1..] == Turns(w, n - 1);
      TurnsTouchOne(Step(s, Proceed(w, true)), w, n - 1, v);
    }
  }

  /** Once the first run has persisted, the second lists the newest 50 under its later watermark. */
  lemma SecondLists(s: State)
    requires s.mailbox == Arrived(52) && s.cursor == Some(0) && s.baseline == 0 && !Settled(s, 0)
    requires 1 in s.workers && s.workers[1] == Profiled(52, 52)
    ensures var s' := Step(s, Proceed(1, true));
            && 1 in s'.workers && s'.workers[1].Listed? && TurnsLeft(s'.workers[1]) <= 52
            && Heading(s', 1, 52) && PassedBy(s', 1, Msg(0, 1))
  {
    NewestFiftyLeaveTwo(s.mailbox);
  }

  /**
   Overlapping initial runs lose mail with no incremental listing at all: the first persists the
   cursor of an empty mailbox, then the second moves it past two messages beyond its newest 50.
   */
  lemma OverlapLosesMail(s: State)
    requires Empty(s)
    ensures var s' := Run(s, OverlapRun());
            !NoGap(s') && Msg(0, 1) in s'.mailbox && !Settled(s', 0) && s'.baseline <= 0 && s'.cursor == Some(52)
  {
    var s1 := OverlapListing(s);
    var s2 := Run(s1, Turns(0, 52));
    TurnsFinish(s1, 0, 52);
    StaysPassedBy(s1, Turns(0, 52), 0, 0, Msg(0, 1));
    TurnsTouchOne(s1, 0, 52, 1);
    SecondLists(s2);
    RunSplit(s, OverlapStart(), Turns(0, 52));
    RunSnoc(s, OverlapStart() + Turns(0, 52), Proceed(1, true));
    RunSplit(s, OverlapStart() + Turns(0, 52) + [Proceed(1, true)], Turns(1, 52));
    FinishLoses(Step(s2, Proceed(1, true)), 1, 52, 52, Msg(0, 1));
  }
}
