/**
 Storing one message (message-ingestion.service.ts): any number of workers, possibly on the
 same message, interleaved statement by statement and crashing anywhere. Objects go to the
 store first, the row that points to them last, under a unique constraint.

 The provider is assumed to return the same bytes for an id every time, so parsing is a
 function of the id; the sending time need not be, as it falls back to the clock.
 */
module Ingestion {
  import opened Common
  import opened ObjectKeys

  /** The raw message and its trimmed body text, empty when there is none. */
  datatype Mail = Mail(raw: string, text: string)

  type Mailbox = MessageId -> Mail

  datatype MessageRow = MessageRow(rawObjectKey: string, bodyTextKey: Option<string>)

  type Objects = map<string, string>
  type Rows = map<MessageId, MessageRow>     // unique on (accountId, providerMessageId)

  function RowFor(mail: Mailbox, id: MessageId, at: Month): MessageRow
    requires at.Valid()
  {
    MessageRow(RawKey(id, at), if mail(id).text == "" then None else Some(BodyKey(id, at)))
  }

  function PutRaw(mail: Mailbox, objects: Objects, id: MessageId, at: Month): Objects
    requires at.Valid()
  {
    objects[RawKey(id, at) := mail(id).raw]
  }

  function PutBody(mail: Mailbox, objects: Objects, id: MessageId, at: Month): Objects
    requires at.Valid()
  {
    if mail(id).text == "" then objects else objects[BodyKey(id, at) := mail(id).text]
  }

  class MessageIngestionService {
    var objects: Objects
    var rows: Rows

    constructor ()
      ensures objects == map[] && rows == map[]
    {
      objects := map[];
      rows := map[];
    }

    method Put(key: string, body: string)
      modifies this`objects
      ensures objects == old(objects)[key := body]
    {
      objects := objects[key := body];
    }

    /** Stores the message unless it is stored already, objects before row. */
    method Ingest(mail: Mailbox, id: MessageId, at: Month) returns (created: bool)
      requires at.Valid()
      modifies this`objects, this`rows
      ensures created <==> id !in old(rows)
      ensures !created ==> rows == old(rows) && objects == old(objects)
      ensures created ==>
                && rows == old(rows)[id := RowFor(mail, id, at)]
                && objects == PutBody(mail, PutRaw(mail, old(objects), id, at), id, at)
    {
      if id in rows {
        return false;
      }
      var parsed := mail(id);
      var rawObjectKey := RawKey(id, at);
      Put(rawObjectKey, parsed.raw);
      var bodyTextKey: Option<string> := None;
      if parsed.text != "" {
        var key := BodyKey(id, at);
        bodyTextKey := Some(key);
        Put(key, parsed.text);
      }
      if id in rows {
        return false;
      }
      rows := rows[id := MessageRow(rawObjectKey, bodyTextKey)];
      created := true;
    }
  }

  // ---------------------------------------------------------------- the interleaved protocol

  datatype Progress =
    | Checking                     // about to look for the row
    | Dated(at: Month)             // parsed; about to put the raw object
    | RawPut(at: Month)            // about to put the body text, if any
    | BodyPut(at: Month)           // about to insert the row
    | Inserted                     // the row is in; not yet reported
    | Done(created: bool)
    | Crashed(inserted: bool)

  datatype Job = Job(id: MessageId, progress: Progress)

  type WorkerId = nat

  datatype State = State(objects: Objects, rows: Rows, jobs: map<WorkerId, Job>)

  datatype Action =
    | Begin(w: WorkerId, id: MessageId)
    | Proceed(w: WorkerId, at: Month)      // the next statement; `at` is the sending time it settles on
    | Crash(w: WorkerId)

  function SetJob(s: State, w: WorkerId, id: MessageId, p: Progress): State {
    s.(jobs := s.jobs[w := Job(id, p)])
  }

  function Step(mail: Mailbox, s: State, a: Action): State
    requires Sane(s)
  {
    match a
    case Begin(w, id) => if w in s.jobs || '/' in id.account then s else SetJob(s, w, id, Checking)
    case Crash(w) =>
      if w in s.jobs && !s.jobs[w].progress.Done? then SetJob(s, w, s.jobs[w].id, Crashed(HasInserted(s.jobs[w].progress))) else s
    case Proceed(w, at) =>
      if w !in s.jobs then s
      else
        var id := s.jobs[w].id;
        match s.jobs[w].progress
        case Checking =>
          if id in s.rows then SetJob(s, w, id, Done(false))
          else if at.Valid() then SetJob(s, w, id, Dated(at)) else s
        case Dated(at) => SetJob(s.(objects := PutRaw(mail, s.objects, id, at)), w, id, RawPut(at))
        case RawPut(at) => SetJob(s.(objects := PutBody(mail, s.objects, id, at)), w, id, BodyPut(at))
        case BodyPut(at) =>
          if id in s.rows then SetJob(s, w, id, Done(false))
          else SetJob(s.(rows := s.rows[id := RowFor(mail, id, at)]), w, id, Inserted)
        case Inserted => SetJob(s, w, id, Done(true))
        case _ => s
  }

  /** Months are real months and account ids are UUIDs. */
  predicate JobSane(j: Job) {
    '/' !in j.id.account
    && match j.progress
       case Dated(at) => at.Valid()
       case RawPut(at) => at.Valid()
       case BodyPut(at) => at.Valid()
       case _ => true
  }

  ghost predicate Sane(s: State) {
    forall w :: w in s.jobs ==> JobSane(s.jobs[w])
  }

  lemma StepSane(mail: Mailbox, s: State, a: Action)
    requires Sane(s)
    ensures Sane(Step(mail, s, a))
  {
  }

  ghost function Run(mail: Mailbox, s: State, acts: seq<Action>): State
    requires Sane(s)
    decreases |acts|
  {
    if acts == [] then s else StepSane(mail, s, acts[0]); Run(mail, Step(mail, s, acts[0]), acts[1..])
  }

  // ---------------------------------------------------------------- invariant

  /** Whatever is stored under a key of a message is that message's content. */
  ghost predicate StoreHonest(mail: Mailbox, objects: Objects) {
    && (forall id: MessageId, at: Month :: at.Valid() && '/' !in id.account && RawKey(id, at) in objects ==>
          objects[RawKey(id, at)] == mail(id).raw)
    && (forall id: MessageId, at: Month :: at.Valid() && '/' !in id.account && BodyKey(id, at) in objects ==>
          objects[BodyKey(id, at)] == mail(id).text)
  }

  predicate RawThere(objects: Objects, id: MessageId, at: Month)
    requires at.Valid()
  {
    RawKey(id, at) in objects
  }

  predicate BodyThere(mail: Mailbox, objects: Objects, id: MessageId, at: Month)
    requires at.Valid()
  {
    mail(id).text != "" ==> BodyKey(id, at) in objects
  }

  predicate JobOk(mail: Mailbox, s: State, j: Job)
    requires JobSane(j)
  {
    match j.progress
    case RawPut(at) => RawThere(s.objects, j.id, at)
    case BodyPut(at) => RawThere(s.objects, j.id, at) && BodyThere(mail, s.objects, j.id, at)
    case Inserted => j.id in s.rows
    case Done(_) => j.id in s.rows
    case Crashed(inserted) => inserted ==> j.id in s.rows
    case _ => true
  }

  /** The row was written for some month whose objects are in the store. */
  ghost predicate RowOk(mail: Mailbox, s: State, id: MessageId)
    requires id in s.rows
  {
    '/' !in id.account
    && exists at: Month :: at.Valid() && s.rows[id] == RowFor(mail, id, at)
                           && RawThere(s.objects, id, at) && BodyThere(mail, s.objects, id, at)
  }

  /** This worker's insert went through, whatever became of its report. */
  predicate HasInserted(p: Progress) {
    p.Inserted? || p == Done(true) || p == Crashed(true)
  }

  /** The workers whose insert went through. */
  function Inserters(s: State): set<WorkerId> {
    set w | w in s.jobs && HasInserted(s.jobs[w].progress)
  }

  /** The ingests that reported a new message. */
  function Creators(s: State): set<WorkerId> {
    set w | w in s.jobs && s.jobs[w].progress == Done(true)
  }

  /** Inserts not reported: the worker has yet to return, or died first. */
  function Unreported(s: State): set<WorkerId> {
    set w | w in s.jobs && (s.jobs[w].progress.Inserted? || s.jobs[w].progress == Crashed(true))
  }

  ghost predicate OneInserter(s: State) {
    forall v, w :: v in Inserters(s) && w in Inserters(s) && s.jobs[v].id == s.jobs[w].id ==> v == w
  }

  ghost predicate Inv(mail: Mailbox, s: State) {
    && Sane(s)
    && StoreHonest(mail, s.objects)
    && (forall w :: w in s.jobs ==> JobOk(mail, s, s.jobs[w]))
    && (forall id :: id in s.rows ==> RowOk(mail, s, id))
    && OneInserter(s)
  }

  lemma PutRawHonest(mail: Mailbox, objects: Objects, id: MessageId, at: Month)
    requires StoreHonest(mail, objects) && at.Valid() && '/' !in id.account
    ensures StoreHonest(mail, PutRaw(mail, objects, id, at))
  {
    var objects' := PutRaw(mail, objects, id, at);
    forall j: MessageId, bt: Month | bt.Valid() && '/' !in j.account
      ensures RawKey(j, bt) in objects' ==> objects'[RawKey(j, bt)] == mail(j).raw
      ensures BodyKey(j, bt) in objects' ==> objects'[BodyKey(j, bt)] == mail(j).text
    {
      KeysAreInjective(id, at, j, bt);
    }
  }

  lemma PutBodyHonest(mail: Mailbox, objects: Objects, id: MessageId, at: Month)
    requires StoreHonest(mail, objects) && at.Valid() && '/' !in id.account
    ensures StoreHonest(mail, PutBody(mail, objects, id, at))
  {
    var objects' := PutBody(mail, objects, id, at);
    forall j: MessageId, bt: Month | bt.Valid() && '/' !in j.account
      ensures RawKey(j, bt) in objects' ==> objects'[RawKey(j, bt)] == mail(j).raw
      ensures BodyKey(j, bt) in objects' ==> objects'[BodyKey(j, bt)] == mail(j).text
    {
      KeysAreInjective(j, bt, id, at);
      KeysAreInjective(id, at, j, bt);
    }
  }

  lemma StepHonest(mail: Mailbox, s: State, a: Action)
    requires Inv(mail, s)
    ensures StoreHonest(mail, Step(mail, s, a).objects)
  {
    if a.Proceed? && a.w in s.jobs {
      var j := s.jobs[a.w];
      match j.progress
      case Dated(at) => PutRawHonest(mail, s.objects, j.id, at);
      case RawPut(at) => PutBodyHonest(mail, s.objects, j.id, at);
      case _ =>
    }
  }

  /** Nothing is ever taken away. */
  predicate Grows(s: State, s': State) {
    && s.objects.Keys <= s'.objects.Keys
    && (forall id :: id in s.rows ==> id in s'.rows && s'.rows[id] == s.rows[id])
  }

  lemma StepGrows(mail: Mailbox, s: State, a: Action)
    requires Sane(s)
    ensures Grows(s, Step(mail, s, a))
  {
  }

  lemma JobStaysOk(mail: Mailbox, s: State, s': State, j: Job)
    requires JobSane(j) && Grows(s, s') && JobOk(mail, s, j)
    ensures JobOk(mail, s', j)
  {
  }

  lemma AdvancedJobOk(mail: Mailbox, s: State, w: WorkerId, at: Month)
    requires Sane(s) && w in s.jobs && JobOk(mail, s, s.jobs[w])
    ensures var s' := Step(mail, s, Proceed(w, at));
            w in s'.jobs && JobSane(s'.jobs[w]) && JobOk(mail, s', s'.jobs[w])
  {
  }

  lemma StoppedJobOk(mail: Mailbox, s: State, w: WorkerId)
    requires Inv(mail, s) && w in s.jobs
    ensures var s' := Step(mail, s, Crash(w));
            w in s'.jobs && s'.rows == s.rows && s'.objects == s.objects && JobSane(s'.jobs[w]) && JobOk(mail, s', s'.jobs[w])
  {
    assert JobOk(mail, s, s.jobs[w]);
  }

  /** A job is as it was, or was advanced, begun or killed by this step. */
  lemma JobOrigin(mail: Mailbox, s: State, a: Action, w: WorkerId)
    requires Sane(s) && w in Step(mail, s, a).jobs
    ensures (w in s.jobs && Step(mail, s, a).jobs[w] == s.jobs[w])
            || (w in s.jobs && a.Proceed? && a.w == w)
            || (w in s.jobs && a.Crash? && a.w == w)
            || Step(mail, s, a).jobs[w].progress.Checking?
  {
  }

  lemma NextJobOk(mail: Mailbox, s: State, a: Action, w: WorkerId)
    requires Inv(mail, s) && w in Step(mail, s, a).jobs && JobSane(Step(mail, s, a).jobs[w])
    ensures JobOk(mail, Step(mail, s, a), Step(mail, s, a).jobs[w])
  {
    StepGrows(mail, s, a);
    JobOrigin(mail, s, a, w);
    if w in s.jobs && a.Proceed? && a.w == w {
      AdvancedJobOk(mail, s, w, a.at);
    } else if w in s.jobs && Step(mail, s, a).jobs[w] == s.jobs[w] {
      JobStaysOk(mail, s, Step(mail, s, a), s.jobs[w]);
    } else if w in s.jobs && a.Crash? && a.w == w {
      StoppedJobOk(mail, s, w);
    }
  }

  lemma NextRowOk(mail: Mailbox, s: State, a: Action, id: MessageId)
    requires Inv(mail, s) && id in Step(mail, s, a).rows
    ensures RowOk(mail, Step(mail, s, a), id)
  {
    var s' := Step(mail, s, a);
    StepGrows(mail, s, a);
    if id in s.rows {
      assert RowOk(mail, s, id);
      var at: Month :| at.Valid() && s.rows[id] == RowFor(mail, id, at)
                       && RawThere(s.objects, id, at) && BodyThere(mail, s.objects, id, at);
      assert RawThere(s'.objects, id, at) && BodyThere(mail, s'.objects, id, at);
    } else {
      var j := s.jobs[a.w];
      assert JobOk(mail, s, j);
      var at := j.progress.at;
      assert s'.rows[id] == RowFor(mail, id, at) && RawThere(s'.objects, id, at) && BodyThere(mail, s'.objects, id, at);
    }
  }

  /** The one statement that adds a row. */
  predicate Inserts(s: State, a: Action) {
    a.Proceed? && a.w in s.jobs && s.jobs[a.w].progress.BodyPut? && s.jobs[a.w].id !in s.rows
  }

  lemma StepConserves(mail: Mailbox, s: State, a: Action)
    requires Sane(s)
    ensures var s' := Step(mail, s, a);
            if Inserts(s, a)
            then s'.rows.Keys == s.rows.Keys + {s.jobs[a.w].id} && Inserters(s') == Inserters(s) + {a.w}
            else s'.rows == s.rows && Inserters(s') == Inserters(s)
  {
  }

  lemma InsertersStay(mail: Mailbox, s: State, a: Action, w: WorkerId)
    requires Sane(s) && w in Inserters(s)
    ensures w in Inserters(Step(mail, s, a)) && Step(mail, s, a).jobs[w].id == s.jobs[w].id
  {
  }

  lemma InsertersAreStored(mail: Mailbox, s: State)
    requires Inv(mail, s)
    ensures forall w :: w in Inserters(s) ==> s.jobs[w].id in s.rows
  {
    forall w | w in Inserters(s) ensures s.jobs[w].id in s.rows {
      assert JobOk(mail, s, s.jobs[w]);
    }
  }

  lemma JobsKeepTheirMessage(mail: Mailbox, s: State, a: Action, w: WorkerId)
    requires Sane(s) && w in s.jobs
    ensures w in Step(mail, s, a).jobs && Step(mail, s, a).jobs[w].id == s.jobs[w].id
  {
  }

  /** An insert adds one inserter, of a message no other inserter has. */
  lemma OneMoreInserter(s: State, s': State, w: WorkerId)
    requires OneInserter(s) && w in s.jobs && w in s'.jobs && s'.jobs[w].id == s.jobs[w].id && s.jobs[w].id !in s.rows
    requires forall v :: v in Inserters(s) ==> s.jobs[v].id in s.rows && v in s'.jobs && s'.jobs[v].id == s.jobs[v].id
    requires Inserters(s') == Inserters(s) + {w}
    ensures OneInserter(s')
  {
  }

  lemma StepOneInserter(mail: Mailbox, s: State, a: Action)
    requires Inv(mail, s)
    ensures OneInserter(Step(mail, s, a))
  {
    InsertersAreStored(mail, s);
    StepConserves(mail, s, a);
    forall w | w in Inserters(s) ensures w in Inserters(Step(mail, s, a)) && Step(mail, s, a).jobs[w].id == s.jobs[w].id {
      InsertersStay(mail, s, a, w);
    }
    if Inserts(s, a) {
      JobsKeepTheirMessage(mail, s, a, a.w);
      OneMoreInserter(s, Step(mail, s, a), a.w);
    }
  }

  lemma StepKeepsInv(mail: Mailbox, s: State, a: Action)
    requires Inv(mail, s)
    ensures Inv(mail, Step(mail, s, a))
  {
    var s' := Step(mail, s, a);
    StepSane(mail, s, a);
    StepHonest(mail, s, a);
    StepOneInserter(mail, s, a);
    forall w | w in s'.jobs ensures JobOk(mail, s', s'.jobs[w]) { NextJobOk(mail, s, a, w); }
    forall id | id in s'.rows ensures RowOk(mail, s', id) { NextRowOk(mail, s, a, id); }
  }

  // ---------------------------------------------------------------- main results

  lemma StepCounts(mail: Mailbox, s: State, a: Action)
    requires Sane(s)
    ensures |Step(mail, s, a).rows| - |s.rows| == |Inserters(Step(mail, s, a))| - |Inserters(s)|
  {
    var s' := Step(mail, s, a);
    StepConserves(mail, s, a);
    if Inserts(s, a) {
      assert |s'.rows| == |s'.rows.Keys| && |s.rows| == |s.rows.Keys|;
      assert a.w !in Inserters(s);
    }
  }

  lemma {:induction false} RunKeepsInv(mail: Mailbox, s: State, acts: seq<Action>)
    requires Inv(mail, s)
    ensures Inv(mail, Run(mail, s, acts)) && Grows(s, Run(mail, s, acts))
    ensures |Run(mail, s, acts).rows| - |s.rows| == |Inserters(Run(mail, s, acts))| - |Inserters(s)|
    decreases |acts|
  {
    if acts != [] {
      StepKeepsInv(mail, s, acts[0]);
      StepGrows(mail, s, acts[0]);
      StepCounts(mail, s, acts[0]);
      RunKeepsInv(mail, Step(mail, s, acts[0]), acts[1..]);
    }
  }

  predicate Empty(s: State) {
    s == State(map[], map[], map[])
  }

  /** In every interleaving, the keys of each row name objects that already hold its own message's content. */
  lemma RowsPointAtTheirContent(mail: Mailbox, s: State, acts: seq<Action>, id: MessageId)
    requires Empty(s) && id in Run(mail, s, acts).rows
    ensures var s' := Run(mail, s, acts);
            var row := s'.rows[id];
            && row.rawObjectKey in s'.objects && s'.objects[row.rawObjectKey] == mail(id).raw
            && (row.bodyTextKey.None? <==> mail(id).text == "")
            && (row.bodyTextKey.Some? ==>
                  row.bodyTextKey.value in s'.objects && s'.objects[row.bodyTextKey.value] == mail(id).text)
  {
    RunKeepsInv(mail, s, acts);
    var s' := Run(mail, s, acts);
    assert RowOk(mail, s', id);
    var at: Month :| at.Valid() && s'.rows[id] == RowFor(mail, id, at)
                     && RawThere(s'.objects, id, at) && BodyThere(mail, s'.objects, id, at);
  }

  /**
   However many workers race on however many messages: at most one of them inserts a message,
   so at most one reports it created, every one that returns leaves it stored, and there are as
   many rows as reports and unreported inserts together.
   */
  lemma CreatedOnceAndCounted(mail: Mailbox, s: State, acts: seq<Action>)
    requires Empty(s)
    ensures var s' := Run(mail, s, acts);
            && |s'.rows| == |Creators(s')| + |Unreported(s')|
            && (forall v, w :: v in Inserters(s') && w in Inserters(s') && s'.jobs[v].id == s'.jobs[w].id ==> v == w)
            && Creators(s') <= Inserters(s')
            && (forall w :: w in s'.jobs && s'.jobs[w].progress.Done? ==> s'.jobs[w].id in s'.rows)
  {
    RunKeepsInv(mail, s, acts);
    assert Inserters(s) == {};
    InsertersReportOrNot(Run(mail, s, acts));
    DoneIsStored(mail, Run(mail, s, acts));
  }

  lemma InsertersReportOrNot(s: State)
    ensures Creators(s) <= Inserters(s) && |Inserters(s)| == |Creators(s)| + |Unreported(s)|
  {
    assert Inserters(s) == Creators(s) + Unreported(s);
  }

  lemma DoneIsStored(mail: Mailbox, s: State)
    requires Inv(mail, s)
    ensures forall w :: w in s.jobs && s.jobs[w].progress.Done? ==> s.jobs[w].id in s.rows
  {
    forall w | w in s.jobs && s.jobs[w].progress.Done? ensures s.jobs[w].id in s.rows {
      assert JobOk(mail, s, s.jobs[w]);
    }
  }

  /** The last four statements: raw object, body text, insert, report. */
  lemma StoresAlone(mail: Mailbox, s: State, w: WorkerId, id: MessageId, at: Month)
    requires Sane(s) && w in s.jobs && s.jobs[w] == Job(id, Dated(at)) && id !in s.rows
    ensures var p := Proceed(w, at);
            var s' := Run(mail, s, [p, p, p, p]);
            && w in s'.jobs && s'.jobs[w] == Job(id, Done(true))
            && s'.rows == s.rows[id := RowFor(mail, id, at)]
            && s'.objects == PutBody(mail, PutRaw(mail, s.objects, id, at), id, at)
  {
    var p := Proceed(w, at);
    RunFirst(mail, s, p, [p, p, p]);
    var s1 := Step(mail, s, p);
    RunFirst(mail, s1, p, [p, p]);
    var s2 := Step(mail, s1, p);
    RunFirst(mail, s2, p, [p]);
    RunFirst(mail, Step(mail, s2, p), p, []);
  }

  lemma {:induction false} DoneStays(mail: Mailbox, s: State, w: WorkerId, at: Month, n: nat)
    requires Sane(s) && w in s.jobs && s.jobs[w].progress.Done?
    ensures Run(mail, s, seq(n, _ => Proceed(w, at))) == s
  {
    if n > 0 {
      assert seq(n, _ => Proceed(w, at)) == [Proceed(w, at)] + seq(n - 1, _ => Proceed(w, at));
      RunFirst(mail, s, Proceed(w, at), seq(n - 1, _ => Proceed(w, at)));
      DoneStays(mail, s, w, at, n - 1);
    }
  }

  /** A worker nobody disturbs does what the sequential `Ingest` does. */
  lemma AloneIsIngest(mail: Mailbox, s: State, w: WorkerId, id: MessageId, at: Month)
    requires Sane(s) && w !in s.jobs && '/' !in id.account && at.Valid()
    ensures var p := Proceed(w, at);
            var s' := Run(mail, s, [Begin(w, id), p, p, p, p, p]);
            && w in s'.jobs && s'.jobs[w].id == id && s'.jobs[w].progress.Done?
            && (s'.jobs[w].progress.created <==> id !in s.rows)
            && s'.rows == (if id in s.rows then s.rows else s.rows[id := RowFor(mail, id, at)])
            && s'.objects == (if id in s.rows then s.objects else PutBody(mail, PutRaw(mail, s.objects, id, at), id, at))
  {
    var p := Proceed(w, at);
    RunFirst(mail, s, Begin(w, id), [p, p, p, p, p]);
    var s1 := Step(mail, s, Begin(w, id));
    RunFirst(mail, s1, p, [p, p, p, p]);
    if id in s.rows {
      assert seq(4, _ => p) == [p, p, p, p];
      DoneStays(mail, Step(mail, s1, p), w, at, 4);
    } else {
      StoresAlone(mail, Step(mail, s1, p), w, id, at);
    }
  }

  lemma RunFirst(mail: Mailbox, s: State, a: Action, rest: seq<Action>)
    requires Sane(s)
    ensures Sane(Step(mail, s, a)) && Run(mail, s, [a] + rest) == Run(mail, Step(mail, s, a), rest)
  {
    StepSane(mail, s, a);
    assert ([a] + rest)[1..] == rest;
  }

  /** The objects a stored row names hold its message's content. */
  ghost predicate NamesContent(mail: Mailbox, s: State, id: MessageId)
    requires id in s.rows
  {
    && s.rows[id].rawObjectKey in s.objects && s.objects[s.rows[id].rawObjectKey] == mail(id).raw
    && (s.rows[id].bodyTextKey.Some? ==>
          s.rows[id].bodyTextKey.value in s.objects && s.objects[s.rows[id].bodyTextKey.value] == mail(id).text)
  }

  lemma StoredNamesContent(mail: Mailbox, s: State, id: MessageId)
    requires Inv(mail, s) && id in s.rows
    ensures NamesContent(mail, s, id)
  {
    assert RowOk(mail, s, id);
    var at: Month :| at.Valid() && s.rows[id] == RowFor(mail, id, at)
                     && RawThere(s.objects, id, at) && BodyThere(mail, s.objects, id, at);
  }

  /** A row, once written, and both objects it names never change again. */
  lemma StoredMessagesAreFixed(mail: Mailbox, s: State, before: seq<Action>, after: seq<Action>, id: MessageId)
    requires Empty(s) && Sane(Run(mail, s, before)) && id in Run(mail, s, before).rows
    ensures var s1 := Run(mail, s, before);
            var s2 := Run(mail, s1, after);
            id in s2.rows && s2.rows[id] == s1.rows[id] && NamesContent(mail, s1, id) && NamesContent(mail, s2, id)
  {
    RunKeepsInv(mail, s, before);
    var s1 := Run(mail, s, before);
    RunKeepsInv(mail, s1, after);
    StoredNamesContent(mail, s1, id);
    StoredNamesContent(mail, Run(mail, s1, after), id);
  }

  // ---------------------------------------------------------------- every worker returns, or has died

  function StepsLeft(p: Progress): nat {
    match p
    case Checking => 5
    case Dated(_) => 4
    case RawPut(_) => 3
    case BodyPut(_) => 2
    case Inserted => 1
    case _ => 0
  }

  /** How often this worker's statements run. */
  function Turns(acts: seq<Action>, w: WorkerId): nat {
    if acts == [] then 0
    else (if acts[0].Proceed? && acts[0].w == w && acts[0].at.Valid() then 1 else 0) + Turns(acts[1..], w)
  }

  lemma TurnIsProgress(mail: Mailbox, s: State, a: Action, w: WorkerId)
    requires Sane(s) && w in s.jobs && !s.jobs[w].progress.Crashed? && a != Crash(w)
    ensures var p, s' := s.jobs[w].progress, Step(mail, s, a);
            && w in s'.jobs && !s'.jobs[w].progress.Crashed?
            && StepsLeft(s'.jobs[w].progress) <= StepsLeft(p)
            && (a.Proceed? && a.w == w && a.at.Valid() && StepsLeft(p) > 0 ==> StepsLeft(s'.jobs[w].progress) < StepsLeft(p))
  {
  }

  /** Whatever the others do, a worker that gets its turns and does not die returns. */
  lemma {:induction false} EveryWorkerReturns(mail: Mailbox, s: State, acts: seq<Action>, w: WorkerId)
    requires Sane(s) && w in s.jobs && !s.jobs[w].progress.Crashed? && Crash(w) !in acts
    requires Turns(acts, w) >= StepsLeft(s.jobs[w].progress)
    ensures w in Run(mail, s, acts).jobs && Run(mail, s, acts).jobs[w].progress.Done?
    decreases |acts|
  {
    if acts != [] {
      TurnIsProgress(mail, s, acts[0], w);
      StepSane(mail, s, acts[0]);
      EveryWorkerReturns(mail, Step(mail, s, acts[0]), acts[1..], w);
    }
  }

  lemma {:induction false} CrashedStays(mail: Mailbox, s: State, acts: seq<Action>, w: WorkerId)
    requires Sane(s) && w in s.jobs && s.jobs[w].progress.Crashed?
    ensures w in Run(mail, s, acts).jobs && Run(mail, s, acts).jobs[w] == s.jobs[w]
    decreases |acts|
  {
    if acts != [] {
      StepSane(mail, s, acts[0]);
      CrashedStays(mail, Step(mail, s, acts[0]), acts[1..], w);
    }
  }

  /** A worker that dies before it returns never reports, and the crash itself loses nothing. */
  lemma CrashLosesOnlyTheReport(mail: Mailbox, s: State, acts: seq<Action>, w: WorkerId)
    requires Sane(s) && w in s.jobs && !s.jobs[w].progress.Done?
    ensures Step(mail, s, Crash(w)).rows == s.rows && Step(mail, s, Crash(w)).objects == s.objects
    ensures Sane(Step(mail, s, Crash(w))) && w !in Creators(Run(mail, Step(mail, s, Crash(w)), acts))
  {
    StepSane(mail, s, Crash(w));
    CrashedStays(mail, Step(mail, s, Crash(w)), acts, w);
  }

  /** Trying again after any history, crashes included, leaves the message stored under its own content. */
  lemma RetryStores(mail: Mailbox, s: State, before: seq<Action>, v: WorkerId, id: MessageId, at: Month)
    requires Empty(s) && Sane(Run(mail, s, before)) && v !in Run(mail, s, before).jobs && '/' !in id.account && at.Valid()
    ensures var p := Proceed(v, at);
            var s' := Run(mail, Run(mail, s, before), [Begin(v, id), p, p, p, p, p]);
            id in s'.rows && NamesContent(mail, s', id)
  {
    var p := Proceed(v, at);
    var s1 := Run(mail, s, before);
    RunKeepsInv(mail, s, before);
    AloneIsIngest(mail, s1, v, id, at);
    RunKeepsInv(mail, s1, [Begin(v, id), p, p, p, p, p]);
    StoredNamesContent(mail, Run(mail, s1, [Begin(v, id), p, p, p, p, p]), id);
  }
}
