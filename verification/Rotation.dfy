/**
 Refresh-token rotation as a concurrent protocol (auth.service.ts, refresh-token.service.ts).

 Each request is a small program whose database statements are the atomic steps; any number
 of logins, refreshes, replays and logouts interleave with sweeps, clock ticks, account
 (de)activation and crashes. A run is an arbitrary list of actions: an action that does
 not apply leaves the state as it is, so every theorem is about all lists of actions.

 Random values are supplied by the action and used only when no run has seen them before.
 */
module Rotation {
  import opened Common
  import opened RefreshTokens

  type RequestId = nat

  datatype Cause = Replay | Deactivated | LogoutAsked

  /** Where a request stands, named by the statement it has just completed. */
  datatype Request =
    | Presented(token: Token)                                 // refresh: about to run the spending update
    | Rejected(token: Token)                                  // the update matched no row
    | Claimed(token: Token)                                   // the update matched; about to re-read the row
    | Spent(token: Token, row: Row)                           // spend returned the row; about to read the user
    | Rotating(token: Token, row: Row)                        // user is active; about to issue
    | Linking(oldId: RowId, newId: RowId, newToken: Token)    // issued; about to link
    | Admitted(userId: UserId)                                // login: user and password checked; about to start a family
    | LoggingOut(token: Token)
    | Revoking(cause: Cause, familyId: FamilyId)              // about to revoke the family
    | Granted(token: Token)
    | Refused
    | LoggedOut
    | Lost                                                    // the process died

  /** One row ever issued. `birth` is its place in the order of issue. */
  datatype Issued = Issued(userId: UserId, familyId: FamilyId, birth: nat)

  datatype State = State(
    ttl: nat,
    now: int,
    active: set<UserId>,
    table: Table,
    requests: map<RequestId, Request>,
    seen: set<Token>,            // every token issued or presented so far
    families: set<FamilyId>,     // every family started so far
    log: map<RowId, Issued>)     // every row issued so far, swept or not

  datatype Action =
    | Tick(now: int)
    | SetActive(userId: UserId, active: bool)
    | Login(req: RequestId, userId: UserId)
    | StartFamily(req: RequestId, token: Token, id: RowId, familyId: FamilyId)   // the login's insert
    | Present(req: RequestId, token: Token)
    | Logout(req: RequestId, token: Token)
    | Advance(req: RequestId, token: Token, id: RowId)   // the next statement of a request
    | Crash(req: RequestId)
    | SweepExpired

  predicate Initial(s: State) {
    s.table == map[] && s.requests == map[] && s.seen == {} && s.families == {} && s.log == map[]
  }

  predicate Fresh(s: State, token: Token, id: RowId) {
    token !in s.seen && id !in s.log
  }

  function Become(s: State, r: RequestId, q: Request): State {
    s.(requests := s.requests[r := q])
  }

  function IssueRow(s: State, u: UserId, f: FamilyId, token: Token, id: RowId): State {
    s.(table := s.table[token := NewRow(id, u, f, s.now + s.ttl)],
       seen := s.seen + {token},
       families := s.families + {f},
       log := s.log[id := Issued(u, f, |s.log|)])
  }

  function Step(s: State, a: Action): State {
    match a
    case Tick(t) => if t >= s.now then s.(now := t) else s
    case SetActive(u, b) => s.(active := if b then s.active + {u} else s.active - {u})
    case Login(r, u) =>
      if r in s.requests then s else Become(s, r, if u in s.active then Admitted(u) else Refused)
    case StartFamily(r, token, id, f) =>
      if r !in s.requests || !s.requests[r].Admitted? || !Fresh(s, token, id) || f in s.families then s
      else Become(IssueRow(s, s.requests[r].userId, f, token, id), r, Granted(token))
    case Present(r, token) =>
      if r in s.requests then s
      else Become(s.(seen := s.seen + {token}), r, Presented(token))
    case Logout(r, token) =>
      if r in s.requests then s
      else Become(s.(seen := s.seen + {token}), r, LoggingOut(token))
    case Advance(r, token, id) => if r in s.requests then NextStatement(s, r, token, id) else s
    case Crash(r) => if r in s.requests then Become(s, r, Lost) else s
    case SweepExpired => s.(table := Sweep(s.table, s.now))
  }

  function NextStatement(s: State, r: RequestId, token: Token, id: RowId): State
    requires r in s.requests
  {
    match s.requests[r]
    case Presented(t) =>
      if Spendable(s.table, t, s.now)
      then Become(s.(table := Claim(s.table, t, s.now)), r, Claimed(t))
      else Become(s, r, Rejected(t))
    case Rejected(t) =>
      if t in s.table && !s.table[t].Live()
      then Become(s, r, Revoking(Replay, s.table[t].familyId))
      else Become(s, r, Refused)
    case Claimed(t) =>
      if t in s.table then Become(s, r, Spent(t, s.table[t])) else Become(s, r, Refused)
    case Spent(t, row) =>
      if row.userId in s.active
      then Become(s, r, Rotating(t, row))
      else Become(s, r, Revoking(Deactivated, row.familyId))
    case Rotating(t, row) =>
      if Fresh(s, token, id)
      then Become(IssueRow(s, row.userId, row.familyId, token, id), r, Linking(row.id, id, token))
      else s
    case Linking(oldId, newId, newToken) =>
      if HasId(s.table, oldId)
      then Become(s.(table := Link(s.table, oldId, newId)), r, Granted(newToken))
      else Become(s, r, Refused)
    case LoggingOut(t) =>
      if t in s.table
      then Become(s, r, Revoking(LogoutAsked, s.table[t].familyId))
      else Become(s, r, LoggedOut)
    case Revoking(cause, f) =>
      Become(s.(table := RevokeFamily(s.table, f, s.now)), r, if cause.LogoutAsked? then LoggedOut else Refused)
    case _ => s
  }

  function Run(s: State, acts: seq<Action>): State
    decreases |acts|
  {
    if acts == [] then s else Run(Step(s, acts[0]), acts[1..])
  }

  lemma {:induction false} RunSplit(s: State, a: seq<Action>, b: seq<Action>)
    ensures Run(s, a + b) == Run(Run(s, a), b)
    decreases |a|
  {
    if a == [] {
      assert a + b == b;
    } else {
      assert (a + b)[0] == a[0] && (a + b)[1..] == a[1..] + b;
      RunSplit(Step(s, a[0]), a[1..], b);
    }
  }

  // ---------------------------------------------------------------- invariant

  /** A row agrees with the record of its issue. */
  predicate Logged(s: State, id: RowId, u: UserId, f: FamilyId) {
    id in s.log && s.log[id].userId == u && s.log[id].familyId == f && f in s.families
  }

  ghost predicate RowsLogged(s: State) {
    && (forall t :: t in s.table ==> t in s.seen && Logged(s, s.table[t].id, s.table[t].userId, s.table[t].familyId))
    && (forall j, k :: j in s.table && k in s.table && s.table[j].id == s.table[k].id ==> j == k)
    && (forall id :: id in s.log ==> s.log[id].birth < |s.log|)
  }

  /** The token was accepted once; it can never be spendable again. */
  predicate UsedUp(s: State, t: Token) {
    t in s.seen && (t in s.table ==> !s.table[t].Live())
  }

  ghost predicate RequestOk(s: State, q: Request) {
    match q
    case Presented(t) => t in s.seen
    case Rejected(t) => t in s.seen
    case LoggingOut(t) => t in s.seen
    case Claimed(t) => UsedUp(s, t)
    case Spent(t, row) => UsedUp(s, t) && Logged(s, row.id, row.userId, row.familyId)
    case Rotating(t, row) => UsedUp(s, t) && Logged(s, row.id, row.userId, row.familyId)
    case Linking(oldId, newId, _) =>
      oldId in s.log && newId in s.log && s.log[oldId].birth < s.log[newId].birth
      && s.log[oldId].userId == s.log[newId].userId && s.log[oldId].familyId == s.log[newId].familyId
    case Revoking(_, f) => f in s.families
    case _ => true
  }

  ghost predicate RequestsOk(s: State) {
    forall r :: r in s.requests ==> RequestOk(s, s.requests[r])
  }

  /** What can still produce or be a live token of a family. */
  datatype Holder = RowOf(token: Token) | RefreshOf(req: RequestId)

  predicate Pending(s: State, f: FamilyId, r: RequestId) {
    r in s.requests
    && match s.requests[r]
       case Claimed(t) => t in s.table && s.table[t].familyId == f
       case Spent(_, row) => row.familyId == f
       case Rotating(_, row) => row.familyId == f
       case _ => false
  }

  predicate LiveRow(s: State, f: FamilyId, t: Token) {
    t in s.table && s.table[t].familyId == f && s.table[t].Live()
  }

  predicate Holds(s: State, f: FamilyId, h: Holder) {
    match h
    case RowOf(t) => LiveRow(s, f, t)
    case RefreshOf(r) => Pending(s, f, r)
  }

  ghost predicate OneHolder(s: State) {
    && (forall f, h :: Holds(s, f, h) ==> f in s.families)
    && (forall f, h, h' :: Holds(s, f, h) && Holds(s, f, h') ==> h == h')
  }

  /** Replacement links stay inside one family and user and point to later rows. */
  predicate LinkForward(s: State, t: Token)
    requires t in s.table && s.table[t].replacedById.Some?
  {
    var id, next := s.table[t].id, s.table[t].replacedById.value;
    && id in s.log && next in s.log && s.log[id].birth < s.log[next].birth
    && s.log[id].userId == s.log[next].userId && s.log[id].familyId == s.log[next].familyId
  }

  ghost predicate LinksForward(s: State) {
    forall t :: t in s.table && s.table[t].replacedById.Some? ==> LinkForward(s, t)
  }

  predicate LinksTo(s: State, t: Token, id: RowId) {
    t in s.table && s.table[t].replacedById == Some(id)
  }

  predicate WillLinkTo(s: State, r: RequestId, id: RowId) {
    r in s.requests && s.requests[r].Linking? && s.requests[r].newId == id
  }

  ghost predicate OnePredecessor(s: State) {
    && (forall j, k, id :: LinksTo(s, j, id) && LinksTo(s, k, id) ==> j == k)
    && (forall q, r, id :: WillLinkTo(s, q, id) && WillLinkTo(s, r, id) ==> q == r)
    && (forall k, r, id :: LinksTo(s, k, id) && WillLinkTo(s, r, id) ==> false)
  }

  ghost predicate Inv(s: State) {
    RowsLogged(s) && RequestsOk(s) && OneHolder(s) && LinksForward(s) && OnePredecessor(s)
  }

  // ---------------------------------------------------------------- what time does not undo

  /** The same row later on: identity and expiry are fixed, and a revocation time is written once. */
  predicate SameRow(before: Row, after: Row) {
    && after.id == before.id && after.userId == before.userId && after.familyId == before.familyId
    && after.expiresAt == before.expiresAt
    && (before.revokedAt.Some? ==> after.revokedAt == before.revokedAt)
  }

  ghost predicate TableLater(seen: set<Token>, t: Table, t': Table) {
    forall k :: k in seen && k in t' ==> k in t && SameRow(t[k], t'[k])
  }

  ghost predicate LogLater(s: State, s': State) {
    && s.families <= s'.families
    && |s.log| <= |s'.log|
    && (forall id :: id in s.log ==> id in s'.log && s'.log[id] == s.log[id])
  }

  /** What every step, and so every run, preserves between its two ends. */
  ghost predicate Later(s: State, s': State) {
    && s.now <= s'.now
    && s.seen <= s'.seen
    && TableLater(s.seen, s.table, s'.table)
    && LogLater(s, s')
  }

  lemma StatementTableLater(s: State, r: RequestId, token: Token, id: RowId)
    requires r in s.requests
    ensures TableLater(s.seen, s.table, NextStatement(s, r, token, id).table)
  {
  }

  lemma StatementLogLater(s: State, r: RequestId, token: Token, id: RowId)
    requires r in s.requests
    ensures var s' := NextStatement(s, r, token, id); s.now == s'.now && s.seen <= s'.seen && LogLater(s, s')
  {
  }

  lemma NextStatementLater(s: State, r: RequestId, token: Token, id: RowId)
    requires r in s.requests
    ensures Later(s, NextStatement(s, r, token, id))
  {
    StatementTableLater(s, r, token, id);
    StatementLogLater(s, r, token, id);
  }

  lemma StepLater(s: State, a: Action)
    ensures Later(s, Step(s, a))
  {
    if a.Advance? && a.req in s.requests {
      NextStatementLater(s, a.req, a.token, a.id);
    }
  }

  lemma {:induction false} RunLater(s: State, acts: seq<Action>)
    ensures Later(s, Run(s, acts))
    decreases |acts|
  {
    if acts != [] {
      StepLater(s, acts[0]);
      RunLater(Step(s, acts[0]), acts[1..]);
    }
  }

  // ---------------------------------------------------------------- the invariant is kept

  lemma StatementRowOrigin(s: State, r: RequestId, token: Token, id: RowId, t: Token)
    requires r in s.requests && t in NextStatement(s, r, token, id).table
    ensures (t in s.table && SameRow(s.table[t], NextStatement(s, r, token, id).table[t]))
            || Issues(s, Advance(r, token, id), t, NextStatement(s, r, token, id).table[t])
  {
  }

  /** A row of the new table was there before with the same identity, or this step issued it. */
  lemma RowOrigin(s: State, a: Action, t: Token)
    requires t in Step(s, a).table
    ensures (t in s.table && SameRow(s.table[t], Step(s, a).table[t]))
            || Issues(s, a, t, Step(s, a).table[t])
  {
    if a.Advance? && a.req in s.requests {
      StatementRowOrigin(s, a.req, a.token, a.id, t);
    }
  }

  predicate Issues(s: State, a: Action, t: Token, row: Row) {
    && (a.StartFamily? || (a.Advance? && a.req in s.requests && s.requests[a.req].Rotating?))
    && t == a.token && row.id == a.id && Fresh(s, t, row.id)
    && t in Step(s, a).seen
    && Step(s, a).log == s.log[row.id := Issued(row.userId, row.familyId, |s.log|)]
    && row.familyId in Step(s, a).families
  }

  lemma LogBirths(s: State, a: Action)
    requires forall id :: id in s.log ==> s.log[id].birth < |s.log|
    ensures forall id :: id in Step(s, a).log ==> Step(s, a).log[id].birth < |Step(s, a).log|
  {
  }

  lemma StepRowsLogged(s: State, a: Action)
    requires RowsLogged(s)
    ensures RowsLogged(Step(s, a))
  {
    var s' := Step(s, a);
    StepLater(s, a);
    LogBirths(s, a);
    forall t | t in s'.table
      ensures t in s'.seen && Logged(s', s'.table[t].id, s'.table[t].userId, s'.table[t].familyId)
    {
      RowOrigin(s, a, t);
    }
    forall j, k | j in s'.table && k in s'.table && s'.table[j].id == s'.table[k].id
      ensures j == k
    {
      RowOrigin(s, a, j);
      RowOrigin(s, a, k);
    }
  }

  lemma RequestStaysOk(s: State, s': State, q: Request)
    requires Later(s, s') && RequestOk(s, q)
    ensures RequestOk(s', q)
  {
  }

  lemma IssuedRequestOk(s: State, r: RequestId, token: Token, id: RowId)
    requires RowsLogged(s) && r in s.requests && s.requests[r].Rotating? && RequestOk(s, s.requests[r])
    ensures var s' := NextStatement(s, r, token, id); RequestOk(s', s'.requests[r])
  {
  }

  lemma NextRequestOk(s: State, r: RequestId, token: Token, id: RowId)
    requires RowsLogged(s) && r in s.requests && RequestOk(s, s.requests[r])
    ensures var s' := NextStatement(s, r, token, id); RequestOk(s', s'.requests[r])
  {
    if s.requests[r].Rotating? {
      IssuedRequestOk(s, r, token, id);
    }
  }

  /** Requests a step neither advances nor creates or kills are untouched. */
  lemma OtherRequestsUntouched(s: State, a: Action, r: RequestId)
    requires r in Step(s, a).requests
    ensures (r in s.requests && Step(s, a).requests[r] == s.requests[r])
            || (!a.Tick? && !a.SetActive? && !a.SweepExpired? && a.req == r
                && (a.Advance? || a.Crash? || a.StartFamily? || r !in s.requests))
  {
  }

  lemma RequestsRemain(s: State, a: Action)
    ensures s.requests.Keys <= Step(s, a).requests.Keys
  {
  }

  /** A finished request stays as it is; only a crash can still reach it. */
  lemma FinishedStays(s: State, a: Action, r: RequestId)
    requires r in s.requests && (s.requests[r].Granted? || s.requests[r].Lost?)
    ensures r in Step(s, a).requests && (Step(s, a).requests[r] == s.requests[r] || Step(s, a).requests[r].Lost?)
  {
    if a.Advance? && a.req == r {
      assert NextStatement(s, r, a.token, a.id) == s;
    } else if !(a.Crash? && a.req == r) {
      OtherRequestsUntouched(s, a, r);
    }
  }

  /** An admitted login waits for its insert. */
  lemma AdmittedStays(s: State, a: Action, r: RequestId)
    requires r in s.requests && s.requests[r].Admitted? && !(a.StartFamily? && a.req == r)
    ensures r in Step(s, a).requests && (Step(s, a).requests[r] == s.requests[r] || Step(s, a).requests[r].Lost?)
  {
    if a.Advance? && a.req == r {
      assert NextStatement(s, r, a.token, a.id) == s;
    } else if !(a.Crash? && a.req == r) {
      OtherRequestsUntouched(s, a, r);
    }
  }

  lemma NewRequestOk(s: State, a: Action)
    requires a.Login? || a.StartFamily? || a.Present? || a.Logout? || a.Crash?
    requires a.req in s.requests ==> RequestOk(s, s.requests[a.req])
    ensures var s' := Step(s, a); a.req in s'.requests ==> RequestOk(s', s'.requests[a.req])
  {
  }

  lemma StepRequestsOk(s: State, a: Action)
    requires RowsLogged(s) && RequestsOk(s)
    ensures RequestsOk(Step(s, a))
  {
    var s' := Step(s, a);
    StepLater(s, a);
    forall r | r in s'.requests
      ensures RequestOk(s', s'.requests[r])
    {
      OtherRequestsUntouched(s, a, r);
      if r in s.requests && s'.requests[r] == s.requests[r] {
        RequestStaysOk(s, s', s.requests[r]);
      } else if a.Advance? {
        NextRequestOk(s, r, a.token, a.id);
      } else {
        NewRequestOk(s, a);
      }
    }
  }

  /** No holder of a family started earlier comes from nowhere: it is the old holder, moved on. */
  function Origin(s: State, a: Action, h: Holder): Holder {
    if a.Advance? && a.req in s.requests then
      match s.requests[a.req]
      case Presented(t) => if h == RefreshOf(a.req) then RowOf(t) else h
      case Rotating(_, _) => if Fresh(s, a.token, a.id) && h == RowOf(a.token) then RefreshOf(a.req) else h
      case _ => h
    else h
  }

  lemma LiveRowHasOrigin(s: State, a: Action, f: FamilyId, t: Token)
    requires f in s.families && LiveRow(Step(s, a), f, t)
    ensures Holds(s, f, Origin(s, a, RowOf(t)))
  {
  }

  lemma UntouchedPending(s: State, s': State, f: FamilyId, r: RequestId)
    requires Later(s, s') && Pending(s', f, r)
    requires r in s.requests && s.requests[r] == s'.requests[r] && RequestOk(s, s.requests[r])
    ensures Pending(s, f, r)
  {
  }

  lemma AdvancedPending(s: State, a: Action, f: FamilyId)
    requires a.Advance? && Pending(Step(s, a), f, a.req)
    ensures Holds(s, f, Origin(s, a, RefreshOf(a.req)))
  {
  }

  lemma PendingHasOrigin(s: State, a: Action, f: FamilyId, r: RequestId)
    requires RequestsOk(s) && Pending(Step(s, a), f, r)
    ensures Holds(s, f, Origin(s, a, RefreshOf(r)))
  {
    if a.Advance? && a.req == r {
      AdvancedPending(s, a, f);
    } else {
      StepLater(s, a);
      UntouchedPending(s, Step(s, a), f, r);
    }
  }

  lemma HolderHasOrigin(s: State, a: Action, f: FamilyId, h: Holder)
    requires RowsLogged(s) && RequestsOk(s) && f in s.families
    requires Holds(Step(s, a), f, h)
    ensures Holds(s, f, Origin(s, a, h))
  {
    match h
    case RowOf(t) => LiveRowHasOrigin(s, a, f, t);
    case RefreshOf(r) => PendingHasOrigin(s, a, f, r);
  }

  lemma OriginInjective(s: State, a: Action, f: FamilyId, h: Holder, h': Holder)
    requires RowsLogged(s) && RequestsOk(s) && f in s.families
    requires Holds(Step(s, a), f, h) && Holds(Step(s, a), f, h')
    requires Origin(s, a, h) == Origin(s, a, h')
    ensures h == h'
  {
  }

  /** A family first started by this step has only the row of its login. */
  lemma NewFamilyHolder(s: State, a: Action, f: FamilyId, h: Holder)
    requires RowsLogged(s) && RequestsOk(s) && OneHolder(s) && f !in s.families
    requires Holds(Step(s, a), f, h)
    ensures f in Step(s, a).families && a.StartFamily? && h == RowOf(a.token)
  {
    forall r | r in s.requests && s.requests[r].Rotating? ensures s.requests[r].row.familyId in s.families {
      assert RequestOk(s, s.requests[r]);
    }
    match h
    case RowOf(t) => RowOrigin(s, a, t);
    case RefreshOf(r) =>
      PendingHasOrigin(s, a, f, r);
      assert false;
  }

  lemma StepOneHolder(s: State, a: Action)
    requires RowsLogged(s) && RequestsOk(s) && OneHolder(s)
    ensures OneHolder(Step(s, a))
  {
    var s' := Step(s, a);
    StepLater(s, a);
    forall f, h | Holds(s', f, h)
      ensures f in s'.families
    {
      if f !in s.families { NewFamilyHolder(s, a, f, h); }
    }
    forall f, h, h' | Holds(s', f, h) && Holds(s', f, h')
      ensures h == h'
    {
      if f in s.families {
        HolderHasOrigin(s, a, f, h);
        HolderHasOrigin(s, a, f, h');
        OriginInjective(s, a, f, h, h');
      } else {
        NewFamilyHolder(s, a, f, h);
        NewFamilyHolder(s, a, f, h');
      }
    }
  }

  /** A link in the new table was there before, or this step is the request that makes it. */
  lemma LinkOrigin(s: State, a: Action, k: Token, id: RowId)
    requires LinksTo(Step(s, a), k, id)
    ensures LinksTo(s, k, id)
            || (a.Advance? && WillLinkTo(s, a.req, id) && k in s.table && s.table[k].id == s.requests[a.req].oldId
                && Step(s, a).requests[a.req].Granted?)
  {
  }

  lemma StepLinksForward(s: State, a: Action)
    requires RowsLogged(s) && RequestsOk(s) && LinksForward(s)
    ensures LinksForward(Step(s, a))
  {
    var s' := Step(s, a);
    StepLater(s, a);
    forall t | t in s'.table && s'.table[t].replacedById.Some?
      ensures LinkForward(s', t)
    {
      var next := s'.table[t].replacedById.value;
      LinkOrigin(s, a, t, next);
      RowOrigin(s, a, t);
      if LinksTo(s, t, next) {
        assert LinkForward(s, t);
      } else {
        assert RequestOk(s, s.requests[a.req]);
      }
    }
  }

  lemma PlanOrigin(s: State, a: Action, r: RequestId, id: RowId)
    requires WillLinkTo(Step(s, a), r, id)
    ensures WillLinkTo(s, r, id) || (a.Advance? && a.req == r && id !in s.log)
    ensures a.Advance? && a.req == r && WillLinkTo(s, r, id) ==> Step(s, a) == s
  {
  }

  lemma LinkedAreLogged(s: State)
    requires LinksForward(s)
    ensures forall k, id :: LinksTo(s, k, id) ==> id in s.log
  {
    forall k, id | LinksTo(s, k, id) ensures id in s.log {
      assert LinkForward(s, k);
    }
  }

  lemma StepOnePredecessor(s: State, a: Action)
    requires RowsLogged(s) && RequestsOk(s) && LinksForward(s) && OnePredecessor(s)
    ensures OnePredecessor(Step(s, a))
  {
    var s' := Step(s, a);
    LinkedAreLogged(s);
    forall j, k, id | LinksTo(s', j, id) && LinksTo(s', k, id) ensures j == k {
      LinkOrigin(s, a, j, id);
      LinkOrigin(s, a, k, id);
    }
    forall q, r, id | WillLinkTo(s', q, id) && WillLinkTo(s', r, id) ensures q == r {
      PlanOrigin(s, a, q, id);
      PlanOrigin(s, a, r, id);
      if q in s.requests { assert RequestOk(s, s.requests[q]); }
      if r in s.requests { assert RequestOk(s, s.requests[r]); }
    }
    forall k, r, id | LinksTo(s', k, id) && WillLinkTo(s', r, id) ensures false {
      LinkOrigin(s, a, k, id);
      PlanOrigin(s, a, r, id);
    }
  }

  lemma StepKeepsInv(s: State, a: Action)
    requires Inv(s)
    ensures Inv(Step(s, a))
  {
    StepRowsLogged(s, a);
    StepRequestsOk(s, a);
    StepOneHolder(s, a);
    StepLinksForward(s, a);
    StepOnePredecessor(s, a);
  }

  lemma {:induction false} RunKeepsInv(s: State, acts: seq<Action>)
    requires Inv(s)
    ensures Inv(Run(s, acts))
    decreases |acts|
  {
    if acts != [] {
      StepKeepsInv(s, acts[0]);
      RunKeepsInv(Step(s, acts[0]), acts[1..]);
    }
  }
}
