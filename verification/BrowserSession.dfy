/**
 One browser client (apps/web/src/api/client.ts) against the rotation server.

 The client's module variables change between its awaits, so each await boundary is a step:
 every caller that meets a 401 shares the one refresh in flight, and the browser's cookie jar
 holds the refresh token. The rest of the world (other clients, other sessions of the same
 user, sweeps, the clock) takes arbitrary protocol actions in between, except those the
 hypotheses exclude; those do nothing.
 */
module BrowserSession {
  import opened Common
  import opened RefreshTokens
  import opened Rotation
  import RotationSafety

  /** The shared promise `refreshInFlight`. */
  datatype Refresh =
    | Idle
    | InFlight(req: RequestId, presented: Token)   // sent with this cookie, not answered
    | Settling(ok: bool)                           // answered; the callers have not been resumed

  /** An `apiFetch` call and how many requests it has sent. */
  datatype Phase = First | Waiting | Second | Answered | Unauthenticated
  datatype Call = Call(phase: Phase, sent: nat)

  datatype Client = Client(
    user: UserId,
    cookie: Option<Token>,
    hasAccessToken: bool,
    refresh: Refresh,
    logins: set<RequestId>,          // sent, not yet answered
    families: set<FamilyId>,         // started by this client's logins
    calls: map<nat, Call>)

  datatype World = World(server: State, client: Client)

  datatype Move =
    | Serve(action: Action)                                               // the server, or anyone else
    | SendLogin(req: RequestId)
    | LoginServed(req: RequestId, token: Token, id: RowId, family: FamilyId)   // the server's insert for it
    | LoginAnswered(req: RequestId)
    | StartRefresh(req: RequestId)                                        // refreshSession()
    | RefreshUnreached                                                    // failed before the server ran it
    | RefreshAnswered
    | Settle                                                              // finally: refreshInFlight = null
    | StartCall(call: nat)                                                // apiFetch()
    | CallAnswered(call: nat, unauthorized: bool, req: RequestId)

  /** A token of one of this client's families. */
  predicate Mine(w: World, t: Token) {
    t in w.server.table && w.server.table[t].familyId in w.client.families
  }

  /**
   The hypotheses: the user stays active, nobody else presents this client's tokens,
   it does not log out, and the server finishes and delivers each refresh it has begun.
   */
  predicate Allowed(w: World, a: Action) {
    match a
    case SetActive(u, active) => u == w.client.user ==> active
    case Present(_, t) => !Mine(w, t)
    case Logout(_, t) => !Mine(w, t)
    case StartFamily(r, _, _, _) => r !in w.client.logins      // that is `LoginServed`
    case Crash(r) => !(w.client.refresh.InFlight? && w.client.refresh.req == r)
    case _ => true
  }

  function WithRefresh(w: World, r: Refresh): World {
    w.(client := w.client.(refresh := r))
  }

  function StartRefreshing(w: World, req: RequestId): World {
    if !w.client.refresh.Idle? then w
    else match w.client.cookie
      case None => w.(client := w.client.(refresh := Settling(false), hasAccessToken := false))
      case Some(t) =>
        if req in w.server.requests then w
        else WithRefresh(w.(server := Step(w.server, Present(req, t))), InFlight(req, t))
  }

  function SetCall(c: Client, call: nat, to: Call): Client {
    c.(calls := c.calls[call := to])
  }

  function Resume(calls: map<nat, Call>, ok: bool): map<nat, Call> {
    map k | k in calls ::
      if !calls[k].phase.Waiting? then calls[k]
      else if ok then Call(Second, calls[k].sent + 1)
      else Call(Unauthenticated, calls[k].sent)
  }

  /** The server can start a family for this login of the client. */
  predicate Serves(w: World, req: RequestId, token: Token, id: RowId, f: FamilyId) {
    && req in w.client.logins && req in w.server.requests && w.server.requests[req].Admitted?
    && Fresh(w.server, token, id) && f !in w.server.families
  }

  function Next(w: World, m: Move): World {
    var c := w.client;
    match m
    case Serve(a) => if Allowed(w, a) then w.(server := Step(w.server, a)) else w
    case SendLogin(req) =>
      if req in w.server.requests then w
      else World(Step(w.server, Login(req, c.user)), c.(logins := c.logins + {req}))
    case LoginServed(req, token, id, f) =>
      if !Serves(w, req, token, id, f) then w
      else World(Step(w.server, StartFamily(req, token, id, f)), c.(families := c.families + {f}))
    case LoginAnswered(req) =>
      if req !in c.logins || req !in w.server.requests then w
      else (match w.server.requests[req]
        case Granted(t) => w.(client := c.(logins := c.logins - {req}, cookie := Some(t), hasAccessToken := true))
        case Admitted(_) => w
        case _ => w.(client := c.(logins := c.logins - {req})))
    case StartRefresh(req) => StartRefreshing(w, req)
    case RefreshUnreached =>
      if c.refresh.InFlight? && c.refresh.req in w.server.requests && w.server.requests[c.refresh.req].Presented?
      then WithRefresh(w.(server := Step(w.server, Crash(c.refresh.req))), Settling(false))
      else w
    case RefreshAnswered =>
      if !c.refresh.InFlight? || c.refresh.req !in w.server.requests then w
      else (match w.server.requests[c.refresh.req]
        case Granted(t) => w.(client := c.(refresh := Settling(true), cookie := Some(t), hasAccessToken := true))
        case Refused => w.(client := c.(refresh := Settling(false), hasAccessToken := false))
        case _ => w)
    case Settle =>
      if c.refresh.Settling?
      then w.(client := c.(refresh := Idle, calls := Resume(c.calls, c.refresh.ok)))
      else w
    case StartCall(k) =>
      if k in c.calls then w else w.(client := SetCall(c, k, Call(First, 1)))
    case CallAnswered(k, unauthorized, req) =>
      if k !in c.calls then w
      else if c.calls[k].phase.Second? || (c.calls[k].phase.First? && !unauthorized) then
        w.(client := SetCall(c, k, c.calls[k].(phase := Answered)))
      else if c.calls[k].phase.First? then
        var w' := StartRefreshing(w, req);
        if w'.client.refresh.Idle? then w
        else w'.(client := SetCall(w'.client, k, c.calls[k].(phase := Waiting)))
      else w
  }

  function Run(w: World, moves: seq<Move>): World
    decreases |moves|
  {
    if moves == [] then w else Run(Next(w, moves[0]), moves[1..])
  }

  // ---------------------------------------------------------------- invariant

  /** Presenting this token cannot look like reuse: its row is live or gone, and it is this client's. */
  predicate Clean(w: World, t: Token) {
    t in w.server.seen
    && (t in w.server.table ==> w.server.table[t].Live() && w.server.table[t].familyId in w.client.families)
  }

  /** A request of somebody else touches none of this client's families. */
  predicate Foreign(w: World, q: Request) {
    match q
    case Presented(t) => !Mine(w, t)
    case Rejected(t) => !Mine(w, t)
    case Claimed(t) => !Mine(w, t)
    case LoggingOut(t) => !Mine(w, t)
    case Spent(_, row) => row.familyId !in w.client.families
    case Rotating(_, row) => row.familyId !in w.client.families
    case Revoking(_, f) => f !in w.client.families
    case _ => true
  }

  predicate Ours(w: World, row: Row) {
    row.familyId in w.client.families && row.userId == w.client.user
  }

  /** Where this client's own refresh can stand. */
  predicate OwnRefresh(w: World, q: Request, t: Token) {
    match q
    case Presented(p) => p == t && Clean(w, t)
    case Rejected(p) => p == t && Clean(w, t)
    case Claimed(p) => p == t && (t in w.server.table ==> Ours(w, w.server.table[t]))
    case Spent(p, row) => p == t && Ours(w, row) && (t in w.server.table ==> w.server.table[t].id == row.id)
    case Rotating(p, row) => p == t && Ours(w, row) && (t in w.server.table ==> w.server.table[t].id == row.id)
    case Linking(oldId, _, token) => Clean(w, token) && (t in w.server.table ==> w.server.table[t].id == oldId)
    case Granted(token) => Clean(w, token)
    case Refused => Clean(w, t)
    case _ => false
  }

  /** A token an unanswered login of this client will deliver. */
  predicate Undelivered(w: World, r: RequestId, t: Token) {
    r in w.client.logins && r in w.server.requests && w.server.requests[r] == Granted(t)
  }

  /** Where a login of this client can stand. */
  predicate LoginStands(w: World, q: Request) {
    q.Granted? || q.Lost? || q == Admitted(w.client.user)
  }

  predicate WillDeliver(q: Request, t: Token) {
    q == Granted(t) || (q.Linking? && q.newToken == t)
  }

  /** A token the cookie jar holds, or the refresh in flight has presented or will deliver. */
  predicate InUse(w: World, t: Token) {
    w.client.cookie == Some(t)
    || (w.client.refresh.InFlight?
        && (w.client.refresh.presented == t
            || (w.client.refresh.req in w.server.requests
                && WillDeliver(w.server.requests[w.client.refresh.req], t))))
  }

  predicate IsOwn(w: World, r: RequestId) {
    w.client.refresh.InFlight? && w.client.refresh.req == r
  }

  ghost predicate RowsOurs(w: World) {
    && w.client.families <= w.server.families
    && (forall t :: Mine(w, t) ==> w.server.table[t].userId == w.client.user)
  }

  ghost predicate OthersForeign(w: World) {
    forall r :: r in w.server.requests && !IsOwn(w, r) ==> Foreign(w, w.server.requests[r])
  }

  ghost predicate LoginsClean(w: World) {
    && (forall r :: r in w.client.logins ==>
          && r in w.server.requests && !IsOwn(w, r)
          && LoginStands(w, w.server.requests[r]))
    && (forall r, t :: Undelivered(w, r, t) ==> Clean(w, t) && !InUse(w, t))
    && (forall q, r, t :: Undelivered(w, q, t) && Undelivered(w, r, t) ==> q == r)
  }

  ghost predicate CookieClean(w: World) {
    w.client.cookie.Some? ==>
      || Clean(w, w.client.cookie.value)
      || (w.client.refresh.InFlight? && w.client.refresh.presented == w.client.cookie.value)
  }

  ghost predicate FlightOk(w: World) {
    w.client.refresh.InFlight? ==>
      && w.client.refresh.presented in w.server.seen
      && w.client.refresh.req in w.server.requests
      && OwnRefresh(w, w.server.requests[w.client.refresh.req], w.client.refresh.presented)
  }

  ghost predicate SessionInv(w: World) {
    && Inv(w.server)
    && w.client.user in w.server.active
    && RowsOurs(w) && OthersForeign(w) && LoginsClean(w) && CookieClean(w) && FlightOk(w)
  }

  // ---------------------------------------------------------------- server and environment moves

  /** This client's own refresh is about to spend the token it presented. */
  predicate OwnSpends(w: World, a: Action, t: Token) {
    a.Advance? && IsOwn(w, a.req) && w.client.refresh.presented == t
    && a.req in w.server.requests && w.server.requests[a.req].Presented?
  }

  predicate SafeRequest(w: World, q: Request, t: Token) {
    match q
    case Presented(u) => u != t || t !in w.server.table
    case Revoking(_, f) => t in w.server.table ==> w.server.table[t].familyId != f
    case _ => true
  }

  lemma StatementKeepsClean(w: World, r: RequestId, token: Token, id: RowId, t: Token)
    requires r in w.server.requests && Clean(w, t) && SafeRequest(w, w.server.requests[r], t)
    ensures Clean(w.(server := NextStatement(w.server, r, token, id)), t)
  {
  }

  lemma ServeKeepsClean(w: World, a: Action, t: Token)
    requires SessionInv(w) && Allowed(w, a) && Clean(w, t) && !OwnSpends(w, a, t)
    ensures Clean(w.(server := Step(w.server, a)), t)
  {
    if a.Advance? && a.req in w.server.requests {
      if !IsOwn(w, a.req) { assert Foreign(w, w.server.requests[a.req]); }
      StatementKeepsClean(w, a.req, a.token, a.id, t);
    }
  }

  lemma ServeKeepsRowsOurs(w: World, a: Action)
    requires SessionInv(w) && Allowed(w, a)
    ensures RowsOurs(w.(server := Step(w.server, a)))
  {
    var w' := w.(server := Step(w.server, a));
    StepLater(w.server, a);
    forall t | Mine(w', t) ensures w'.server.table[t].userId == w.client.user {
      RowOrigin(w.server, a, t);
      if t in w.server.table { assert Mine(w, t); }
    }
  }

  lemma ForeignStays(w: World, a: Action, q: Request)
    requires Foreign(w, q) && RequestOk(w.server, q)
    ensures Foreign(w.(server := Step(w.server, a)), q)
  {
    StepLater(w.server, a);
  }

  lemma ForeignAdvances(w: World, r: RequestId, token: Token, id: RowId)
    requires r in w.server.requests && Foreign(w, w.server.requests[r])
    ensures var s := NextStatement(w.server, r, token, id); Foreign(w.(server := s), s.requests[r])
  {
  }

  lemma ServeKeepsForeign(w: World, a: Action)
    requires SessionInv(w) && Allowed(w, a)
    ensures OthersForeign(w.(server := Step(w.server, a)))
  {
    var w' := w.(server := Step(w.server, a));
    forall r | r in w'.server.requests && !IsOwn(w', r)
      ensures Foreign(w', w'.server.requests[r])
    {
      OtherRequestsUntouched(w.server, a, r);
      if r in w.server.requests && w'.server.requests[r] == w.server.requests[r] {
        assert RequestOk(w.server, w.server.requests[r]);
        ForeignStays(w, a, w.server.requests[r]);
      } else if a.Advance? {
        ForeignAdvances(w, r, a.token, a.id);
      }
    }
  }

  lemma OwnRefreshStays(w: World, a: Action, q: Request, t: Token)
    requires SessionInv(w) && Allowed(w, a) && !(a.Advance? && IsOwn(w, a.req))
    requires OwnRefresh(w, q, t) && t in w.server.seen
    ensures OwnRefresh(w.(server := Step(w.server, a)), q, t)
  {
    StepLater(w.server, a);
    if Clean(w, t) { ServeKeepsClean(w, a, t); }
    match q
    case Linking(_, _, token) => ServeKeepsClean(w, a, token);
    case Granted(token) => ServeKeepsClean(w, a, token);
    case _ =>
  }

  lemma OwnRefreshAdvances(w: World, token: Token, id: RowId)
    requires SessionInv(w) && w.client.refresh.InFlight?
    ensures var r := w.client.refresh.req;
            var s := NextStatement(w.server, r, token, id);
            OwnRefresh(w.(server := s), s.requests[r], w.client.refresh.presented)
  {
    var r, t := w.client.refresh.req, w.client.refresh.presented;
    var q := w.server.requests[r];
    assert RequestOk(w.server, q);
    if q.Linking? && HasId(w.server.table, q.oldId) && t in w.server.table {
      assert w.server.table[t].id == q.oldId;
    }
  }

  lemma FlightAdvances(w: World, token: Token, id: RowId)
    requires SessionInv(w) && w.client.refresh.InFlight?
    ensures FlightOk(w.(server := Step(w.server, Advance(w.client.refresh.req, token, id))))
  {
    StepLater(w.server, Advance(w.client.refresh.req, token, id));
    OwnRefreshAdvances(w, token, id);
  }

  lemma FlightUntouched(w: World, a: Action)
    requires SessionInv(w) && Allowed(w, a) && w.client.refresh.InFlight?
    requires !(a.Advance? && a.req == w.client.refresh.req)
    ensures var r, s' := w.client.refresh.req, Step(w.server, a);
            r in s'.requests && s'.requests[r] == w.server.requests[r]
  {
    RequestsRemain(w.server, a);
    OtherRequestsUntouched(w.server, a, w.client.refresh.req);
  }

  lemma ServeKeepsFlight(w: World, a: Action)
    requires SessionInv(w) && Allowed(w, a)
    ensures FlightOk(w.(server := Step(w.server, a)))
  {
    if w.client.refresh.InFlight? {
      var r, t := w.client.refresh.req, w.client.refresh.presented;
      if a.Advance? && a.req == r {
        FlightAdvances(w, a.token, a.id);
      } else {
        StepLater(w.server, a);
        FlightUntouched(w, a);
        OwnRefreshStays(w, a, w.server.requests[r], t);
      }
    }
  }

  lemma UndeliveredOrigin(w: World, a: Action, r: RequestId, t: Token)
    requires SessionInv(w) && Allowed(w, a) && Undelivered(w.(server := Step(w.server, a)), r, t)
    ensures Undelivered(w, r, t)
  {
  }

  lemma DeliveredOrigin(s: State, r: RequestId, token: Token, id: RowId, t: Token)
    requires r in s.requests && t in s.seen && WillDeliver(NextStatement(s, r, token, id).requests[r], t)
    ensures WillDeliver(s.requests[r], t)
  {
  }

  lemma DeliveryOrigin(w: World, a: Action, t: Token)
    requires SessionInv(w) && t in w.server.seen && InUse(w.(server := Step(w.server, a)), t)
    ensures InUse(w, t)
  {
    if w.client.refresh.InFlight? {
      var r := w.client.refresh.req;
      OtherRequestsUntouched(w.server, a, r);
      if a.Advance? && a.req == r && WillDeliver(Step(w.server, a).requests[r], t) {
        DeliveredOrigin(w.server, r, a.token, a.id, t);
      }
    }
  }

  lemma LoginRequestStays(w: World, a: Action, r: RequestId)
    requires SessionInv(w) && Allowed(w, a) && r in w.client.logins
    ensures var s' := Step(w.server, a); r in s'.requests && LoginStands(w, s'.requests[r])
  {
    if w.server.requests[r].Admitted? {
      AdmittedStays(w.server, a, r);
    } else {
      FinishedStays(w.server, a, r);
    }
  }

  lemma UndeliveredStaysClean(w: World, a: Action, r: RequestId, t: Token)
    requires SessionInv(w) && Allowed(w, a)
    requires var w' := w.(server := Step(w.server, a)); Undelivered(w', r, t)
    ensures var w' := w.(server := Step(w.server, a)); Clean(w', t) && !InUse(w', t)
  {
    var w' := w.(server := Step(w.server, a));
    UndeliveredOrigin(w, a, r, t);
    ServeKeepsClean(w, a, t);
    if InUse(w', t) { DeliveryOrigin(w, a, t); }
  }

  lemma ServeKeepsLogins(w: World, a: Action)
    requires SessionInv(w) && Allowed(w, a)
    ensures LoginsClean(w.(server := Step(w.server, a)))
  {
    var w' := w.(server := Step(w.server, a));
    forall r | r in w'.client.logins
      ensures r in w'.server.requests && !IsOwn(w', r)
              && LoginStands(w', w'.server.requests[r])
    {
      LoginRequestStays(w, a, r);
    }
    forall r, t | Undelivered(w', r, t) ensures Clean(w', t) && !InUse(w', t) {
      UndeliveredStaysClean(w, a, r, t);
    }
    forall q, r, t | Undelivered(w', q, t) && Undelivered(w', r, t) ensures q == r {
      UndeliveredOrigin(w, a, q, t);
      UndeliveredOrigin(w, a, r, t);
    }
  }

  lemma ServeKeepsInv(w: World, a: Action)
    requires SessionInv(w) && Allowed(w, a)
    ensures SessionInv(w.(server := Step(w.server, a)))
  {
    StepKeepsInv(w.server, a);
    ServeKeepsRowsOurs(w, a);
    ServeKeepsForeign(w, a);
    ServeKeepsLogins(w, a);
    ServeKeepsFlight(w, a);
    if w.client.cookie.Some? && Clean(w, w.client.cookie.value) && !OwnSpends(w, a, w.client.cookie.value) {
      ServeKeepsClean(w, a, w.client.cookie.value);
    }
  }

  // ---------------------------------------------------------------- client moves

  lemma SendLoginKeepsInv(w: World, req: RequestId)
    requires SessionInv(w)
    ensures SessionInv(Next(w, SendLogin(req)))
  {
    if req !in w.server.requests {
      var w' := w.(server := Step(w.server, Login(req, w.client.user)));
      ServeKeepsInv(w, Login(req, w.client.user));
      assert w'.server.requests[req] == Admitted(w.client.user) && !IsOwn(w, req);
      AwaitingLoginKeepsInv(w', req);
    }
  }

  /** A login that is only admitted promises no token yet. */
  lemma AwaitingLoginKeepsInv(w: World, req: RequestId)
    requires SessionInv(w) && req in w.server.requests && w.server.requests[req] == Admitted(w.client.user) && !IsOwn(w, req)
    ensures SessionInv(w.(client := w.client.(logins := w.client.logins + {req})))
  {
    var w' := w.(client := w.client.(logins := w.client.logins + {req}));
    forall r, t ensures Undelivered(w', r, t) == Undelivered(w, r, t) {
    }
    forall t ensures Clean(w', t) == Clean(w, t) && InUse(w', t) == InUse(w, t) && Mine(w', t) == Mine(w, t) {
    }
    assert OthersForeign(w') by {
      forall r | r in w'.server.requests && !IsOwn(w', r) ensures Foreign(w', w'.server.requests[r]) {
        assert Foreign(w, w.server.requests[r]);
      }
    }
  }

  lemma LoginServedKeepsInv(w: World, req: RequestId, token: Token, id: RowId, f: FamilyId)
    requires SessionInv(w)
    ensures SessionInv(Next(w, LoginServed(req, token, id, f)))
  {
    if Serves(w, req, token, id, f) {
      var a := StartFamily(req, token, id, f);
      var w0 := Unbooked(w, req);
      UnbookedKeepsInv(w, req);
      ServeKeepsInv(w0, a);
      LoginGrants(w0, req, token, id, f);
      LoginTouchesNobody(w0, req, token, id, f);
      OthersStayForeign(w0, req, token, id, f);
      SentLoginKeepsInv(w0.(server := Step(w0.server, a)), req, token, f);
      assert w0.client.logins + {req} == w.client.logins;
    }
  }

  /** The same world with this login taken out of the client's own. */
  function Unbooked(w: World, req: RequestId): World {
    w.(client := w.client.(logins := w.client.logins - {req}))
  }

  lemma UnbookedKeepsInv(w: World, req: RequestId)
    requires SessionInv(w)
    ensures SessionInv(Unbooked(w, req))
  {
    QuietKeepsInv(w, Unbooked(w, req));
  }

  /** An admitted login of the client's user, not among the client's own, that can start its family. */
  predicate Startable(w: World, req: RequestId, token: Token, id: RowId, f: FamilyId) {
    && req !in w.client.logins && req in w.server.requests && w.server.requests[req] == Admitted(w.client.user)
    && !IsOwn(w, req) && Fresh(w.server, token, id) && f !in w.server.families
  }

  /** What the server has done for a login: one live row in a family of its own. */
  lemma LoginGrants(w: World, req: RequestId, token: Token, id: RowId, f: FamilyId)
    requires SessionInv(w) && Startable(w, req, token, id, f)
    ensures var w' := w.(server := Step(w.server, StartFamily(req, token, id, f)));
            && req in w'.server.requests && w'.server.requests[req] == Granted(token) && !IsOwn(w', req)
            && f in w'.server.families && token in w'.server.seen
            && LiveRow(w'.server, f, token) && w'.server.table[token].userId == w.client.user
            && (forall t :: t in w'.server.table && w'.server.table[t].familyId == f ==> t == token)
            && (forall r :: r in w'.server.requests && r != req ==> r in w.server.requests && w'.server.requests[r] == w.server.requests[r])
  {
  }

  /** Every token this client holds or awaits has been seen. */
  lemma HeldTokensAreSeen(w: World, token: Token)
    requires SessionInv(w) && token !in w.server.seen
    ensures !InUse(w, token) && forall r :: !Undelivered(w, r, token)
  {
    forall r ensures !Undelivered(w, r, token) {
      assert Undelivered(w, r, token) ==> Clean(w, token);
    }
  }

  lemma LoginTouchesNobody(w: World, req: RequestId, token: Token, id: RowId, f: FamilyId)
    requires SessionInv(w) && Startable(w, req, token, id, f)
    ensures var w' := w.(server := Step(w.server, StartFamily(req, token, id, f)));
            && req !in w.client.logins && !InUse(w', token)
            && (forall r :: !Undelivered(w', r, token))
  {
    LoginGrants(w, req, token, id, f);
    HeldTokensAreSeen(w, token);
    var w' := w.(server := Step(w.server, StartFamily(req, token, id, f)));
    assert forall r :: Undelivered(w', r, token) ==> Undelivered(w, r, token);
  }

  lemma OthersStayForeign(w: World, req: RequestId, token: Token, id: RowId, f: FamilyId)
    requires SessionInv(w) && Startable(w, req, token, id, f)
    ensures var w' := w.(server := Step(w.server, StartFamily(req, token, id, f)));
            forall r :: r in w'.server.requests && !IsOwn(w', r) ==>
              Foreign(w'.(client := w.client.(families := w.client.families + {f})), w'.server.requests[r])
  {
    LoginGrants(w, req, token, id, f);
    var w' := w.(server := Step(w.server, StartFamily(req, token, id, f)));
    var w'' := w'.(client := w.client.(families := w.client.families + {f}));
    forall r | r in w'.server.requests && !IsOwn(w', r) && r != req
      ensures Foreign(w'', w'.server.requests[r])
    {
      assert Foreign(w, w.server.requests[r]) && RequestOk(w.server, w.server.requests[r]);
      StillForeign(w, w'', w.server.requests[r], token, f);
    }
  }

  lemma StillForeign(w: World, w': World, q: Request, token: Token, f: FamilyId)
    requires Foreign(w, q) && RequestOk(w.server, q) && token !in w.server.seen && f !in w.server.families
    requires w'.client.families == w.client.families + {f}
    requires forall t :: t in w'.server.table && t != token ==> t in w.server.table && w'.server.table[t].familyId == w.server.table[t].familyId
    requires RowsLogged(w.server)
    ensures Foreign(w', q)
  {
  }

  /** Booking a login the server has just granted: its family becomes this client's. */
  lemma SentLoginKeepsInv(w: World, req: RequestId, token: Token, f: FamilyId)
    requires SessionInv(w)
    requires req !in w.client.logins && req in w.server.requests && w.server.requests[req] == Granted(token)
    requires !IsOwn(w, req) && f in w.server.families && !InUse(w, token)
    requires forall r :: !Undelivered(w, r, token)
    requires LiveRow(w.server, f, token) && w.server.table[token].userId == w.client.user && token in w.server.seen
    requires forall t :: t in w.server.table && w.server.table[t].familyId == f ==> t == token
    requires forall r :: r in w.server.requests && !IsOwn(w, r) ==>
               Foreign(w.(client := w.client.(families := w.client.families + {f})), w.server.requests[r])
    ensures SessionInv(w.(client := w.client.(logins := w.client.logins + {req}, families := w.client.families + {f})))
  {
    var w' := w.(client := w.client.(logins := w.client.logins + {req}, families := w.client.families + {f}));
    forall r, t | Undelivered(w', r, t) ensures (r == req && t == token) || Undelivered(w, r, t) {
    }
    forall t | InUse(w', t) ensures InUse(w, t) {
    }
    assert forall t :: Clean(w, t) ==> Clean(w', t);
  }

  /** A client move that touches neither the table nor anyone else's request. */
  predicate Quiet(w: World, w': World) {
    && w'.server.table == w.server.table && w.server.seen <= w'.server.seen
    && w'.server.families == w.server.families && w'.server.active == w.server.active
    && w'.client.user == w.client.user && w'.client.families == w.client.families
    && w'.client.logins <= w.client.logins
    && w.server.requests.Keys <= w'.server.requests.Keys
    && (forall r :: r in w.server.requests && !IsOwn(w, r) ==> w'.server.requests[r] == w.server.requests[r])
    && (forall r :: r in w'.server.requests && r !in w.server.requests ==> IsOwn(w', r))
    && (forall r :: IsOwn(w, r) && r in w'.server.requests && !IsOwn(w', r) ==>
          w'.server.requests[r].Granted? || w'.server.requests[r].Refused? || w'.server.requests[r].Lost?)
    && (w'.client.refresh.InFlight? ==> w'.client.refresh == w.client.refresh || w'.client.refresh.req !in w.server.requests)
  }

  lemma QuietKeepsInv(w: World, w': World)
    requires SessionInv(w) && Quiet(w, w') && Inv(w'.server)
    requires CookieClean(w') && FlightOk(w')
    requires forall r, t :: Undelivered(w', r, t) && InUse(w', t) ==> InUse(w, t)
    ensures SessionInv(w')
  {
    forall t ensures Mine(w', t) == Mine(w, t) && (Clean(w, t) ==> Clean(w', t)) {
    }
    forall r, t | Undelivered(w', r, t) ensures Undelivered(w, r, t) {
    }
    forall r | r in w'.server.requests && !IsOwn(w', r) ensures Foreign(w', w'.server.requests[r]) {
    }
  }

  lemma LoginAnsweredKeepsInv(w: World, req: RequestId)
    requires SessionInv(w)
    ensures SessionInv(Next(w, LoginAnswered(req)))
  {
    var w' := Next(w, LoginAnswered(req));
    if w' != w {
      if w.server.requests[req].Granted? { assert Undelivered(w, req, w.server.requests[req].token); }
      assert forall r, t :: Undelivered(w', r, t) ==> r != req && Undelivered(w, r, t);
      assert forall r, t :: Undelivered(w', r, t) ==> !InUse(w', t);
      QuietKeepsInv(w, w');
    }
  }

  lemma StartRefreshingKeepsInv(w: World, req: RequestId)
    requires SessionInv(w)
    ensures SessionInv(StartRefreshing(w, req))
  {
    var w' := StartRefreshing(w, req);
    if w.client.refresh.Idle? {
      if w.client.cookie.Some? && req !in w.server.requests {
        StepKeepsInv(w.server, Present(req, w.client.cookie.value));
      }
      QuietKeepsInv(w, w');
    }
  }

  lemma RefreshUnreachedKeepsInv(w: World)
    requires SessionInv(w)
    ensures SessionInv(Next(w, RefreshUnreached))
  {
    if w.client.refresh.InFlight? {
      StepKeepsInv(w.server, Crash(w.client.refresh.req));
      QuietKeepsInv(w, Next(w, RefreshUnreached));
    }
  }

  lemma RefreshAnsweredKeepsInv(w: World)
    requires SessionInv(w)
    ensures SessionInv(Next(w, RefreshAnswered))
  {
    QuietKeepsInv(w, Next(w, RefreshAnswered));
  }

  lemma ClientOnlyKeepsInv(w: World, c: Client)
    requires SessionInv(w)
    requires c.user == w.client.user && c.cookie == w.client.cookie && c.logins == w.client.logins && c.families == w.client.families
    requires c.refresh == w.client.refresh || (!w.client.refresh.InFlight? && !c.refresh.InFlight?)
    ensures SessionInv(w.(client := c))
  {
    QuietKeepsInv(w, w.(client := c));
  }

  lemma NextKeepsInv(w: World, m: Move)
    requires SessionInv(w)
    ensures SessionInv(Next(w, m))
  {
    match m
    case Serve(a) => if Allowed(w, a) { ServeKeepsInv(w, a); }
    case SendLogin(req) => SendLoginKeepsInv(w, req);
    case LoginServed(req, token, id, f) => LoginServedKeepsInv(w, req, token, id, f);
    case LoginAnswered(req) => LoginAnsweredKeepsInv(w, req);
    case StartRefresh(req) => StartRefreshingKeepsInv(w, req);
    case RefreshUnreached => RefreshUnreachedKeepsInv(w);
    case RefreshAnswered => RefreshAnsweredKeepsInv(w);
    case Settle => ClientOnlyKeepsInv(w, Next(w, m).client);
    case StartCall(_) => ClientOnlyKeepsInv(w, Next(w, m).client);
    case CallAnswered(k, unauthorized, req) =>
      if k in w.client.calls && w.client.calls[k].phase.First? && unauthorized {
        var w' := StartRefreshing(w, req);
        StartRefreshingKeepsInv(w, req);
        ClientOnlyKeepsInv(w', SetCall(w'.client, k, w.client.calls[k].(phase := Waiting)));
      } else {
        ClientOnlyKeepsInv(w, Next(w, m).client);
      }
  }

  lemma {:induction false} RunKeepsSessionInv(w: World, moves: seq<Move>)
    requires SessionInv(w)
    ensures SessionInv(Run(w, moves))
    decreases |moves|
  {
    if moves != [] {
      NextKeepsInv(w, moves[0]);
      RunKeepsSessionInv(Next(w, moves[0]), moves[1..]);
    }
  }

  // ---------------------------------------------------------------- main results

  /**
   A page that has just loaded, on a server in any state. Either there is no session yet, or
   the cookie jar still holds the live token of one that nobody else is touching.
   */
  ghost predicate Start(w: World) {
    && Inv(w.server)
    && w.client.user in w.server.active
    && w.client.refresh.Idle? && !w.client.hasAccessToken && w.client.logins == {} && w.client.calls == map[]
    && match w.client.cookie
       case None => w.client.families == {}
       case Some(t) =>
         && t in w.server.table && w.server.table[t].Live()
         && w.client.families == {w.server.table[t].familyId}
         && RowsOurs(w) && OthersForeign(w)
  }

  lemma StartIsFine(w: World)
    requires Start(w)
    ensures SessionInv(w)
  {
  }

  /**
   No run of the honest client reaches the reuse-detected branch: its own refresh is never
   taken for a replay, and no request of anyone is about to revoke one of its families.
   */
  lemma HonestClientNeverTripsReuse(w: World, moves: seq<Move>)
    requires Start(w)
    ensures var w' := Run(w, moves);
            && (w'.client.refresh.InFlight? && w'.client.refresh.req in w'.server.requests ==>
                  !w'.server.requests[w'.client.refresh.req].Revoking?)
            && (forall r :: r in w'.server.requests && w'.server.requests[r].Revoking? ==>
                  w'.server.requests[r].familyId !in w'.client.families)
  {
    StartIsFine(w);
    RunKeepsSessionInv(w, moves);
    var w' := Run(w, moves);
    forall r | r in w'.server.requests && w'.server.requests[r].Revoking?
      ensures w'.server.requests[r].familyId !in w'.client.families
    {
      if !IsOwn(w', r) { assert Foreign(w', w'.server.requests[r]); }
    }
  }

  /** The server may start anywhere: a run of the protocol from nothing can precede the page. */
  lemma AnyServerWillDo(s0: State, acts: seq<Action>, user: UserId)
    requires Initial(s0) && user in Rotation.Run(s0, acts).active
    ensures Start(World(Rotation.Run(s0, acts), Client(user, None, false, Idle, {}, {}, map[])))
  {
    Rotation.RunKeepsInv(s0, acts);
  }

  /** Between refreshes, the cookie is good: presenting it rotates it, unless it has expired or been swept. */
  lemma IdleCookieIsGood(w: World, moves: seq<Move>, r: RequestId, token: Token, id: RowId)
    requires Start(w)
    requires var w' := Run(w, moves);
             && !w'.client.refresh.InFlight? && w'.client.cookie.Some?
             && w'.client.cookie.value in w'.server.table
             && w'.server.table[w'.client.cookie.value].expiresAt > w'.server.now
             && r !in w'.server.requests && Fresh(w'.server, token, id) && token != w'.client.cookie.value
    ensures var w' := Run(w, moves);
            var s := Rotation.Run(w'.server, RotationSafety.Alone(r, w'.client.cookie.value, token, id));
            r in s.requests && s.requests[r] == Granted(token)
  {
    StartIsFine(w);
    RunKeepsSessionInv(w, moves);
    var w' := Run(w, moves);
    assert Mine(w', w'.client.cookie.value);
    RotationSafety.AloneIsRefresh(w'.server, r, w'.client.cookie.value, token, id);
  }

  // ---------------------------------------------------------------- a lost answer

  /** The presented token has been spent and the refresh is not over. */
  predicate PastSpend(w: World) {
    w.client.refresh.InFlight? && w.client.refresh.req in w.server.requests
    && match w.server.requests[w.client.refresh.req]
       case Claimed(_) => true
       case Spent(_, _) => true
       case Rotating(_, _) => true
       case Linking(_, _, _) => true
       case Granted(_) => true
       case _ => false
  }

  ghost predicate SpentForGood(w: World) {
    PastSpend(w) ==> UsedUp(w.server, w.client.refresh.presented)
  }

  lemma ServeKeepsSpent(w: World, a: Action)
    requires SessionInv(w) && SpentForGood(w) && Allowed(w, a)
    ensures SpentForGood(w.(server := Step(w.server, a)))
  {
    StepLater(w.server, a);
    if w.client.refresh.InFlight? {
      var r, t := w.client.refresh.req, w.client.refresh.presented;
      assert RequestOk(w.server, w.server.requests[r]);
      if !(a.Advance? && a.req == r) { FlightUntouched(w, a); }
    }
  }

  lemma NextKeepsSpent(w: World, m: Move)
    requires SessionInv(w) && SpentForGood(w)
    ensures SpentForGood(Next(w, m))
  {
    match m
    case Serve(a) => if Allowed(w, a) { ServeKeepsSpent(w, a); }
    case SendLogin(req) => if req !in w.server.requests { ServeKeepsSpent(w, Login(req, w.client.user)); }
    case LoginServed(req, token, id, f) =>
      if Serves(w, req, token, id, f) {
        UnbookedKeepsInv(w, req);
        ServeKeepsSpent(Unbooked(w, req), StartFamily(req, token, id, f));
      }
    case _ =>
  }

  lemma {:induction false} RunKeepsSpent(w: World, moves: seq<Move>)
    requires SessionInv(w) && SpentForGood(w)
    ensures SpentForGood(Run(w, moves))
    decreases |moves|
  {
    if moves != [] {
      NextKeepsInv(w, moves[0]);
      NextKeepsSpent(w, moves[0]);
      RunKeepsSpent(Next(w, moves[0]), moves[1..]);
    }
  }

  /** Not a move of the honest run: the connection drops and the client forgets the request it sent. */
  function AnswerLost(w: World): World {
    if w.client.refresh.InFlight? then WithRefresh(w, Settling(false)) else w
  }

  /** The answer is lost and the client refreshes again, with the cookie it still has. */
  function RefreshAgain(w: World, r: RequestId, token: Token, id: RowId): World {
    var w1 := Next(Next(AnswerLost(w), Settle), StartRefresh(r));
    w1.(server := Step(Step(w1.server, Advance(r, token, id)), Advance(r, token, id)))
  }

  /**
   The delivery hypothesis is needed, exactly from the spend on: while the row of the presented
   token is there, losing the answer and refreshing again is taken for theft if and only if the
   refresh had got past its spend.
   */
  lemma LostAnswerTripsReuseIffSpent(w0: World, moves: seq<Move>, r: RequestId, token: Token, id: RowId)
    requires Start(w0)
    requires var w := Run(w0, moves);
             && w.client.refresh.InFlight? && w.client.cookie == Some(w.client.refresh.presented)
             && w.client.refresh.presented in w.server.table && r !in w.server.requests
    ensures var w := Run(w0, moves);
            var again := RefreshAgain(w, r, token, id);
            var t := w.client.refresh.presented;
            && again.client.refresh == InFlight(r, t) && r in again.server.requests
            && (again.server.requests[r].Revoking? <==> PastSpend(w))
            && (PastSpend(w) ==> again.server.requests[r] == Revoking(Replay, w.server.table[t].familyId))
  {
    var w := Run(w0, moves);
    StartIsFine(w0);
    RunKeepsSessionInv(w0, moves);
    RunKeepsSpent(w0, moves);
    var t := w.client.refresh.presented;
    assert OwnRefresh(w, w.server.requests[w.client.refresh.req], t);
    assert PastSpend(w) <==> !w.server.table[t].Live();
    RotationSafety.AfterSpendIs(w.server, r, t, token, id);
  }

  // ---------------------------------------------------------------- callers

  /**
   A caller waits only while a refresh is under way, no call sends a third request, and the
   refresh that resumes the callers has left an access token and a cookie for their retry.
   */
  ghost predicate CallsOk(c: Client) {
    && (c.refresh == Settling(true) ==> c.hasAccessToken)
    && (c.hasAccessToken ==> c.cookie.Some?)
    && forall k :: k in c.calls ==>
      match c.calls[k].phase
      case First => c.calls[k].sent == 1
      case Waiting => c.calls[k].sent == 1 && !c.refresh.Idle?
      case Second => c.calls[k].sent == 2
      case _ => c.calls[k].sent <= 2
  }

  lemma StartKeepsCalls(w: World, req: RequestId)
    requires CallsOk(w.client)
    ensures CallsOk(StartRefreshing(w, req).client) && StartRefreshing(w, req).client.calls == w.client.calls
  {
  }

  lemma NextKeepsCalls(w: World, m: Move)
    requires CallsOk(w.client)
    ensures CallsOk(Next(w, m).client)
  {
    if m.CallAnswered? || m.StartRefresh? {
      StartKeepsCalls(w, m.req);
    }
  }

  lemma {:induction false} OneRetryNeverALoop(w: World, moves: seq<Move>)
    requires CallsOk(w.client)
    ensures CallsOk(Run(w, moves).client)
    decreases |moves|
  {
    if moves != [] {
      NextKeepsCalls(w, moves[0]);
      OneRetryNeverALoop(Next(w, moves[0]), moves[1..]);
    }
  }

  /** A call that has got its second try, or its answer to it. */
  predicate Retried(c: Client, k: nat) {
    k in c.calls && c.calls[k].sent == 2 && (c.calls[k].phase.Second? || c.calls[k].phase.Answered?)
  }

  predicate GaveUp(c: Client, k: nat) {
    k in c.calls && c.calls[k] == Call(Unauthenticated, 1)
  }

  predicate Waits(c: Client, k: nat) {
    k in c.calls && c.calls[k] == Call(Waiting, 1)
  }

  /** What each move makes of a call. */
  lemma CallFate(w: World, m: Move, k: nat)
    requires CallsOk(w.client) && k in w.client.calls
    ensures var c, c' := w.client, Next(w, m).client;
            && k in c'.calls
            && (c'.calls[k].phase.Unauthenticated? <==>
                  c.calls[k].phase.Unauthenticated? || (Waits(c, k) && m.Settle? && c.refresh == Settling(false)))
            && (c'.calls[k].phase.Second? && !c.calls[k].phase.Second? <==>
                  Waits(c, k) && m.Settle? && c.refresh == Settling(true))
            && (c.calls[k].phase.Second? && m.CallAnswered? && m.call == k ==> c'.calls[k] == Call(Answered, 2))
            && (c.calls[k].phase.First? && m.CallAnswered? && m.call == k && !m.unauthorized ==> c'.calls[k] == Call(Answered, 1))
            && (c.calls[k].phase.First? && m.CallAnswered? && m.call == k && m.unauthorized && !c'.refresh.Idle? ==> Waits(c', k))
            && (c.calls[k].phase.Answered? || c.calls[k].phase.Unauthenticated? ==> c'.calls[k] == c.calls[k])
  {
    if m.CallAnswered? || m.StartRefresh? {
      StartKeepsCalls(w, m.req);
    }
  }

  lemma {:induction false} FateIsSealed(w: World, moves: seq<Move>, k: nat)
    requires CallsOk(w.client)
    ensures Retried(w.client, k) ==> Retried(Run(w, moves).client, k)
    ensures GaveUp(w.client, k) ==> GaveUp(Run(w, moves).client, k)
    decreases |moves|
  {
    if moves != [] {
      if k in w.client.calls { CallFate(w, moves[0], k); }
      NextKeepsCalls(w, moves[0]);
      if Retried(w.client, k) { RetriedStays(w, moves[0], k); }
      FateIsSealed(Next(w, moves[0]), moves[1..], k);
    }
  }

  lemma RetriedStays(w: World, m: Move, k: nat)
    requires CallsOk(w.client) && Retried(w.client, k)
    ensures Retried(Next(w, m).client, k)
  {
    CallFate(w, m, k);
    if m.CallAnswered? || m.StartRefresh? { StartKeepsCalls(w, m.req); }
  }

  /** What ends the refresh in flight: a grant, a refusal, or a request that never got through. */
  predicate Grants(w: World, m: Move) {
    m.RefreshAnswered? && w.client.refresh.InFlight? && w.client.refresh.req in w.server.requests
    && w.server.requests[w.client.refresh.req].Granted?
  }

  predicate Fails(w: World, m: Move) {
    w.client.refresh.InFlight? && w.client.refresh.req in w.server.requests
    && ((m.RefreshAnswered? && w.server.requests[w.client.refresh.req].Refused?)
        || (m.RefreshUnreached? && w.server.requests[w.client.refresh.req].Presented?))
  }

  /** The refresh in flight stays until it is granted or fails, and says so to its callers and the cookie jar. */
  lemma RefreshFate(w: World, m: Move)
    requires w.client.refresh.InFlight?
    ensures var c, c' := w.client, Next(w, m).client;
            && (Grants(w, m) <==> c'.refresh == Settling(true))
            && (Grants(w, m) ==> c'.hasAccessToken && c'.cookie == Some(w.server.requests[c.refresh.req].token))
            && (Fails(w, m) <==> c'.refresh == Settling(false))
            && (Fails(w, m) ==> c'.cookie == c.cookie && (m.RefreshAnswered? ==> !c'.hasAccessToken))
            && (!Grants(w, m) && !Fails(w, m) ==> c'.refresh == c.refresh)
  {
  }

  /** A settled refresh waits for its callers to be resumed. */
  lemma SettlingFate(w: World, m: Move)
    requires w.client.refresh.Settling?
    ensures Next(w, m).client.refresh == if m.Settle? then Idle else w.client.refresh
  {
  }

  lemma {:induction false} SettledDecides(w: World, moves: seq<Move>, k: nat)
    requires CallsOk(w.client) && Waits(w.client, k) && w.client.refresh.Settling?
    ensures var c := Run(w, moves).client;
            Waits(c, k) || (if w.client.refresh.ok then Retried(c, k) else GaveUp(c, k))
    decreases |moves|
  {
    if moves != [] {
      var w' := Next(w, moves[0]);
      CallFate(w, moves[0], k);
      SettlingFate(w, moves[0]);
      NextKeepsCalls(w, moves[0]);
      if moves[0].Settle? {
        FateIsSealed(w', moves[1..], k);
      } else {
        SettledDecides(w', moves[1..], k);
      }
    }
  }

  /**
   A call that waits for the refresh in flight is retried exactly if that refresh is granted:
   once it is no longer waiting, some move of the run has ended the refresh, and the call has
   sent its second request after a grant or given up after a failure.
   */
  lemma {:induction false} RefreshDecidesTheRetry(w: World, moves: seq<Move>, k: nat) returns (i: nat)
    requires CallsOk(w.client) && Waits(w.client, k) && w.client.refresh.InFlight? && !Waits(Run(w, moves).client, k)
    ensures i < |moves|
    ensures Run(w, moves[..i]).client.refresh == w.client.refresh && Waits(Run(w, moves[..i]).client, k)
    ensures Grants(Run(w, moves[..i]), moves[i]) || Fails(Run(w, moves[..i]), moves[i])
    ensures Grants(Run(w, moves[..i]), moves[i]) <==> Retried(Run(w, moves).client, k)
    ensures Fails(Run(w, moves[..i]), moves[i]) <==> GaveUp(Run(w, moves).client, k)
    decreases |moves|
  {
    var m, w' := moves[0], Next(w, moves[0]);
    CallFate(w, m, k);
    RefreshFate(w, m);
    NextKeepsCalls(w, m);
    StillWaits(w, m, k);
    assert Run(w, moves[..0]) == w;
    if w'.client.refresh.Settling? {
      i := 0;
      SettledDecides(w', moves[1..], k);
    } else {
      var j := RefreshDecidesTheRetry(w', moves[1..], k);
      i := j + 1;
      assert moves[..i][1..] == moves[1..][..j];
    }
  }

  lemma StillWaits(w: World, m: Move, k: nat)
    requires CallsOk(w.client) && Waits(w.client, k) && (m.Settle? ==> !w.client.refresh.Settling?)
    ensures Waits(Next(w, m).client, k)
  {
    CallFate(w, m, k);
    if m.CallAnswered? || m.StartRefresh? { StartKeepsCalls(w, m.req); }
  }

  // ---------------------------------------------------------------- sessions that work

  lemma RunMove(w: World, m: Move, rest: seq<Move>)
    ensures Run(w, [m] + rest) == Run(Next(w, m), rest)
  {
    assert ([m] + rest)[1..] == rest;
  }

  lemma LoginFate(w: World, m: Move, r: RequestId)
    requires SessionInv(w) && r in w.client.logins
    ensures r !in Next(w, m).client.logins <==> m == LoginAnswered(r) && !w.server.requests[r].Admitted?
    ensures m == LoginAnswered(r) && w.server.requests[r].Granted? ==>
              Next(w, m).client.cookie == Some(w.server.requests[r].token) && Next(w, m).client.hasAccessToken
    ensures m == LoginAnswered(r) && !w.server.requests[r].Granted? ==>
              Next(w, m).client.cookie == w.client.cookie && Next(w, m).client.hasAccessToken == w.client.hasAccessToken
  {
  }

  /**
   In any run a login is over when it is answered, and its answer is what the server made of it:
   the token it granted is in the cookie jar, or the server died on it and nothing has changed.
   */
  lemma {:induction false} LoginsEndAnswered(w: World, moves: seq<Move>, r: RequestId) returns (i: nat)
    requires SessionInv(w) && r in w.client.logins && r !in Run(w, moves).client.logins
    ensures i < |moves| && moves[i] == LoginAnswered(r)
    ensures var w1 := Run(w, moves[..i]);
            && r in w1.server.requests
            && (if w1.server.requests[r].Granted?
                then Next(w1, moves[i]).client.cookie == Some(w1.server.requests[r].token)
                else w1.server.requests[r].Lost? && Next(w1, moves[i]).client.cookie == w1.client.cookie)
    decreases |moves|
  {
    LoginFate(w, moves[0], r);
    NextKeepsInv(w, moves[0]);
    assert Run(w, moves[..0]) == w;
    if r !in Next(w, moves[0]).client.logins {
      i := 0;
    } else {
      var j := LoginsEndAnswered(Next(w, moves[0]), moves[1..], r);
      i := j + 1;
      assert moves[..i][1..] == moves[1..][..j];
    }
  }

  /** A login, once served and answered, leaves the client an access token and a cookie that is its own live token. */
  lemma LoginGivesASession(w: World, req: RequestId, token: Token, id: RowId, f: FamilyId)
    requires SessionInv(w) && req !in w.server.requests && Fresh(w.server, token, id) && f !in w.server.families
    ensures var w' := Run(w, [SendLogin(req)] + [LoginServed(req, token, id, f)] + [LoginAnswered(req)]);
            && w'.client.cookie == Some(token) && w'.client.hasAccessToken && req !in w'.client.logins
            && Mine(w', token) && w'.server.table[token].Live() && w'.server.table[token].userId == w.client.user
  {
    var w1 := Next(w, SendLogin(req));
    var w2 := Next(w1, LoginServed(req, token, id, f));
    RunMove(w, SendLogin(req), [LoginServed(req, token, id, f)] + [LoginAnswered(req)]);
    RunMove(w1, LoginServed(req, token, id, f), [LoginAnswered(req)]);
    RunMove(w2, LoginAnswered(req), []);
    assert [SendLogin(req)] + [LoginServed(req, token, id, f)] + [LoginAnswered(req)]
        == [SendLogin(req)] + ([LoginServed(req, token, id, f)] + [LoginAnswered(req)]);
    assert [LoginAnswered(req)] + [] == [LoginAnswered(req)];
    assert w1.server.requests[req] == Admitted(w.client.user);
    assert w2.server.requests[req] == Granted(token);
  }

  /** The server works the refresh in flight off. */
  lemma {:induction false} ServesTheRefresh(w: World, req: RequestId, token: Token, id: RowId, n: nat)
    ensures Run(w, seq(n, _ => Serve(Advance(req, token, id))))
            == w.(server := Rotation.Run(w.server, seq(n, _ => Advance(req, token, id))))
    decreases n
  {
    if n > 0 {
      var m, a := Serve(Advance(req, token, id)), Advance(req, token, id);
      assert seq(n, _ => m)[1..] == seq(n - 1, _ => m);
      RotationSafety.RunMore(w.server, a, n - 1);
      ServesTheRefresh(Next(w, m), req, token, id, n - 1);
    }
  }

  /** A call that meets a 401 while its client's cookie is good. */
  function RecoveringCall(k: nat, req: RequestId, token: Token, id: RowId): seq<Move> {
    [StartCall(k)] + [CallAnswered(k, true, req)] + seq(5, _ => Serve(Advance(req, token, id)))
    + [RefreshAnswered] + [Settle] + [CallAnswered(k, false, req)]
  }

  lemma {:induction false} RunSplit(w: World, a: seq<Move>, b: seq<Move>)
    ensures Run(w, a + b) == Run(Run(w, a), b)
    decreases |a|
  {
    if a == [] {
      assert a + b == b;
    } else {
      assert (a + b)[0] == a[0] && (a + b)[1..] == a[1..] + b;
      RunSplit(Next(w, a[0]), a[1..], b);
    }
  }

  lemma RunThen(w: World, moves: seq<Move>, m: Move)
    ensures Run(w, moves + [m]) == Next(Run(w, moves), m)
  {
    RunSplit(w, moves, [m]);
    RunMove(Run(w, moves), m, []);
    assert [m] + [] == [m];
  }

  /** The 401 puts the cookie on its way to the server. */
  lemma CallStartsRefresh(w: World, k: nat, req: RequestId)
    requires k !in w.client.calls && w.client.refresh.Idle? && w.client.cookie.Some? && req !in w.server.requests
    ensures var w' := Run(w, [StartCall(k)] + [CallAnswered(k, true, req)]);
            && Waits(w'.client, k) && w'.client.refresh == InFlight(req, w.client.cookie.value)
            && w'.server == Step(w.server, Present(req, w.client.cookie.value))
  {
    RunThen(w, [StartCall(k)], CallAnswered(k, true, req));
    RunThen(w, [], StartCall(k));
    assert [] + [StartCall(k)] == [StartCall(k)];
  }

  /** The grant ends the wait and the retry is answered. */
  lemma GrantAnswersTheCall(w: World, k: nat, req: RequestId, t: Token, token: Token)
    requires Waits(w.client, k) && w.client.refresh == InFlight(req, t)
    requires req in w.server.requests && w.server.requests[req] == Granted(token)
    ensures var w' := Next(Next(Next(w, RefreshAnswered), Settle), CallAnswered(k, false, req));
            && k in w'.client.calls && w'.client.calls[k] == Call(Answered, 2)
            && w'.client.cookie == Some(token) && w'.client.hasAccessToken && w'.client.refresh.Idle?
  {
  }

  /**
   What the retry is for: a call that meets a 401 while the cookie's row is live and unexpired
   is answered on its second request, by which time the cookie holds the rotated token.
   */
  lemma ExpiredAccessTokenRecovers(w: World, k: nat, req: RequestId, token: Token, id: RowId)
    requires SessionInv(w) && w.client.refresh.Idle? && w.client.cookie.Some? && k !in w.client.calls
    requires req !in w.server.requests && Fresh(w.server, token, id)
    requires Spendable(w.server.table, w.client.cookie.value, w.server.now)
    ensures var w' := Run(w, RecoveringCall(k, req, token, id));
            && k in w'.client.calls && w'.client.calls[k] == Call(Answered, 2)
            && w'.client.cookie == Some(token) && w'.client.hasAccessToken && w'.client.refresh.Idle?
  {
    var t := w.client.cookie.value;
    var start := [StartCall(k)] + [CallAnswered(k, true, req)];
    var serve := seq(5, _ => Serve(Advance(req, token, id)));
    var w1 := Run(w, start);
    var w2 := Run(w1, serve);
    CallStartsRefresh(w, k, req);
    ServesTheRefresh(w1, req, token, id, 5);
    RotationSafety.RunCons(w.server, Present(req, t), seq(5, _ => Advance(req, token, id)));
    assert Clean(w, t) && Mine(w, t);
    RotationSafety.AloneIsRefresh(w.server, req, t, token, id);
    assert w2.server.requests[req] == Granted(token);
    GrantAnswersTheCall(w2, k, req, t, token);
    RunSplit(w, start, serve);
    RunThen(w, start + serve, RefreshAnswered);
    RunThen(w, start + serve + [RefreshAnswered], Settle);
    RunThen(w, start + serve + [RefreshAnswered] + [Settle], CallAnswered(k, false, req));
  }
}
