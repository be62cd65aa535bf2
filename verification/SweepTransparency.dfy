/**
 The hourly sweep (refresh-token-cleanup.service.ts) against the protocol: deleting expired
 rows changes no answer and no reuse detection, as long as no statement still needs an
 expired row. The condition is exact, statement by statement.
 */
module SweepTransparency {
  import opened RefreshTokens
  import opened Rotation
  import Common
  import RotationSafety

  /** `s` is `u` with some rows deleted, all of them expired. */
  ghost predicate Shadow(s: State, u: State) {
    && s == u.(table := s.table)
    && (forall k :: k in s.table ==> k in u.table && s.table[k] == u.table[k])
    && (forall k :: k in u.table && k !in s.table ==> u.table[k].expiresAt < u.now)
  }

  /** The answer of the next statement of `q` depends on the row under `k` being there. */
  predicate Needs(t: Table, q: Request, k: Token)
    requires k in t
  {
    match q
    case Rejected(token) => k == token && !t[k].Live()
    case Claimed(token) => k == token
    case LoggingOut(token) => k == token
    case Linking(oldId, _, _) => t[k].id == oldId
    case _ => false
  }

  /** No statement this action runs needs an expired row. */
  predicate Timely(u: State, a: Action) {
    a.Advance? && a.req in u.requests ==>
      forall k :: k in u.table && Needs(u.table, u.requests[a.req], k) ==> u.table[k].expiresAt >= u.now
  }

  /** Statements that only read the row of their token. */
  lemma ShadowRead(s: State, u: State, r: RequestId, token: Token, id: RowId)
    requires Shadow(s, u) && r in u.requests && Timely(u, Advance(r, token, id))
    requires u.requests[r].Rejected? || u.requests[r].Claimed? || u.requests[r].LoggingOut? || u.requests[r].Spent?
    ensures Shadow(NextStatement(s, r, token, id), NextStatement(u, r, token, id))
  {
  }

  lemma ShadowWrite(s: State, u: State, r: RequestId, token: Token, id: RowId)
    requires Shadow(s, u) && r in u.requests
    requires u.requests[r].Presented? || u.requests[r].Rotating? || u.requests[r].Revoking?
    ensures Shadow(NextStatement(s, r, token, id), NextStatement(u, r, token, id))
  {
  }

  lemma ShadowLink(s: State, u: State, r: RequestId, token: Token, id: RowId)
    requires Shadow(s, u) && r in u.requests && Timely(u, Advance(r, token, id))
    requires u.requests[r].Linking?
    ensures Shadow(NextStatement(s, r, token, id), NextStatement(u, r, token, id))
  {
    var oldId := u.requests[r].oldId;
    if HasId(u.table, oldId) {
      var k :| k in u.table && u.table[k].id == oldId;
      assert k in s.table;
    }
    assert HasId(s.table, oldId) == HasId(u.table, oldId);
  }

  lemma ShadowAdvance(s: State, u: State, r: RequestId, token: Token, id: RowId)
    requires Shadow(s, u) && r in u.requests && Timely(u, Advance(r, token, id))
    ensures Shadow(NextStatement(s, r, token, id), NextStatement(u, r, token, id))
  {
    match u.requests[r]
    case Linking(_, _, _) => ShadowLink(s, u, r, token, id);
    case Presented(_) => ShadowWrite(s, u, r, token, id);
    case Rotating(_, _) => ShadowWrite(s, u, r, token, id);
    case Revoking(_, _) => ShadowWrite(s, u, r, token, id);
    case Admitted(_) =>
    case Granted(_) =>
    case Refused =>
    case LoggedOut =>
    case Lost =>
    case _ => ShadowRead(s, u, r, token, id);
  }

  lemma ShadowOther(s: State, u: State, a: Action)
    requires Shadow(s, u) && !a.Advance?
    ensures a.SweepExpired? ==> Shadow(Step(s, a), u)
    ensures !a.SweepExpired? ==> Shadow(Step(s, a), Step(u, a))
  {
  }

  lemma ShadowStep(s: State, u: State, a: Action)
    requires Shadow(s, u) && Timely(u, a)
    ensures a.SweepExpired? ==> Shadow(Step(s, a), u)
    ensures !a.SweepExpired? ==> Shadow(Step(s, a), Step(u, a))
  {
    if !a.Advance? {
      ShadowOther(s, u, a);
    } else if a.req in u.requests {
      ShadowAdvance(s, u, a.req, a.token, a.id);
    }
  }

  function WithoutSweeps(acts: seq<Action>): seq<Action> {
    if acts == [] then []
    else if acts[0].SweepExpired? then WithoutSweeps(acts[1..])
    else [acts[0]] + WithoutSweeps(acts[1..])
  }

  /** Every action of a run is timely where it happens, in the run that never sweeps. */
  predicate TimelyRun(u: State, acts: seq<Action>)
    decreases |acts|
  {
    acts != [] ==>
      && Timely(u, acts[0])
      && TimelyRun(if acts[0].SweepExpired? then u else Step(u, acts[0]), acts[1..])
  }

  lemma {:induction false} ShadowRun(s: State, u: State, acts: seq<Action>)
    requires Shadow(s, u) && TimelyRun(u, acts)
    ensures Shadow(Run(s, acts), Run(u, WithoutSweeps(acts)))
    decreases |acts|
  {
    if acts != [] {
      var a := acts[0];
      ShadowStep(s, u, a);
      if a.SweepExpired? {
        ShadowRun(Step(s, a), u, acts[1..]);
      } else {
        ShadowRun(Step(s, a), Step(u, a), acts[1..]);
        assert ([a] + WithoutSweeps(acts[1..]))[1..] == WithoutSweeps(acts[1..]);
      }
    }
  }

  /**
   Sweeping anywhere in a timely run leaves every request where it would have been without
   sweeps, and keeps every unexpired row as it would have been.
   */
  lemma SweepsAreInvisible(s: State, acts: seq<Action>)
    requires TimelyRun(s, acts)
    ensures var swept, full := Run(s, acts), Run(s, WithoutSweeps(acts));
            && swept.requests == full.requests
            && swept.(table := full.table) == full
            && (forall k :: k in full.table && full.table[k].expiresAt >= full.now ==> k in swept.table)
            && (forall k :: k in swept.table ==> k in full.table && swept.table[k] == full.table[k])
  {
    ShadowRun(s, s, acts);
  }

  /** The condition is exact: a sweep just before a statement changes its answer iff the statement is not timely. */
  lemma SweepChangesAnswerIffUntimely(u: State, a: Action)
    requires Inv(u)
    ensures Step(Step(u, SweepExpired), a).requests == Step(u, a).requests <==> Timely(u, a)
  {
    var s := Step(u, SweepExpired);
    assert Shadow(s, u);
    if Timely(u, a) {
      ShadowStep(s, u, a);
    } else {
      var k :| k in u.table && Needs(u.table, u.requests[a.req], k) && u.table[k].expiresAt < u.now;
      assert k !in s.table;
      if u.requests[a.req].Linking? {
        LastOfItsId(s, u, k);
      }
      assert Step(s, a).requests[a.req] != Step(u, a).requests[a.req];
    }
  }

  lemma LastOfItsId(s: State, u: State, k: Token)
    requires Inv(u) && Shadow(s, u) && k in u.table && k !in s.table
    ensures HasId(u.table, u.table[k].id) && !HasId(s.table, u.table[k].id)
  {
    forall j | j in s.table ensures s.table[j].id != u.table[k].id {
      assert j != k && u.table[j].id != u.table[k].id;
    }
  }

  predicate Stands(s: State, r: RequestId, q: Request) {
    r in s.requests && s.requests[r] == q
  }

  lemma ExpiredThenSwept(s: State, tick: Action)
    requires Stands(s, 1, Claimed(0)) && 0 in s.table
    requires tick.Tick? && tick.now >= s.now && tick.now > s.table[0].expiresAt
    ensures var expired := Step(s, tick);
            && Stands(Step(expired, Advance(1, 0, 0)), 1, Spent(0, s.table[0]))
            && Stands(Step(Step(expired, SweepExpired), Advance(1, 0, 0)), 1, Refused)
  {
    assert 0 !in Step(Step(s, tick), SweepExpired).table;
  }

  /**
   It happens: the row of a refresh that has just spent its token expires, and a sweep takes it
   before the re-read. Without the sweep the refresh goes on; with it, it is refused.
   */
  lemma SweepCanFailARefresh(s0: State)
    requires Initial(s0) && 0 in s0.active && s0.ttl > 0
    ensures var s := Rotation.Run(s0, RotationSafety.SpentOnly() + [Tick(s0.now + s0.ttl + 1)]);
            && Stands(Step(s, Advance(1, 0, 0)), 1, Spent(0, NewRow(0, 0, 0, s0.now + s0.ttl).(revokedAt := Common.Some(s0.now))))
            && Stands(Step(Step(s, SweepExpired), Advance(1, 0, 0)), 1, Refused)
  {
    var tick := Tick(s0.now + s0.ttl + 1);
    RotationSafety.SpentOnlyClaims(s0);
    RotationSafety.RunSnoc(s0, RotationSafety.SpentOnly(), tick);
    ExpiredThenSwept(Rotation.Run(s0, RotationSafety.SpentOnly()), tick);
  }
}
