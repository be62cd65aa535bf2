/**
 What the rotation protocol guarantees over whole runs: every statement below is about an
 arbitrary list of actions, so about every interleaving.
 */
module RotationSafety {
  import opened Common
  import opened RefreshTokens
  import opened Rotation

  function LiveRows(s: State, f: FamilyId): set<Token> {
    set t | t in s.table && LiveRow(s, f, t)
  }

  function Pendings(s: State, f: FamilyId): set<RequestId> {
    set r | r in s.requests && Pending(s, f, r)
  }

  lemma ReachableInv(s0: State, acts: seq<Action>)
    requires Initial(s0)
    ensures Inv(Run(s0, acts))
  {
    RunKeepsInv(s0, acts);
  }

  lemma {:induction false} AtMostOne<T>(xs: set<T>)
    requires forall x, y :: x in xs && y in xs ==> x == y
    ensures |xs| <= 1
  {
    if xs != {} {
      var x :| x in xs;
      assert xs == {x};
    }
  }

  /** In every interleaving a family has at most one live row or unfinished rotation, together. */
  lemma OneLiveTokenPerFamily(s0: State, acts: seq<Action>, f: FamilyId)
    requires Initial(s0)
    ensures var s := Run(s0, acts); |LiveRows(s, f)| + |Pendings(s, f)| <= 1
  {
    var s := Run(s0, acts);
    ReachableInv(s0, acts);
    forall t, u | t in LiveRows(s, f) && u in LiveRows(s, f) ensures t == u {
      assert Holds(s, f, RowOf(t)) && Holds(s, f, RowOf(u));
    }
    forall q, r | q in Pendings(s, f) && r in Pendings(s, f) ensures q == r {
      assert Holds(s, f, RefreshOf(q)) && Holds(s, f, RefreshOf(r));
    }
    AtMostOne(LiveRows(s, f));
    AtMostOne(Pendings(s, f));
    if LiveRows(s, f) != {} && Pendings(s, f) != {} {
      var t :| t in LiveRows(s, f);
      var r :| r in Pendings(s, f);
      assert Holds(s, f, RowOf(t)) && Holds(s, f, RefreshOf(r));
      assert false;
    }
  }

  /** A row keeps its owner, family and expiry, and its revocation time, once written, never changes. */
  lemma RevocationWrittenOnce(s0: State, before: seq<Action>, after: seq<Action>, t: Token)
    requires Initial(s0)
    requires t in Run(s0, before).table && t in Run(s0, before + after).table
    ensures SameRow(Run(s0, before).table[t], Run(s0, before + after).table[t])
  {
    ReachableInv(s0, before);
    RunSplit(s0, before, after);
    RunLater(Run(s0, before), after);
  }

  // ---------------------------------------------------------------- single acceptance

  /** The token this action spends successfully, if it does. */
  function Accepted(s: State, a: Action): Option<Token> {
    if a.Advance? && a.req in s.requests && s.requests[a.req].Presented?
       && Spendable(s.table, s.requests[a.req].token, s.now)
    then Some(s.requests[a.req].token) else None
  }

  lemma AcceptedIsUsedUp(s: State, a: Action)
    requires Inv(s) && Accepted(s, a).Some?
    ensures UsedUp(Step(s, a), Accepted(s, a).value)
  {
    assert RequestOk(s, s.requests[a.req]);
  }

  lemma NoTokenAcceptedTwice(s0: State, acts: seq<Action>, i: nat, j: nat)
    requires Initial(s0) && i < j < |acts|
    requires Accepted(Run(s0, acts[..i]), acts[i]).Some? && Accepted(Run(s0, acts[..j]), acts[j]).Some?
    ensures Accepted(Run(s0, acts[..i]), acts[i]) != Accepted(Run(s0, acts[..j]), acts[j])
  {
    var s := Run(s0, acts[..i]);
    ReachableInv(s0, acts[..i]);
    AcceptedIsUsedUp(s, acts[i]);
    assert acts[..j] == acts[..i] + ([acts[i]] + acts[i+1..j]);
    RunSplit(s0, acts[..i], [acts[i]] + acts[i+1..j]);
    assert ([acts[i]] + acts[i+1..j])[1..] == acts[i+1..j];
    RunLater(Step(s, acts[i]), acts[i+1..j]);
  }

  // ---------------------------------------------------------------- dead families

  predicate NoPending(s: State, f: FamilyId) {
    Pendings(s, f) == {}
  }

  predicate FamilyDead(s: State, f: FamilyId) {
    f in s.families && LiveRows(s, f) == {} && NoPending(s, f)
  }

  lemma NoHolderWhenDead(s: State, f: FamilyId)
    requires FamilyDead(s, f)
    ensures forall h :: !Holds(s, f, h)
  {
    forall h ensures !Holds(s, f, h) {
      match h
      case RowOf(t) => assert t !in LiveRows(s, f);
      case RefreshOf(r) => assert r !in Pendings(s, f);
    }
  }

  lemma StepKeepsDead(s: State, a: Action, f: FamilyId)
    requires Inv(s) && FamilyDead(s, f)
    ensures FamilyDead(Step(s, a), f)
  {
    var s' := Step(s, a);
    StepLater(s, a);
    NoHolderWhenDead(s, f);
    forall h | Holds(s', f, h) ensures false {
      HolderHasOrigin(s, a, f, h);
    }
    assert forall t :: t in LiveRows(s', f) ==> Holds(s', f, RowOf(t));
    assert forall r :: r in Pendings(s', f) ==> Holds(s', f, RefreshOf(r));
  }

  lemma {:induction false} DeadFamilyStaysDead(s: State, acts: seq<Action>, f: FamilyId)
    requires Inv(s) && FamilyDead(s, f)
    ensures FamilyDead(Run(s, acts), f)
    decreases |acts|
  {
    if acts != [] {
      StepKeepsInv(s, acts[0]);
      StepKeepsDead(s, acts[0], f);
      DeadFamilyStaysDead(Step(s, acts[0]), acts[1..], f);
    }
  }

  /** The action that executes the family revocation of a replay, a logout or a deactivation. */
  predicate Revokes(s: State, a: Action, f: FamilyId) {
    a.Advance? && a.req in s.requests && s.requests[a.req].Revoking? && s.requests[a.req].familyId == f
  }

  lemma RevocationKillsIffNoPending(s: State, a: Action, f: FamilyId)
    requires Inv(s) && Revokes(s, a, f)
    ensures FamilyDead(Step(s, a), f) <==> NoPending(s, f)
  {
    assert RequestOk(s, s.requests[a.req]);
    var s' := Step(s, a);
    assert LiveRows(s', f) == {};
    forall r ensures Pending(s', f, r) == Pending(s, f, r) {
    }
    assert Pendings(s', f) == Pendings(s, f);
  }

  /**
   Once a family is revoked with no rotation of it between spend and issue, no later step of
   any run makes or accepts a live token in it.
   */
  lemma RevokedFamilyIsOver(s0: State, before: seq<Action>, revoke: Action, after: seq<Action>, f: FamilyId)
    requires Initial(s0)
    requires Revokes(Run(s0, before), revoke, f) && NoPending(Run(s0, before), f)
    ensures var s := Run(Step(Run(s0, before), revoke), after);
            && (forall t :: t in s.table && s.table[t].familyId == f ==> !s.table[t].Live())
            && (forall a :: Accepted(s, a).Some? ==> s.table[Accepted(s, a).value].familyId != f)
  {
    var s1 := Run(s0, before);
    ReachableInv(s0, before);
    RevocationKillsIffNoPending(s1, revoke, f);
    StepKeepsInv(s1, revoke);
    DeadFamilyStaysDead(Step(s1, revoke), after, f);
    var s := Run(Step(s1, revoke), after);
    forall t | t in s.table && s.table[t].familyId == f ensures !s.table[t].Live() {
      assert t !in LiveRows(s, f);
    }
  }

  function StatementsToIssue(q: Request): nat {
    match q
    case Claimed(_) => 3
    case Spent(_, _) => 2
    case _ => 1
  }

  /** The user a pending rotation will issue for. */
  function PendingUser(s: State, r: RequestId): UserId
    requires exists f :: Pending(s, f, r)
  {
    match s.requests[r]
    case Claimed(t) => s.table[t].userId
    case Spent(_, row) => row.userId
    case Rotating(_, row) => row.userId
  }

  /** A pending rotation of an active user, run on undisturbed, issues a live token in its family. */
  lemma PendingRotationIssues(s: State, f: FamilyId, r: RequestId, token: Token, id: RowId)
    requires Pending(s, f, r) && PendingUser(s, r) in s.active && Fresh(s, token, id)
    ensures LiveRow(Run(s, seq(StatementsToIssue(s.requests[r]), _ => Advance(r, token, id))), f, token)
  {
    var a := Advance(r, token, id);
    var n := StatementsToIssue(s.requests[r]);
    var s2 := Step(s, a);
    if n == 1 {
      RunOnce(s, a);
    } else if n == 2 {
      RunOnce(s2, a);
      RunMore(s, a, 1);
    } else {
      var s3 := Step(s2, a);
      RunOnce(s3, a);
      RunMore(s2, a, 1);
      RunMore(s, a, 2);
    }
  }

  /** A revocation leaves a pending rotation of the family as it is. */
  lemma RevocationLeavesPending(s: State, revoke: Action, f: FamilyId, r: RequestId)
    requires Revokes(s, revoke, f) && Pending(s, f, r)
    ensures var s' := Step(s, revoke);
            Pending(s', f, r) && s'.requests[r] == s.requests[r] && PendingUser(s', r) == PendingUser(s, r)
    ensures Step(s, revoke).seen == s.seen && Step(s, revoke).log == s.log
  {
  }

  /**
   A rotation between its spend and its issue outlives the revocation of its family: run on
   for an active user, or one reactivated in the meantime, it puts a live token there.
   */
  lemma PendingRotationOutlivesRevocation(s: State, revoke: Action, f: FamilyId, r: RequestId, token: Token, id: RowId)
    requires Revokes(s, revoke, f) && Pending(s, f, r) && Fresh(s, token, id)
    ensures LiveRow(Run(Step(s, revoke), Revive(s, f, r, token, id)), f, token)
  {
    var s1 := Step(s, revoke);
    var on := SetActive(PendingUser(s, r), true);
    RevocationLeavesPending(s, revoke, f, r);
    assert Step(s1, on) == s1.(active := s1.active + {PendingUser(s, r)});
    PendingRotationIssues(Step(s1, on), f, r, token, id);
    RunCons(s1, on, seq(StatementsToIssue(s.requests[r]), _ => Advance(r, token, id)));
  }

  /** What brings a revoked family back: its user is active and the pending rotation runs on. */
  function Revive(s: State, f: FamilyId, r: RequestId, token: Token, id: RowId): seq<Action>
    requires Pending(s, f, r)
  {
    [SetActive(PendingUser(s, r), true)] + seq(StatementsToIssue(s.requests[r]), _ => Advance(r, token, id))
  }

  lemma {:induction false} Unused(xs: set<nat>) returns (n: nat)
    ensures n !in xs && forall x :: x in xs ==> x < n
    decreases xs
  {
    n := 0;
    if xs != {} {
      var x :| x in xs;
      var m := Unused(xs - {x});
      n := if m <= x then x + 1 else m;
      assert forall y :: y in xs ==> y == x || y in xs - {x};
    }
  }

  /** No continuation whatever has a live token in the family. */
  ghost predicate FamilyOver(s: State, f: FamilyId) {
    forall after, t :: !LiveRow(Run(s, after), f, t)
  }

  lemma DeadIsOver(s: State, f: FamilyId)
    requires Inv(s) && FamilyDead(s, f)
    ensures FamilyOver(s, f)
  {
    forall after, t ensures !LiveRow(Run(s, after), f, t) {
      DeadFamilyStaysDead(s, after, f);
      assert t !in LiveRows(Run(s, after), f);
    }
  }

  /**
   A revocation ends its family, so that no continuation ever has a live token in it again, if
   and only if no rotation of the family is between its spend and its issue.
   */
  lemma RevocationEndsFamilyIff(s: State, revoke: Action, f: FamilyId)
    requires Inv(s) && Revokes(s, revoke, f)
    ensures FamilyOver(Step(s, revoke), f) <==> NoPending(s, f)
  {
    if NoPending(s, f) {
      RevocationKillsIffNoPending(s, revoke, f);
      StepKeepsInv(s, revoke);
      DeadIsOver(Step(s, revoke), f);
    } else {
      var r :| r in Pendings(s, f);
      var token := Unused(s.seen);
      var id := Unused(s.log.Keys);
      PendingRotationOutlivesRevocation(s, revoke, f, r, token, id);
    }
  }

  // A login, then a refresh up to the update that spends its token.

  function SpentOnly(): seq<Action> {
    [Login(0, 0)] + [StartFamily(0, 0, 0, 0)] + [Present(1, 0)] + [Advance(1, 0, 0)]
  }

  lemma FirstLogin(s0: State)
    requires Initial(s0) && 0 in s0.active
    ensures var s := Step(Step(s0, Login(0, 0)), StartFamily(0, 0, 0, 0));
            && s.table == map[0 := NewRow(0, 0, 0, s0.now + s0.ttl)] && s.requests == map[0 := Granted(0)]
            && s.now == s0.now
  {
    assert Step(s0, Login(0, 0)).requests == map[0 := Admitted(0)];
  }

  lemma FirstSpend(s: State)
    requires s.requests == map[0 := Granted(0)] && s.table.Keys == {0} && Spendable(s.table, 0, s.now)
    ensures var s' := Step(Step(s, Present(1, 0)), Advance(1, 0, 0));
            && s'.table == map[0 := s.table[0].(revokedAt := Some(s.now))]
            && s'.requests == map[0 := Granted(0), 1 := Claimed(0)] && s'.now == s.now
  {
    var s1 := Step(s, Present(1, 0));
    assert s1.requests[1] == Presented(0);
    assert s1.table == s.table == map[0 := s.table[0]];
  }

  lemma SpentOnlyClaims(s0: State)
    requires Initial(s0) && 0 in s0.active && s0.ttl > 0
    ensures var s := Run(s0, SpentOnly());
            && s.table == map[0 := NewRow(0, 0, 0, s0.now + s0.ttl).(revokedAt := Some(s0.now))]
            && s.requests == map[0 := Granted(0), 1 := Claimed(0)]
            && s.now == s0.now
  {
    assert [] + [Login(0, 0)] == [Login(0, 0)];
    RunSnoc(s0, [], Login(0, 0));
    RunSnoc(s0, [Login(0, 0)], StartFamily(0, 0, 0, 0));
    RunSnoc(s0, [Login(0, 0)] + [StartFamily(0, 0, 0, 0)], Present(1, 0));
    RunSnoc(s0, [Login(0, 0)] + [StartFamily(0, 0, 0, 0)] + [Present(1, 0)], Advance(1, 0, 0));
    FirstLogin(s0);
    FirstSpend(Step(Step(s0, Login(0, 0)), StartFamily(0, 0, 0, 0)));
  }

  lemma LogoutMeetsRotation(s: State)
    requires s.requests == map[0 := Granted(0), 1 := Claimed(0)] && 0 in s.table && s.table[0].familyId == 0
    ensures var s' := Step(Step(s, Logout(2, 0)), Advance(2, 0, 0));
            Revokes(s', Advance(2, 0, 0), 0) && Pending(s', 0, 1)
  {
    assert Step(s, Logout(2, 0)).requests[2] == LoggingOut(0);
  }

  /** It happens: a logout that meets that refresh revokes a family with a rotation pending in it, and does not end it. */
  lemma RevocationCanMissARotation(s0: State)
    requires Initial(s0) && 0 in s0.active && s0.ttl > 0
    ensures var s := Run(s0, SpentOnly() + [Logout(2, 0)] + [Advance(2, 0, 0)]);
            Revokes(s, Advance(2, 0, 0), 0) && Pending(s, 0, 1) && !FamilyOver(Step(s, Advance(2, 0, 0)), 0)
  {
    var acts := SpentOnly() + [Logout(2, 0)] + [Advance(2, 0, 0)];
    SpentOnlyClaims(s0);
    RunSnoc(s0, SpentOnly(), Logout(2, 0));
    RunSnoc(s0, SpentOnly() + [Logout(2, 0)], Advance(2, 0, 0));
    LogoutMeetsRotation(Run(s0, SpentOnly()));
    ReachableInv(s0, acts);
    assert 1 in Pendings(Run(s0, acts), 0);
    RevocationEndsFamilyIff(Run(s0, acts), Advance(2, 0, 0), 0);
  }

  lemma {:induction false} RunSnoc(s: State, acts: seq<Action>, a: Action)
    ensures Run(s, acts + [a]) == Step(Run(s, acts), a)
  {
    RunSplit(s, acts, [a]);
    assert Run(Step(Run(s, acts), a), [a][1..]) == Step(Run(s, acts), a);
  }

  lemma RunMore(s: State, a: Action, n: nat)
    ensures Run(s, seq(n + 1, _ => a)) == Run(Step(s, a), seq(n, _ => a))
  {
    assert seq(n + 1, _ => a)[1..] == seq(n, _ => a);
  }

  lemma RunOnce(s: State, a: Action)
    ensures Run(s, seq(1, _ => a)) == Step(s, a)
  {
    RunMore(s, a, 0);
    assert Run(Step(s, a), seq(0, _ => a)) == Step(s, a);
  }

  // ---------------------------------------------------------------- who gets tokens

  /** Everyone a row was ever issued to, or who is about to start a family, is one of these users. */
  ghost predicate OnlyFor(s: State, users: set<UserId>) {
    && (forall id :: id in s.log ==> s.log[id].userId in users)
    && (forall r :: r in s.requests && s.requests[r].Admitted? ==> s.requests[r].userId in users)
  }

  lemma NewIssueIsLogged(s: State, a: Action, id: RowId)
    requires Inv(s) && id in Step(s, a).log && id !in s.log
    ensures (a.StartFamily? && a.req in s.requests && s.requests[a.req] == Admitted(Step(s, a).log[id].userId))
            || (a.Advance? && a.req in s.requests && s.requests[a.req].Rotating?
                && exists prev :: prev in s.log && s.log[prev].userId == Step(s, a).log[id].userId)
  {
    if a.Advance? {
      assert RequestOk(s, s.requests[a.req]);
      assert s.requests[a.req].row.id in s.log;
    }
  }

  lemma NewlyAdmittedIsActive(s: State, a: Action, r: RequestId)
    requires r in Step(s, a).requests && Step(s, a).requests[r].Admitted?
    ensures (r in s.requests && s.requests[r] == Step(s, a).requests[r]) || Step(s, a).requests[r].userId in s.active
  {
    OtherRequestsUntouched(s, a, r);
  }

  lemma StepOnlyFor(s: State, a: Action, users: set<UserId>)
    requires Inv(s) && OnlyFor(s, users) && s.active <= users
    ensures OnlyFor(Step(s, a), users)
  {
    var s' := Step(s, a);
    StepLater(s, a);
    forall id | id in s'.log ensures s'.log[id].userId in users {
      if id !in s.log { NewIssueIsLogged(s, a, id); }
    }
    forall r | r in s'.requests && s'.requests[r].Admitted? ensures s'.requests[r].userId in users {
      NewlyAdmittedIsActive(s, a, r);
    }
  }

  /** The users active at some point of a run. */
  function EverActive(s: State, acts: seq<Action>): set<UserId>
    decreases |acts|
  {
    if acts == [] then s.active else s.active + EverActive(Step(s, acts[0]), acts[1..])
  }

  lemma OnlyForMore(s: State, users: set<UserId>, more: set<UserId>)
    requires OnlyFor(s, users) && users <= more
    ensures OnlyFor(s, more)
  {
  }

  lemma {:induction false} RunOnlyFor(s: State, acts: seq<Action>, users: set<UserId>)
    requires Inv(s) && OnlyFor(s, users)
    ensures OnlyFor(Run(s, acts), users + EverActive(s, acts))
    decreases |acts|
  {
    if acts == [] {
      OnlyForMore(s, users, users + s.active);
    } else {
      OnlyForMore(s, users, users + s.active);
      StepKeepsInv(s, acts[0]);
      StepOnlyFor(s, acts[0], users + s.active);
      RunOnlyFor(Step(s, acts[0]), acts[1..], users + s.active);
      assert users + s.active + EverActive(Step(s, acts[0]), acts[1..]) == users + EverActive(s, acts);
    }
  }

  lemma {:induction false} EverActiveIsActive(s: State, acts: seq<Action>, u: UserId) returns (i: nat)
    requires u in EverActive(s, acts)
    ensures i <= |acts| && u in Run(s, acts[..i]).active
    decreases |acts|
  {
    if u in s.active {
      i := 0;
      assert Run(s, acts[..0]) == s;
    } else {
      var j := EverActiveIsActive(Step(s, acts[0]), acts[1..], u);
      i := j + 1;
      assert acts[..i][1..] == acts[1..][..j];
    }
  }

  /** In every run, whoever owns a row was active at some earlier point of it. */
  lemma OnlyActiveUsersGetTokens(s0: State, acts: seq<Action>, t: Token) returns (i: nat)
    requires Initial(s0) && t in Run(s0, acts).table
    ensures i <= |acts| && Run(s0, acts).table[t].userId in Run(s0, acts[..i]).active
  {
    var s := Run(s0, acts);
    ReachableInv(s0, acts);
    RunOnlyFor(s0, acts, {});
    assert Logged(s, s.table[t].id, s.table[t].userId, s.table[t].familyId);
    i := EverActiveIsActive(s0, acts, s.table[t].userId);
  }

  /** The request has passed its check of this user and has yet to insert a row. */
  predicate OnTheWay(q: Request, u: UserId) {
    match q
    case Admitted(v) => v == u
    case Rotating(_, row) => row.userId == u
    case _ => false
  }

  predicate NoneOnTheWay(s: State, u: UserId) {
    forall r :: r in s.requests ==> !OnTheWay(s.requests[r], u)
  }

  lemma StatementChecksTheUser(s: State, r: RequestId, token: Token, id: RowId, u: UserId)
    requires r in s.requests && u !in s.active && !OnTheWay(s.requests[r], u)
    ensures !OnTheWay(NextStatement(s, r, token, id).requests[r], u)
  {
  }

  lemma OutStaysOut(s: State, a: Action, u: UserId)
    requires u !in s.active && NoneOnTheWay(s, u) && a != SetActive(u, true)
    ensures u !in Step(s, a).active && NoneOnTheWay(Step(s, a), u)
  {
    forall r | r in Step(s, a).requests ensures !OnTheWay(Step(s, a).requests[r], u) {
      OtherRequestsUntouched(s, a, r);
      if a.Advance? && a.req == r { StatementChecksTheUser(s, r, a.token, a.id, u); }
    }
  }

  lemma NoRowForTheOut(s: State, a: Action, u: UserId, t: Token)
    requires NoneOnTheWay(s, u) && t in Step(s, a).table && Step(s, a).table[t].userId == u
    ensures t in s.table && s.table[t].userId == u
  {
    RowOrigin(s, a, t);
  }

  /**
   Deactivation ends a user's tokens: with none of the user's requests between its check and its
   insert, and no reactivation, no run gives the user a row that was not there before.
   */
  lemma {:induction false} DeactivatedUserGetsNothing(s: State, acts: seq<Action>, u: UserId, t: Token)
    requires u !in s.active && NoneOnTheWay(s, u) && SetActive(u, true) !in acts
    requires t in Run(s, acts).table && Run(s, acts).table[t].userId == u
    ensures t in s.table && s.table[t].userId == u
    decreases |acts|
  {
    if acts != [] {
      OutStaysOut(s, acts[0], u);
      DeactivatedUserGetsNothing(Step(s, acts[0]), acts[1..], u, t);
      NoRowForTheOut(s, acts[0], u, t);
    }
  }

  // ---------------------------------------------------------------- replacement chains

  predicate ReplacedBy(s: State, t: Token, u: Token) {
    t in s.table && u in s.table && s.table[t].replacedById == Some(s.table[u].id)
  }

  /** Each token of the path was replaced by the next. */
  predicate Chain(s: State, path: seq<Token>) {
    forall i :: 0 <= i < |path| - 1 ==> ReplacedBy(s, path[i], path[i+1])
  }

  lemma {:induction false} ChainClimbs(s: State, path: seq<Token>, i: nat, j: nat)
    requires Inv(s) && Chain(s, path) && i < j < |path|
    ensures path[i] in s.table && path[j] in s.table
    ensures s.table[path[i]].familyId == s.table[path[j]].familyId && s.table[path[i]].userId == s.table[path[j]].userId
    ensures s.table[path[i]].id in s.log && s.table[path[j]].id in s.log
    ensures s.log[s.table[path[i]].id].birth < s.log[s.table[path[j]].id].birth
    decreases j
  {
    assert ReplacedBy(s, path[j-1], path[j-1+1]);
    assert LinkForward(s, path[j-1]);
    assert Logged(s, s.table[path[j-1]].id, s.table[path[j-1]].userId, s.table[path[j-1]].familyId);
    assert Logged(s, s.table[path[j]].id, s.table[path[j]].userId, s.table[path[j]].familyId);
    if i == j - 1 {
    } else {
      ChainClimbs(s, path, i, j - 1);
    }
  }

  /** Two tokens of one family and user. */
  predicate Kin(s: State, t: Token, u: Token) {
    && t != u && t in s.table && u in s.table
    && s.table[t].familyId == s.table[u].familyId && s.table[t].userId == s.table[u].userId
  }

  /** No token comes twice, and all belong to one family of one user. */
  predicate Straight(s: State, path: seq<Token>) {
    forall i, j :: 0 <= i < j < |path| ==> Kin(s, path[i], path[j])
  }

  lemma OnePredecessorEach(s: State)
    requires Inv(s)
    ensures forall j, k, id :: LinksTo(s, j, id) && LinksTo(s, k, id) ==> j == k
  {
  }

  lemma ChainNeverRepeats(s: State, path: seq<Token>)
    requires Inv(s) && Chain(s, path)
    ensures Straight(s, path)
  {
    forall i, j | 0 <= i < j < |path| ensures Kin(s, path[i], path[j]) {
      ChainClimbs(s, path, i, j);
    }
  }

  /** Replacement chains never loop, never branch backwards, and stay in one family of one user. */
  lemma ReplacementChainsAreAcyclic(s0: State, acts: seq<Action>, path: seq<Token>)
    requires Initial(s0) && Chain(Run(s0, acts), path)
    ensures var s := Run(s0, acts);
            && Straight(s, path)
            && (forall j, k, id :: LinksTo(s, j, id) && LinksTo(s, k, id) ==> j == k)
  {
    ReachableInv(s0, acts);
    ChainNeverRepeats(Run(s0, acts), path);
    OnePredecessorEach(Run(s0, acts));
  }

  // ---------------------------------------------------------------- one request at a time

  /** A refresh whose statements run back to back. */
  function Alone(r: RequestId, t: Token, token: Token, id: RowId): seq<Action> {
    [Present(r, t)] + seq(5, _ => Advance(r, token, id))
  }

  lemma RunCons(s: State, a: Action, rest: seq<Action>)
    ensures Run(s, [a] + rest) == Run(Step(s, a), rest)
  {
    assert ([a] + rest)[1..] == rest;
  }

  /** A finished request ignores further turns. */
  lemma {:induction false} RunFinished(s: State, r: RequestId, token: Token, id: RowId, n: nat)
    requires r in s.requests && (s.requests[r].Granted? || s.requests[r].Refused?)
    ensures Run(s, seq(n, _ => Advance(r, token, id))) == s
  {
    if n > 0 {
      RunMore(s, Advance(r, token, id), n - 1);
      RunFinished(s, r, token, id, n - 1);
    }
  }

  /** The last three statements: user lookup, issue, link. */
  lemma RotateAlone(s: State, r: RequestId, token: Token, id: RowId)
    requires r in s.requests && s.requests[r].Spent? && Fresh(s, token, id) && token !in s.table
    requires HasId(s.table, s.requests[r].row.id)
    ensures var row := s.requests[r].row;
            var s' := Run(s, seq(3, _ => Advance(r, token, id)));
            && r in s'.requests
            && (row.userId in s.active ==>
                  && s'.requests[r] == Granted(token)
                  && s'.table == Link(s.table[token := NewRow(id, row.userId, row.familyId, s.now + s.ttl)], row.id, id))
            && (row.userId !in s.active ==>
                  && s'.requests[r] == Refused
                  && s'.table == RevokeFamily(s.table, row.familyId, s.now))
  {
    var a := Advance(r, token, id);
    var row := s.requests[r].row;
    RunMore(s, a, 2);
    var s1 := Step(s, a);
    RunMore(s1, a, 1);
    var s2 := Step(s1, a);
    RunOnce(s2, a);
    if row.userId in s.active {
      assert s2.requests[r] == Linking(row.id, id, token);
      var k :| k in s.table && s.table[k].id == row.id;
      assert k in s2.table && s2.table[k].id == row.id;
      assert HasId(s2.table, row.id);
    }
  }

  /** The first three actions of a refresh: arrival, spending update, re-read. */
  function AfterSpend(s: State, r: RequestId, t: Token, token: Token, id: RowId): State {
    Step(Step(Step(s, Present(r, t)), Advance(r, token, id)), Advance(r, token, id))
  }

  lemma AloneSplits(s: State, r: RequestId, t: Token, token: Token, id: RowId)
    ensures Run(s, Alone(r, t, token, id)) == Run(AfterSpend(s, r, t, token, id), seq(3, _ => Advance(r, token, id)))
  {
    var a := Advance(r, token, id);
    RunCons(s, Present(r, t), seq(5, _ => a));
    RunMore(Step(s, Present(r, t)), a, 4);
    RunMore(Step(Step(s, Present(r, t)), a), a, 3);
  }

  /** Where a refresh stands after its spend, seen from the state before it. */
  predicate SpendDone(s: State, s': State, r: RequestId, t: Token) {
    && r in s'.requests
    && s'.now == s.now && s'.ttl == s.ttl && s'.active == s.active && s'.log == s.log
    && s'.seen == s.seen + {t}
    && (Spendable(s.table, t, s.now) ==>
          s'.table == Claim(s.table, t, s.now) && s'.requests[r] == Spent(t, s'.table[t]))
    && (!Spendable(s.table, t, s.now) ==>
          && s'.table == s.table
          && s'.requests[r] == if t in s.table && !s.table[t].Live() then Revoking(Replay, s.table[t].familyId) else Refused)
  }

  lemma AfterSpendIs(s: State, r: RequestId, t: Token, token: Token, id: RowId)
    requires r !in s.requests
    ensures SpendDone(s, AfterSpend(s, r, t, token, id), r, t)
  {
    var s1 := Step(s, Present(r, t));
    var s2 := Step(s1, Advance(r, token, id));
    assert s2.requests[r] == if Spendable(s.table, t, s.now) then Claimed(t) else Rejected(t);
  }

  predicate Answers(s: State, s': State, r: RequestId, t: Token, token: Token, id: RowId) {
    var (answer, table) := RefreshSpec(s.table, s.active, s.ttl, t, s.now, token, id);
    && s'.table == table
    && r in s'.requests
    && s'.requests[r] == (if answer.Some? then Granted(answer.value) else Refused)
  }

  lemma FinishAlone(s: State, s3: State, r: RequestId, t: Token, token: Token, id: RowId)
    requires SpendDone(s, s3, r, t) && Fresh(s, token, id) && token != t && token !in s.table
    ensures Answers(s, Run(s3, seq(3, _ => Advance(r, token, id))), r, t, token, id)
  {
    if Spendable(s.table, t, s.now) {
      assert HasId(s3.table, s3.requests[r].row.id);
      RotateAlone(s3, r, token, id);
    } else if s3.requests[r].Revoking? {
      RunMore(s3, Advance(r, token, id), 2);
      RunFinished(Step(s3, Advance(r, token, id)), r, token, id, 2);
    } else {
      RunFinished(s3, r, token, id, 3);
    }
  }

  /** The protocol run without interference is the sequential service. */
  lemma AloneIsRefresh(s: State, r: RequestId, t: Token, token: Token, id: RowId)
    requires Inv(s) && r !in s.requests && Fresh(s, token, id) && token != t
    ensures Answers(s, Run(s, Alone(r, t, token, id)), r, t, token, id)
  {
    AloneSplits(s, r, t, token, id);
    AfterSpendIs(s, r, t, token, id);
    FinishAlone(s, AfterSpend(s, r, t, token, id), r, t, token, id);
  }

  /** A login whose statements run back to back. */
  function LoginAlone(r: RequestId, u: UserId, token: Token, id: RowId, f: FamilyId): seq<Action> {
    [Login(r, u)] + [StartFamily(r, token, id, f)]
  }

  /** Like `AuthService.Login`: an active user gets the one row of a new family, anyone else gets nothing. */
  lemma AloneIsLogin(s: State, r: RequestId, u: UserId, token: Token, id: RowId, f: FamilyId)
    requires r !in s.requests && Fresh(s, token, id) && f !in s.families
    ensures var s' := Run(s, LoginAlone(r, u, token, id, f));
            && r in s'.requests
            && (u in s.active ==> s'.requests[r] == Granted(token) && s'.table == s.table[token := NewRow(id, u, f, s.now + s.ttl)])
            && (u !in s.active ==> s'.requests[r] == Refused && s'.table == s.table)
  {
    RunSnoc(s, [Login(r, u)], StartFamily(r, token, id, f));
    RunCons(s, Login(r, u), []);
    assert [Login(r, u)] + [] == [Login(r, u)];
  }

  /** A logout whose statements run back to back answers the same whatever the token, and leaves the table `AuthService.Logout` does. */
  lemma AloneIsLogout(s: State, r: RequestId, t: Token, token: Token, id: RowId)
    requires r !in s.requests
    ensures var s' := Run(s, [Logout(r, t)] + seq(2, _ => Advance(r, token, id)));
            && r in s'.requests && s'.requests[r] == LoggedOut
            && s'.table == if t in s.table then RevokeFamily(s.table, s.table[t].familyId, s.now) else s.table
  {
    var p, a := Logout(r, t), Advance(r, token, id);
    RunCons(s, p, seq(2, _ => a));
    RunMore(Step(s, p), a, 1);
    RunOnce(Step(Step(s, p), a), a);
    assert Step(s, p).requests[r] == LoggingOut(t);
    assert Step(Step(s, p), a).requests[r] == if t in s.table then Revoking(LogoutAsked, s.table[t].familyId) else LoggedOut;
  }

  /** Logging out with any token of a family, spent or not, leaves no live row in it and touches no other family. */
  lemma LogoutRevokesFamily(s: State, r: RequestId, t: Token, token: Token, id: RowId)
    requires Inv(s) && r !in s.requests && t in s.table
    ensures var s' := Run(s, [Logout(r, t)] + seq(2, _ => Advance(r, token, id)));
            && r in s'.requests && s'.requests[r] == LoggedOut
            && s'.table.Keys == s.table.Keys
            && LiveRows(s', s.table[t].familyId) == {}
            && (forall k :: k in s.table && s.table[k].familyId != s.table[t].familyId ==> s'.table[k] == s.table[k])
  {
    AloneIsLogout(s, r, t, token, id);
  }

  /** Presenting a token whose row is revoked is detected as reuse and revokes every row of its family. */
  lemma ReplayRevokesFamily(s: State, r: RequestId, t: Token, token: Token, id: RowId)
    requires Inv(s) && r !in s.requests && Fresh(s, token, id) && token != t
    requires t in s.table && !s.table[t].Live()
    ensures var s' := Run(s, [Present(r, t)] + seq(2, _ => Advance(r, token, id)));
            r in s'.requests && s'.requests[r] == Revoking(Replay, s.table[t].familyId)
    ensures LiveRows(Run(s, Alone(r, t, token, id)), s.table[t].familyId) == {}
  {
    var p, a := Present(r, t), Advance(r, token, id);
    AloneIsRefresh(s, r, t, token, id);
    AfterSpendIs(s, r, t, token, id);
    RunCons(s, p, seq(2, _ => a));
    RunMore(Step(s, p), a, 1);
    RunOnce(Step(Step(s, p), a), a);
  }
}
