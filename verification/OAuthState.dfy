/**
 Single use of OAuth states (oauth-state.service.ts). The HMAC is assumed unforgeable, so a
 presented state is either rejected by its signature or carries claims issued here. Times
 are whole seconds.
 */
module OAuthState {

  const STATE_TTL_SECONDS := 600

  type Nonce = nat
  datatype Claims = Claims(userId: nat, nonce: Nonce, exp: int)

  datatype Presented = Malformed | BadSignature | Signed(claims: Claims)
  datatype Verdict = Accepted(userId: nat) | MalformedState | InvalidState | ExpiredState | AlreadyUsed

  type Redeemed = map<Nonce, int>

  function Forget(m: Redeemed, now: int): Redeemed {
    map n | n in m && m[n] >= now :: m[n]
  }

  function Verify(m: Redeemed, p: Presented, now: int): (Verdict, Redeemed) {
    match p
    case Malformed => (MalformedState, m)
    case BadSignature => (InvalidState, m)
    case Signed(c) =>
      if c.exp < now then (ExpiredState, m)
      else if c.nonce in Forget(m, now) then (AlreadyUsed, Forget(m, now))
      else (Accepted(c.userId), Forget(m, now)[c.nonce := c.exp])
  }

  function Issue(userId: nat, nonce: Nonce, nowMs: nat): (c: Claims)
    ensures c.userId == userId && c.nonce == nonce
    ensures c.exp * 1000 <= nowMs + 600_000 < c.exp * 1000 + 1000
  {
    Claims(userId, nonce, nowMs / 1000 + STATE_TTL_SECONDS)
  }

  class OAuthStateService {
    var redeemed: Redeemed

    constructor ()
      ensures redeemed == map[]
    {
      redeemed := map[];
    }

    /** Removes exactly the redeemed nonces that have expired. */
    method ForgetExpired(now: int)
      modifies this`redeemed
      ensures redeemed == Forget(old(redeemed), now)
    {
      ghost var before := redeemed;
      var todo := redeemed.Keys;
      while todo != {}
        invariant todo <= before.Keys
        invariant redeemed == map n | n in before && (n in todo || before[n] >= now) :: before[n]
        decreases |todo|
      {
        var nonce :| nonce in todo;
        if redeemed[nonce] < now {
          redeemed := redeemed - {nonce};
        }
        todo := todo - {nonce};
      }
    }

    method VerifyState(p: Presented, now: int) returns (v: Verdict)
      modifies this`redeemed
      ensures (v, redeemed) == Verify(old(redeemed), p, now)
      ensures v.Accepted? ==> forall n :: n in redeemed ==> redeemed[n] >= now
    {
      if p.Malformed? {
        return MalformedState;
      }
      if p.BadSignature? {
        return InvalidState;
      }
      if p.claims.exp < now {
        return ExpiredState;
      }
      ForgetExpired(now);
      if p.claims.nonce in redeemed {
        return AlreadyUsed;
      }
      redeemed := redeemed[p.claims.nonce := p.claims.exp];
      v := Accepted(p.claims.userId);
    }
  }

  // ---------------------------------------------------------------- runs

  datatype Attempt = Attempt(state: Presented, now: int)

  predicate Ordered(now: int, attempts: seq<Attempt>)
    decreases |attempts|
  {
    attempts == [] || (now <= attempts[0].now && Ordered(attempts[0].now, attempts[1..]))
  }

  /** Nonces are random, so a nonce belongs to one issued state. */
  ghost predicate OneStatePerNonce(issued: map<Nonce, Claims>, attempts: seq<Attempt>) {
    forall i :: 0 <= i < |attempts| && attempts[i].state.Signed? ==>
      var c := attempts[i].state.claims; c.nonce in issued && issued[c.nonce] == c
  }

  function Verdicts(m: Redeemed, attempts: seq<Attempt>): seq<Verdict>
    decreases |attempts|
  {
    if attempts == [] then []
    else
      var (v, m') := Verify(m, attempts[0].state, attempts[0].now);
      [v] + Verdicts(m', attempts[1..])
  }

  /** The reference: a service that never forgets a redeemed nonce. */
  function IdealVerify(used: set<Nonce>, p: Presented, now: int): (Verdict, set<Nonce>) {
    match p
    case Malformed => (MalformedState, used)
    case BadSignature => (InvalidState, used)
    case Signed(c) =>
      if c.exp < now then (ExpiredState, used)
      else if c.nonce in used then (AlreadyUsed, used)
      else (Accepted(c.userId), used + {c.nonce})
  }

  function IdealVerdicts(used: set<Nonce>, attempts: seq<Attempt>): seq<Verdict>
    decreases |attempts|
  {
    if attempts == [] then []
    else
      var (v, used') := IdealVerify(used, attempts[0].state, attempts[0].now);
      [v] + IdealVerdicts(used', attempts[1..])
  }

  /** What has been forgotten has expired. */
  ghost predicate Remembers(m: Redeemed, used: set<Nonce>, issued: map<Nonce, Claims>, now: int) {
    && m.Keys <= used && used <= issued.Keys
    && (forall n :: n in m ==> m[n] == issued[n].exp)
    && (forall n :: n in used && n !in m ==> issued[n].exp < now)
  }

  /** Forgetting is invisible: the bounded map answers every run as a map that never forgets. */
  lemma {:induction false} ForgettingIsInvisible(m: Redeemed, used: set<Nonce>, issued: map<Nonce, Claims>, attempts: seq<Attempt>, now: int)
    requires Ordered(now, attempts) && OneStatePerNonce(issued, attempts) && Remembers(m, used, issued, now)
    ensures Verdicts(m, attempts) == IdealVerdicts(used, attempts)
    decreases |attempts|
  {
    if attempts != [] {
      var a := attempts[0];
      var m' := Verify(m, a.state, a.now).1;
      var used' := IdealVerify(used, a.state, a.now).1;
      if a.state.Signed? { assert issued[a.state.claims.nonce] == a.state.claims; }
      assert Remembers(m', used', issued, a.now);
      assert forall i :: 0 <= i < |attempts[1..]| ==> attempts[1..][i] == attempts[i+1];
      ForgettingIsInvisible(m', used', issued, attempts[1..], a.now);
    }
  }

  lemma {:induction false} IdealLength(used: set<Nonce>, attempts: seq<Attempt>)
    ensures |IdealVerdicts(used, attempts)| == |attempts|
    decreases |attempts|
  {
    if attempts != [] {
      IdealLength(IdealVerify(used, attempts[0].state, attempts[0].now).1, attempts[1..]);
    }
  }

  lemma {:induction false} UsedIsRefused(used: set<Nonce>, attempts: seq<Attempt>, j: nat)
    requires j < |attempts| && attempts[j].state.Signed? && attempts[j].state.claims.nonce in used
    ensures j < |IdealVerdicts(used, attempts)| && !IdealVerdicts(used, attempts)[j].Accepted?
    decreases |attempts|
  {
    IdealLength(used, attempts);
    if j > 0 {
      UsedIsRefused(IdealVerify(used, attempts[0].state, attempts[0].now).1, attempts[1..], j - 1);
    }
  }

  /** Once a state has been presented, in time or not, it is never accepted again. */
  lemma {:induction false} SecondUseIsRefused(used: set<Nonce>, attempts: seq<Attempt>, start: int, i: nat, j: nat)
    requires i < j < |attempts| && attempts[i].state.Signed? && attempts[i].state == attempts[j].state
    requires Ordered(start, attempts)
    ensures |IdealVerdicts(used, attempts)| == |attempts| && !IdealVerdicts(used, attempts)[j].Accepted?
    decreases |attempts|
  {
    IdealLength(used, attempts);
    var used' := IdealVerify(used, attempts[0].state, attempts[0].now).1;
    if i > 0 {
      SecondUseIsRefused(used', attempts[1..], attempts[0].now, i - 1, j - 1);
    } else if attempts[0].state.claims.exp >= attempts[0].now {
      UsedIsRefused(used', attempts[1..], j - 1);
    } else {
      TimesOrdered(start, attempts, 0, j);
      LateIsRefused(used, attempts, j);
    }
  }

  lemma {:induction false} TimesOrdered(start: int, attempts: seq<Attempt>, i: nat, j: nat)
    requires Ordered(start, attempts) && i <= j < |attempts|
    ensures start <= attempts[j].now && attempts[i].now <= attempts[j].now
    decreases |attempts|
  {
    if i > 0 {
      TimesOrdered(attempts[0].now, attempts[1..], i - 1, j - 1);
    } else if j > 0 {
      TimesOrdered(attempts[0].now, attempts[1..], 0, j - 1);
    }
  }

  lemma {:induction false} LateIsRefused(used: set<Nonce>, attempts: seq<Attempt>, j: nat)
    requires j < |attempts| && (attempts[j].state.Signed? ==> attempts[j].state.claims.exp < attempts[j].now)
    ensures j < |IdealVerdicts(used, attempts)| && !IdealVerdicts(used, attempts)[j].Accepted?
    decreases |attempts|
  {
    IdealLength(used, attempts);
    if j > 0 {
      LateIsRefused(IdealVerify(used, attempts[0].state, attempts[0].now).1, attempts[1..], j - 1);
    }
  }

  lemma {:induction false} FirstUseIsAccepted(used: set<Nonce>, attempts: seq<Attempt>, j: nat)
    requires j < |attempts| && attempts[j].state.Signed? && attempts[j].state.claims.exp >= attempts[j].now
    requires attempts[j].state.claims.nonce !in used
    requires forall i :: 0 <= i < j && attempts[i].state.Signed? ==>
               attempts[i].state.claims.nonce != attempts[j].state.claims.nonce
    ensures |IdealVerdicts(used, attempts)| == |attempts|
    ensures IdealVerdicts(used, attempts)[j] == Accepted(attempts[j].state.claims.userId)
    decreases |attempts|
  {
    IdealLength(used, attempts);
    if j > 0 {
      var used' := IdealVerify(used, attempts[0].state, attempts[0].now).1;
      assert forall i :: 0 <= i < |attempts| - 1 ==> attempts[1..][i] == attempts[i+1];
      FirstUseIsAccepted(used', attempts[1..], j - 1);
    }
  }

  /**
   In any run of the service, however much it forgets, an attempt succeeds exactly when it is
   the first presentation of an issued state and the state has not expired.
   */
  lemma AcceptedIffFirstAndInTime(issued: map<Nonce, Claims>, attempts: seq<Attempt>, start: int, j: nat)
    requires Ordered(start, attempts) && OneStatePerNonce(issued, attempts) && j < |attempts|
    ensures var vs := Verdicts(map[], attempts);
            var a := attempts[j];
            && |vs| == |attempts|
            && (vs[j].Accepted? <==>
                  && a.state.Signed? && a.state.claims.exp >= a.now
                  && forall i :: 0 <= i < j ==> attempts[i].state != a.state)
            && (vs[j].Accepted? ==> vs[j].userId == a.state.claims.userId)
  {
    ForgettingIsInvisible(map[], {}, issued, attempts, start);
    IdealLength({}, attempts);
    var a := attempts[j];
    if !a.state.Signed? || a.state.claims.exp < a.now {
      LateIsRefused({}, attempts, j);
    } else if i :| 0 <= i < j && attempts[i].state == a.state {
      SecondUseIsRefused({}, attempts, start, i, j);
    } else {
      forall i | 0 <= i < j && attempts[i].state.Signed?
        ensures attempts[i].state.claims.nonce != a.state.claims.nonce
      {
        assert issued[attempts[i].state.claims.nonce] == attempts[i].state.claims;
        assert attempts[i].state != a.state;
      }
      FirstUseIsAccepted({}, attempts, j);
    }
  }

  /** A state is good for ten minutes: first presented 600 seconds after its issue it is accepted, at 601 it is not. */
  lemma StateLivesTenMinutes(issued: map<Nonce, Claims>, attempts: seq<Attempt>, start: int, j: nat, userId: nat, nonce: Nonce, nowMs: nat)
    requires Ordered(start, attempts) && OneStatePerNonce(issued, attempts) && j < |attempts|
    requires attempts[j].state == Signed(Issue(userId, nonce, nowMs))
    requires forall i :: 0 <= i < j ==> attempts[i].state != attempts[j].state
    ensures |Verdicts(map[], attempts)| == |attempts|
    ensures Verdicts(map[], attempts)[j] == Accepted(userId) <==> attempts[j].now - nowMs / 1000 <= 600
  {
    AcceptedIffFirstAndInTime(issued, attempts, start, j);
  }
}
