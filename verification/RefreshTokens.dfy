/**
 The refresh-token table and the single statements that change it
 (refresh-token.service.ts, refresh-token-cleanup.service.ts), and the two service
 classes run without interference. The interleaved protocol over the same statements
 is in module Rotation.

 A token is identified with its SHA-256 fingerprint, which is assumed injective, so the
 table is keyed by token: the column is unique. Times are milliseconds.
 */
module RefreshTokens {
  import opened Common

  type Token = nat
  type RowId = nat
  type UserId = nat
  type FamilyId = nat

  datatype Row = Row(
    id: RowId,
    userId: UserId,
    familyId: FamilyId,
    expiresAt: int,
    revokedAt: Option<int>,
    replacedById: Option<RowId>)
  {
    predicate Live() { revokedAt.None? }
  }

  type Table = map<Token, Row>

  /** The `where` clause of the spending `updateMany`. */
  predicate Spendable(t: Table, token: Token, now: int) {
    token in t && t[token].Live() && t[token].expiresAt > now
  }

  function Claim(t: Table, token: Token, now: int): Table
    requires token in t
  {
    t[token := t[token].(revokedAt := Some(now))]
  }

  function RevokeFamily(t: Table, f: FamilyId, now: int): Table {
    map k | k in t :: if t[k].familyId == f && t[k].Live() then t[k].(revokedAt := Some(now)) else t[k]
  }

  function NewRow(id: RowId, u: UserId, f: FamilyId, expiresAt: int): Row {
    Row(id, u, f, expiresAt, None, None)
  }

  predicate HasId(t: Table, id: RowId) {
    exists k :: k in t && t[k].id == id
  }

  function Link(t: Table, spentId: RowId, newId: RowId): Table {
    map k | k in t :: if t[k].id == spentId then t[k].(replacedById := Some(newId)) else t[k]
  }

  function Sweep(t: Table, now: int): Table {
    map k | k in t && t[k].expiresAt >= now :: t[k]
  }

  /** `spend`: the record it returns and the table it leaves. */
  function SpendSpec(t: Table, token: Token, now: int): (Option<Row>, Table) {
    if Spendable(t, token, now) then
      (Some(Claim(t, token, now)[token]), Claim(t, token, now))
    else if token in t && !t[token].Live() then
      (None, RevokeFamily(t, t[token].familyId, now))
    else
      (None, t)
  }

  /** `AuthService.refresh` run alone: the token it answers with and the table it leaves. */
  function RefreshSpec(t: Table, active: set<UserId>, ttl: nat, token: Token, now: int,
                       newToken: Token, newId: RowId): (Option<Token>, Table) {
    var (spent, t1) := SpendSpec(t, token, now);
    if spent.None? then
      (None, t1)
    else if spent.value.userId !in active then
      (None, RevokeFamily(t1, spent.value.familyId, now))
    else
      var row := spent.value;
      (Some(newToken), Link(t1[newToken := NewRow(newId, row.userId, row.familyId, now + ttl)], row.id, newId))
  }

  class RefreshTokenService {
    const ttl: nat
    var table: Table

    constructor (ttl: nat)
      ensures this.ttl == ttl && table == map[]
    {
      this.ttl := ttl;
      table := map[];
    }

    method Issue(userId: UserId, familyId: FamilyId, now: int, raw: Token, id: RowId) returns (row: Row)
      requires raw !in table && !HasId(table, id)
      modifies this`table
      ensures row == NewRow(id, userId, familyId, now + ttl)
      ensures table == old(table)[raw := row]
      ensures forall t :: Spendable(table, raw, t) <==> t < now + ttl
      ensures forall k, t :: k != raw ==> (Spendable(table, k, t) <==> Spendable(old(table), k, t))
      ensures DistinctIds(old(table)) ==> DistinctIds(table)
    {
      row := NewRow(id, userId, familyId, now + ttl);
      table := table[raw := row];
    }

    method RevokeWholeFamily(familyId: FamilyId, now: int)
      modifies this`table
      ensures table == RevokeFamily(old(table), familyId, now)
      ensures table.Keys == old(table).Keys
      ensures forall k :: k in table && table[k].familyId == familyId ==> !table[k].Live()
      ensures forall k :: k in table ==> table[k].(revokedAt := None) == old(table)[k].(revokedAt := None)
      ensures forall k :: k in table && (table[k].familyId != familyId || !old(table)[k].Live()) ==> table[k] == old(table)[k]
      ensures forall k :: k in table && table[k].familyId == familyId && old(table)[k].Live() ==> table[k].revokedAt == Some(now)
    {
      table := RevokeFamily(table, familyId, now);
    }

    /** Spends a token at most once; presenting a spent one revokes its whole family. */
    method Spend(token: Token, now: int) returns (spent: Option<Row>)
      modifies this`table
      ensures (spent, table) == SpendSpec(old(table), token, now)
      ensures spent.Some? <==> Spendable(old(table), token, now)
      ensures token in old(table) ==> token in table && !Spendable(table, token, now)
      ensures token in old(table) && !old(table)[token].Live() ==>
                forall k :: k in table && table[k].familyId == old(table)[token].familyId ==> !table[k].Live()
    {
      var count := if Spendable(table, token, now) then 1 else 0;
      if count == 1 {
        table := Claim(table, token, now);
        return Some(table[token]);
      }
      if token in table && table[token].revokedAt.Some? {
        RevokeWholeFamily(table[token].familyId, now);
      }
      spent := None;
    }

    method LinkReplacement(spentId: RowId, replacementId: RowId) returns (found: bool)
      modifies this`table
      ensures found == HasId(old(table), spentId)
      ensures table == Link(old(table), spentId, replacementId)
      ensures table.Keys == old(table).Keys
      ensures forall k :: k in table && old(table)[k].id != spentId ==> table[k] == old(table)[k]
      ensures forall k :: k in table && old(table)[k].id == spentId ==>
                table[k].replacedById == Some(replacementId)
                && table[k].(replacedById := None) == old(table)[k].(replacedById := None)
      ensures forall k, t :: Spendable(table, k, t) <==> Spendable(old(table), k, t)
    {
      found := exists k :: k in table && table[k].id == spentId;
      if !found {
        assert Link(table, spentId, replacementId) == table;
      } else {
        table := Link(table, spentId, replacementId);
      }
    }

    method RevokeFamilyByToken(token: Token, now: int)
      modifies this`table
      ensures table == if token in old(table) then RevokeFamily(old(table), old(table)[token].familyId, now) else old(table)
    {
      if token in table {
        RevokeWholeFamily(table[token].familyId, now);
      }
    }

    /** Housekeeping: deletes exactly the expired rows, revoked or not, and counts them. */
    method SweepExpired(now: int) returns (count: nat)
      modifies this`table
      ensures table == Sweep(old(table), now)
      ensures forall k :: k in table <==> k in old(table) && old(table)[k].expiresAt >= now
      ensures forall k :: k in table ==> table[k] == old(table)[k]
      ensures forall k, t :: t >= now ==> (Spendable(table, k, t) <==> Spendable(old(table), k, t))
      ensures count == |old(table)| - |table|
    {
      var kept := Sweep(table, now);
      assert kept.Keys <= table.Keys;
      SubsetSize(kept.Keys, table.Keys);
      count := |table| - |kept|;
      table := kept;
    }
  }

  class AuthService {
    const tokens: RefreshTokenService
    var active: set<UserId>

    constructor (tokens: RefreshTokenService)
      ensures this.tokens == tokens && active == {}
    {
      this.tokens := tokens;
      active := {};
    }

    /** Credentials have already been checked; an inactive user is refused. */
    method Login(userId: UserId, now: int, family: FamilyId, raw: Token, id: RowId) returns (token: Option<Token>)
      requires raw !in tokens.table && !HasId(tokens.table, id)
      modifies tokens`table
      ensures userId !in active ==> token == None && tokens.table == old(tokens.table)
      ensures userId in active ==> token == Some(raw) && tokens.table == old(tokens.table)[raw := NewRow(id, userId, family, now + tokens.ttl)]
    {
      if userId !in active {
        return None;
      }
      var _ := tokens.Issue(userId, family, now, raw, id);
      token := Some(raw);
    }

    method Refresh(presented: Token, now: int, raw: Token, id: RowId) returns (token: Option<Token>)
      requires raw !in tokens.table && !HasId(tokens.table, id)
      modifies tokens`table
      ensures (token, tokens.table) == RefreshSpec(old(tokens.table), active, tokens.ttl, presented, now, raw, id)
    {
      var spent := tokens.Spend(presented, now);
      if spent.None? {
        return None;
      }
      if spent.value.userId !in active {
        tokens.RevokeWholeFamily(spent.value.familyId, now);
        return None;
      }
      var row := tokens.Issue(spent.value.userId, spent.value.familyId, now, raw, id);
      var _ := tokens.LinkReplacement(spent.value.id, row.id);
      token := Some(raw);
    }

    method Logout(presented: Token, now: int)
      modifies tokens`table
      ensures tokens.table ==
              if presented in old(tokens.table)
              then RevokeFamily(old(tokens.table), old(tokens.table)[presented].familyId, now)
              else old(tokens.table)
    {
      tokens.RevokeFamilyByToken(presented, now);
    }
  }

  predicate DistinctIds(t: Table) {
    forall j, k :: j in t && k in t && t[j].id == t[k].id ==> j == k
  }

  /**
   What a lone refresh promises: it succeeds exactly for a live, unexpired token of an active
   user; success replaces that one row by a linked successor in the same family; and any other
   presentation of a token whose row is revoked, or whose user is inactive, kills the family.
   */
  lemma RefreshOutcome(t: Table, active: set<UserId>, ttl: nat, token: Token, now: int, newToken: Token, newId: RowId)
    requires DistinctIds(t) && newToken !in t && !HasId(t, newId)
    ensures var (answer, t') := RefreshSpec(t, active, ttl, token, now, newToken, newId);
            && (answer.Some? <==> Spendable(t, token, now) && t[token].userId in active)
            && (answer.Some? ==>
                  && answer.value == newToken
                  && t'.Keys == t.Keys + {newToken}
                  && t'[token] == t[token].(revokedAt := Some(now), replacedById := Some(newId))
                  && t'[newToken] == NewRow(newId, t[token].userId, t[token].familyId, now + ttl)
                  && (forall k :: k in t && k != token ==> t'[k] == t[k]))
            && (answer.None? && token in t && (t[token].Live() ==> t[token].expiresAt > now) ==>
                  && t'.Keys == t.Keys
                  && (forall k :: k in t && t[k].familyId == t[token].familyId ==> !t'[k].Live())
                  && (forall k :: k in t && t[k].familyId != t[token].familyId ==> t'[k] == t[k]))
            && (token !in t || (t[token].Live() && t[token].expiresAt <= now) ==> answer.None? && t' == t)
            && DistinctIds(t')
  {
  }
}
