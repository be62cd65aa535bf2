/**
 Storage keys (object-storage.service.ts). A provider's message id may contain anything,
 slashes included; an account id is a UUID.
 */
module ObjectKeys {
  /** A message as the database and the store identify it. */
  datatype MessageId = MessageId(account: string, providerId: string)

  /** `getUTCFullYear()` and `getUTCMonth() + 1` of the sending time. */
  datatype Month = Month(year: int, month: int) {
    predicate Valid() { 1 <= month <= 12 }
  }

  function Digit(d: int): char
    requires 0 <= d < 10
  {
    '0' + d as char
  }

  function Decimal(n: nat): (s: string)
    ensures s != [] && forall i :: 0 <= i < |s| ==> '0' <= s[i] <= '9'
  {
    if n < 10 then [Digit(n)] else Decimal(n / 10) + [Digit(n % 10)]
  }

  function YearText(y: int): string {
    if y < 0 then "-" + Decimal(-y) else Decimal(y)
  }

  /** `String(month).padStart(2, '0')` */
  function MonthText(m: int): string
    requires 1 <= m <= 12
  {
    if m < 10 then "0" + Decimal(m) else Decimal(m)
  }

  function DatedPath(id: MessageId, at: Month): string
    requires at.Valid()
  {
    id.account + "/" + (YearText(at.year) + "/" + (MonthText(at.month) + "/" + id.providerId))
  }

  function RawKey(id: MessageId, at: Month): string
    requires at.Valid()
  {
    "raw/" + DatedPath(id, at) + ".eml"
  }

  function BodyKey(id: MessageId, at: Month): string
    requires at.Valid()
  {
    "text/" + DatedPath(id, at) + ".txt"
  }

  // ---------------------------------------------------------------- injectivity

  function Value(s: string): int
    requires forall i :: 0 <= i < |s| ==> '0' <= s[i] <= '9'
  {
    if s == [] then 0 else Value(s[..|s| - 1]) * 10 + (s[|s| - 1] as int - '0' as int)
  }

  lemma {:induction false} DecimalValue(n: nat)
    ensures Value(Decimal(n)) == n
  {
    if n < 10 {
      assert Value([]) == 0;
    } else {
      DecimalValue(n / 10);
      assert Decimal(n)[..|Decimal(n)| - 1] == Decimal(n / 10);
    }
  }

  lemma YearTextInjective(y: int, z: int)
    requires YearText(y) == YearText(z)
    ensures y == z
  {
    assert Decimal(if y < 0 then -y else y)[0] != '-' && Decimal(if z < 0 then -z else z)[0] != '-';
    if y < 0 {
      assert YearText(y)[1..] == Decimal(-y) && YearText(z)[1..] == Decimal(-z);
      DecimalValue(-y);
      DecimalValue(-z);
    } else {
      DecimalValue(y);
      DecimalValue(z);
    }
  }

  lemma MonthTextValue(m: int)
    requires 1 <= m <= 12
    ensures m < 10 ==> MonthText(m)[0] == '0' && MonthText(m)[1..] == Decimal(m)
    ensures m >= 10 ==> MonthText(m)[0] == '1' && MonthText(m) == Decimal(m)
    ensures |MonthText(m)| == 2
  {
    if m >= 10 {
      assert Decimal(m / 10) == [Digit(1)];
    }
  }

  lemma MonthTextInjective(m: int, n: int)
    requires 1 <= m <= 12 && 1 <= n <= 12 && MonthText(m) == MonthText(n)
    ensures m == n
  {
    MonthTextValue(m);
    MonthTextValue(n);
    DecimalValue(m);
    DecimalValue(n);
  }

  /** What stands before the first slash is determined. */
  lemma UptoSlash(a: string, x: string, b: string, y: string)
    requires '/' !in a && '/' !in b && a + "/" + x == b + "/" + y
    ensures a == b && x == y
  {
    var s := a + "/" + x;
    assert s == b + "/" + y;
    assert s[|a|] == '/' && s[|b|] == '/' && s[..|a|] == a && s[..|b|] == b;
    assert |a| == |b| by {
      assert forall i :: 0 <= i < |a| ==> s[i] == a[i];
      assert forall i :: 0 <= i < |b| ==> s[i] == b[i];
    }
    assert x == s[|a| + 1..] && y == s[|b| + 1..];
  }

  lemma NoSlashInNumbers(at: Month)
    requires at.Valid()
    ensures '/' !in YearText(at.year) && '/' !in MonthText(at.month)
  {
  }

  lemma DatedPathInjective(i: MessageId, at: Month, j: MessageId, bt: Month)
    requires at.Valid() && bt.Valid() && '/' !in i.account && '/' !in j.account
    requires DatedPath(i, at) == DatedPath(j, bt)
    ensures i == j && at == bt
  {
    NoSlashInNumbers(at);
    NoSlashInNumbers(bt);
    var im, jm := MonthText(at.month) + "/" + i.providerId, MonthText(bt.month) + "/" + j.providerId;
    UptoSlash(i.account, YearText(at.year) + "/" + im, j.account, YearText(bt.year) + "/" + jm);
    UptoSlash(YearText(at.year), im, YearText(bt.year), jm);
    UptoSlash(MonthText(at.month), i.providerId, MonthText(bt.month), j.providerId);
    YearTextInjective(at.year, bt.year);
    MonthTextInjective(at.month, bt.month);
  }

  lemma Unwrap(p: string, x: string, y: string, e: string)
    requires p + x + e == p + y + e
    ensures x == y
  {
    assert x == (p + x + e)[|p|..|p| + |x|];
    assert y == (p + y + e)[|p|..|p| + |y|];
  }

  /**
   Two objects share a key only if they are the same kind of object of the same message in the
   same month, whatever characters the provider's ids contain.
   */
  lemma KeysAreInjective(i: MessageId, at: Month, j: MessageId, bt: Month)
    requires at.Valid() && bt.Valid() && '/' !in i.account && '/' !in j.account
    ensures RawKey(i, at) == RawKey(j, bt) <==> i == j && at == bt
    ensures BodyKey(i, at) == BodyKey(j, bt) <==> i == j && at == bt
    ensures RawKey(i, at) != BodyKey(j, bt)
  {
    if RawKey(i, at) == RawKey(j, bt) {
      Unwrap("raw/", DatedPath(i, at), DatedPath(j, bt), ".eml");
      DatedPathInjective(i, at, j, bt);
    }
    if BodyKey(i, at) == BodyKey(j, bt) {
      Unwrap("text/", DatedPath(i, at), DatedPath(j, bt), ".txt");
      DatedPathInjective(i, at, j, bt);
    }
    assert RawKey(i, at)[0] == 'r' && BodyKey(j, bt)[0] == 't';
  }

  /** The objects of an account, and of nobody else, share a prefix. */
  lemma PrefixIsTheAccount(id: MessageId, at: Month, account: string)
    requires at.Valid() && '/' !in id.account && '/' !in account
    ensures var prefix := "raw/" + account + "/";
            |prefix| <= |RawKey(id, at)| && RawKey(id, at)[..|prefix|] == prefix <==> id.account == account
  {
    var key, prefix := RawKey(id, at), "raw/" + account + "/";
    assert key[4..4 + |id.account|] == id.account && key[4 + |id.account|] == '/';
    if |prefix| <= |key| && key[..|prefix|] == prefix {
      assert key[4..4 + |account|] == prefix[4..4 + |account|] == account && key[4 + |account|] == '/';
    }
  }
}
