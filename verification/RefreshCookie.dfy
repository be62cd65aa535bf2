/**
 Reading the refresh token out of a Cookie header (refresh-cookie.ts). A user agent
 serialises the header as section 4.2.1 of RFC 6265 says: `name=value` pairs joined by "; ".
 */
module RefreshCookie {
  import opened Common
  import opened Strings

  const REFRESH_COOKIE := "refresh_token"

  /** The white space `String.prototype.trim` removes that can be told apart here. */
  predicate IsSpace(c: char) {
    c == ' ' || c == '\t' || c == '\n' || c == '\r' || c as int == 11 || c as int == 12 || c as int == 0xa0
    || c as int == 0x1680 || 0x2000 <= c as int <= 0x200a || c as int == 0x2028 || c as int == 0x2029
    || c as int == 0x202f || c as int == 0x205f || c as int == 0x3000 || c as int == 0xfeff
  }

  function TrimStart(s: string): string {
    if s != [] && IsSpace(s[0]) then TrimStart(s[1..]) else s
  }

  function TrimEnd(s: string): string {
    if s != [] && IsSpace(s[|s| - 1]) then TrimEnd(s[..|s| - 1]) else s
  }

  function Trim(s: string): string {
    TrimEnd(TrimStart(s))
  }

  /** The first part that names the cookie decides, even when its value is empty. */
  function FromParts(parts: seq<string>): Option<string> {
    if parts == [] then None
    else
      var fields := Split(Trim(parts[0]), '=');
      if fields[0] == REFRESH_COOKIE then
        var value := Join(fields[1..], '=');
        if value == "" then None else Some(value)
      else FromParts(parts[1..])
  }

  /** `undefined` and the empty header are alike. */
  method ReadRefreshCookie(header: Option<string>) returns (token: Option<string>)
    ensures token == if header.None? || header.value == "" then None else FromParts(Split(header.value, ';'))
  {
    if header.None? || header.value == "" {
      return None;
    }
    var parts := Split(header.value, ';');
    var i := 0;
    assert parts[0..] == parts;
    while i < |parts|
      invariant 0 <= i <= |parts|
      invariant FromParts(parts) == FromParts(parts[i..])
    {
      assert parts[i..][1..] == parts[i+1..];
      var fields := Split(Trim(parts[i]), '=');
      if fields[0] == REFRESH_COOKIE {
        var value := Join(fields[1..], '=');
        return if value == "" then None else Some(value);
      }
      i := i + 1;
    }
    token := None;
  }

  // ---------------------------------------------------------------- headers a browser sends

  datatype Cookie = Cookie(name: string, value: string)

  /** A cookie-name is a token and a cookie-value has neither white space nor semicolons. */
  predicate WellFormed(c: Cookie) {
    && c.name != ""
    && (forall i :: 0 <= i < |c.name| ==> !IsSpace(c.name[i]) && c.name[i] != ';' && c.name[i] != '=')
    && (forall i :: 0 <= i < |c.value| ==> !IsSpace(c.value[i]) && c.value[i] != ';')
  }

  function Pair(c: Cookie): string {
    c.name + "=" + c.value
  }

  /** Section 4.2.1 of RFC 6265: pairs separated by a semicolon and a space. */
  function Header(cookies: seq<Cookie>): string {
    if cookies == [] then ""
    else if |cookies| == 1 then Pair(cookies[0])
    else Pair(cookies[0]) + ";" + " " + Header(cookies[1..])
  }

  /** The answer read off the cookies themselves. */
  function FirstRefresh(cookies: seq<Cookie>): Option<string> {
    if cookies == [] then None
    else if cookies[0].name == REFRESH_COOKIE then
      if cookies[0].value == "" then None else Some(cookies[0].value)
    else FirstRefresh(cookies[1..])
  }

  lemma TrimKeeps(s: string)
    requires s != [] && !IsSpace(s[0]) && !IsSpace(s[|s| - 1])
    ensures Trim(s) == s && Trim(" " + s) == s
  {
    assert (" " + s)[1..] == s;
    assert TrimStart(s) == s;
  }

  lemma ReadPair(c: Cookie)
    requires WellFormed(c)
    ensures Trim(Pair(c)) == Pair(c) && Trim(" " + Pair(c)) == Pair(c)
    ensures Split(Pair(c), '=')[0] == c.name
    ensures Join(Split(Pair(c), '=')[1..], '=') == c.value
  {
    var p := Pair(c);
    assert p[0] == c.name[0];
    assert p[|p| - 1] == if c.value == "" then '=' else c.value[|c.value| - 1];
    TrimKeeps(p);
    assert p == c.name + ['='] + c.value;
    SplitPeels(c.name, c.value, '=');
    assert ([c.name] + Split(c.value, '='))[1..] == Split(c.value, '=');
    JoinUndoesSplit(c.value, '=');
  }

  /** The parts of a header: the pairs, all but the first behind a space. */
  function Parts(cookies: seq<Cookie>, lead: string): seq<string> {
    if cookies == [] then [] else [lead + Pair(cookies[0])] + Parts(cookies[1..], " ")
  }

  lemma {:induction false} HeaderParts(cookies: seq<Cookie>, lead: string)
    requires cookies != [] && ';' !in lead && forall i :: 0 <= i < |cookies| ==> WellFormed(cookies[i])
    ensures Split(lead + Header(cookies), ';') == Parts(cookies, lead)
    decreases |cookies|
  {
    var p := lead + Pair(cookies[0]);
    assert WellFormed(cookies[0]);
    assert ';' !in p;
    if |cookies| == 1 {
      SplitWhole(p, ';');
      assert Parts(cookies[1..], " ") == [];
    } else {
      assert lead + Header(cookies) == p + [';'] + (" " + Header(cookies[1..]));
      SplitPeels(p, " " + Header(cookies[1..]), ';');
      HeaderParts(cookies[1..], " ");
    }
  }

  lemma PartReads(c: Cookie, lead: string, rest: seq<string>)
    requires WellFormed(c) && (lead == "" || lead == " ")
    ensures FromParts([lead + Pair(c)] + rest)
            == if c.name != REFRESH_COOKIE then FromParts(rest)
               else if c.value == "" then None else Some(c.value)
  {
    ReadPair(c);
    assert "" + Pair(c) == Pair(c);
    assert ([lead + Pair(c)] + rest)[1..] == rest;
    assert Trim(lead + Pair(c)) == Pair(c);
  }

  lemma {:induction false} PartsRead(cookies: seq<Cookie>, lead: string)
    requires lead == "" || lead == " "
    requires forall i :: 0 <= i < |cookies| ==> WellFormed(cookies[i])
    ensures FromParts(Parts(cookies, lead)) == FirstRefresh(cookies)
    decreases |cookies|
  {
    if cookies != [] {
      PartReads(cookies[0], lead, Parts(cookies[1..], " "));
      PartsRead(cookies[1..], " ");
    }
  }

  /** From any header a browser sends, the first refresh token comes back whole, `=` signs included. */
  lemma ReadsFirstRefreshToken(cookies: seq<Cookie>)
    requires cookies != [] && forall i :: 0 <= i < |cookies| ==> WellFormed(cookies[i])
    ensures Header(cookies) != ""
    ensures FromParts(Split(Header(cookies), ';')) == FirstRefresh(cookies)
  {
    HeaderParts(cookies, "");
    assert "" + Header(cookies) == Header(cookies);
    PartsRead(cookies, "");
  }

  // ---------------------------------------------------------------- padding

  predicate AllSpace(s: string) {
    forall i :: 0 <= i < |s| ==> IsSpace(s[i])
  }

  /** A pair with white space around it. */
  datatype Padded = Padded(lead: string, cookie: Cookie, trail: string)

  predicate PaddedWell(p: Padded) {
    AllSpace(p.lead) && AllSpace(p.trail) && WellFormed(p.cookie)
  }

  function Text(p: Padded): string {
    p.lead + Pair(p.cookie) + p.trail
  }

  function Texts(ps: seq<Padded>): seq<string> {
    if ps == [] then [] else [Text(ps[0])] + Texts(ps[1..])
  }

  function Cookies(ps: seq<Padded>): seq<Cookie> {
    if ps == [] then [] else [ps[0].cookie] + Cookies(ps[1..])
  }

  lemma {:induction false} TrimStartDrops(a: string, s: string)
    requires AllSpace(a) && s != [] && !IsSpace(s[0])
    ensures TrimStart(a + s) == s
    decreases |a|
  {
    if a == [] {
      assert a + s == s;
    } else {
      assert (a + s)[1..] == a[1..] + s;
      TrimStartDrops(a[1..], s);
    }
  }

  lemma {:induction false} TrimEndDrops(s: string, b: string)
    requires AllSpace(b) && s != [] && !IsSpace(s[|s| - 1])
    ensures TrimEnd(s + b) == s
    decreases |b|
  {
    if b == [] {
      assert s + b == s;
    } else {
      assert (s + b)[..|s + b| - 1] == s + b[..|b| - 1];
      TrimEndDrops(s, b[..|b| - 1]);
    }
  }

  lemma TrimFindsThePair(p: Padded)
    requires PaddedWell(p)
    ensures Trim(Text(p)) == Pair(p.cookie) && ';' !in Text(p)
  {
    var c, pair := p.cookie, Pair(p.cookie);
    assert pair[0] == c.name[0];
    assert pair[|pair| - 1] == if c.value == "" then '=' else c.value[|c.value| - 1];
    assert Text(p) == p.lead + (pair + p.trail);
    TrimStartDrops(p.lead, pair + p.trail);
    TrimEndDrops(pair, p.trail);
    assert ';' !in p.lead && ';' !in p.trail;
  }

  lemma {:induction false} PaddedPartsRead(ps: seq<Padded>)
    requires forall p :: p in ps ==> PaddedWell(p)
    ensures FromParts(Texts(ps)) == FirstRefresh(Cookies(ps))
    ensures |Texts(ps)| == |ps| && forall i :: 0 <= i < |ps| ==> ';' !in Texts(ps)[i]
    decreases |ps|
  {
    if ps != [] {
      TrimFindsThePair(ps[0]);
      ReadPair(ps[0].cookie);
      PaddedPartsRead(ps[1..]);
      assert Texts(ps)[1..] == Texts(ps[1..]) && Cookies(ps)[1..] == Cookies(ps[1..]);
    }
  }

  /** Any white space around the pairs is forgiven: the first refresh token still comes back whole. */
  lemma ReadsThroughPadding(ps: seq<Padded>)
    requires ps != [] && forall p :: p in ps ==> PaddedWell(p)
    ensures FromParts(Split(Join(Texts(ps), ';'), ';')) == FirstRefresh(Cookies(ps))
  {
    PaddedPartsRead(ps);
    SplitUndoesJoin(Texts(ps), ';');
  }
}
