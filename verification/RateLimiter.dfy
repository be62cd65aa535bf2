/**
 The gateway's fixed-window rate limiter (services/gateway/src/rate-limit.ts).
 Times and the window are milliseconds.
 */
module RateLimiter {
  import opened Common
  import Strings

  datatype Rule = Rule(id: string, max: nat)

  datatype Decision = Decision(allowed: bool, limit: nat, remaining: nat, retryAfterSeconds: int)

  datatype Counter = Counter(windowStart: int, count: nat)

  /** `/^\/api\/accounts\/[^/]+\/(preview|sync)$/` and `/^\/api\/accounts\/[^/]+\/messages\/[^/]+\/raw$/` */
  predicate IsAccountAction(path: string) {
    var parts := Strings.Split(path, '/');
    |parts| == 5 && parts[0] == "" && parts[1] == "api" && parts[2] == "accounts" && parts[3] != ""
    && (parts[4] == "preview" || parts[4] == "sync")
  }

  predicate IsRawMessage(path: string) {
    var parts := Strings.Split(path, '/');
    |parts| == 7 && parts[0] == "" && parts[1] == "api" && parts[2] == "accounts" && parts[3] != ""
    && parts[4] == "messages" && parts[5] != "" && parts[6] == "raw"
  }

  function RuleFor(verb: string, path: string): (r: Rule)
    ensures r.max >= 1 && '|' !in r.id
  {
    if verb == "POST" && path == "/api/auth/login" then Rule("auth-login", 5)
    else if verb == "POST" && path == "/api/auth/register" then Rule("auth-register", 5)
    else if verb == "POST" && path == "/api/auth/refresh" then Rule("auth-refresh", 20)
    else if verb == "POST" && IsAccountAction(path) then Rule("account-actions", 10)
    else if verb == "GET" && IsRawMessage(path) then Rule("message-raw", 20)
    else Rule("default", 100)
  }

  /** The limit is a function of the rule's id, so one counter is always held to one limit. */
  lemma RuleIdDeterminesRule(m1: string, p1: string, m2: string, p2: string)
    ensures RuleFor(m1, p1).id == RuleFor(m2, p2).id ==> RuleFor(m1, p1) == RuleFor(m2, p2)
  {
  }

  /** `[^/]+` */
  predicate Segment(s: string) {
    s != "" && '/' !in s
  }

  function ActionPath(account: string, action: string): string {
    "/api/accounts/" + account + "/" + action
  }

  function RawPath(account: string, message: string): string {
    "/api/accounts/" + account + "/messages/" + message + "/raw"
  }

  function ActionParts(account: string, action: string): seq<string> {
    ["", "api", "accounts", account, action]
  }

  function RawParts(account: string, message: string): seq<string> {
    ["", "api", "accounts", account, "messages", message, "raw"]
  }

  lemma JoinCons(part: string, rest: seq<string>)
    requires rest != []
    ensures Strings.Join([part] + rest, '/') == part + "/" + Strings.Join(rest, '/')
  {
    assert ([part] + rest)[1..] == rest;
  }

  /** A path under an account. */
  lemma UnderAccount(account: string, rest: seq<string>)
    requires rest != []
    ensures Strings.Join(["", "api", "accounts", account] + rest, '/') == "/api/accounts/" + account + "/" + Strings.Join(rest, '/')
  {
    JoinCons(account, rest);
    JoinCons("accounts", [account] + rest);
    JoinCons("api", ["accounts"] + ([account] + rest));
    JoinCons("", ["api"] + (["accounts"] + ([account] + rest)));
    assert ["", "api", "accounts", account] + rest == [""] + (["api"] + (["accounts"] + ([account] + rest)));
    GlueAccount(account + "/" + Strings.Join(rest, '/'));
    assert "/api/accounts/" + (account + "/" + Strings.Join(rest, '/')) == "/api/accounts/" + account + "/" + Strings.Join(rest, '/');
  }

  lemma GlueAccount(tail: string)
    ensures "" + "/" + ("api" + "/" + ("accounts" + "/" + tail)) == "/api/accounts/" + tail
  {
  }

  lemma ActionPathJoins(account: string, action: string)
    ensures ActionPath(account, action) == Strings.Join(ActionParts(account, action), '/')
  {
    UnderAccount(account, [action]);
    assert ["", "api", "accounts", account] + [action] == ActionParts(account, action);
  }

  lemma RawPathJoins(account: string, message: string)
    ensures RawPath(account, message) == Strings.Join(RawParts(account, message), '/')
  {
    UnderAccount(account, ["messages", message, "raw"]);
    assert ["", "api", "accounts", account] + ["messages", message, "raw"] == RawParts(account, message);
    JoinCons(message, ["raw"]);
    JoinCons("messages", [message] + ["raw"]);
    assert ["messages", message, "raw"] == ["messages"] + ([message] + ["raw"]);
    assert "/api/accounts/" + account + "/" + ("messages" + "/" + (message + "/" + "raw")) == RawPath(account, message);
  }

  ghost predicate IsActionPath(path: string) {
    exists account :: Segment(account) && (path == ActionPath(account, "preview") || path == ActionPath(account, "sync"))
  }

  ghost predicate IsRawPath(path: string) {
    exists account, message :: Segment(account) && Segment(message) && path == RawPath(account, message)
  }

  lemma ActionPathSplits(account: string, action: string)
    requires Segment(account) && Segment(action)
    ensures Strings.Split(ActionPath(account, action), '/') == ActionParts(account, action)
  {
    ActionPathJoins(account, action);
    Strings.SplitUndoesJoin(ActionParts(account, action), '/');
  }

  lemma RawPathSplits(account: string, message: string)
    requires Segment(account) && Segment(message)
    ensures Strings.Split(RawPath(account, message), '/') == RawParts(account, message)
  {
    RawPathJoins(account, message);
    Strings.SplitUndoesJoin(RawParts(account, message), '/');
  }

  /** The path pattern of the account actions, read as concatenation. */
  lemma AccountActionPaths(path: string)
    ensures IsAccountAction(path) <==> IsActionPath(path)
  {
    var parts := Strings.Split(path, '/');
    if IsAccountAction(path) {
      assert parts == ActionParts(parts[3], parts[4]);
      Strings.JoinUndoesSplit(path, '/');
      ActionPathJoins(parts[3], parts[4]);
    }
    forall account, action | Segment(account) && (action == "preview" || action == "sync") && path == ActionPath(account, action)
      ensures IsAccountAction(path)
    {
      ActionPathSplits(account, action);
    }
  }

  /** The path pattern of the raw messages. */
  lemma RawMessagePaths(path: string)
    ensures IsRawMessage(path) <==> IsRawPath(path)
  {
    var parts := Strings.Split(path, '/');
    if IsRawMessage(path) {
      assert parts == RawParts(parts[3], parts[5]);
      Strings.JoinUndoesSplit(path, '/');
      RawPathJoins(parts[3], parts[5]);
    }
    forall account, message | Segment(account) && Segment(message) && path == RawPath(account, message)
      ensures IsRawMessage(path)
    {
      RawPathSplits(account, message);
    }
  }

  /** The authentication paths are shorter than an account action. */
  lemma AuthPathIsNoAction(name: string)
    requires '/' !in name
    ensures !IsAccountAction("/api/auth/" + name)
  {
    var parts := ["", "api", "auth", name];
    JoinCons("auth", [name]);
    JoinCons("api", ["auth"] + [name]);
    JoinCons("", ["api"] + (["auth"] + [name]));
    assert parts == [""] + (["api"] + (["auth"] + [name]));
    assert "" + "/" + ("api" + "/" + ("auth" + "/" + name)) == "/api/auth/" + name;
    Strings.SplitUndoesJoin(parts, '/');
  }

  lemma AuthPathsAreNoActions()
    ensures !IsAccountAction("/api/auth/login") && !IsAccountAction("/api/auth/register") && !IsAccountAction("/api/auth/refresh")
  {
    AuthPathIsNoAction("login");
    AuthPathIsNoAction("register");
    AuthPathIsNoAction("refresh");
    assert "/api/auth/" + "login" == "/api/auth/login";
    assert "/api/auth/" + "register" == "/api/auth/register";
    assert "/api/auth/" + "refresh" == "/api/auth/refresh";
  }

  /** Each limit, and all the requests it holds for. */
  lemma LimitsByPath(verb: string, path: string)
    ensures RuleFor(verb, path).max == 5 <==> verb == "POST" && (path == "/api/auth/login" || path == "/api/auth/register")
    ensures RuleFor(verb, path).max == 10 <==> verb == "POST" && IsActionPath(path)
    ensures RuleFor(verb, path).max == 20 <==> (verb == "POST" && path == "/api/auth/refresh") || (verb == "GET" && IsRawPath(path))
    ensures RuleFor(verb, path).max in {5, 10, 20, 100}
  {
    AccountActionPaths(path);
    RawMessagePaths(path);
    AuthPathsAreNoActions();
  }

  /**
   Requests of a client share a counter within a limit, except that each path of limit 5 has
   its own, and so have the two verbs of limit 20.
   */
  lemma OneBucketPerRule(m1: string, p1: string, m2: string, p2: string)
    ensures RuleFor(m1, p1).id == RuleFor(m2, p2).id <==>
            && RuleFor(m1, p1).max == RuleFor(m2, p2).max
            && (RuleFor(m1, p1).max == 5 ==> p1 == p2)
            && (RuleFor(m1, p1).max == 20 ==> m1 == m2)
  {
    IdByLimit(m1, p1);
    IdByLimit(m2, p2);
  }

  function IdFor(max: nat, verb: string, path: string): string {
    match max
    case 5 => if path == "/api/auth/login" then "auth-login" else "auth-register"
    case 10 => "account-actions"
    case 20 => if verb == "POST" then "auth-refresh" else "message-raw"
    case _ => "default"
  }

  lemma IdByLimit(verb: string, path: string)
    ensures var rule := RuleFor(verb, path);
            && rule.max in {5, 10, 20, 100} && rule.id == IdFor(rule.max, verb, path)
            && (rule.max == 5 ==> path == "/api/auth/login" || path == "/api/auth/register")
            && (rule.max == 20 ==> verb == "POST" || verb == "GET")
  {
  }

  function Key(client: string, ruleId: string): string {
    client + "|" + ruleId
  }

  /** No client string, however odd, shares a counter with another client or rule. */
  lemma {:induction false} KeyInjective(c1: string, r1: string, c2: string, r2: string)
    requires '|' !in r1 && '|' !in r2 && Key(c1, r1) == Key(c2, r2)
    ensures c1 == c2 && r1 == r2
  {
    var k := Key(c1, r1);
    assert k[|c1|] == '|' && k[|c1| + 1..] == r1 && k[..|c1|] == c1;
    assert Key(c2, r2)[|c2|] == '|' && k[|c2| + 1..] == r2 && k[..|c2|] == c2;
    assert |c1| == |c2|;
  }

  // ---------------------------------------------------------------- one counter

  predicate Expired(c: Counter, windowMs: int, now: int) {
    now - c.windowStart >= windowMs
  }

  /** `Math.ceil(ms / 1000)` for a positive number of milliseconds. */
  function CeilSeconds(ms: int): int {
    (ms + 999) / 1000
  }

  /** One check against one counter. */
  function CheckCounter(c: Option<Counter>, max: nat, windowMs: int, now: int): (Counter, Decision)
    requires max >= 1
  {
    if c.None? || Expired(c.value, windowMs, now) then
      (Counter(now, 1), Decision(true, max, max - 1, 0))
    else
      var count := c.value.count + 1;
      var allowed := count <= max;
      (Counter(c.value.windowStart, count),
       Decision(allowed, max,
                if max - count > 0 then max - count else 0,
                if allowed then 0 else CeilSeconds(windowMs - (now - c.value.windowStart))))
  }

  class Limiter {
    const windowMs: int
    var counters: map<string, Counter>

    constructor (windowMs: int := 60_000)
      ensures this.windowMs == windowMs && counters == map[]
    {
      this.windowMs := windowMs;
      counters := map[];
    }

    method Check(client: string, verb: string, path: string, now: int) returns (d: Decision)
      modifies this`counters
      ensures counters == CheckMap(old(counters), windowMs, client, verb, path, now).0
      ensures d == CheckMap(old(counters), windowMs, client, verb, path, now).1
    {
      var rule := RuleFor(verb, path);
      var key := Key(client, rule.id);
      if key !in counters || now - counters[key].windowStart >= windowMs {
        counters := counters[key := Counter(now, 1)];
        return Decision(true, rule.max, rule.max - 1, 0);
      }
      var counter := counters[key].(count := counters[key].count + 1);
      counters := counters[key := counter];
      var allowed := counter.count <= rule.max;
      var elapsed := now - counter.windowStart;
      d := Decision(allowed, rule.max,
                    if rule.max - counter.count > 0 then rule.max - counter.count else 0,
                    if allowed then 0 else CeilSeconds(windowMs - elapsed));
    }

    method Prune(now: int)
      modifies this`counters
      ensures counters == PruneMap(old(counters), windowMs, now)
      ensures forall k :: k in counters <==> k in old(counters) && now < old(counters)[k].windowStart + windowMs
      ensures forall k :: k in counters ==> counters[k] == old(counters)[k]
    {
      ghost var before := counters;
      var todo := counters.Keys;
      while todo != {}
        invariant todo <= before.Keys
        invariant counters == map k | k in before && (k in todo || !Expired(before[k], windowMs, now)) :: before[k]
        decreases |todo|
      {
        var key :| key in todo;
        if now - counters[key].windowStart >= windowMs {
          counters := counters - {key};
        }
        todo := todo - {key};
      }
    }
  }

  type Counters = map<string, Counter>

  function CheckMap(m: Counters, windowMs: int, client: string, verb: string, path: string, now: int): (Counters, Decision) {
    var rule := RuleFor(verb, path);
    var key := Key(client, rule.id);
    var (c, d) := CheckCounter(if key in m then Some(m[key]) else None, rule.max, windowMs, now);
    (m[key := c], d)
  }

  function PruneMap(m: Counters, windowMs: int, now: int): Counters {
    map k | k in m && !Expired(m[k], windowMs, now) :: m[k]
  }

  // ---------------------------------------------------------------- runs

  /** What happens to a limiter. */
  datatype Event =
    | Request(client: string, verb: string, path: string, now: int)
    | PruneAt(now: int)

  predicate Ordered(now: int, es: seq<Event>)
    decreases |es|
  {
    es == [] || (now <= es[0].now && Ordered(es[0].now, es[1..]))
  }

  /** Is the event a request of this client under this rule? */
  predicate Concerns(e: Event, client: string, rule: Rule) {
    e.Request? && e.client == client && RuleFor(e.verb, e.path) == rule
  }

  /** The decisions a limiter makes on one client's requests under one rule, in a run of anything. */
  function DecisionsFor(m: Counters, windowMs: int, es: seq<Event>, client: string, rule: Rule): seq<Decision>
    decreases |es|
  {
    if es == [] then []
    else match es[0]
      case PruneAt(now) => DecisionsFor(PruneMap(m, windowMs, now), windowMs, es[1..], client, rule)
      case Request(c, me, p, now) =>
        var (m', d) := CheckMap(m, windowMs, c, me, p, now);
        var rest := DecisionsFor(m', windowMs, es[1..], client, rule);
        if Concerns(es[0], client, rule) then [d] + rest else rest
  }

  function TimesFor(es: seq<Event>, client: string, rule: Rule): seq<int> {
    if es == [] then []
    else if Concerns(es[0], client, rule) then [es[0].now] + TimesFor(es[1..], client, rule)
    else TimesFor(es[1..], client, rule)
  }

  /** The decisions of a lone counter, never pruned. */
  function Decisions(c: Option<Counter>, max: nat, windowMs: int, times: seq<int>): seq<Decision>
    requires max >= 1
    decreases |times|
  {
    if times == [] then []
    else
      var (c', d) := CheckCounter(c, max, windowMs, times[0]);
      [d] + Decisions(Some(c'), max, windowMs, times[1..])
  }

  /** The map's entry stands for the lone counter: they agree, or both would open a new window. */
  predicate StandsFor(m: Counters, key: string, c: Option<Counter>, windowMs: int, now: int) {
    if key in m then c == Some(m[key]) else c.None? || Expired(c.value, windowMs, now)
  }

  /**
   Pruning is invisible and keys do not interfere: in any run with a clock that does not go
   back, the decisions for a client and rule are those of a lone counter on its own requests.
   */
  lemma {:induction false} LimiterRefinesCounter(m: Counters, c: Option<Counter>, windowMs: int, es: seq<Event>,
                                                 client: string, verb: string, path: string, now: int)
    requires var rule := RuleFor(verb, path);
             Ordered(now, es) && StandsFor(m, Key(client, rule.id), c, windowMs, now)
    ensures var rule := RuleFor(verb, path);
            DecisionsFor(m, windowMs, es, client, rule) == Decisions(c, rule.max, windowMs, TimesFor(es, client, rule))
    decreases |es|
  {
    var rule := RuleFor(verb, path);
    var key := Key(client, rule.id);
    if es == [] {
    } else {
      var e := es[0];
      match e
      case PruneAt(t) =>
        LimiterRefinesCounter(PruneMap(m, windowMs, t), c, windowMs, es[1..], client, verb, path, t);
      case Request(cl, me, p, t) =>
        var m' := CheckMap(m, windowMs, cl, me, p, t).0;
        if Concerns(e, client, rule) {
          var c' := CheckCounter(c, rule.max, windowMs, t).0;
          LimiterRefinesCounter(m', Some(c'), windowMs, es[1..], client, verb, path, t);
        } else {
          if Key(cl, RuleFor(me, p).id) == key {
            KeyInjective(cl, RuleFor(me, p).id, client, rule.id);
            RuleIdDeterminesRule(me, p, verb, path);
            assert false;
          }
          LimiterRefinesCounter(m', c, windowMs, es[1..], client, verb, path, t);
        }
    }
  }

  /** Two histories with the same requests of a client under a rule give it the same decisions. */
  lemma PruningAndOthersAreInvisible(windowMs: int, es: seq<Event>, es': seq<Event>, client: string, verb: string, path: string, start: int)
    requires Ordered(start, es) && Ordered(start, es')
    requires var rule := RuleFor(verb, path); TimesFor(es, client, rule) == TimesFor(es', client, rule)
    ensures var rule := RuleFor(verb, path);
            DecisionsFor(map[], windowMs, es, client, rule) == DecisionsFor(map[], windowMs, es', client, rule)
  {
    LimiterRefinesCounter(map[], None, windowMs, es, client, verb, path, start);
    LimiterRefinesCounter(map[], None, windowMs, es', client, verb, path, start);
  }

  // ---------------------------------------------------------------- how much gets through

  predicate NonDecreasing(times: seq<int>) {
    forall i, j :: 0 <= i <= j < |times| ==> times[i] <= times[j]
  }

  /** How many of the requests in [a, b) were allowed. */
  function AllowedIn(ds: seq<Decision>, times: seq<int>, a: int, b: int): nat
    requires |ds| == |times|
  {
    if ds == [] then 0
    else (if ds[0].allowed && a <= times[0] < b then 1 else 0) + AllowedIn(ds[1..], times[1..], a, b)
  }

  lemma {:induction false} DecisionsLength(c: Option<Counter>, max: nat, windowMs: int, times: seq<int>)
    requires max >= 1
    ensures |Decisions(c, max, windowMs, times)| == |times|
    decreases |times|
  {
    if times != [] {
      DecisionsLength(Some(CheckCounter(c, max, windowMs, times[0]).0), max, windowMs, times[1..]);
    }
  }

  /** How many windows can open in [y, b), one window length apart. */
  function Opens(y: int, b: int, windowMs: int): nat
    requires windowMs > 0
    decreases b - y
  {
    if y >= b then 0 else 1 + Opens(y + windowMs, b, windowMs)
  }

  lemma {:induction false} OpensMonotone(y: int, z: int, b: int, windowMs: int)
    requires windowMs > 0 && y <= z
    ensures Opens(z, b, windowMs) <= Opens(y, b, windowMs)
    decreases b - y
  {
    if z < b {
      OpensMonotone(y + windowMs, z + windowMs, b, windowMs);
    }
  }

  lemma {:induction false} OpensOfWindows(y: int, k: nat, windowMs: int)
    requires windowMs > 0
    ensures Opens(y, y + k * windowMs, windowMs) == k
    decreases k
  {
    if k > 0 {
      assert y + k * windowMs == (y + windowMs) + (k - 1) * windowMs;
      OpensOfWindows(y + windowMs, k - 1, windowMs);
    }
  }

  function Max(x: int, y: int): int { if x >= y then x else y }

  lemma TimesMonotone(max: nat, m: nat, n: nat)
    requires m <= n
    ensures max * m <= max * n
  {
  }

  lemma {:induction false} NoneAfter(ds: seq<Decision>, times: seq<int>, a: int, b: int)
    requires |ds| == |times| && forall i :: 0 <= i < |times| ==> times[i] >= b
    ensures AllowedIn(ds, times, a, b) == 0
    decreases |ds|
  {
    if ds != [] { NoneAfter(ds[1..], times[1..], a, b); }
  }

  /** What an open window and the windows after it still let through before `b`. */
  lemma {:induction false} AllowedFromWindow(c: Counter, max: nat, windowMs: int, times: seq<int>, x: int, a: int, b: int)
    requires max >= 1 && windowMs > 0 && c.count >= 1 && NonDecreasing(times)
    requires times != [] ==> x <= times[0]
    ensures |Decisions(Some(c), max, windowMs, times)| == |times|
    ensures AllowedIn(Decisions(Some(c), max, windowMs, times), times, a, b)
            <= Max(max - c.count, 0) + max * Opens(Max(x, c.windowStart + windowMs), b, windowMs)
    decreases |times|
  {
    DecisionsLength(Some(c), max, windowMs, times);
    if times == [] {
    } else if times[0] >= b {
      NoneAfter(Decisions(Some(c), max, windowMs, times), times, a, b);
    } else {
      var t := times[0];
      var c' := CheckCounter(Some(c), max, windowMs, t).0;
      var y := Max(x, c.windowStart + windowMs);
      AllowedFromWindow(c', max, windowMs, times[1..], t, a, b);
      var y' := Max(t, c'.windowStart + windowMs);
      if Expired(c, windowMs, t) {
        assert Opens(t, b, windowMs) == 1 + Opens(y', b, windowMs);
        OpensMonotone(y, t, b, windowMs);
        TimesMonotone(max, Opens(t, b, windowMs), Opens(y, b, windowMs));
        assert max * Opens(t, b, windowMs) == max + max * Opens(y', b, windowMs);
      } else {
        OpensMonotone(y, y', b, windowMs);
        TimesMonotone(max, Opens(y', b, windowMs), Opens(y, b, windowMs));
      }
    }
  }

  /** Windows opened before `a` have spent their first request outside [a, b). */
  lemma {:induction false} AllowedFromBefore(c: Option<Counter>, max: nat, windowMs: int, times: seq<int>, a: int, k: nat)
    requires max >= 1 && windowMs > 0 && k >= 1 && NonDecreasing(times)
    requires c.Some? ==> c.value.count >= 1 && c.value.windowStart < a
    ensures |Decisions(c, max, windowMs, times)| == |times|
    ensures AllowedIn(Decisions(c, max, windowMs, times), times, a, a + k * windowMs) <= (k + 1) * max - 1
    decreases |times|
  {
    DecisionsLength(c, max, windowMs, times);
    var b := a + k * windowMs;
    OpensOfWindows(a, k, windowMs);
    assert (k + 1) * max == max * k + max;
    TimesMonotone(max, 1, k);
    if times == [] {
    } else if times[0] < a {
      var c' := CheckCounter(c, max, windowMs, times[0]).0;
      AllowedFromBefore(Some(c'), max, windowMs, times[1..], a, k);
    } else if c.Some? {
      AllowedFromWindow(c.value, max, windowMs, times, a, a, b);
      var y := Max(a, c.value.windowStart + windowMs);
      OpensMonotone(a, y, b, windowMs);
      TimesMonotone(max, Opens(y, b, windowMs), k);
    } else {
      var t := times[0];
      AllowedFromWindow(Counter(t, 1), max, windowMs, times[1..], t, a, b);
      OpensMonotone(a, t, b, windowMs);
      if t < b {
        assert Opens(t, b, windowMs) == 1 + Opens(t + windowMs, b, windowMs);
        TimesMonotone(max, 1 + Opens(t + windowMs, b, windowMs), k);
        assert max * (1 + Opens(t + windowMs, b, windowMs)) == max + max * Opens(t + windowMs, b, windowMs);
      } else {
        NoneAfter(Decisions(c, max, windowMs, times), times, a, b);
      }
    }
  }

  lemma {:induction false} TimesForOrdered(now: int, es: seq<Event>, client: string, rule: Rule)
    requires Ordered(now, es)
    ensures NonDecreasing(TimesFor(es, client, rule))
    ensures forall i :: 0 <= i < |TimesFor(es, client, rule)| ==> now <= TimesFor(es, client, rule)[i]
    decreases |es|
  {
    if es != [] {
      TimesForOrdered(es[0].now, es[1..], client, rule);
    }
  }

  /**
   The limit that is really enforced: whatever else the gateway serves and whenever it prunes,
   k consecutive window lengths admit at most (k + 1) * max - 1 requests of one client under
   one rule, so any one window length admits at most 2 * max - 1.
   */
  lemma AtMostAlmostDouble(windowMs: int, es: seq<Event>, client: string, verb: string, path: string, start: int, a: int, k: nat)
    requires windowMs > 0 && k >= 1 && Ordered(start, es)
    ensures var rule := RuleFor(verb, path);
            var ds, times := DecisionsFor(map[], windowMs, es, client, rule), TimesFor(es, client, rule);
            |ds| == |times| && AllowedIn(ds, times, a, a + k * windowMs) <= (k + 1) * rule.max - 1
  {
    var rule := RuleFor(verb, path);
    LimiterRefinesCounter(map[], None, windowMs, es, client, verb, path, start);
    TimesForOrdered(start, es, client, rule);
    AllowedFromBefore(None, rule.max, windowMs, TimesFor(es, client, rule), a, k);
  }

  /** In numbers: what one client gets through in any minute, however it times its requests. */
  lemma AMinuteAdmitsAtMost(es: seq<Event>, client: string, verb: string, path: string, start: int, a: int)
    requires Ordered(start, es)
    ensures var rule := RuleFor(verb, path);
            var ds, times := DecisionsFor(map[], 60_000, es, client, rule), TimesFor(es, client, rule);
            && |ds| == |times|
            && var n := AllowedIn(ds, times, a, a + 60_000);
               && n <= 199
               && (verb == "POST" && (path == "/api/auth/login" || path == "/api/auth/register") ==> n <= 9)
               && (verb == "POST" && path == "/api/auth/refresh" ==> n <= 39)
               && (verb == "POST" && IsActionPath(path) ==> n <= 19)
               && (verb == "GET" && IsRawPath(path) ==> n <= 39)
  {
    AtMostAlmostDouble(60_000, es, client, verb, path, start, a, 1);
    LimitsByPath(verb, path);
  }

  // ---------------------------------------------------------------- the bound is attained

  lemma {:induction false} BurstIsAllowed(c: Counter, max: nat, windowMs: int, t: int, n: nat, rest: seq<int>, a: int, b: int)
    requires max >= 1 && !Expired(c, windowMs, t) && c.count + n <= max && a <= t < b
    ensures var times := seq(n, _ => t) + rest;
            var c' := c.(count := c.count + n);
            |Decisions(Some(c), max, windowMs, times)| == |times| && |Decisions(Some(c'), max, windowMs, rest)| == |rest|
            && AllowedIn(Decisions(Some(c), max, windowMs, times), times, a, b)
               == n + AllowedIn(Decisions(Some(c'), max, windowMs, rest), rest, a, b)
    decreases n
  {
    var times := seq(n, _ => t) + rest;
    DecisionsLength(Some(c), max, windowMs, times);
    DecisionsLength(Some(c.(count := c.count + n)), max, windowMs, rest);
    if n == 0 {
      assert times == rest;
    } else {
      assert times[1..] == seq(n - 1, _ => t) + rest;
      BurstIsAllowed(c.(count := c.count + 1), max, windowMs, t, n - 1, rest, a, b);
    }
  }

  /** A full burst of `max` at the start of each of k windows, the first at `t`. */
  function Bursts(max: nat, windowMs: int, t: int, k: nat): seq<int>
    decreases k
  {
    if k == 0 then [] else seq(max, _ => t) + Bursts(max, windowMs, t + windowMs, k - 1)
  }

  lemma BurstsUnfold(max: nat, windowMs: int, t: int, k: nat)
    requires max >= 1 && k >= 1
    ensures var times := Bursts(max, windowMs, t, k);
            |times| >= 1 && times[0] == t && times[1..] == seq(max - 1, _ => t) + Bursts(max, windowMs, t + windowMs, k - 1)
  {
  }

  lemma {:induction false} BurstsAreAllowed(c: Counter, max: nat, windowMs: int, t: int, k: nat, a: int, b: int)
    requires max >= 1 && windowMs > 0 && Expired(c, windowMs, t) && a <= t && t + (k - 1) * windowMs < b
    ensures var times := Bursts(max, windowMs, t, k);
            |Decisions(Some(c), max, windowMs, times)| == |times|
            && AllowedIn(Decisions(Some(c), max, windowMs, times), times, a, b) == k * max
    decreases k
  {
    DecisionsLength(Some(c), max, windowMs, Bursts(max, windowMs, t, k));
    if k > 0 {
      BurstsUnfold(max, windowMs, t, k);
      assert t < b by { assert 0 <= (k - 1) * windowMs; }
      BurstIsAllowed(Counter(t, 1), max, windowMs, t, max - 1, Bursts(max, windowMs, t + windowMs, k - 1), a, b);
      RemainingBursts(max, windowMs, t, k, a, b);
      assert k * max == max + (k - 1) * max;
    }
  }

  lemma RemainingBursts(max: nat, windowMs: int, t: int, k: nat, a: int, b: int)
    requires max >= 1 && windowMs > 0 && k >= 1 && a <= t && t + (k - 1) * windowMs < b
    ensures var rest := Bursts(max, windowMs, t + windowMs, k - 1);
            |Decisions(Some(Counter(t, max)), max, windowMs, rest)| == |rest|
            && AllowedIn(Decisions(Some(Counter(t, max)), max, windowMs, rest), rest, a, b) == (k - 1) * max
    decreases k, 0
  {
    if k > 1 {
      assert t + windowMs + (k - 2) * windowMs == t + (k - 1) * windowMs;
      BurstsAreAllowed(Counter(t, max), max, windowMs, t + windowMs, k - 1, a, b);
    }
  }

  /** One request early, the rest of that window at its end, then full bursts. */
  function WorstCase(max: nat, windowMs: int, k: nat): seq<int>
    requires max >= 1
  {
    [0] + (seq(max - 1, _ => windowMs - 1) + Bursts(max, windowMs, windowMs, k))
  }

  lemma BoundIsAttained(max: nat, windowMs: int, k: nat)
    requires max >= 1 && windowMs >= 2 && k >= 1
    ensures var times := WorstCase(max, windowMs, k);
            var a := windowMs - 1;
            |Decisions(None, max, windowMs, times)| == |times|
            && AllowedIn(Decisions(None, max, windowMs, times), times, a, a + k * windowMs) == (k + 1) * max - 1
  {
    var times := WorstCase(max, windowMs, k);
    var a := windowMs - 1;
    var b := a + k * windowMs;
    DecisionsLength(None, max, windowMs, times);
    var rest := Bursts(max, windowMs, windowMs, k);
    assert times[1..] == seq(max - 1, _ => a) + rest;
    assert a < b by { assert windowMs <= k * windowMs; }
    assert windowMs + (k - 1) * windowMs == k * windowMs;
    BurstIsAllowed(Counter(0, 1), max, windowMs, a, max - 1, rest, a, b);
    BurstsAreAllowed(Counter(0, max), max, windowMs, windowMs, k, a, b);
    assert (k + 1) * max == k * max + max;
  }

  /** Inside a window the first `max` requests pass and every later one is denied, with an honest count of what remains. */
  lemma {:induction false} ExactlyTheLimit(c: Counter, max: nat, windowMs: int, times: seq<int>, i: nat)
    requires max >= 1 && i < |times|
    requires forall j :: 0 <= j <= i ==> c.windowStart <= times[j] < c.windowStart + windowMs
    ensures |Decisions(Some(c), max, windowMs, times)| == |times|
    ensures var d := Decisions(Some(c), max, windowMs, times)[i];
            && (d.allowed <==> c.count + i + 1 <= max)
            && d.limit == max && d.remaining == Max(max - (c.count + i + 1), 0)
            && (d.retryAfterSeconds > 0 <==> !d.allowed) && (d.allowed ==> d.retryAfterSeconds == 0)
    decreases i
  {
    DecisionsLength(Some(c), max, windowMs, times);
    if i > 0 {
      ExactlyTheLimit(c.(count := c.count + 1), max, windowMs, times[1..], i - 1);
    }
  }

  /** A request that finds no window open opens one, and is the first of its `max`. */
  lemma FirstOfItsWindow(c: Option<Counter>, max: nat, windowMs: int, times: seq<int>, i: nat)
    requires max >= 1 && i < |times| && (c.Some? ==> Expired(c.value, windowMs, times[0]))
    requires forall j :: 0 <= j <= i ==> times[0] <= times[j] < times[0] + windowMs
    ensures |Decisions(c, max, windowMs, times)| == |times|
    ensures var d := Decisions(c, max, windowMs, times)[i];
            && (d.allowed <==> i < max) && d.limit == max && d.remaining == Max(max - 1 - i, 0)
            && (d.allowed <==> d.retryAfterSeconds == 0)
  {
    DecisionsLength(c, max, windowMs, times);
    if i > 0 {
      ExactlyTheLimit(Counter(times[0], 1), max, windowMs, times[1..], i - 1);
    }
  }

  // ---------------------------------------------------------------- retry-after

  lemma {:induction false} DeniedUntilWindowEnds(c: Counter, max: nat, windowMs: int, mid: seq<int>, t: int)
    requires max >= 1 && c.count >= max
    requires forall i :: 0 <= i < |mid| ==> mid[i] < c.windowStart + windowMs
    ensures var ds := Decisions(Some(c), max, windowMs, mid + [t]);
            && |ds| == |mid| + 1
            && (forall i :: 0 <= i < |mid| ==> !ds[i].allowed)
            && (ds[|mid|].allowed <==> t >= c.windowStart + windowMs)
    decreases |mid|
  {
    DecisionsLength(Some(c), max, windowMs, mid + [t]);
    if mid == [] {
      assert (mid + [t])[0] == t;
    } else {
      assert (mid + [t])[0] == mid[0] && (mid + [t])[1..] == mid[1..] + [t];
      DeniedUntilWindowEnds(c.(count := c.count + 1), max, windowMs, mid[1..], t);
    }
  }

  /**
   The advertised wait is exact to the second. After a denial, whatever requests follow while
   the window lasts are denied too, up to `retryAfterSeconds - 1` seconds later; the first
   request that comes `retryAfterSeconds` later or more is allowed.
   */
  lemma RetryAfterIsExact(c: Counter, max: nat, windowMs: int, now: int, mid: seq<int>, t: int)
    requires max >= 1 && c.windowStart <= now
    requires !CheckCounter(Some(c), max, windowMs, now).1.allowed
    requires forall i :: 0 <= i < |mid| ==> mid[i] < c.windowStart + windowMs
    ensures var (c', d) := CheckCounter(Some(c), max, windowMs, now);
            var ds := Decisions(Some(c'), max, windowMs, mid + [t]);
            && d.retryAfterSeconds >= 1
            && |ds| == |mid| + 1
            && (forall i :: 0 <= i < |mid| ==> !ds[i].allowed)
            && (t <= now + (d.retryAfterSeconds - 1) * 1000 ==> !ds[|mid|].allowed)
            && (t >= now + d.retryAfterSeconds * 1000 ==> ds[|mid|].allowed)
  {
    var (c', d) := CheckCounter(Some(c), max, windowMs, now);
    DeniedUntilWindowEnds(c', max, windowMs, mid, t);
  }
}
