/** The in-memory fixed-window rate limiter of lib/rateLimit.js.
    The process-wide `buckets` map is explicit state threaded through every
    call, and `Date.now()` is the parameter `now` (milliseconds). */
module RateLimiter {
  import opened Outcomes
  import opened Js

  /** Request headers by lower-case name. */
  type Headers = map<string, string>

  /** A request as the key derivation sees it; `headers` may be missing. */
  datatype Request = Request(headers: Option<Headers>)

  const DefaultScope := "global"
  const UserAgentPrefixLength: nat := 40
  const DefaultLimit := 30
  const DefaultWindowMs := 60_000

  /** `headers.get(name) || ''`: an absent header reads as the empty string. */
  function Header(h: Headers, name: string): string {
    if name in h then h[name] else ""
  }

  /** The trimmed first comma-separated entry of `x-forwarded-for`. */
  function ForwardedFor(h: Headers): string {
    Trim(BeforeFirst(Header(h, "x-forwarded-for"), ','))
  }

  /** The client address: the first non-empty of the forwarded address,
      `cf-connecting-ip`, `x-real-ip`, or the sentinel `unknown`. */
  function ClientIp(h: Headers): (ip: string)
    ensures ip != ""
    ensures ForwardedFor(h) != "" ==> ip == ForwardedFor(h)
    ensures ForwardedFor(h) == "" && Header(h, "cf-connecting-ip") != "" ==> ip == Header(h, "cf-connecting-ip")
    ensures ForwardedFor(h) == "" && Header(h, "cf-connecting-ip") == "" && Header(h, "x-real-ip") != "" ==>
              ip == Header(h, "x-real-ip")
    ensures ForwardedFor(h) == "" && Header(h, "cf-connecting-ip") == "" && Header(h, "x-real-ip") == "" ==>
              ip == "unknown"
  {
    var forwarded := ForwardedFor(h);
    if forwarded != "" then forwarded
    else if Header(h, "cf-connecting-ip") != "" then Header(h, "cf-connecting-ip")
    else if Header(h, "x-real-ip") != "" then Header(h, "x-real-ip")
    else "unknown"
  }

  /** Without any of the three headers the address is the sentinel `unknown`. */
  lemma NoAddressHeadersGiveUnknown(h: Headers)
    requires "x-forwarded-for" !in h && "cf-connecting-ip" !in h && "x-real-ip" !in h
    ensures ClientIp(h) == "unknown"
  {
    assert Header(h, "x-forwarded-for") == "";
    assert TrimStart("") == "" && TrimEnd("") == "";
  }

  /** Present but empty headers count as missing, and only the first
      forwarded entry is ever read: a forwarded list whose first entry is
      blank gives `unknown` even when a later entry holds an address. */
  lemma BlankFirstForwardedEntryGivesUnknown()
    ensures ClientIp(map["x-forwarded-for" := " ,10.0.0.1", "cf-connecting-ip" := "", "x-real-ip" := ""]) == "unknown"
  {
    var h := map["x-forwarded-for" := " ,10.0.0.1", "cf-connecting-ip" := "", "x-real-ip" := ""];
    assert BeforeFirst(" ,10.0.0.1", ',') == " ";
    assert TrimStart(" ") == "";
    assert ForwardedFor(h) == "";
  }

  function RequestHeaders(req: Request): Headers {
    req.headers.GetOr(map[])
  }

  /** The user-agent fragment of a key: its first 40 characters. */
  function UserAgentPart(h: Headers): (ua: string)
    ensures |ua| <= UserAgentPrefixLength
    ensures ua <= Header(h, "user-agent")
    ensures |Header(h, "user-agent")| <= UserAgentPrefixLength ==> ua == Header(h, "user-agent")
    ensures |Header(h, "user-agent")| > UserAgentPrefixLength ==> |ua| == UserAgentPrefixLength
  {
    Take(Header(h, "user-agent"), UserAgentPrefixLength)
  }

  /** `scope:ip:ua`; the three parts can be cut back out of the key. */
  function JoinKey(scope: string, ip: string, ua: string): (key: string)
    ensures |key| == |scope| + |ip| + |ua| + 2
    ensures key[..|scope|] == scope && key[|scope|] == ':'
    ensures key[|scope| + 1..|scope| + 1 + |ip|] == ip && key[|scope| + 1 + |ip|] == ':'
    ensures key[|scope| + |ip| + 2..] == ua
  {
    var key := scope + ":" + ip + ":" + ua;
    assert key == scope + ":" + (ip + ":" + ua);
    assert key[|scope| + 1..] == ip + ":" + ua;
    key
  }

  /** The limiter key of a request under a scope (`global` by default):
      the scope, the client address and the user-agent fragment, in that
      order and separated by colons. */
  function RequestKey(req: Request, scope: string := DefaultScope): (key: string)
    ensures var h := RequestHeaders(req);
      && |key| == |scope| + |ClientIp(h)| + |UserAgentPart(h)| + 2
      && key[..|scope|] == scope && key[|scope|] == ':'
      && key[|scope| + 1..|scope| + 1 + |ClientIp(h)|] == ClientIp(h)
      && key[|scope| + 1 + |ClientIp(h)|] == ':'
      && key[|scope| + |ClientIp(h)| + 2..] == UserAgentPart(h)
  {
    var h := RequestHeaders(req);
    JoinKey(scope, ClientIp(h), UserAgentPart(h))
  }

  /** The scope a key was derived for: everything before its first `:`. */
  function ScopeOf(key: string): string {
    BeforeFirst(key, ':')
  }

  lemma {:induction false} BeforeFirstOfJoin(a: string, c: char, b: string)
    requires c !in a
    ensures BeforeFirst(a + [c] + b, c) == a
  {
    if a != [] {
      assert (a + [c] + b)[1..] == a[1..] + [c] + b;
      BeforeFirstOfJoin(a[1..], c, b);
    }
  }

  /** A scope without `:` can be read back from every key derived for it. */
  lemma ScopeRoundTrip(req: Request, scope: string)
    requires ':' !in scope
    ensures ScopeOf(RequestKey(req, scope)) == scope
  {
    var h := RequestHeaders(req);
    var key := RequestKey(req, scope);
    var rest := key[|scope| + 1..];
    assert key == scope + [':'] + rest;
    BeforeFirstOfJoin(scope, ':', rest);
  }

  /** Without a scope argument, keys are derived for the scope `global`. */
  lemma DefaultScopeIsGlobal(req: Request)
    ensures ScopeOf(RequestKey(req)) == "global"
  {
    ScopeRoundTrip(req, DefaultScope);
  }

  /** Two different scopes without `:` never produce the same key, whatever the requests. */
  lemma DistinctScopesDistinctKeys(req1: Request, req2: Request, scope1: string, scope2: string)
    requires ':' !in scope1 && ':' !in scope2 && scope1 != scope2
    ensures RequestKey(req1, scope1) != RequestKey(req2, scope2)
  {
    ScopeRoundTrip(req1, scope1);
    ScopeRoundTrip(req2, scope2);
  }

  // ---------------------------------------------------------------- buckets

  datatype Bucket = Bucket(count: int, resetAt: int)

  type Buckets = map<string, Bucket>

  datatype Admission = Admission(allowed: bool, remaining: int, resetAt: int, retryAfterMs: int)

  datatype Checked = Checked(admission: Admission, buckets: Buckets)

  /** The key has no live bucket at `now`: none yet, or its window has ended. */
  predicate Expired(buckets: Buckets, key: string, now: int) {
    key !in buckets || now >= buckets[key].resetAt
  }

  /** One admission check for `key` at time `now`. */
  function RateLimit(buckets: Buckets, key: string, now: int,
                     limit: int := DefaultLimit, windowMs: int := DefaultWindowMs): (r: Checked)
    ensures r.buckets.Keys == buckets.Keys + {key}
    ensures forall k | k in buckets && k != key :: r.buckets[k] == buckets[k]
    ensures Expired(buckets, key, now) ==> r.buckets[key] == Bucket(1, now + windowMs)
    ensures !Expired(buckets, key, now) ==>
              r.buckets[key] == Bucket(buckets[key].count + 1, buckets[key].resetAt)
    ensures r.admission.allowed <==> r.buckets[key].count <= limit
    ensures r.admission.remaining >= 0
    ensures r.admission.remaining == if limit >= r.buckets[key].count then limit - r.buckets[key].count else 0
    ensures r.admission.resetAt == r.buckets[key].resetAt
    ensures r.admission.retryAfterMs == if r.admission.allowed then 0 else r.admission.resetAt - now
    ensures !r.admission.allowed && windowMs > 0 ==> r.admission.retryAfterMs > 0
  {
    var bucket := if Expired(buckets, key, now) then Bucket(0, now + windowMs) else buckets[key];
    var bucket := bucket.(count := bucket.count + 1);
    var allowed := bucket.count <= limit;
    var admission := Admission(
      allowed,
      if limit - bucket.count > 0 then limit - bucket.count else 0,
      bucket.resetAt,
      if allowed then 0 else bucket.resetAt - now);
    Checked(admission, buckets[key := bucket])
  }

  datatype Calls = Calls(admissions: seq<Admission>, buckets: Buckets)

  /** Successive checks of one key at the given times. */
  function RunCalls(buckets: Buckets, key: string, times: seq<int>, limit: int, windowMs: int): (r: Calls)
    ensures |r.admissions| == |times|
    decreases |times|
  {
    if times == [] then Calls([], buckets)
    else
      var first := RateLimit(buckets, key, times[0], limit, windowMs);
      var rest := RunCalls(first.buckets, key, times[1..], limit, windowMs);
      Calls([first.admission] + rest.admissions, rest.buckets)
  }

  /** Inside one live window, the j-th further call sees count `c + j + 1`. */
  lemma {:induction false} RunWithinWindow(buckets: Buckets, key: string, times: seq<int>, limit: int, windowMs: int)
    requires key in buckets
    requires forall j | 0 <= j < |times| :: times[j] < buckets[key].resetAt
    ensures var r := RunCalls(buckets, key, times, limit, windowMs);
      && key in r.buckets
      && r.buckets[key] == Bucket(buckets[key].count + |times|, buckets[key].resetAt)
      && forall j | 0 <= j < |times| ::
           (r.admissions[j].allowed <==> buckets[key].count + j + 1 <= limit)
           && r.admissions[j].resetAt == buckets[key].resetAt
           && (!r.admissions[j].allowed ==> r.admissions[j].retryAfterMs == buckets[key].resetAt - times[j])
  {
    if times != [] {
      var first := RateLimit(buckets, key, times[0], limit, windowMs);
      RunWithinWindow(first.buckets, key, times[1..], limit, windowMs);
      var rest := RunCalls(first.buckets, key, times[1..], limit, windowMs);
      var r := RunCalls(buckets, key, times, limit, windowMs);
      assert r.admissions == [first.admission] + rest.admissions;
      forall j | 0 <= j < |times|
        ensures (r.admissions[j].allowed <==> buckets[key].count + j + 1 <= limit)
                && r.admissions[j].resetAt == buckets[key].resetAt
                && (!r.admissions[j].allowed ==> r.admissions[j].retryAfterMs == buckets[key].resetAt - times[j])
      {
        if j > 0 {
          assert r.admissions[j] == rest.admissions[j - 1];
          assert times[1..][j - 1] == times[j];
        }
      }
    }
  }

  /** `limit + 1` calls of one key inside one window: the first `limit` are
      admitted, the last is refused with a positive retry delay, and a call
      once the window has ended is admitted again. */
  lemma LimitPlusOneCalls(buckets: Buckets, key: string, times: seq<int>, limit: int, windowMs: int)
    requires limit >= 1 && windowMs > 0
    requires |times| == limit + 1
    requires Expired(buckets, key, times[0])
    requires forall j | 0 <= j < |times| :: times[j] < times[0] + windowMs
    ensures var r := RunCalls(buckets, key, times, limit, windowMs);
      && (forall j | 0 <= j < limit :: r.admissions[j].allowed)
      && !r.admissions[limit].allowed
      && r.admissions[limit].retryAfterMs > 0
      && forall later | later >= times[0] + windowMs ::
           RateLimit(r.buckets, key, later, limit, windowMs).admission.allowed
  {
    var first := RateLimit(buckets, key, times[0], limit, windowMs);
    RunWithinWindow(first.buckets, key, times[1..], limit, windowMs);
    var rest := RunCalls(first.buckets, key, times[1..], limit, windowMs);
    var r := RunCalls(buckets, key, times, limit, windowMs);
    assert r.admissions == [first.admission] + rest.admissions;
    assert forall j | 1 <= j <= limit :: r.admissions[j] == rest.admissions[j - 1];
    assert r.admissions[limit] == rest.admissions[limit - 1];
    assert times[1..][limit - 1] == times[limit];
  }

  /** Distinct endpoint scopes never share a budget: a check under one scope
      leaves every later answer under another scope as it was. */
  lemma ScopesDoNotShareBudget(buckets: Buckets, req: Request, scope1: string, scope2: string,
                               now: int, later: int, limit: int, windowMs: int)
    requires ':' !in scope1 && ':' !in scope2 && scope1 != scope2
    ensures var key1 := RequestKey(req, scope1);
      var key2 := RequestKey(req, scope2);
      RateLimit(RateLimit(buckets, key1, now, limit, windowMs).buckets, key2, later, limit, windowMs).admission
        == RateLimit(buckets, key2, later, limit, windowMs).admission
  {
    DistinctScopesDistinctKeys(req, req, scope1, scope2);
  }
}
