/** The fixed-window rate limiter in front of the API (backend/app/core/middleware.py). */
module RateLimit {

  /** Milliseconds that a counter lives. */
  const WINDOW := 60000

  datatype Caller = User(id: string) | Ip(address: string)

  /** How the counter store behaves for one request: a fault hits the client before or after the script has run. */
  datatype Fault = NoFault | FaultBefore | FaultAfter

  datatype Request = Request(time: int, path: string, caller: Caller, fault: Fault)

  datatype Settings = Settings(apiLimit: nat, authLimit: nat, failOpen: bool, authDisabled: bool)

  datatype Verdict = Admitted | TooMany | Unavailable

  datatype Counter = Counter(count: nat, expires: int)

  type Counters = map<string, Counter>

  function Key(c: Caller): string {
    match c
    case User(id) => "api_rate:" + id
    case Ip(address) => "api_rate_ip:" + address
  }

  function Limit(st: Settings, c: Caller): nat {
    if c.User? then st.apiLimit else st.authLimit
  }

  predicate Limited(st: Settings, r: Request) {
    r.path !in {"/health", "/docs", "/openapi.json"} && "/api" <= r.path && !st.authDisabled
  }

  predicate Live(cs: Counters, key: string, now: int) {
    key in cs && now < cs[key].expires
  }

  /** INCR, and EXPIRE when the counter is new. */
  function Hit(cs: Counters, key: string, now: int): (Counters, nat) {
    var next := if Live(cs, key, now) then cs[key].(count := cs[key].count + 1) else Counter(1, now + WINDOW);
    (cs[key := next], next.count)
  }

  function DispatchStep(st: Settings, cs: Counters, r: Request): (Counters, Verdict) {
    if !Limited(st, r) then (cs, Admitted)
    else
      var (hit, current) := Hit(cs, Key(r.caller), r.time);
      match r.fault
      case NoFault => (hit, if current > Limit(st, r.caller) then TooMany else Admitted)
      case FaultBefore => (cs, if st.failOpen then Admitted else Unavailable)
      case FaultAfter => (hit, if st.failOpen then Admitted else Unavailable)
  }

  class RateLimiter {
    var counters: Counters
    const settings: Settings

    constructor (settings: Settings)
      ensures this.settings == settings && counters == map[]
    {
      this.settings, counters := settings, map[];
    }

    /** The script, run on the store in one step. */
    method Eval(key: string, now: int) returns (current: nat)
      modifies this`counters
      ensures (counters, current) == Hit(old(counters), key, now)
    {
      if key in counters && now < counters[key].expires {
        current := counters[key].count + 1;
        counters := counters[key := Counter(current, counters[key].expires)];
      } else {
        current := 1;
        counters := counters[key := Counter(1, now + WINDOW)];
      }
    }

    method Dispatch(r: Request) returns (v: Verdict)
      modifies this`counters
      ensures (counters, v) == DispatchStep(settings, old(counters), r)
    {
      if !Limited(settings, r) { return Admitted; }
      var key, limit;
      if r.caller.User? {
        key, limit := "api_rate:" + r.caller.id, settings.apiLimit;
      } else {
        key, limit := "api_rate_ip:" + r.caller.address, settings.authLimit;
      }
      if r.fault != FaultBefore {
        var current := Eval(key, r.time);
        if r.fault == NoFault {
          return if current > limit then TooMany else Admitted;
        }
      }
      return if settings.failOpen then Admitted else Unavailable;
    }
  }

  // ---- runs --------------------------------------------------------------------------------

  ghost predicate Ordered(rs: seq<Request>) {
    forall i, j | 0 <= i < j < |rs| :: rs[i].time <= rs[j].time
  }

  function After(st: Settings, cs: Counters, rs: seq<Request>): Counters
    decreases |rs|
  {
    if rs == [] then cs else After(st, DispatchStep(st, cs, rs[0]).0, rs[1..])
  }

  /** A request of this caller that the limiter counts. */
  predicate Counted(st: Settings, r: Request, c: Caller) {
    Limited(st, r) && r.caller == c && r.fault != FaultBefore
  }

  function Hits(st: Settings, rs: seq<Request>, c: Caller): nat {
    if rs == [] then 0 else (if Counted(st, rs[0], c) then 1 else 0) + Hits(st, rs[1..], c)
  }

  /** The number of requests of this caller that were checked and let through with lo <= time < hi. */
  function Admits(st: Settings, cs: Counters, rs: seq<Request>, c: Caller, lo: int, hi: int): nat
    decreases |rs|
  {
    if rs == [] then 0
    else
      var r := rs[0];
      var (next, v) := DispatchStep(st, cs, r);
      (if Counted(st, r, c) && r.fault == NoFault && v == Admitted && lo <= r.time < hi then 1 else 0)
      + Admits(st, next, rs[1..], c, lo, hi)
  }

  function Room(limit: nat, count: nat): nat {
    if count < limit then limit - count else 0
  }

  /** Every caller has a counter of its own. */
  lemma KeysAreDistinct(a: Caller, b: Caller)
    ensures Key(a) == Key(b) ==> a == b
  {
    if Key(a) == Key(b) {
      assert Key(a)[8] == Key(b)[8];
      match (a, b)
      case (User(x), User(y)) => assert Key(a)[9..] == x && Key(b)[9..] == y;
      case (Ip(x), Ip(y)) => assert Key(a)[12..] == x && Key(b)[12..] == y;
      case _ =>
    }
  }

  lemma OthersDoNotTouch(st: Settings, cs: Counters, r: Request, c: Caller)
    requires !Counted(st, r, c)
    ensures var next := DispatchStep(st, cs, r).0;
      (Key(c) in next <==> Key(c) in cs) && (Key(c) in cs ==> next[Key(c)] == cs[Key(c)])
  {
    KeysAreDistinct(r.caller, c);
  }

  lemma OrderedTail(rs: seq<Request>)
    requires rs != [] && Ordered(rs)
    ensures Ordered(rs[1..]) && forall i | 0 <= i < |rs[1..]| :: rs[1..][i].time >= rs[0].time
  {
  }

  // ---- one window --------------------------------------------------------------------------

  ghost predicate AllBefore(rs: seq<Request>, t: int) {
    forall i | 0 <= i < |rs| :: rs[i].time < t
  }

  ghost predicate NoFaults(rs: seq<Request>) {
    forall i | 0 <= i < |rs| :: rs[i].fault == NoFault
  }

  /** While a counter lives, its expiry stays and its count is the number of hits: it lives from its first hit for
      exactly one window.  In that time no more than the room left is admitted, and without faults exactly as many
      requests as there is room for. */
  lemma {:induction false} WindowIsExact(st: Settings, cs: Counters, rs: seq<Request>, c: Caller, lo: int)
    requires Key(c) in cs && AllBefore(rs, cs[Key(c)].expires) && forall i | 0 <= i < |rs| :: lo <= rs[i].time
    ensures var k := cs[Key(c)];
      && Key(c) in After(st, cs, rs)
      && After(st, cs, rs)[Key(c)] == Counter(k.count + Hits(st, rs, c), k.expires)
      && Admits(st, cs, rs, c, lo, k.expires) <= Room(Limit(st, c), k.count)
      && (NoFaults(rs) ==>
            Admits(st, cs, rs, c, lo, k.expires) ==
              if Hits(st, rs, c) <= Room(Limit(st, c), k.count) then Hits(st, rs, c) else Room(Limit(st, c), k.count))
    decreases |rs|
  {
    if rs != [] {
      var next := DispatchStep(st, cs, rs[0]).0;
      if !Counted(st, rs[0], c) { OthersDoNotTouch(st, cs, rs[0], c); }
      assert rs[0].time < cs[Key(c)].expires;
      WindowIsExact(st, next, rs[1..], c, lo);
    }
  }

  // ---- any sixty seconds -------------------------------------------------------------------

  lemma {:induction false} NothingLater(st: Settings, cs: Counters, rs: seq<Request>, c: Caller, lo: int, hi: int)
    requires forall i | 0 <= i < |rs| :: rs[i].time >= hi
    ensures Admits(st, cs, rs, c, lo, hi) == 0
    decreases |rs|
  {
    if rs != [] {
      assert rs[0].time >= hi;
      NothingLater(st, DispatchStep(st, cs, rs[0]).0, rs[1..], c, lo, hi);
    }
  }

  /** How much of [a, a + WINDOW) the store still allows. */
  function Budget(st: Settings, cs: Counters, c: Caller, a: int): nat {
    var limit := Limit(st, c);
    if Key(c) in cs && cs[Key(c)].expires >= a + WINDOW then Room(limit, cs[Key(c)].count)
    else if Key(c) in cs && cs[Key(c)].expires > a then Room(limit, cs[Key(c)].count) + limit
    else if limit == 0 then 0 else 2 * limit - 1
  }

  lemma {:induction false} BudgetHolds(st: Settings, cs: Counters, rs: seq<Request>, c: Caller, a: int)
    requires Ordered(rs)
    ensures Admits(st, cs, rs, c, a, a + WINDOW) <= Budget(st, cs, c, a)
    decreases |rs|
  {
    if rs != [] {
      var r, next := rs[0], DispatchStep(st, cs, rs[0]).0;
      OrderedTail(rs);
      BudgetHolds(st, next, rs[1..], c, a);
      if !Counted(st, r, c) {
        OthersDoNotTouch(st, cs, r, c);
      } else if r.time >= a + WINDOW {
        NothingLater(st, next, rs[1..], c, a, a + WINDOW);
      }
    }
  }

  /** From an empty store, over any run with a monotone clock and under any faults, a caller with limit L gets at most
      2 L - 1 checked requests through in any sixty seconds. */
  lemma SlidingBound(st: Settings, rs: seq<Request>, c: Caller, a: int)
    requires Ordered(rs)
    ensures Admits(st, map[], rs, c, a, a + WINDOW) <= if Limit(st, c) == 0 then 0 else 2 * Limit(st, c) - 1
  {
    BudgetHolds(st, map[], rs, c, a);
  }

  // ---- the bound is reached ----------------------------------------------------------------

  function Repeat(r: Request, n: nat): (rs: seq<Request>)
    ensures |rs| == n && forall i | 0 <= i < n :: rs[i] == r
  {
    seq(n, i => r)
  }

  lemma {:induction false} AdmitsAppend(
      st: Settings, cs: Counters, a: seq<Request>, b: seq<Request>, c: Caller, lo: int, hi: int)
    ensures Admits(st, cs, a + b, c, lo, hi) == Admits(st, cs, a, c, lo, hi) + Admits(st, After(st, cs, a), b, c, lo, hi)
    ensures After(st, cs, a + b) == After(st, After(st, cs, a), b)
    decreases |a|
  {
    if a == [] {
      assert a + b == b;
    } else {
      assert (a + b)[0] == a[0] && (a + b)[1..] == a[1..] + b;
      AdmitsAppend(st, DispatchStep(st, cs, a[0]).0, a[1..], b, c, lo, hi);
    }
  }

  lemma {:induction false} RepeatHits(st: Settings, r: Request, n: nat)
    requires Counted(st, r, r.caller)
    ensures Hits(st, Repeat(r, n), r.caller) == n
  {
    if n > 0 {
      assert Repeat(r, n)[1..] == Repeat(r, n - 1);
      RepeatHits(st, r, n - 1);
    }
  }

  /** A burst inside a live window: as many get through as there is room for. */
  lemma Burst(st: Settings, cs: Counters, r: Request, n: nat, lo: int)
    requires Limited(st, r) && r.fault == NoFault && Live(cs, Key(r.caller), r.time) && lo <= r.time
    ensures var k := cs[Key(r.caller)];
      && Admits(st, cs, Repeat(r, n), r.caller, lo, k.expires)
           == (if n <= Room(Limit(st, r.caller), k.count) then n else Room(Limit(st, r.caller), k.count))
      && Key(r.caller) in After(st, cs, Repeat(r, n))
      && After(st, cs, Repeat(r, n))[Key(r.caller)] == Counter(k.count + n, k.expires)
  {
    RepeatHits(st, r, n);
    WindowIsExact(st, cs, Repeat(r, n), r.caller, lo);
  }

  lemma {:induction false} HigherEndChangesNothing(
      st: Settings, cs: Counters, rs: seq<Request>, c: Caller, lo: int, hi: int, hi': int)
    requires hi <= hi' && AllBefore(rs, hi)
    ensures Admits(st, cs, rs, c, lo, hi) == Admits(st, cs, rs, c, lo, hi')
    decreases |rs|
  {
    if rs != [] {
      assert rs[0].time < hi;
      HigherEndChangesNothing(st, DispatchStep(st, cs, rs[0]).0, rs[1..], c, lo, hi, hi');
    }
  }

  /** One request, then a burst at the end of its window and another at the start of the next. */
  function TwoBursts(limit: nat, c: Caller): seq<Request>
    requires limit > 0
  {
    [Request(0, "/api", c, NoFault)] + Repeat(Request(WINDOW - 1, "/api", c, NoFault), limit - 1)
    + Repeat(Request(WINDOW, "/api", c, NoFault), limit)
  }

  /** A burst that opens a window: the whole limit gets through. */
  lemma OpeningBurst(st: Settings, cs: Counters, r: Request, lo: int)
    requires Limited(st, r) && r.fault == NoFault && !Live(cs, Key(r.caller), r.time) && lo <= r.time
    requires Limit(st, r.caller) > 0
    ensures Admits(st, cs, Repeat(r, Limit(st, r.caller)), r.caller, lo, r.time + 1) == Limit(st, r.caller)
  {
    var rs := Repeat(r, Limit(st, r.caller));
    var next := DispatchStep(st, cs, r).0;
    assert rs[0] == r && rs[1..] == Repeat(r, |rs| - 1);
    Burst(st, next, r, |rs| - 1, lo);
    HigherEndChangesNothing(st, next, rs[1..], r.caller, lo, r.time + 1, r.time + WINDOW);
  }

  /** The first request is too early to count; the burst behind it gets all but one of the limit through. */
  lemma OneThenBurst(st: Settings, first: Request, late: Request, n: nat)
    requires Limited(st, first) && first.time == 0 && first.fault == NoFault
    requires late == first.(time := WINDOW - 1) && n + 1 == Limit(st, first.caller)
    ensures var rs := [first] + Repeat(late, n);
      Admits(st, map[], rs, first.caller, 1, 1 + WINDOW) == n && !Live(After(st, map[], rs), Key(first.caller), WINDOW)
  {
    var a, b, c := [first], Repeat(late, n), first.caller;
    var s1 := DispatchStep(st, map[], first).0;
    assert a[1..] == [] && After(st, map[], a) == s1;
    AdmitsAppend(st, map[], a, b, c, 1, 1 + WINDOW);
    Burst(st, s1, late, n, 1);
    HigherEndChangesNothing(st, s1, b, c, 1, WINDOW, 1 + WINDOW);
  }

  /** For every positive limit L some run gets 2 L - 1 requests through in sixty seconds. */
  lemma SlidingBoundIsReached(st: Settings, c: Caller)
    requires !st.authDisabled && Limit(st, c) > 0
    ensures Ordered(TwoBursts(Limit(st, c), c))
    ensures Admits(st, map[], TwoBursts(Limit(st, c), c), c, 1, 1 + WINDOW) == 2 * Limit(st, c) - 1
  {
    var limit := Limit(st, c);
    var first, late := Request(0, "/api", c, NoFault), Request(WINDOW - 1, "/api", c, NoFault);
    var next := Request(WINDOW, "/api", c, NoFault);
    var a, b, d := [first], Repeat(late, limit - 1), Repeat(next, limit);
    OneThenBurst(st, first, late, limit - 1);
    AdmitsAppend(st, map[], a + b, d, c, 1, 1 + WINDOW);
    OpeningBurst(st, After(st, map[], a + b), next, 1);
  }
}
