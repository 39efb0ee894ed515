/** What the rate limiter answers, from the requests and the settings alone (backend/app/core/middleware.py). */
module RateVerdicts {
  import opened Prelude
  import opened RateLimit

  // ---- the requests, independently of the counters -----------------------------------------------

  /** The limiter looks at this request. */
  predicate IsLimited(st: Settings, r: Request) {
    && r.path != "/health" && r.path != "/docs" && r.path != "/openapi.json"
    && "/api" <= r.path && !st.authDisabled
  }

  /** ... and counts it for this caller. */
  predicate CountsFor(st: Settings, r: Request, c: Caller) {
    IsLimited(st, r) && r.caller == c && r.fault != FaultBefore
  }

  /** The request that opened the caller's last window: the first that counts, and then each that comes sixty seconds or
      more after the one that opened the window before. */
  function OpenedBy(st: Settings, rs: seq<Request>, c: Caller): (r: Option<nat>)
    ensures r.Some? ==> r.value < |rs|
  {
    if rs == [] then None
    else
      var n := |rs| - 1;
      var before := OpenedBy(st, rs[..n], c);
      if !CountsFor(st, rs[n], c) then before
      else if before.Some? && rs[n].time < rs[before.value].time + 60000 then before
      else Some(n)
  }

  /** The requests that count for the caller from request k on. */
  function CountedSince(st: Settings, rs: seq<Request>, c: Caller, k: nat): set<nat> {
    set j: nat | k <= j < |rs| && CountsFor(st, rs[j], c)
  }

  /** The number of counted requests in the last window. */
  function InWindow(st: Settings, rs: seq<Request>, c: Caller): nat {
    match OpenedBy(st, rs, c)
    case None => 0
    case Some(k) => |CountedSince(st, rs, c, k)|
  }

  function LimitOf(st: Settings, c: Caller): nat {
    match c
    case User(_) => st.apiLimit
    case Ip(_) => st.authLimit
  }

  /** The verdict on request i of a run from an empty store. */
  function VerdictAt(st: Settings, rs: seq<Request>, i: nat): Verdict
    requires i < |rs|
  {
    DispatchStep(st, After(st, map[], rs[..i]), rs[i]).1
  }

  // ---- the counters follow the requests ------------------------------------------------------------

  lemma {:induction false} AfterLast(st: Settings, rs: seq<Request>, n: nat)
    requires n < |rs|
    ensures After(st, map[], rs[..n + 1]) == DispatchStep(st, After(st, map[], rs[..n]), rs[n]).0
  {
    var last := [rs[n]];
    assert rs[..n + 1] == rs[..n] + last && last[1..] == [];
    AdmitsAppend(st, map[], rs[..n], last, rs[n].caller, 0, 0);
  }

  lemma {:induction false} CountedLast(st: Settings, rs: seq<Request>, c: Caller, k: nat)
    requires rs != [] && k <= |rs| - 1
    ensures var n := |rs| - 1;
      |CountedSince(st, rs, c, k)| == |CountedSince(st, rs[..n], c, k)| + if CountsFor(st, rs[n], c) then 1 else 0
  {
    var n := |rs| - 1;
    assert CountedSince(st, rs, c, k) == CountedSince(st, rs[..n], c, k) + if CountsFor(st, rs[n], c) then {n} else {};
  }

  /** A caller has a counter exactly if a request of the caller was counted; it holds the number of requests counted since
      the window opened, and expires sixty seconds after that. */
  ghost predicate CounterFits(st: Settings, cs: Counters, rs: seq<Request>, c: Caller) {
    match OpenedBy(st, rs, c)
    case None => Key(c) !in cs
    case Some(k) => Key(c) in cs && cs[Key(c)] == Counter(InWindow(st, rs, c), rs[k].time + 60000)
  }

  lemma {:induction false} CounterFitsStep(st: Settings, cs: Counters, rs: seq<Request>, c: Caller)
    requires rs != [] && CounterFits(st, cs, rs[..|rs| - 1], c)
    ensures CounterFits(st, DispatchStep(st, cs, rs[|rs| - 1]).0, rs, c)
  {
    var n := |rs| - 1;
    var before := OpenedBy(st, rs[..n], c);
    if CountsFor(st, rs[n], c) {
      if before.Some? { CountedLast(st, rs, c, before.value); }
      assert CountedSince(st, rs, c, n) == {n};
    } else {
      OthersDoNotTouch(st, cs, rs[n], c);
      if before.Some? { CountedLast(st, rs, c, before.value); }
    }
  }

  lemma {:induction false} CountersFit(st: Settings, rs: seq<Request>, n: nat, c: Caller)
    requires n <= |rs|
    ensures CounterFits(st, After(st, map[], rs[..n]), rs[..n], c)
  {
    if n == 0 {
      assert rs[..0] == [];
    } else {
      CountersFit(st, rs, n - 1, c);
      AfterLast(st, rs, n - 1);
      assert rs[..n][..n - 1] == rs[..n - 1];
      CounterFitsStep(st, After(st, map[], rs[..n - 1]), rs[..n], c);
    }
  }

  // ---- the verdicts ------------------------------------------------------------------------------

  /** A request is turned down exactly if it is limited, meets no fault, and its caller has made more counted requests since
      the window opened than the settings allow a user or an address.  It fails exactly if it is limited and meets a fault,
      and faults are not forgiven.  Every other request is admitted, and one that is not limited leaves no trace. */
  lemma {:induction false} VerdictIff(st: Settings, rs: seq<Request>, i: nat)
    requires i < |rs|
    ensures VerdictAt(st, rs, i).TooMany? <==>
      && IsLimited(st, rs[i]) && rs[i].fault.NoFault?
      && InWindow(st, rs[..i + 1], rs[i].caller) > LimitOf(st, rs[i].caller)
    ensures VerdictAt(st, rs, i).Unavailable? <==> IsLimited(st, rs[i]) && !rs[i].fault.NoFault? && !st.failOpen
    ensures !IsLimited(st, rs[i]) ==> After(st, map[], rs[..i + 1]) == After(st, map[], rs[..i])
  {
    AfterLast(st, rs, i);
    CountersFit(st, rs, i + 1, rs[i].caller);
    if IsLimited(st, rs[i]) && rs[i].fault.NoFault? {
      assert rs[..i + 1][i] == rs[i] && rs[..i + 1][..i] == rs[..i];
      assert CountsFor(st, rs[i], rs[i].caller);
    }
  }

  /** A limited request of the caller in these sixty seconds, checked and let through. */
  predicate LetThrough(st: Settings, rs: seq<Request>, i: nat, c: Caller, a: int)
    requires i < |rs|
  {
    && IsLimited(st, rs[i]) && rs[i].caller == c && rs[i].fault.NoFault?
    && a <= rs[i].time < a + 60000 && VerdictAt(st, rs, i).Admitted?
  }

  /** How many of the first n requests are. */
  function AdmittedOf(st: Settings, rs: seq<Request>, n: nat, c: Caller, a: int): nat
    requires n <= |rs|
  {
    if n == 0 then 0 else AdmittedOf(st, rs, n - 1, c, a) + if LetThrough(st, rs, n - 1, c, a) then 1 else 0
  }

  lemma {:induction false} AdmitsLast(st: Settings, rs: seq<Request>, n: nat, c: Caller, a: int)
    requires n < |rs|
    ensures Admits(st, map[], rs[..n + 1], c, a, a + 60000)
      == Admits(st, map[], rs[..n], c, a, a + 60000) + if LetThrough(st, rs, n, c, a) then 1 else 0
  {
    var last := [rs[n]];
    assert rs[..n + 1] == rs[..n] + last && last[1..] == [];
    AdmitsAppend(st, map[], rs[..n], last, c, a, a + 60000);
    var cs := After(st, map[], rs[..n]);
    assert Admits(st, DispatchStep(st, cs, rs[n]).0, [], c, a, a + 60000) == 0;
  }

  lemma {:induction false} AdmittedIsCounted(st: Settings, rs: seq<Request>, n: nat, c: Caller, a: int)
    requires n <= |rs|
    ensures AdmittedOf(st, rs, n, c, a) == Admits(st, map[], rs[..n], c, a, a + 60000)
  {
    if n > 0 {
      AdmittedIsCounted(st, rs, n - 1, c, a);
      AdmitsLast(st, rs, n - 1, c, a);
    } else {
      assert rs[..0] == [];
    }
  }

  /** In any sixty seconds a user gets at most twice the API limit, less one, through, and an address twice the limit for
      addresses, less one. */
  lemma {:induction false} AtMostTwiceLessOne(st: Settings, rs: seq<Request>, c: Caller, a: int)
    requires Ordered(rs)
    ensures var n := AdmittedOf(st, rs, |rs|, c, a);
      match c
      case User(_) => n <= if st.apiLimit == 0 then 0 else 2 * st.apiLimit - 1
      case Ip(_) => n <= if st.authLimit == 0 then 0 else 2 * st.authLimit - 1
  {
    AdmittedIsCounted(st, rs, |rs|, c, a);
    assert rs[..|rs|] == rs;
    SlidingBound(st, rs, c, a);
  }
}
