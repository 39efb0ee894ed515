/** AI providers of a user: the default flag, pausing and the circuit breaker (backend/app/api/ai_providers.py,
    backend/app/services/ai.py, backend/app/services/provider_resolver.py, backend/app/workers/mail_processor.py,
    backend/app/workers/health.py, backend/app/workers/plugin_executor.py). */
module Providers {
  import opened Prelude

  datatype Provider = Provider(
    user: nat, created: int, isDefault: bool,
    errors: nat, lastError: Option<string>,
    paused: bool, manual: bool, reason: Option<string>
  )

  type Table = map<nat, Provider>

  const MAX_ERRORS := 5
  const MAX_ERROR_TEXT := 2000
  const MAX_REASON := 200
  const BROKEN := "circuit_breaker"

  /** A request, a report or a job.  `Check` is the circuit breaker; `Fail` is the worker that records a failed mail;
      `RecoverBroken` and `RecoverProbed` are the recovery jobs, with the providers whose cooldown has elapsed and those
      that answer a probe. */
  datatype Event =
    | Create(user: nat, id: nat, now: int)
    | Update(user: nat, id: nat, isDefault: Option<bool>)
    | Delete(user: nat, id: nat)
    | Reset(user: nat, id: nat)
    | Pause(user: nat, id: nat, paused: bool, reason: string)
    | Health(id: nat, error: Option<string>)
    | Check(id: nat)
    | Fail(id: nat, reason: string)
    | RecoverBroken(cooled: set<nat>)
    | RecoverProbed(cooled: set<nat>, alive: set<nat>)

  // ---- what each event does ------------------------------------------------------------------

  predicate Owned(t: Table, user: nat, id: nat) {
    id in t && t[id].user == user
  }

  ghost predicate HasAny(t: Table, user: nat) {
    exists id :: id in t && t[id].user == user
  }

  function Healthy(p: Provider): Provider {
    p.(errors := 0, lastError := None, paused := false, manual := false, reason := None)
  }

  /** UPDATE ai_providers SET is_default = false WHERE user_id = ... AND id != ... */
  function ClearOthers(t: Table, user: nat, id: nat): Table {
    map i | i in t :: if t[i].user == user && i != id then t[i].(isDefault := false) else t[i]
  }

  /** An empty error text counts as success. */
  predicate IsFailure(error: Option<string>) {
    error.Some? && error.value != ""
  }

  function Reported(p: Provider, error: Option<string>): Provider {
    if IsFailure(error) then
      p.(errors := p.errors + 1,
         lastError := Some(if |error.value| <= MAX_ERROR_TEXT then error.value else error.value[..MAX_ERROR_TEXT]))
    else p.(errors := 0, lastError := None)
  }

  function Checked(p: Provider): Provider {
    if p.errors >= MAX_ERRORS && !p.paused then p.(paused := true, reason := Some("circuit_breaker")) else p
  }

  function CutReason(reason: string): string {
    if |reason| <= MAX_REASON then reason else reason[..MAX_REASON]
  }

  /** One more error, and a pause once there are enough, whoever paused the provider before. */
  function Failed(p: Provider, reason: string): Provider {
    var q := p.(errors := p.errors + 1, lastError := Some(CutReason(reason)));
    if q.errors >= MAX_ERRORS then q.(paused := true, reason := Some(CutReason(reason))) else q
  }

  /** A recovery clears the pause, but neither the manual flag nor the last error. */
  function Recovered(p: Provider): Provider {
    p.(paused := false, reason := None, errors := 0)
  }

  predicate DueBroken(p: Provider) {
    p.paused && p.reason == Some(BROKEN)
  }

  predicate DueProbed(p: Provider) {
    p.paused && !p.manual && p.reason.Some? && p.reason != Some(BROKEN)
  }

  ghost function Apply(t: Table, ev: Event): Table {
    match ev
    case Create(user, id, now) =>
      if id in t then t else t[id := Provider(user, now, !HasAny(t, user), 0, None, false, false, None)]
    case Update(user, id, isDefault) =>
      if !Owned(t, user, id) || isDefault == None then t
      else if isDefault == Some(true) then ClearOthers(t, user, id)[id := t[id].(isDefault := true)]
      else t[id := t[id].(isDefault := false)]
    case Delete(user, id) => if Owned(t, user, id) then t - {id} else t
    case Reset(user, id) => if Owned(t, user, id) then t[id := Healthy(t[id])] else t
    case Pause(user, id, paused, reason) =>
      if !Owned(t, user, id) then t
      else if paused then t[id := t[id].(paused := true, manual := true, reason := Some(reason))]
      else t[id := Healthy(t[id])]
    case Health(id, error) => if id in t then t[id := Reported(t[id], error)] else t
    case Check(id) => if id in t then t[id := Checked(t[id])] else t
    case Fail(id, reason) => if id in t then t[id := Failed(t[id], reason)] else t
    case RecoverBroken(cooled) => map i | i in t :: if i in cooled && DueBroken(t[i]) then Recovered(t[i]) else t[i]
    case RecoverProbed(cooled, alive) =>
      map i | i in t :: if i in cooled * alive && DueProbed(t[i]) then Recovered(t[i]) else t[i]
  }

  // ---- the provider that is used ---------------------------------------------------------------

  predicate Usable(t: Table, user: nat, i: nat)
    requires i in t
  {
    t[i].user == user && !t[i].paused
  }

  ghost predicate IsFallback(t: Table, user: nat, r: Option<nat>) {
    match r
    case None => forall i | i in t :: !Usable(t, user, i)
    case Some(d) =>
      && d in t && Usable(t, user, d)
      && (t[d].isDefault || forall i | i in t && Usable(t, user, i) :: !t[i].isDefault && t[d].created <= t[i].created)
  }

  function ResolvePluginProvider(plugin: string, chosen: map<string, nat>, byId: Table, fallback: Option<nat>): Option<nat> {
    if plugin in chosen && chosen[plugin] in byId then Some(chosen[plugin]) else fallback
  }

  /** ORDER BY created_at LIMIT 1 may answer this row. */
  predicate IsOldest(t: Table, ids: set<nat>, best: nat)
    requires ids <= t.Keys && best in t
  {
    forall i | i in ids :: t[best].created <= t[i].created
  }

  lemma {:induction false} OldestExists(t: Table, ids: set<nat>)
    requires ids != {} && ids <= t.Keys
    ensures exists best :: best in ids && IsOldest(t, ids, best)
    decreases |ids|
  {
    var i :| i in ids;
    var rest := ids - {i};
    if rest == {} {
      assert ids == {i};
      assert IsOldest(t, ids, i);
    } else {
      OldestExists(t, rest);
      var b :| b in rest && IsOldest(t, rest, b);
      var best := if t[i].created < t[b].created then i else b;
      assert forall k | k in ids :: k == i || k in rest;
      assert IsOldest(t, ids, best);
    }
  }

  /** What the executor does with a plugin: no provider, a provider that is paused, or a call. */
  datatype Admission = NoProvider | ProviderPaused(id: nat) | Admitted(id: nat)

  function OfUser(t: Table, user: nat): Table {
    map i | i in t && t[i].user == user :: t[i]
  }

  // ---- the service -------------------------------------------------------------------------

  class ProviderApi {
    var t: Table

    constructor ()
      ensures t == map[]
    {
      t := map[];
    }

    method CreateProvider(user: nat, id: nat, now: int)
      requires id !in t
      modifies this
      ensures t == Apply(old(t), Create(user, id, now))
    {
      var existing := set i | i in t && t[i].user == user;
      assert HasAny(t, user) <==> existing != {} by {
        if i :| i in t && t[i].user == user { assert i in existing; }
      }
      t := t[id := Provider(user, now, |existing| == 0, 0, None, false, false, None)];
    }

    method UpdateProvider(user: nat, id: nat, isDefault: Option<bool>) returns (found: bool)
      modifies this
      ensures found == Owned(old(t), user, id) && t == Apply(old(t), Update(user, id, isDefault))
    {
      if id !in t || t[id].user != user { return false; }
      found := true;
      if isDefault == Some(true) { t := ClearOthers(t, user, id); }
      if isDefault.Some? { t := t[id := t[id].(isDefault := isDefault.value)]; }
    }

    method DeleteProvider(user: nat, id: nat) returns (found: bool)
      modifies this
      ensures found == Owned(old(t), user, id) && t == Apply(old(t), Delete(user, id))
    {
      if id !in t || t[id].user != user { return false; }
      t := t - {id};
      found := true;
    }

    method ResetProviderHealth(user: nat, id: nat) returns (found: bool)
      modifies this
      ensures found == Owned(old(t), user, id) && t == Apply(old(t), Reset(user, id))
    {
      if id !in t || t[id].user != user { return false; }
      var p := t[id];
      p := p.(errors := 0, lastError := None);
      p := p.(paused := false, manual := false, reason := None);
      t := t[id := p];
      found := true;
    }

    method UpdatePauseState(user: nat, id: nat, paused: bool, reason: string) returns (found: bool)
      modifies this
      ensures found == Owned(old(t), user, id) && t == Apply(old(t), Pause(user, id, paused, reason))
    {
      if id !in t || t[id].user != user { return false; }
      var p := t[id];
      if paused {
        p := p.(paused := true, manual := true, reason := Some(reason));
      } else {
        p := p.(paused := false, manual := false, reason := None);
        p := p.(errors := 0, lastError := None);
      }
      t := t[id := p];
      found := true;
    }

    method UpdateProviderHealth(id: nat, error: Option<string>)
      modifies this
      ensures t == Apply(old(t), Health(id, error))
    {
      if id in t {
        if error.Some? && error.value != "" {
          var text := if |error.value| <= MAX_ERROR_TEXT then error.value else error.value[..MAX_ERROR_TEXT];
          t := t[id := t[id].(lastError := Some(text), errors := t[id].errors + 1)];
        } else {
          t := t[id := t[id].(lastError := None, errors := 0)];
        }
      }
    }

    method CheckAiCircuitBreaker(id: nat) returns (tripped: bool)
      modifies this
      ensures t == Apply(old(t), Check(id))
      ensures tripped <==> id in old(t) && !old(t)[id].paused && t[id].paused
    {
      if id in t && t[id].errors >= MAX_ERRORS && !t[id].paused {
        t := t[id := t[id].(paused := true, reason := Some("circuit_breaker"))];
        return true;
      }
      if id in t { assert t[id := t[id]] == t; }
      tripped := false;
    }

    /** A mail failed on this provider: count the error, and pause at the threshold. */
    method PauseProvider(id: nat, reason: string) returns (found: bool)
      modifies this
      ensures found == (id in old(t)) && t == Apply(old(t), Fail(id, reason))
    {
      if id !in t { return false; }
      found := true;
      var p := t[id];
      p := p.(errors := p.errors + 1);
      p := p.(lastError := Some(CutReason(reason)));
      if p.errors >= MAX_ERRORS {
        p := p.(paused := true, reason := Some(CutReason(reason)));
      }
      t := t[id := p];
    }

    /** The loop over the providers whose breaker tripped long enough ago. */
    method RecoverCircuitBrokenProviders(cooled: set<nat>)
      modifies this
      ensures t == Apply(old(t), RecoverBroken(cooled))
    {
      ghost var before := t;
      var todo := set i | i in t && i in cooled && DueBroken(t[i]);
      while todo != {}
        invariant t.Keys == before.Keys
        invariant todo <= set i | i in before && i in cooled && DueBroken(before[i])
        invariant forall i | i in before ::
          t[i] == if i in cooled && DueBroken(before[i]) && i !in todo then Recovered(before[i]) else before[i]
      {
        var i :| i in todo;
        todo := todo - {i};
        t := t[i := t[i].(paused := false, reason := None, errors := 0)];
      }
    }

    /** The loop over the other paused providers, each with its probe. */
    method RecoverPausedAiProviders(cooled: set<nat>, alive: set<nat>)
      modifies this
      ensures t == Apply(old(t), RecoverProbed(cooled, alive))
    {
      ghost var before := t;
      var todo := set i | i in t && DueProbed(t[i]);
      while todo != {}
        invariant t.Keys == before.Keys
        invariant todo <= set i | i in before && DueProbed(before[i])
        invariant forall i | i in before ::
          t[i] == if i in cooled * alive && DueProbed(before[i]) && i !in todo then Recovered(before[i]) else before[i]
      {
        var i :| i in todo;
        todo := todo - {i};
        if i !in cooled { continue; }
        if i in alive {
          t := t[i := t[i].(paused := false, reason := None, errors := 0)];
        }
      }
    }

    /** The default provider if it is not paused, else the oldest one that is not. */
    method GetDefaultProvider(user: nat) returns (r: Option<nat>)
      ensures IsFallback(t, user, r)
    {
      var usable := set i | i in t && t[i].user == user && !t[i].paused;
      var defaults := set i | i in usable && t[i].isDefault;
      if defaults != {} {
        var d :| d in defaults;
        return Some(d);
      }
      if usable == {} {
        assert forall i | i in t :: !Usable(t, user, i) || i in usable;
        return None;
      }
      OldestExists(t, usable);
      var best :| best in usable && IsOldest(t, usable, best);
      assert forall i | i in t && Usable(t, user, i) :: i in usable && i !in defaults;
      r := Some(best);
    }

    /** Which provider a plugin is called with.  The assigned provider is the only candidate while it exists: when it is
        paused the plugin is blocked, even if the user has a healthy default. */
    method AdmitPlugin(user: nat, plugin: string, chosen: map<string, nat>) returns (a: Admission)
      ensures plugin in chosen && Owned(t, user, chosen[plugin]) ==>
        a == if t[chosen[plugin]].paused then ProviderPaused(chosen[plugin]) else Admitted(chosen[plugin])
      ensures !(plugin in chosen && Owned(t, user, chosen[plugin])) ==>
        && (a.Admitted? <==> exists i :: i in t && Usable(t, user, i))
        && (a.Admitted? ==> IsFallback(t, user, Some(a.id)))
        && (!a.Admitted? ==> a == NoProvider)
    {
      var fallback := GetDefaultProvider(user);
      var r := ResolvePluginProvider(plugin, chosen, OfUser(t, user), fallback);
      if r == None { return NoProvider; }
      if t[r.value].paused { return ProviderPaused(r.value); }
      a := Admitted(r.value);
    }
  }

  // ---- invariants --------------------------------------------------------------------------

  ghost predicate OneDefault(t: Table) {
    forall i, j | i in t && j in t && t[i].user == t[j].user && t[i].isDefault && t[j].isDefault :: i == j
  }

  predicate PauseConsistent(p: Provider) {
    (p.manual ==> p.paused) && (p.paused <==> p.reason.Some?)
  }

  ghost predicate Consistent(t: Table) {
    OneDefault(t) && forall i | i in t :: PauseConsistent(t[i])
  }

  /** A recovery of broken providers that reaches one which the user has paused by hand, under the breaker's name. */
  ghost predicate Unpauses(t: Table, ev: Event) {
    ev.RecoverBroken? && exists i :: i in t && i in ev.cooled && DueBroken(t[i]) && t[i].manual
  }

  lemma CreateKeepsOneDefault(t: Table, user: nat, id: nat, now: int)
    requires OneDefault(t)
    ensures OneDefault(Apply(t, Create(user, id, now)))
  {
    var n := Apply(t, Create(user, id, now));
    forall i, j | i in n && j in n && n[i].user == n[j].user && n[i].isDefault && n[j].isDefault ensures i == j {
      assert id !in t && (i == id || j == id) && i != j ==> HasAny(t, user);
    }
  }

  /** Without a new default and a new provider there is nothing to show. */
  lemma FewerDefaults(t: Table, n: Table)
    requires OneDefault(t)
    requires forall i | i in n :: i in t && n[i].user == t[i].user && (n[i].isDefault ==> t[i].isDefault)
    ensures OneDefault(n)
  {
  }

  lemma StepKeepsOneDefault(t: Table, ev: Event)
    requires OneDefault(t)
    ensures OneDefault(Apply(t, ev))
  {
    match ev
    case Create(user, id, now) => CreateKeepsOneDefault(t, user, id, now);
    case Update(user, id, isDefault) =>
      if isDefault != Some(true) { FewerDefaults(t, Apply(t, ev)); }
    case _ => FewerDefaults(t, Apply(t, ev));
  }

  /** Every event keeps at most one default per user, and the pause fields consistent: a manual pause is a pause, and
      there is a reason exactly while paused.  The one exception is a recovery that ends a manual pause, since it looks
      at the reason and not at the manual flag. */
  lemma StepKeepsConsistentIff(t: Table, ev: Event)
    requires Consistent(t)
    ensures OneDefault(Apply(t, ev))
    ensures Consistent(Apply(t, ev)) <==> !Unpauses(t, ev)
  {
    StepKeepsOneDefault(t, ev);
    var n := Apply(t, ev);
    if Unpauses(t, ev) {
      var i :| i in t && i in ev.cooled && DueBroken(t[i]) && t[i].manual;
      assert !PauseConsistent(n[i]);
    } else {
      forall i | i in n ensures PauseConsistent(n[i]) {
      }
    }
  }

  ghost predicate HasDefault(t: Table, user: nat) {
    exists i :: i in t && t[i].user == user && t[i].isDefault
  }

  /** A user who has a default keeps one through every event, except exactly when the default itself is deleted or its
      flag is taken away; no other provider inherits it. */
  lemma DefaultIsKeptIff(t: Table, ev: Event, user: nat, d: nat)
    requires OneDefault(t) && d in t && t[d].user == user && t[d].isDefault
    ensures HasDefault(Apply(t, ev), user) <==> ev != Delete(user, d) && ev != Update(user, d, Some(false))
  {
    var n := Apply(t, ev);
    if ev == Delete(user, d) || ev == Update(user, d, Some(false)) {
      assert forall i | i in n && n[i].user == user :: i in t && (n[i].isDefault ==> t[i].isDefault);
    } else if ev.Update? && ev.isDefault == Some(true) && Owned(t, ev.user, ev.id) && ev.user == user {
      assert n[ev.id].isDefault && n[ev.id].user == user;
    } else {
      match ev
      case Update(u, id, isDefault) =>
        if Owned(t, u, id) && isDefault.Some? {
          assert isDefault.value || id != d;
          assert d in n && n[d].isDefault && n[d].user == user;
        }
      case _ => assert d in n && n[d].isDefault && n[d].user == user;
    }
  }

  /** The event gives a user without a default one: a flag is set by hand on an own provider, or the first provider is
      created. */
  ghost predicate GivesDefault(t: Table, ev: Event, user: nat) {
    match ev
    case Update(u, id, isDefault) => u == user && Owned(t, user, id) && isDefault == Some(true)
    case Create(u, id, _) => u == user && id !in t && !HasAny(t, user)
    case _ => false
  }

  lemma DefaultIsGainedIff(t: Table, ev: Event, user: nat)
    requires !HasDefault(t, user)
    ensures HasDefault(Apply(t, ev), user) <==> GivesDefault(t, ev, user)
  {
    var n := Apply(t, ev);
    if GivesDefault(t, ev, user) {
      match ev
      case Update(u, id, isDefault) => assert n[id].user == user && n[id].isDefault;
      case Create(u, id, _) => assert n[id].user == user && n[id].isDefault;
    }
  }

  // ---- runs --------------------------------------------------------------------------------

  ghost function Run(t: Table, evs: seq<Event>): Table {
    if evs == [] then t else Apply(Run(t, evs[..|evs| - 1]), evs[|evs| - 1])
  }

  ghost predicate NoneGives(t: Table, evs: seq<Event>, user: nat) {
    forall k | 0 <= k < |evs| :: !GivesDefault(Run(t, evs[..k]), evs[k], user)
  }

  lemma RunGoesOn(t: Table, evs: seq<Event>, k: nat)
    requires k < |evs|
    ensures Run(t, evs[..k + 1]) == Apply(Run(t, evs[..k]), evs[k])
  {
    assert evs[..k + 1][..k] == evs[..k];
  }

  lemma {:induction false} NoneGivenNoneThere(t: Table, evs: seq<Event>, user: nat, k: nat)
    requires !HasDefault(t, user) && NoneGives(t, evs, user) && k <= |evs|
    ensures !HasDefault(Run(t, evs[..k]), user)
  {
    if k > 0 {
      NoneGivenNoneThere(t, evs, user, k - 1);
      RunGoesOn(t, evs, k - 1);
      DefaultIsGainedIff(Run(t, evs[..k - 1]), evs[k - 1], user);
    }
  }

  /** A user without a default stays without one through every point of a run exactly as long as no flag is set by hand and
      no first provider is created. */
  lemma StaysWithoutDefaultIff(t: Table, evs: seq<Event>, user: nat)
    requires !HasDefault(t, user)
    ensures (forall k | 0 <= k <= |evs| :: !HasDefault(Run(t, evs[..k]), user)) <==> NoneGives(t, evs, user)
  {
    if NoneGives(t, evs, user) {
      forall k | 0 <= k <= |evs| ensures !HasDefault(Run(t, evs[..k]), user) {
        NoneGivenNoneThere(t, evs, user, k);
      }
    } else {
      var k :| 0 <= k < |evs| && GivesDefault(Run(t, evs[..k]), evs[k], user);
      RunGoesOn(t, evs, k);
      if !HasDefault(Run(t, evs[..k]), user) { DefaultIsGainedIff(Run(t, evs[..k]), evs[k], user); }
    }
  }

  /** No pause carries the breaker's name but the breaker's own. */
  predicate HonestReason(ev: Event) {
    match ev
    case Pause(_, _, _, reason) => reason != BROKEN
    case Fail(_, reason) => CutReason(reason) != BROKEN
    case _ => true
  }

  ghost predicate Honest(t: Table) {
    Consistent(t) && forall i | i in t && t[i].manual :: t[i].reason != Some(BROKEN)
  }

  lemma StepKeepsHonest(t: Table, ev: Event)
    requires Honest(t) && HonestReason(ev)
    ensures Honest(Apply(t, ev))
  {
    StepKeepsConsistentIff(t, ev);
  }

  /** Over every run in which users and workers give other reasons than the breaker's, all providers stay consistent. */
  lemma {:induction false} HonestRunsAreConsistent(evs: seq<Event>)
    requires forall k | 0 <= k < |evs| :: HonestReason(evs[k])
    ensures Honest(Run(map[], evs))
    decreases |evs|
  {
    if evs != [] {
      HonestRunsAreConsistent(evs[..|evs| - 1]);
      StepKeepsHonest(Run(map[], evs[..|evs| - 1]), evs[|evs| - 1]);
    }
  }

  /** A user who pauses a provider under that name loses the pause to the next recovery. */
  lemma ForgedReasonLosesThePause(t: Table, user: nat, id: nat, cooled: set<nat>)
    requires Owned(t, user, id) && id in cooled
    ensures var n := Apply(Apply(t, Pause(user, id, true, BROKEN)), RecoverBroken(cooled));
      id in n && n[id].manual && !n[id].paused
  {
  }

  /** The event puts the error counter of provider `id` back to zero, if the provider exists. */
  ghost predicate Clears(t: Table, ev: Event, id: nat) {
    match ev
    case Create(_, i, _) => i == id
    case Reset(user, i) => i == id && Owned(t, user, id)
    case Pause(user, i, paused, _) => i == id && !paused && Owned(t, user, id)
    case Health(i, error) => i == id && !IsFailure(error)
    case RecoverBroken(cooled) => id in t && id in cooled && DueBroken(t[id])
    case RecoverProbed(cooled, alive) => id in t && id in cooled * alive && DueProbed(t[id])
    case _ => false
  }

  /** The event counts as an error of provider `id`. */
  predicate Counts(ev: Event, id: nat) {
    (ev.Health? && ev.id == id && IsFailure(ev.error)) || (ev.Fail? && ev.id == id)
  }

  /** Event k of the run clears the counter; a creation does so if it takes place. */
  ghost predicate ClearsAt(evs: seq<Event>, k: nat, id: nat)
    requires k < |evs|
  {
    var t := Run(map[], evs[..k]);
    Clears(t, evs[k], id) && (evs[k].Create? ==> id !in t)
  }

  ghost predicate LastClear(evs: seq<Event>, c: nat, id: nat) {
    c < |evs| && ClearsAt(evs, c, id) && forall k | c < k < |evs| :: !ClearsAt(evs, k, id)
  }

  /** The failures of provider `id` behind event c, as reported or as recorded by the worker. */
  function FailuresBehind(evs: seq<Event>, c: nat, id: nat): set<nat> {
    set k | c < k < |evs| && Counts(evs[k], id)
  }

  lemma ErrorsStep(t: Table, ev: Event, id: nat)
    requires id in Apply(t, ev)
    ensures var n := Apply(t, ev)[id].errors;
      if Clears(t, ev, id) && (ev.Create? ==> id !in t) then n == 0
      else id in t && n == t[id].errors + if Counts(ev, id) then 1 else 0
  {
  }

  lemma LastClearStays(evs: seq<Event>, c: nat, id: nat)
    requires evs != [] && LastClear(evs[..|evs| - 1], c, id) && !ClearsAt(evs, |evs| - 1, id)
    ensures LastClear(evs, c, id)
    ensures FailuresBehind(evs, c, id)
      == FailuresBehind(evs[..|evs| - 1], c, id) + if Counts(evs[|evs| - 1], id) then {|evs| - 1} else {}
  {
    var before := evs[..|evs| - 1];
    forall k: nat | k < |before| ensures ClearsAt(evs, k, id) <==> ClearsAt(before, k, id) {
      assert evs[..k] == before[..k];
    }
  }

  /** Over every run from an empty table the error counter of a provider is the number of its failures, reported by the
      executor or recorded by the worker, behind the last event that cleared it: creation, success, reset, unpausing or
      recovery. */
  lemma {:induction false} CounterCountsFailures(evs: seq<Event>, id: nat) returns (c: nat)
    requires id in Run(map[], evs)
    ensures LastClear(evs, c, id) && Run(map[], evs)[id].errors == |FailuresBehind(evs, c, id)|
    decreases |evs|
  {
    var before, ev := evs[..|evs| - 1], evs[|evs| - 1];
    ErrorsStep(Run(map[], before), ev, id);
    if ClearsAt(evs, |evs| - 1, id) {
      c := |evs| - 1;
      assert FailuresBehind(evs, c, id) == {};
    } else {
      c := CounterCountsFailures(before, id);
      LastClearStays(evs, c, id);
    }
  }

  /** What one transient failure of a mail does: the executor reports it and looks at the breaker, and the worker records
      it again. */
  ghost function TransientFailure(t: Table, id: nat, text: string, reason: string): Table {
    Apply(Apply(Apply(t, Health(id, Some(text))), Check(id)), Fail(id, reason))
  }

  ghost function TransientFailures(t: Table, id: nat, text: string, reason: string, n: nat): Table {
    if n == 0 then t else TransientFailure(TransientFailures(t, id, text, reason, n - 1), id, text, reason)
  }

  /** Each counts twice; the third in a row pauses the provider, under the worker's reason, so that the recovery of
      broken providers passes it by. */
  lemma ThreeFailuresPause(t: Table, id: nat, text: string, reason: string)
    requires id in t && t[id].errors == 0 && !t[id].paused && text != "" && CutReason(reason) != BROKEN
    ensures forall n: nat | n <= 3 ::
      var u := TransientFailures(t, id, text, reason, n); id in u && u[id].errors == 2 * n && (u[id].paused <==> n == 3)
    ensures TransientFailures(t, id, text, reason, 3)[id].reason == Some(CutReason(reason))
    ensures !DueBroken(TransientFailures(t, id, text, reason, 3)[id])
  {
    var u1 := TransientFailures(t, id, text, reason, 1);
    assert u1 == TransientFailure(TransientFailures(t, id, text, reason, 0), id, text, reason);
    var u2 := TransientFailures(t, id, text, reason, 2);
    assert u2 == TransientFailure(u1, id, text, reason);
    var u3 := TransientFailures(t, id, text, reason, 3);
    assert u3 == TransientFailure(u2, id, text, reason);
    forall n: nat | n <= 3
      ensures var u := TransientFailures(t, id, text, reason, n);
        id in u && u[id].errors == 2 * n && (u[id].paused <==> n == 3)
    {
      assert n == 0 || n == 1 || n == 2 || n == 3;
    }
  }

  /** Every reported failure is followed at once by a look at the circuit breaker. */
  ghost predicate EachFailureIsChecked(evs: seq<Event>) {
    forall k | 0 <= k < |evs| && evs[k].Health? && IsFailure(evs[k].error) ::
      k + 1 < |evs| && evs[k + 1] == Check(evs[k].id)
  }

  ghost predicate Safe(t: Table, id: nat) {
    id in t && !t[id].paused ==> t[id].errors < MAX_ERRORS
  }

  lemma {:induction false} SafeExceptPending(evs: seq<Event>, id: nat)
    requires forall k | 0 <= k < |evs| - 1 && evs[k].Health? && IsFailure(evs[k].error) :: evs[k + 1] == Check(evs[k].id)
    ensures (evs != [] && evs[|evs| - 1].Health? && IsFailure(evs[|evs| - 1].error) && evs[|evs| - 1].id == id)
      || Safe(Run(map[], evs), id)
    decreases |evs|
  {
    if evs != [] {
      var before, ev := evs[..|evs| - 1], evs[|evs| - 1];
      SafeExceptPending(before, id);
      if before != [] { assert evs[|evs| - 2] == before[|before| - 1]; }
    }
  }

  /** Then a provider that is not paused has fewer than five errors, whatever else happens. */
  lemma UnpausedHasFewErrors(evs: seq<Event>, id: nat)
    requires EachFailureIsChecked(evs)
    ensures Safe(Run(map[], evs), id)
  {
    SafeExceptPending(evs, id);
  }

  // ---- one choice ------------------------------------------------------------------------------

  /** Some provider is used exactly when one is not paused, and which one is determined, provided no two providers of
      the user were created at the same time. */
  lemma FallbackIsDetermined(t: Table, user: nat, r: Option<nat>, q: Option<nat>)
    requires OneDefault(t) && IsFallback(t, user, r) && IsFallback(t, user, q)
    requires forall i, j | i in t && j in t && Usable(t, user, i) && Usable(t, user, j) && i != j ::
      t[i].created != t[j].created
    ensures r == q && (r.Some? <==> exists i :: i in t && Usable(t, user, i))
  {
  }

  // ---- pausing -------------------------------------------------------------------------------

  /** The event pauses provider `id`: by hand, by the breaker or by the worker, at five errors. */
  ghost predicate Pauses(t: Table, ev: Event, id: nat)
    requires id in t
  {
    match ev
    case Pause(user, i, paused, _) => i == id && paused && t[id].user == user
    case Check(i) => i == id && t[id].errors >= 5
    case Fail(i, _) => i == id && t[id].errors + 1 >= 5
    case _ => false
  }

  /** The event ends a pause: by hand, by a reset, or by a recovery of its kind of pause. */
  ghost predicate Resumes(t: Table, ev: Event, id: nat)
    requires id in t
  {
    match ev
    case Pause(user, i, paused, _) => i == id && !paused && t[id].user == user
    case Reset(user, i) => i == id && t[id].user == user
    case RecoverBroken(cooled) => id in cooled && t[id].reason == Some("circuit_breaker")
    case RecoverProbed(cooled, alive) =>
      id in cooled && id in alive && !t[id].manual && t[id].reason.Some? && t[id].reason != Some("circuit_breaker")
    case _ => false
  }

  /** A provider that outlives an event is paused behind it exactly if the event pauses it, or it was paused and the event
      does not end that; a new one is not paused. */
  lemma PausedIff(t: Table, ev: Event, id: nat)
    requires id in Apply(t, ev)
    ensures Apply(t, ev)[id].paused <==> id in t && (Pauses(t, ev, id) || (t[id].paused && !Resumes(t, ev, id)))
    ensures id in t ==> Apply(t, ev)[id].user == t[id].user && Apply(t, ev)[id].created == t[id].created
  {
  }

  predicate CutTo(text: string, n: nat, column: Option<string>) {
    column.Some? && column.value <= text && |column.value| == if |text| <= n then |text| else n
  }

  /** The last error and the reason of a pause after each event that sets them. */
  lemma WhatIsNoted(t: Table, ev: Event, id: nat)
    requires id in t && id in Apply(t, ev)
    ensures var p, q := t[id], Apply(t, ev)[id];
      match ev
      case Health(i, error) =>
        && (i == id && error.Some? && error.value != "" ==> CutTo(error.value, 2000, q.lastError))
        && (i == id && (error == None || error == Some("")) ==> q.lastError == None)
        && q.reason == p.reason
      case Fail(i, reason) =>
        i == id ==> CutTo(reason, 200, q.lastError) && (p.errors + 1 >= 5 ==> CutTo(reason, 200, q.reason))
      case Check(i) => i == id && p.errors >= 5 && !p.paused ==> q.reason == Some("circuit_breaker")
      case Pause(user, i, true, reason) => i == id && user == p.user ==> q.reason == Some(reason) && q.manual
      case _ => true
  {
  }

  // ---- existing ------------------------------------------------------------------------------

  /** Providers come and go by creation and by their owner's deletion only, and a new one starts without errors. */
  lemma ExistsIff(t: Table, ev: Event, id: nat)
    ensures id in Apply(t, ev) <==> (id in t && !(ev.Delete? && ev.id == id && t[id].user == ev.user)) || (ev.Create? && ev.id == id)
    ensures ev.Create? && ev.id == id && id !in t ==>
      var p := Apply(t, ev)[id];
      && p.user == ev.user && p.created == ev.now && p.errors == 0 && !p.paused && !p.manual
      && (p.isDefault <==> forall i | i in t :: t[i].user != ev.user)
  {
  }

  /** Setting the flag of an own provider sets it there and nowhere else; clearing it clears it there only. */
  lemma FlagIsSet(t: Table, user: nat, id: nat, flag: bool)
    requires id in t && t[id].user == user
    ensures var n := Apply(t, Update(user, id, Some(flag)));
      && n.Keys == t.Keys && n[id].isDefault == flag
      && (forall i | i in t && i != id :: n[i].isDefault == (t[i].isDefault && !(flag && t[i].user == user)))
  {
  }
}
