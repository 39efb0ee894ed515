/** Which requests keep the contact cache telling the truth, over any run of requests. */
module CacheRuns {
  import opened Prelude
  import opened Text
  import opened ContactCache

  datatype Event =
    | Create(user: nat, id: nat, emails: seq<string>, end: End)
    | Assign(user: nat, id: nat, raw: string, end: End)
    | Remove(user: nat, id: nat, raw: string, early: bool, end: End)
    | Delete(user: nat, id: nat, end: End)
    | Match(user: nat, sender: string, answer: Option<nat>)
    | Expire(key: Key)

  function EmailOf(raw: string, lower: string -> string): string {
    lower(Strip(raw))
  }

  function Apply(s: State, ev: Event, lower: string -> string): State {
    match ev
    case Create(user, id, emails, end) => AfterCreate(s, user, id, emails, end, lower)
    case Assign(user, id, raw, end) => AfterAssign(s, user, id, EmailOf(raw, lower), end, lower)
    case Remove(user, id, raw, early, end) => AfterRemove(s, user, id, EmailOf(raw, lower), early, end, lower)
    case Delete(user, id, end) => AfterDelete(s, user, id, end)
    case Match(user, sender, answer) => AfterMatch(s, user, lower(sender), answer)
    case Expire(key) => s.(cache := s.cache - {key})
  }

  /** New contacts get new ids, and the matcher answers what it may answer. */
  ghost predicate Possible(s: State, ev: Event, lower: string -> string) {
    match ev
    case Create(_, id, _, _) => Unused(s, id)
    case Match(user, sender, answer) => Answers(s, user, lower(sender), answer)
    case _ => true
  }

  /** The two ways to spoil the cache: an assignment whose commit fails behind the cache write, and a removal whose
      write-back has committed when the cache refuses to drop the address. */
  ghost predicate Harmless(s: State, ev: Event, lower: string -> string) {
    match ev
    case Assign(user, id, raw, end) =>
      Owned(s, user, id) && end.CommitFails? ==> HasEmail(s, user, id, EmailOf(raw, lower))
    case Remove(user, id, raw, early, end) =>
      var key := (user, EmailOf(raw, lower));
      early && end.CacheDown? && HasEmail(s, user, id, key.1) ==> !(key in s.cache && s.cache[key] == Hit(id))
    case _ => true
  }

  // ---- the requests one by one -----------------------------------------------------------------

  lemma LoweredIsIn(s: State, id: nat, e: string, lower: string -> string)
    requires LowerCase(s, lower) && id in s.contacts
    ensures e in Lowered(s.contacts[id].emails, lower) <==> e in s.contacts[id].emails
  {
    var emails := s.contacts[id].emails;
    assert forall i | 0 <= i < |emails| :: Lowered(emails, lower)[i] == emails[i];
    assert Lowered(emails, lower) == emails;
  }

  lemma CreateKeeps(s: State, user: nat, id: nat, emails: seq<string>, end: End, lower: string -> string)
    requires Coherent(s) && Unused(s, id)
    ensures Coherent(AfterCreate(s, user, id, emails, end, lower))
  {
    var es := Lowered(emails, lower);
    var t := AfterCreate(s, user, id, emails, end, lower);
    forall k | k in t.cache && t.cache[k].Hit? && t.cache[k].id in t.contacts
      ensures HasEmail(t, k.0, t.cache[k].id, k.1)
    {
      if t.cache[k].id != id {
        assert k in s.cache && t.cache[k] == s.cache[k];
      }
    }
    forall k, i | k in t.cache && t.cache[k].Miss? && i in t.contacts ensures !HasEmail(t, k.0, i, k.1) {
      assert k in s.cache && t.cache[k] == s.cache[k];
      assert (k.0, k.1) == k;
    }
  }

  lemma AssignDoneKeeps(s: State, user: nat, id: nat, e: string, lower: string -> string)
    requires Coherent(s) && LowerCase(s, lower) && Owned(s, user, id)
    ensures Coherent(AfterAssign(s, user, id, e, Done, lower))
  {
    LoweredIsIn(s, id, e, lower);
    var t := AfterAssign(s, user, id, e, Done, lower);
    assert forall x :: x in t.contacts[id].emails <==> x in s.contacts[id].emails || x == e;
    forall k | k in t.cache && t.cache[k].Hit? && t.cache[k].id in t.contacts
      ensures HasEmail(t, k.0, t.cache[k].id, k.1)
    {
      if k != (user, e) { assert HasEmail(s, k.0, s.cache[k].id, k.1); }
    }
    forall k, i | k in t.cache && t.cache[k].Miss? && i in t.contacts ensures !HasEmail(t, k.0, i, k.1) {
      assert !HasEmail(s, k.0, i, k.1);
      assert k != (user, e);
    }
  }

  lemma AssignKeepsIff(s: State, user: nat, id: nat, e: string, end: End, lower: string -> string)
    requires Coherent(s) && LowerCase(s, lower)
    ensures Coherent(AfterAssign(s, user, id, e, end, lower))
      <==> (Owned(s, user, id) && end.CommitFails? ==> HasEmail(s, user, id, e))
  {
    if Owned(s, user, id) {
      LoweredIsIn(s, id, e, lower);
      var t := AfterAssign(s, user, id, e, end, lower);
      if end.CommitFails? {
        assert t.cache[(user, e)] == Hit(id);
      } else if end.Done? {
        AssignDoneKeeps(s, user, id, e, lower);
      }
    }
  }

  lemma WithoutWhenLower(s: State, id: nat, e: string, lower: string -> string)
    requires LowerCase(s, lower) && id in s.contacts
    ensures forall x :: x in Without(s.contacts[id].emails, e, lower) <==> x in s.contacts[id].emails && x != e
  {
    forall x | x in s.contacts[id].emails ensures lower(x) == x {
      var i :| 0 <= i < |s.contacts[id].emails| && s.contacts[id].emails[i] == x;
    }
  }

  /** A contact loses an address, and no entry speaks of it for this contact any more. */
  lemma RemoveKeeps(s: State, t: State, user: nat, id: nat, e: string)
    requires Coherent(s) && Owned(s, user, id) && t.contacts.Keys == s.contacts.Keys
    requires t.contacts[id].user == user
    requires forall x :: x in t.contacts[id].emails ==> x in s.contacts[id].emails
    requires forall x :: x in s.contacts[id].emails && x != e ==> x in t.contacts[id].emails
    requires forall i | i in s.contacts && i != id :: t.contacts[i] == s.contacts[i]
    requires forall k | k in t.cache :: k in s.cache && t.cache[k] == s.cache[k]
    requires (user, e) in t.cache && t.cache[(user, e)] == Hit(id) && e in s.contacts[id].emails ==>
      e in t.contacts[id].emails
    ensures Coherent(t)
  {
    forall k | k in t.cache && t.cache[k].Hit? && t.cache[k].id in t.contacts
      ensures HasEmail(t, k.0, t.cache[k].id, k.1)
    {
      assert HasEmail(s, k.0, s.cache[k].id, k.1);
      assert (k.0, k.1) == k;
    }
    forall k, i | k in t.cache && t.cache[k].Miss? && i in t.contacts ensures !HasEmail(t, k.0, i, k.1) {
      assert !HasEmail(s, k.0, i, k.1);
    }
  }

  lemma RemoveKeepsIff(s: State, user: nat, id: nat, e: string, early: bool, end: End, lower: string -> string)
    requires Coherent(s) && LowerCase(s, lower)
    ensures Coherent(AfterRemove(s, user, id, e, early, end, lower)) <==>
      (early && end.CacheDown? && HasEmail(s, user, id, e) ==> !((user, e) in s.cache && s.cache[(user, e)] == Hit(id)))
  {
    if Owned(s, user, id) {
      LoweredIsIn(s, id, e, lower);
      var t := AfterRemove(s, user, id, e, early, end, lower);
      WithoutWhenLower(s, id, e, lower);
      var stale := early && end.CacheDown? && HasEmail(s, user, id, e)
        && (user, e) in s.cache && s.cache[(user, e)] == Hit(id);
      if stale {
        assert !HasEmail(t, user, id, e) && t.cache[(user, e)] == Hit(id);
      } else {
        RemoveKeeps(s, t, user, id, e);
      }
    }
  }

  lemma MatchKeeps(s: State, user: nat, e: string, r: Option<nat>)
    requires Coherent(s) && Answers(s, user, e, r)
    ensures Coherent(AfterMatch(s, user, e, r))
  {
    var t := AfterMatch(s, user, e, r);
    forall k | k in t.cache && k != (user, e) ensures k in s.cache && t.cache[k] == s.cache[k] {
    }
    forall i, x, y ensures HasEmail(t, x, i, y) == HasEmail(s, x, i, y) {
    }
  }

  /** Of all requests, exactly the two harmful ones leave the cache incoherent. */
  lemma StepKeepsCoherenceIff(s: State, ev: Event, lower: string -> string)
    requires Coherent(s) && LowerCase(s, lower) && Possible(s, ev, lower)
    ensures Coherent(Apply(s, ev, lower)) <==> Harmless(s, ev, lower)
  {
    match ev
    case Create(user, id, emails, end) => CreateKeeps(s, user, id, emails, end, lower);
    case Assign(user, id, raw, end) => AssignKeepsIff(s, user, id, EmailOf(raw, lower), end, lower);
    case Remove(user, id, raw, early, end) => RemoveKeepsIff(s, user, id, EmailOf(raw, lower), early, end, lower);
    case Delete(user, id, end) =>
    case Match(user, sender, answer) => MatchKeeps(s, user, lower(sender), answer);
    case Expire(key) =>
  }

  lemma StepKeepsLowerCase(s: State, ev: Event, lower: string -> string)
    requires LowerCase(s, lower) && Idempotent(lower)
    ensures LowerCase(Apply(s, ev, lower), lower)
  {
    match ev
    case Assign(user, id, raw, end) =>
    case Remove(user, id, raw, early, end) =>
      if Owned(s, user, id) {
        var kept := Without(s.contacts[id].emails, EmailOf(raw, lower), lower);
        forall i | 0 <= i < |kept| ensures lower(kept[i]) == kept[i] {
          assert kept[i] in s.contacts[id].emails;
        }
      }
    case _ =>
  }

  // ---- runs --------------------------------------------------------------------------------

  function Run(s: State, evs: seq<Event>, lower: string -> string): State
    decreases |evs|
  {
    if evs == [] then s else Run(Apply(s, evs[0], lower), evs[1..], lower)
  }

  ghost predicate Clean(s: State, evs: seq<Event>, lower: string -> string)
    decreases |evs|
  {
    evs != [] ==>
      && Possible(s, evs[0], lower) && Harmless(s, evs[0], lower)
      && Clean(Apply(s, evs[0], lower), evs[1..], lower)
  }

  lemma {:induction false} CleanRunsStayCoherent(s: State, evs: seq<Event>, lower: string -> string)
    requires Coherent(s) && LowerCase(s, lower) && Idempotent(lower) && Clean(s, evs, lower)
    ensures Coherent(Run(s, evs, lower))
    decreases |evs|
  {
    if evs != [] {
      StepKeepsCoherenceIff(s, evs[0], lower);
      StepKeepsLowerCase(s, evs[0], lower);
      CleanRunsStayCoherent(Apply(s, evs[0], lower), evs[1..], lower);
    }
  }

  /** Through any run without the two harmful events, contacts deleted or reported as spam included, every sender is
      matched to a contact of the right user with that address if there is one, and to none otherwise. */
  lemma MatchingIsRightInCleanRuns(evs: seq<Event>, lower: string -> string, user: nat, sender: string, answer: Option<nat>)
    requires Idempotent(lower) && Clean(State(map[], map[]), evs, lower)
    requires Answers(Run(State(map[], map[]), evs, lower), user, lower(sender), answer)
    ensures Right(Run(State(map[], map[]), evs, lower), user, lower(sender), answer)
  {
    CleanRunsStayCoherent(State(map[], map[]), evs, lower);
    CoherentIffMatchingIsRight(Run(State(map[], map[]), evs, lower));
  }

  // ---- entries that name a contact that is gone --------------------------------------------------

  /** No contact with cached entries is deleted, and no creation is rolled back behind a cache write. */
  ghost predicate Lasting(s: State, ev: Event) {
    match ev
    case Create(_, _, emails, end) => end.Done? || emails == [] || end == CacheDown(0)
    case Delete(user, id, end) => Owned(s, user, id) && end.Done? ==> forall k | k in s.cache :: s.cache[k] != Hit(id)
    case _ => true
  }

  lemma CreateDanglesIff(s: State, user: nat, id: nat, emails: seq<string>, end: End, lower: string -> string)
    requires NoneDangling(s) && Unused(s, id)
    ensures NoneDangling(AfterCreate(s, user, id, emails, end, lower))
      <==> end.Done? || emails == [] || end == CacheDown(0)
  {
    var es := Lowered(emails, lower);
    var written := if end.CacheDown? then Upto(es, end.written) else es;
    var t := AfterCreate(s, user, id, emails, end, lower);
    if written != [] {
      assert written[0] in written;
      assert t.cache[(user, written[0])] == Hit(id);
    } else {
      assert t.cache == s.cache;
    }
  }

  /** Cached contacts keep existing exactly unless a contact with cached entries is deleted, or a creation is rolled
      back behind a cache write. */
  lemma StepKeepsNoneDanglingIff(s: State, ev: Event, lower: string -> string)
    requires NoneDangling(s) && Possible(s, ev, lower)
    ensures NoneDangling(Apply(s, ev, lower)) <==> Lasting(s, ev)
  {
    match ev
    case Create(user, id, emails, end) => CreateDanglesIff(s, user, id, emails, end, lower);
    case Delete(user, id, end) =>
      if k :| k in s.cache && s.cache[k] == Hit(id) {
        assert AfterDelete(s, user, id, end).cache[k] == Hit(id);
      }
    case Match(user, sender, answer) =>
    case Assign(user, id, raw, end) =>
    case Remove(user, id, raw, early, end) =>
    case Expire(key) =>
  }

  /** Every cached contact exists, belongs to that user and has that address. */
  ghost predicate Exact(s: State) {
    forall k | k in s.cache && s.cache[k].Hit? :: HasEmail(s, k.0, s.cache[k].id, k.1)
  }

  lemma ExactIff(s: State)
    requires Coherent(s)
    ensures Exact(s) <==> NoneDangling(s)
  {
  }

  ghost predicate AllLasting(s: State, evs: seq<Event>, lower: string -> string)
    decreases |evs|
  {
    evs != [] ==> Lasting(s, evs[0]) && AllLasting(Apply(s, evs[0], lower), evs[1..], lower)
  }

  lemma {:induction false} LastingRunsStayExactFrom(s: State, evs: seq<Event>, lower: string -> string)
    requires Coherent(s) && NoneDangling(s) && LowerCase(s, lower) && Idempotent(lower)
    requires Clean(s, evs, lower) && AllLasting(s, evs, lower)
    ensures Coherent(Run(s, evs, lower)) && NoneDangling(Run(s, evs, lower))
    decreases |evs|
  {
    if evs != [] {
      StepKeepsCoherenceIff(s, evs[0], lower);
      StepKeepsLowerCase(s, evs[0], lower);
      StepKeepsNoneDanglingIff(s, evs[0], lower);
      LastingRunsStayExactFrom(Apply(s, evs[0], lower), evs[1..], lower);
    }
  }

  /** Over any run without the two harmful events in which no contact with cached entries is deleted and no creation is
      rolled back behind a cache write, every cached hit names an existing contact of that user with that address. */
  lemma LastingRunsStayExact(evs: seq<Event>, lower: string -> string)
    requires Idempotent(lower)
    requires Clean(State(map[], map[]), evs, lower) && AllLasting(State(map[], map[]), evs, lower)
    ensures Exact(Run(State(map[], map[]), evs, lower))
  {
    LastingRunsStayExactFrom(State(map[], map[]), evs, lower);
    ExactIff(Run(State(map[], map[]), evs, lower));
  }

  /** The first event that is not lasting ends it: a run stays exact up to an event if and only if that event is lasting. */
  lemma LastingIsNeeded(s: State, ev: Event, lower: string -> string)
    requires Coherent(s) && NoneDangling(s) && LowerCase(s, lower) && Possible(s, ev, lower) && Harmless(s, ev, lower)
    ensures Exact(Apply(s, ev, lower)) <==> Lasting(s, ev)
  {
    StepKeepsCoherenceIff(s, ev, lower);
    StepKeepsNoneDanglingIff(s, ev, lower);
    ExactIff(Apply(s, ev, lower));
  }
}
