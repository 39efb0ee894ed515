/** Contacts and the cache that answers which contact an address belongs to
    (backend/app/api/contacts.py, backend/app/services/contacts/matching.py, backend/app/services/contacts/writeback.py,
    backend/app/services/spam.py). */
module ContactCache {
  import opened Prelude
  import opened Text

  datatype Contact = Contact(user: nat, emails: seq<string>)

  /** A cached answer: a contact id, or the string "none". */
  datatype Entry = Hit(id: nat) | Miss

  type Key = (nat, string)

  datatype State = State(contacts: map<nat, Contact>, cache: map<Key, Entry>)

  /** How a request ends: normally; with an exception of the cache behind so many cache writes; or with a commit that
      fails behind all of them.  In the last two cases the session is rolled back and the cache is not. */
  datatype End = Done | CacheDown(written: nat) | CommitFails

  /** Attempts of the write-back, as the address book answers them. */
  datatype Attempt = FetchFails | PutDone | PutDoneCacheDown | Conflict | PutFails | Raises

  /** The user's address book: whether one is active, whether its credentials decrypt, and its answers. */
  datatype Book = Book(active: bool, decrypts: bool, attempts: seq<Attempt>)

  const MAX_RETRIES := 2

  ghost predicate Idempotent(lower: string -> string) {
    forall s :: lower(lower(s)) == lower(s)
  }

  // ---- what each request does to the state -----------------------------------------------------

  function Lowered(emails: seq<string>, lower: string -> string): (r: seq<string>)
    ensures |r| == |emails| && forall i | 0 <= i < |r| :: r[i] == lower(emails[i])
  {
    seq(|emails|, i requires 0 <= i < |emails| => lower(emails[i]))
  }

  function Without(emails: seq<string>, e: string, lower: string -> string): (r: seq<string>)
    ensures forall x :: x in r <==> x in emails && lower(x) != e
  {
    if emails == [] then []
    else (if lower(emails[0]) != e then [emails[0]] else []) + Without(emails[1..], e, lower)
  }

  function Cached(cache: map<Key, Entry>, user: nat, emails: seq<string>, id: nat): map<Key, Entry> {
    cache + map e | e in emails :: (user, e) := Hit(id)
  }

  function Upto<T>(xs: seq<T>, n: nat): seq<T> {
    if n <= |xs| then xs[..n] else xs
  }

  predicate Owned(s: State, user: nat, id: nat) {
    id in s.contacts && s.contacts[id].user == user
  }

  function AfterCreate(s: State, user: nat, id: nat, emails: seq<string>, end: End, lower: string -> string): State {
    var es := Lowered(emails, lower);
    match end
    case Done => State(s.contacts[id := Contact(user, es)], Cached(s.cache, user, es, id))
    case CacheDown(n) => s.(cache := Cached(s.cache, user, Upto(es, n), id))
    case CommitFails => s.(cache := Cached(s.cache, user, es, id))
  }

  /** The addresses of a contact behind an assignment. */
  function Added(emails: seq<string>, e: string, lower: string -> string): seq<string> {
    if e in Lowered(emails, lower) then emails else emails + [e]
  }

  function AfterAssign(s: State, user: nat, id: nat, e: string, end: End, lower: string -> string): State {
    if !Owned(s, user, id) then s
    else
      var c := s.contacts[id];
      match end
      case Done => State(s.contacts[id := c.(emails := Added(c.emails, e, lower))], s.cache[(user, e) := Hit(id)])
      case CacheDown(_) => s
      case CommitFails => s.(cache := s.cache[(user, e) := Hit(id)])
  }

  /** `early` says that the write-back succeeded; it commits on its own. */
  function AfterRemove(s: State, user: nat, id: nat, e: string, early: bool, end: End, lower: string -> string): State {
    if !Owned(s, user, id) then s
    else
      var c := s.contacts[id];
      var kept := s.contacts[id := c.(emails := Without(c.emails, e, lower))];
      var committed := end.Done? || (early && e in Lowered(c.emails, lower));
      State(if committed then kept else s.contacts, if end.CacheDown? then s.cache else s.cache - {(user, e)})
  }

  function AfterDelete(s: State, user: nat, id: nat, end: End): State {
    if Owned(s, user, id) && end.Done? then s.(contacts := s.contacts - {id}) else s
  }

  /** How one write-back ends: whether it reports success and whether the cache entry was dropped; how often the address
      was added to the contact, each time committed at once; and how many requests changed the address book. */
  datatype WriteBack = WriteBack(ok: bool, dropped: bool, added: nat, sent: nat)

  /** Attempts beyond the listed ones raise. */
  function At(attempts: seq<Attempt>, k: nat): Attempt {
    if k < |attempts| then attempts[k] else Raises
  }

  /** Attempts n, n+1, ... up to the third. */
  function WriteBackRun(attempts: seq<Attempt>, n: nat): WriteBack
    decreases MAX_RETRIES + 1 - n
  {
    if n > MAX_RETRIES then WriteBack(false, false, 0, 0)
    else
      match At(attempts, n)
      case FetchFails => WriteBack(false, false, 0, 0)
      case PutDone => WriteBack(true, true, 1, 1)
      case PutFails => WriteBack(false, false, 0, 1)
      case PutDoneCacheDown =>
        var r := WriteBackRun(attempts, n + 1);
        r.(added := r.added + 1, sent := r.sent + 1)
      case Conflict =>
        var r := WriteBackRun(attempts, n + 1);
        r.(sent := r.sent + 1)
      case Raises => WriteBackRun(attempts, n + 1)
  }

  function Repeated(e: string, n: nat): (r: seq<string>)
    ensures |r| == n && forall i | 0 <= i < n :: r[i] == e
  {
    seq(n, _ => e)
  }

  /** The contact with the address added n times. */
  function WithMore(c: Contact, e: string, n: nat): Contact {
    c.(emails := c.emails + Repeated(e, n))
  }

  lemma OneMore(c: Contact, e: string, n: nat)
    ensures WithMore(c, e, 0) == c
    ensures WithMore(c, e, n).(emails := WithMore(c, e, n).emails + [e]) == WithMore(c, e, n + 1)
  {
    assert Repeated(e, n) + [e] == Repeated(e, n + 1);
    assert c.emails + Repeated(e, 0) == c.emails;
    assert c.emails + Repeated(e, n) + [e] == c.emails + (Repeated(e, n) + [e]);
  }

  predicate Ends(a: Attempt) {
    a == FetchFails || a == PutDone || a == PutFails
  }

  /** Attempt k is made, the first one being n, and the address book carries it out. */
  predicate Adds(attempts: seq<Attempt>, n: nat, k: nat) {
    (At(attempts, k) == PutDone || At(attempts, k) == PutDoneCacheDown) && forall j: nat | n <= j < k :: !Ends(At(attempts, j))
  }

  function Adding(attempts: seq<Attempt>, n: nat): set<nat> {
    set k: nat | n <= k <= MAX_RETRIES && Adds(attempts, n, k)
  }

  lemma AddingStep(attempts: seq<Attempt>, n: nat)
    requires n <= MAX_RETRIES
    ensures var a := At(attempts, n);
      Adding(attempts, n) == (if a == PutDone || a == PutDoneCacheDown then {n} else {})
        + (if Ends(a) then {} else Adding(attempts, n + 1))
    ensures n !in Adding(attempts, n + 1)
  {
  }

  /** The address is added once for each attempt that is made and carried out.  Success means that it was added and the
      entry dropped. */
  lemma {:induction false} WriteBackMeans(attempts: seq<Attempt>, n: nat)
    requires n <= MAX_RETRIES + 1
    ensures var r := WriteBackRun(attempts, n);
      && r.added == |Adding(attempts, n)| && r.added <= r.sent <= MAX_RETRIES + 1 - n
      && (r.ok <==> r.dropped)
      && (r.ok <==> exists k :: k in Adding(attempts, n) && At(attempts, k) == PutDone)
    decreases MAX_RETRIES + 1 - n
  {
    if n <= MAX_RETRIES {
      AddingStep(attempts, n);
      WriteBackMeans(attempts, n + 1);
    } else {
      assert Adding(attempts, n) == {};
    }
  }

  lemma TwoMembers(xs: set<nat>)
    ensures |xs| > 1 <==> exists j, k :: j in xs && k in xs && j < k
  {
    if |xs| > 1 {
      var j :| j in xs;
      assert |xs - {j}| > 0;
      var k :| k in xs - {j};
      assert j < k || k < j;
    }
    if j, k :| j in xs && k in xs && j < k {
      assert |{j, k}| == 2 && {j, k} <= xs;
      assert |xs| == |{j, k}| + |xs - {j, k}| by { assert xs == {j, k} + (xs - {j, k}); }
    }
  }

  /** The address is stored more than once exactly when the cache fails behind an attempt that is made and carried out, and
      a later one is made and carried out too. */
  lemma AddsTwiceIff(attempts: seq<Attempt>)
    ensures WriteBackRun(attempts, 0).added > 1
      <==> exists j, k :: j < k && j in Adding(attempts, 0) && k in Adding(attempts, 0) && At(attempts, j) == PutDoneCacheDown
  {
    WriteBackMeans(attempts, 0);
    TwoMembers(Adding(attempts, 0));
    forall j, k | j in Adding(attempts, 0) && k in Adding(attempts, 0) && j < k
      ensures At(attempts, j) == PutDoneCacheDown
    {
      assert !Ends(At(attempts, j));
    }
  }

  /** If the cache fails behind all three attempts, the address is stored three times and failure is reported. */
  lemma AddsThrice(attempts: seq<Attempt>)
    requires forall k | 0 <= k <= MAX_RETRIES :: At(attempts, k) == PutDoneCacheDown
    ensures WriteBackRun(attempts, 0) == WriteBack(false, false, 3, 3)
  {
    assert WriteBackRun(attempts, 3) == WriteBack(false, false, 0, 0);
    assert WriteBackRun(attempts, 2) == WriteBack(false, false, 1, 1);
    assert WriteBackRun(attempts, 1) == WriteBack(false, false, 2, 2);
  }

  // ---- what the cache must keep ----------------------------------------------------------------

  predicate HasEmail(s: State, user: nat, id: nat, e: string) {
    id in s.contacts && s.contacts[id].user == user && e in s.contacts[id].emails
  }

  /** Every cached contact that still exists belongs to that user and has that address, and what is cached as unknown
      is unknown. */
  ghost predicate Coherent(s: State) {
    && (forall k | k in s.cache && s.cache[k].Hit? && s.cache[k].id in s.contacts :: HasEmail(s, k.0, s.cache[k].id, k.1))
    && (forall k, id | k in s.cache && s.cache[k].Miss? && id in s.contacts :: !HasEmail(s, k.0, id, k.1))
  }

  /** Every cached contact exists. */
  ghost predicate NoneDangling(s: State) {
    forall k | k in s.cache && s.cache[k].Hit? :: s.cache[k].id in s.contacts
  }

  /** Stored addresses are lower-case. */
  ghost predicate LowerCase(s: State, lower: string -> string) {
    forall id, i | id in s.contacts && 0 <= i < |s.contacts[id].emails| ::
      lower(s.contacts[id].emails[i]) == s.contacts[id].emails[i]
  }

  /** A new UUID is not the id of a contact and not in the cache. */
  ghost predicate Unused(s: State, id: nat) {
    id !in s.contacts && forall k | k in s.cache :: s.cache[k] != Hit(id)
  }

  // ---- the service -------------------------------------------------------------------------

  lemma CachedOneMore(cache: map<Key, Entry>, user: nat, es: seq<string>, i: nat, id: nat)
    requires i < |es|
    ensures Cached(cache, user, es[..i], id)[(user, es[i]) := Hit(id)] == Cached(cache, user, es[..i + 1], id)
  {
    assert es[..i + 1] == es[..i] + [es[i]];
  }

  lemma {:induction false} WithoutIsIdentity(emails: seq<string>, e: string, lower: string -> string)
    requires e !in Lowered(emails, lower)
    ensures Without(emails, e, lower) == emails
  {
    if emails != [] {
      assert Lowered(emails, lower)[0] == lower(emails[0]);
      assert forall i | 0 <= i < |emails| - 1 :: Lowered(emails[1..], lower)[i] == Lowered(emails, lower)[i + 1];
      WithoutIsIdentity(emails[1..], e, lower);
    }
  }

  /** The cached answer, if it is used. */
  function FromCache(s: State, key: Key): Option<Option<nat>> {
    if key !in s.cache then None
    else
      match s.cache[key]
      case Miss => Some(None)
      case Hit(id) => if id in s.contacts then Some(Some(id)) else None
  }

  ghost predicate Right(s: State, user: nat, e: string, r: Option<nat>) {
    match r
    case Some(id) => HasEmail(s, user, id, e)
    case None => forall id | id in s.contacts :: !HasEmail(s, user, id, e)
  }

  /** What the matcher may answer. */
  ghost predicate Answers(s: State, user: nat, e: string, r: Option<nat>) {
    match FromCache(s, (user, e))
    case Some(a) => r == a
    case None => Right(s, user, e, r)
  }

  function AfterMatch(s: State, user: nat, e: string, r: Option<nat>): State {
    if FromCache(s, (user, e)).Some? then s
    else s.(cache := s.cache[(user, e) := match r case Some(id) => Hit(id) case None => Miss])
  }

  class Contacts {
    var contacts: map<nat, Contact>
    var cache: map<Key, Entry>
    /** Requests that change the address book upstream. */
    var puts: nat
    const lower: string -> string

    constructor (lower: string -> string)
      ensures contacts == map[] && cache == map[] && puts == 0 && this.lower == lower
    {
      contacts, cache, puts, this.lower := map[], map[], 0, lower;
    }

    function Now(): State
      reads this
    {
      State(contacts, cache)
    }

    method CreateContact(user: nat, id: nat, emails: seq<string>, end: End)
      requires id !in contacts && Idempotent(lower)
      modifies this
      ensures Now() == AfterCreate(old(Now()), user, id, emails, end, lower)
      ensures puts == old(puts)
    {
      var before := contacts;
      var es := Lowered(emails, lower);
      contacts := contacts[id := Contact(user, es)];
      ghost var was := cache;
      for i := 0 to |es|
        invariant contacts == before[id := Contact(user, es)] && puts == old(puts)
        invariant cache == Cached(was, user, es[..i], id)
        invariant end.CacheDown? ==> i <= end.written
      {
        if end.CacheDown? && end.written == i {
          contacts := before;
          return;
        }
        assert es[i] == lower(emails[i]);
        cache := cache[(user, lower(es[i])) := Hit(id)];
        CachedOneMore(was, user, es, i, id);
      }
      assert es[..|es|] == es;
      if !end.Done? { contacts := before; }
    }

    /** One attempt; a value ends the loop. */
    method TryWriteBack(id: nat, e: string, reply: Attempt) returns (end: Option<bool>)
      requires id in contacts
      modifies this
      ensures end == match reply
        case FetchFails | PutFails => Some(false)
        case PutDone => Some(true)
        case PutDoneCacheDown | Conflict | Raises => None
      ensures puts == old(puts) + if reply == FetchFails || reply == Raises then 0 else 1
      ensures contacts == if reply == PutDone || reply == PutDoneCacheDown
        then old(contacts)[id := old(contacts[id]).(emails := old(contacts[id].emails) + [e])] else old(contacts)
      ensures cache == if reply == PutDone then old(cache) - {(old(contacts[id].user), e)} else old(cache)
    {
      end := None;
      match reply {
        case FetchFails => end := Some(false);
        case PutDone =>
          puts := puts + 1;
          contacts := contacts[id := contacts[id].(emails := contacts[id].emails + [e])];
          cache := cache - {(contacts[id].user, e)};
          end := Some(true);
        case PutDoneCacheDown =>
          puts := puts + 1;
          contacts := contacts[id := contacts[id].(emails := contacts[id].emails + [e])];
        case PutFails =>
          puts := puts + 1;
          end := Some(false);
        case Conflict => puts := puts + 1;
        case Raises =>
      }
    }

    /** Writing an address back to the address book; nothing is sent for an address the contact already has. */
    method WriteBackEmail(id: nat, email: string, book: Book) returns (ok: bool)
      requires id in contacts
      modifies this
      ensures contacts.Keys == old(contacts).Keys
      ensures lower(email) in Lowered(old(contacts[id].emails), lower) ==>
                ok && Now() == old(Now()) && puts == old(puts)
      ensures lower(email) !in Lowered(old(contacts[id].emails), lower) ==>
                var c, r := old(contacts[id]), WriteBackRun(book.attempts, 0);
                && ok == r.ok && puts == old(puts) + r.sent
                && contacts == old(contacts)[id := WithMore(c, lower(email), r.added)]
                && cache == if r.dropped then old(cache) - {(c.user, lower(email))} else old(cache)
    {
      var e := lower(email);
      if e in Lowered(contacts[id].emails, lower) { return true; }
      var before, added := contacts[id], 0;
      OneMore(before, e, 0);
      assert contacts == contacts[id := before];
      ghost var total := WriteBackRun(book.attempts, 0);
      for attempt := 0 to MAX_RETRIES + 1
        invariant contacts == old(contacts)[id := WithMore(before, e, added)]
        invariant cache == old(cache) && puts >= old(puts)
        invariant var r := WriteBackRun(book.attempts, attempt);
          && total.ok == r.ok && total.dropped == r.dropped
          && total.added == r.added + added && total.sent == r.sent + (puts - old(puts))
      {
        var reply := At(book.attempts, attempt);
        OneMore(before, e, added);
        var end := TryWriteBack(id, e, reply);
        if end.Some? { return end.value; }
        if reply == PutDoneCacheDown { added := added + 1; }
      }
      ok := false;
    }

    /** Assigning an address.  Whatever the address book would answer, nothing is ever sent to it: the address is
        added to the contact first, and the write-back skips addresses the contact has. */
    method AssignEmail(user: nat, id: nat, raw: string, book: Book, end: End)
      returns (found: bool, writebackTriggered: bool)
      requires Idempotent(lower)
      modifies this
      ensures found == Owned(old(Now()), user, id)
      ensures Now() == AfterAssign(old(Now()), user, id, lower(Strip(raw)), end, lower)
      ensures puts == old(puts)
      ensures writebackTriggered <==>
                (found && book.active && book.decrypts && lower(Strip(raw)) !in Lowered(old(contacts)[id].emails, lower))
    {
      var e := lower(Strip(raw));
      if id !in contacts || contacts[id].user != user { return false, false; }
      found, writebackTriggered := true, false;
      var before := contacts;
      if e !in Lowered(contacts[id].emails, lower) {
        var more := contacts[id].emails + [e];
        contacts := contacts[id := contacts[id].(emails := more)];
        if book.active && book.decrypts {
          assert Lowered(more, lower)[|more| - 1] == lower(e);
          var _ := WriteBackEmail(id, e, book);
          writebackTriggered := true;
        }
      }
      assert contacts == before[id := before[id].(emails := Added(before[id].emails, e, lower))];
      if end.CacheDown? {
        contacts := before;
        return;
      }
      cache := cache[(user, e) := Hit(id)];
      if end.CommitFails? { contacts := before; }
    }

    method RemoveEmail(user: nat, id: nat, raw: string, early: bool, end: End) returns (found: bool)
      modifies this
      ensures found == Owned(old(Now()), user, id)
      ensures Now() == AfterRemove(old(Now()), user, id, lower(Strip(raw)), early, end, lower)
    {
      var e := lower(Strip(raw));
      if id !in contacts || contacts[id].user != user { return false; }
      found := true;
      var savepoint := contacts;
      if e in Lowered(contacts[id].emails, lower) {
        contacts := contacts[id := contacts[id].(emails := Without(contacts[id].emails, e, lower))];
        if early {
          savepoint := contacts;
          if !end.CacheDown? { cache := cache - {(user, e)}; }
        }
      } else {
        WithoutIsIdentity(contacts[id].emails, e, lower);
        assert contacts[id := contacts[id].(emails := contacts[id].emails)] == contacts;
      }
      if end.CacheDown? {
        contacts := savepoint;
        return;
      }
      cache := cache - {(user, e)};
      if end.CommitFails? { contacts := savepoint; }
    }

    /** Deleting a contact, on request or because it was reported as spam, does not touch the cache. */
    method DeleteContact(user: nat, id: nat, end: End) returns (found: bool)
      modifies this
      ensures found == Owned(old(Now()), user, id)
      ensures Now() == AfterDelete(old(Now()), user, id, end) && cache == old(cache)
    {
      if id !in contacts || contacts[id].user != user { return false; }
      found := true;
      var before := contacts;
      contacts := contacts - {id};
      if !end.Done? { contacts := before; }
    }

    /** Which contact a sender belongs to: the cache first; a cached contact that is gone is looked up again, and what
        was looked up is cached. */
    method MatchSender(user: nat, sender: string) returns (r: Option<nat>)
      modifies this`cache
      ensures Answers(old(Now()), user, lower(sender), r)
      ensures Now() == AfterMatch(old(Now()), user, lower(sender), r)
    {
      var key := (user, lower(sender));
      if key in cache {
        match cache[key] {
          case Miss => return None;
          case Hit(id) => if id in contacts { return Some(id); }
        }
      }
      var found := set id | id in contacts && HasEmail(Now(), user, id, key.1);
      if found != {} {
        var id :| id in found;
        cache := cache[key := Hit(id)];
        r := Some(id);
      } else {
        assert forall id | id in contacts :: HasEmail(Now(), user, id, key.1) ==> id in found;
        cache := cache[key := Miss];
        r := None;
      }
    }
  }

  // ---- matching ----------------------------------------------------------------------------

  /** The matcher is right about every sender of every user exactly when the cache is coherent.  Entries that name a
      deleted contact do no harm. */
  lemma CoherentIffMatchingIsRight(s: State)
    ensures Coherent(s) <==> forall user, e, r :: Answers(s, user, e, r) ==> Right(s, user, e, r)
  {
    if Coherent(s) {
      forall user, e, r | Answers(s, user, e, r) ensures Right(s, user, e, r) {
        var key := (user, e);
        assert key.0 == user && key.1 == e;
      }
    } else {
      if k :| k in s.cache && s.cache[k].Hit? && s.cache[k].id in s.contacts && !HasEmail(s, k.0, s.cache[k].id, k.1) {
        assert (k.0, k.1) == k;
        assert Answers(s, k.0, k.1, Some(s.cache[k].id)) && !Right(s, k.0, k.1, Some(s.cache[k].id));
      } else {
        var k, id :| k in s.cache && s.cache[k].Miss? && id in s.contacts && HasEmail(s, k.0, id, k.1);
        assert (k.0, k.1) == k;
        assert Answers(s, k.0, k.1, None) && !Right(s, k.0, k.1, None);
      }
    }
  }

  // ---- what the requests do ------------------------------------------------------------------

  /** A request that ends normally does to the contact what it says: a new contact has the given addresses, lower-cased;
      an assigned address is there; a removed one is not; every other address and every other contact stays. */
  lemma CreatedHas(s: State, user: nat, id: nat, emails: seq<string>, lower: string -> string)
    ensures var t := AfterCreate(s, user, id, emails, Done, lower);
      && id in t.contacts && t.contacts[id].user == user
      && (forall e :: e in t.contacts[id].emails <==> exists i | 0 <= i < |emails| :: e == lower(emails[i]))
      && (forall k | k in s.contacts && k != id :: k in t.contacts && t.contacts[k] == s.contacts[k])
  {
    var t := AfterCreate(s, user, id, emails, Done, lower);
    forall e ensures e in t.contacts[id].emails <==> exists i | 0 <= i < |emails| :: e == lower(emails[i]) {
      if i :| 0 <= i < |emails| && e == lower(emails[i]) { assert t.contacts[id].emails[i] == e; }
    }
  }

  lemma AssignedHas(s: State, user: nat, id: nat, e: string, lower: string -> string)
    requires id in s.contacts && s.contacts[id].user == user
    ensures var t := AfterAssign(s, user, id, e, Done, lower);
      && t.contacts.Keys == s.contacts.Keys && t.contacts[id].user == user
      && (e in t.contacts[id].emails || exists x | x in t.contacts[id].emails :: lower(x) == e)
      && (forall x | x in s.contacts[id].emails :: x in t.contacts[id].emails)
      && (forall x | x in t.contacts[id].emails :: x == e || x in s.contacts[id].emails)
      && (forall k | k in s.contacts && k != id :: t.contacts[k] == s.contacts[k])
  {
    var c, t := s.contacts[id], AfterAssign(s, user, id, e, Done, lower);
    if e in Lowered(c.emails, lower) {
      var i :| 0 <= i < |c.emails| && Lowered(c.emails, lower)[i] == e;
      assert c.emails[i] in t.contacts[id].emails && lower(c.emails[i]) == e;
    } else {
      assert t.contacts[id].emails[|c.emails|] == e;
    }
  }

  lemma RemovedHas(s: State, user: nat, id: nat, e: string, early: bool, end: End, lower: string -> string)
    requires id in s.contacts && s.contacts[id].user == user && (end.Done? || (early && e in Lowered(s.contacts[id].emails, lower)))
    ensures var t := AfterRemove(s, user, id, e, early, end, lower);
      && t.contacts.Keys == s.contacts.Keys && t.contacts[id].user == user
      && (forall x :: x in t.contacts[id].emails <==> x in s.contacts[id].emails && lower(x) != e)
      && (forall k | k in s.contacts && k != id :: t.contacts[k] == s.contacts[k])
  {
  }

  /** What was looked up is remembered: asked again, the cache gives the same answer. */
  lemma MatchIsRemembered(s: State, user: nat, e: string, r: Option<nat>)
    requires Answers(s, user, e, r)
    ensures var t := AfterMatch(s, user, e, r);
      && t.contacts == s.contacts && FromCache(t, (user, e)) == Some(r)
      && (forall again :: Answers(t, user, e, again) <==> again == r)
      && (forall k | k in s.cache && k != (user, e) :: k in t.cache && t.cache[k] == s.cache[k])
  {
  }
}
