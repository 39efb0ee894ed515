/** What a reset keeps, for INBOX too: there the messages are moved, or copied and expunged, within one mailbox
    (backend/app/services/mail.py, backend/app/api/folders.py). */
module ResetSafety {
  import opened Prelude
  import opened ImapServer
  import opened ImapMoves
  import opened ImapBatch

  predicate InUse(b: Mailbox) {
    forall u | u in b.messages :: u < b.uidNext
  }

  predicate HasFlag(b: Mailbox, u: nat)
    requires u in b.messages
  {
    DELETED in b.messages[u].flags
  }

  // ---- deliveries ----------------------------------------------------------------------------

  lemma DeliveredAt(c: Mailbox, ms: seq<Message>, i: nat)
    requires i < |ms|
    ensures var r := Deliver(c, ms); c.uidNext + i in r.messages && r.messages[c.uidNext + i] == ms[i]
  {
  }

  lemma DeliveredTo(b: Mailbox, c: Mailbox, uids: set<nat>, u: nat) returns (n: nat)
    requires InUse(b) && InUse(c) && u in uids && u in b.messages
    ensures var r := Deliver(c, Contents(b, uids)); n >= c.uidNext && n in r.messages && r.messages[n] == b.messages[u]
  {
    var ms, l := Contents(b, uids), Listing(b, uids, 0);
    var i :| 0 <= i < |l| && l[i] == u;
    n := c.uidNext + i;
    DeliveredAt(c, ms, i);
  }

  lemma DeliveredFrom(b: Mailbox, c: Mailbox, uids: set<nat>, n: nat) returns (u: nat)
    requires InUse(c) && n >= c.uidNext && n in Deliver(c, Contents(b, uids)).messages
    ensures u in uids && u in b.messages && b.messages[u] == Deliver(c, Contents(b, uids)).messages[n]
  {
    var l := Listing(b, uids, 0);
    u := l[n - c.uidNext];
    assert Contents(b, uids)[n - c.uidNext] == b.messages[u];
  }

  /** INBOX when MOVE has taken some of its messages to itself. */
  function Moved(b: Mailbox, taken: set<nat>): Mailbox {
    Deliver(Without(b, taken), Contents(b, taken))
  }

  /** ... and when COPY has doubled the others. */
  function Copied(b: Mailbox, taken: set<nat>): Mailbox {
    Deliver(Moved(b, taken), Contents(Moved(b, taken), b.messages.Keys))
  }

  lemma MovedInUse(b: Mailbox, taken: set<nat>)
    requires InUse(b)
    ensures InUse(Moved(b, taken)) && b.uidNext <= Moved(b, taken).uidNext
    ensures InUse(Copied(b, taken)) && Moved(b, taken).uidNext <= Copied(b, taken).uidNext
  {
  }

  /** Every message has a place in INBOX behind all old ones. */
  lemma CopiedHas(b: Mailbox, taken: set<nat>, u: nat) returns (n: nat)
    requires InUse(b) && u in b.messages
    ensures n >= b.uidNext && n in Copied(b, taken).messages && Copied(b, taken).messages[n] == b.messages[u]
  {
    MovedInUse(b, taken);
    if u in taken {
      n := DeliveredTo(b, Without(b, taken), taken, u);
    } else {
      n := DeliveredTo(Moved(b, taken), Moved(b, taken), b.messages.Keys, u);
    }
  }

  /** What stands behind the old places is one of the messages. */
  lemma CopiedFrom(b: Mailbox, taken: set<nat>, n: nat) returns (u: nat)
    requires InUse(b) && n >= b.uidNext && n in Copied(b, taken).messages
    ensures u in b.messages && b.messages[u] == Copied(b, taken).messages[n]
  {
    MovedInUse(b, taken);
    if n < Moved(b, taken).uidNext {
      u := DeliveredFrom(b, Without(b, taken), taken, n);
    } else {
      u := DeliveredFrom(Moved(b, taken), Moved(b, taken), b.messages.Keys, n);
    }
  }

  // ---- what the commands leave ---------------------------------------------------------------

  /** What MOVE has taken. */
  function Took(s: Server, canMove: bool, sc: BatchScript): set<nat>
    requires INBOX in s
  {
    if canMove then Taken(s, s[INBOX].messages.Keys, sc) else {}
  }

  lemma NothingMoved(s: Server)
    requires Valid(s) && INBOX in s
    ensures MoveEffect(s, INBOX, {}, INBOX) == s
  {
    ListingNone(s[INBOX], {}, 0);
    assert s[INBOX].messages - {} == s[INBOX].messages;
  }

  /** The three commands follow, and EXPUNGE takes effect. */
  predicate Purges(canMove: bool, sc: BatchScript) {
    Selects(sc) && !(canMove && sc.move.Ok?) && sc.copy.Ok? && sc.store.Ok? && Takes(sc.expunge, true)
  }

  lemma MovedWithin(s: Server, taken: set<nat>)
    requires INBOX in s
    ensures MoveEffect(s, INBOX, taken, INBOX) == s[INBOX := Moved(s[INBOX], taken)]
  {
  }

  /** MOVE within INBOX, and the three commands unless it was answered OK. */
  lemma InboxMove(s: Server, canMove: bool, sc: BatchScript)
    requires Valid(s) && INBOX in s
    ensures var s1, all := s[INBOX := Moved(s[INBOX], Took(s, canMove, sc))], s[INBOX].messages.Keys;
      BatchMove(s, canMove, INBOX, all, sc).0 == if canMove && sc.move.Ok? then s1 else BatchFallback(s1, INBOX, all, sc).0
  {
    MovedWithin(s, Took(s, canMove, sc));
    if !canMove { NothingMoved(s); }
  }

  lemma InboxRun(s: Server, canMove: bool, sc: BatchScript)
    requires Valid(s) && INBOX in s && s[INBOX].messages != map[]
    ensures var t, s1 := MoveAllRun(s, canMove, INBOX, sc).0, s[INBOX := Moved(s[INBOX], Took(s, canMove, sc))];
      t == if !Selects(sc) then s
           else if canMove && sc.move.Ok? then s1
           else BatchFallback(s1, INBOX, s[INBOX].messages.Keys, sc).0
  {
    assert ToSet(AllUids(s, INBOX)) == s[INBOX].messages.Keys;
    var u0 :| u0 in s[INBOX].messages;
    assert u0 in AllUids(s, INBOX);
    InboxMove(s, canMove, sc);
  }

  /** What MOVE and COPY left is only flagged. */
  lemma UnpurgedKeepsPlaces(s: Server, taken: set<nat>, sc: BatchScript)
    requires Valid(s) && INBOX in s && !(sc.copy.Ok? && sc.store.Ok? && Takes(sc.expunge, true))
    ensures var b := s[INBOX];
      var t := BatchFallback(s[INBOX := Moved(b, taken)], INBOX, b.messages.Keys, sc).0;
      var c := if Takes(sc.copy, true) then Copied(b, taken) else Moved(b, taken);
      forall n: nat | n in c.messages :: Holds(t, INBOX, n, c.messages[n].id)
  {
  }

  /** Without that every message stays or has a new place, and no other mailbox changes. */
  lemma UnpurgedFallback(s: Server, taken: set<nat>, sc: BatchScript, u: nat)
    requires Valid(s) && INBOX in s && u in s[INBOX].messages
    requires !(sc.copy.Ok? && sc.store.Ok? && Takes(sc.expunge, true))
    ensures var s1 := s[INBOX := Moved(s[INBOX], taken)];
      var t := BatchFallback(s1, INBOX, s[INBOX].messages.Keys, sc).0;
      && (u !in taken ==> Holds(t, INBOX, u, s[INBOX].messages[u].id))
      && (u in taken || Takes(sc.copy, true) ==> InInbox(s, t, INBOX, u))
  {
    var b := s[INBOX];
    var t := BatchFallback(s[INBOX := Moved(b, taken)], INBOX, b.messages.Keys, sc).0;
    MovedInUse(b, taken);
    UnpurgedKeepsPlaces(s, taken, sc);
    if u in taken {
      var n := DeliveredTo(b, Without(b, taken), taken, u);
      assert Holds(t, INBOX, n, b.messages[u].id);
    } else if Takes(sc.copy, true) {
      var n := CopiedHas(b, taken, u);
      assert Holds(t, INBOX, n, b.messages[u].id);
    }
  }

  /** With it exactly the messages that are not flagged are left, all in new places. */
  lemma PurgedRest(s: Server, taken: set<nat>, sc: BatchScript)
    requires Valid(s) && INBOX in s && sc.copy.Ok? && sc.store.Ok? && Takes(sc.expunge, true)
    ensures var b := s[INBOX];
      var t := BatchFallback(s[INBOX := Moved(b, taken)], INBOX, b.messages.Keys, sc).0;
      var c := Copied(b, taken);
      && INBOX in t
      && forall n :: n in t[INBOX].messages <==> n in c.messages && n !in b.messages && !HasFlag(c, n)
    ensures var b := s[INBOX];
      var t := BatchFallback(s[INBOX := Moved(b, taken)], INBOX, b.messages.Keys, sc).0;
      forall n | n in t[INBOX].messages :: t[INBOX].messages[n] == Copied(b, taken).messages[n]
  {
  }

  /** A message with the same content is not flagged. */
  predicate UnflaggedTwin(b: Mailbox, u: nat)
    requires u in b.messages
  {
    exists v | v in b.messages :: !HasFlag(b, v) && b.messages[v].id == b.messages[u].id
  }

  lemma PurgedKeepsIff(s: Server, taken: set<nat>, sc: BatchScript, u: nat)
    requires Valid(s) && INBOX in s && sc.copy.Ok? && sc.store.Ok? && Takes(sc.expunge, true) && u in s[INBOX].messages
    ensures var t := BatchFallback(s[INBOX := Moved(s[INBOX], taken)], INBOX, s[INBOX].messages.Keys, sc).0;
      && (InInbox(s, t, INBOX, u) <==> UnflaggedTwin(s[INBOX], u)) && !Has(t, INBOX, u)
  {
    var b, id := s[INBOX], s[INBOX].messages[u].id;
    var t := BatchFallback(s[INBOX := Moved(b, taken)], INBOX, b.messages.Keys, sc).0;
    PurgedRest(s, taken, sc);
    if v: nat :| v in b.messages && !HasFlag(b, v) && b.messages[v].id == id {
      var n := CopiedHas(b, taken, v);
      assert Holds(t, INBOX, n, id);
    }
    if n: nat :| n >= b.uidNext && Holds(t, INBOX, n, id) {
      var v := CopiedFrom(b, taken, n);
      assert !HasFlag(b, v);
    }
  }

  /** COPY is tried and takes the messages. */
  predicate CopyTakes(canMove: bool, sc: BatchScript) {
    Selects(sc) && !(canMove && sc.move.Ok?) && Takes(sc.copy, true)
  }

  lemma PurgedOne(s: Server, canMove: bool, sc: BatchScript, u: nat)
    requires Valid(s) && INBOX in s && u in s[INBOX].messages && Purges(canMove, sc)
    ensures var t := MoveAllRun(s, canMove, INBOX, sc).0;
      (InInbox(s, t, INBOX, u) <==> UnflaggedTwin(s[INBOX], u)) && !Has(t, INBOX, u)
  {
    InboxRun(s, canMove, sc);
    PurgedKeepsIff(s, Took(s, canMove, sc), sc, u);
  }

  lemma UnpurgedOne(s: Server, canMove: bool, sc: BatchScript, u: nat)
    requires Valid(s) && INBOX in s && u in s[INBOX].messages && !Purges(canMove, sc)
    ensures var t := MoveAllRun(s, canMove, INBOX, sc).0;
      if u in Left(s, canMove, INBOX, sc) && !CopyTakes(canMove, sc) then Holds(t, INBOX, u, s[INBOX].messages[u].id)
      else InInbox(s, t, INBOX, u)
  {
    InboxRun(s, canMove, sc);
    var t, taken := MoveAllRun(s, canMove, INBOX, sc).0, Took(s, canMove, sc);
    if Selects(sc) && canMove && sc.move.Ok? {
      var n := DeliveredTo(s[INBOX], Without(s[INBOX], taken), taken, u);
      assert Holds(t, INBOX, n, s[INBOX].messages[u].id);
    } else if Selects(sc) {
      UnpurgedFallback(s, taken, sc, u);
    }
  }

  lemma InboxKeepsOne(s: Server, canMove: bool, sc: BatchScript, u: nat)
    requires Valid(s) && INBOX in s && u in s[INBOX].messages
    ensures KeptOrInInbox(s, MoveAllRun(s, canMove, INBOX, sc).0, INBOX, u)
      <==> !Purges(canMove, sc) || UnflaggedTwin(s[INBOX], u)
  {
    if Purges(canMove, sc) { PurgedOne(s, canMove, sc, u); } else { UnpurgedOne(s, canMove, sc, u); }
  }

  lemma InboxLeaves(s: Server, canMove: bool, sc: BatchScript, u: nat)
    requires Valid(s) && INBOX in s && u in s[INBOX].messages
    requires !Reached(s, canMove, INBOX, sc) && u in Left(s, canMove, INBOX, sc)
    ensures Keeps(s, MoveAllRun(s, canMove, INBOX, sc).0, INBOX, u)
  {
    InboxRun(s, canMove, sc);
  }

  lemma InboxKeepsOutside(s: Server, canMove: bool, sc: BatchScript)
    requires Valid(s) && INBOX in s
    ensures KeepsOutside(s, MoveAllRun(s, canMove, INBOX, sc).0, INBOX)
  {
    if s[INBOX].messages == map[] {
      EmptyFolderIsSkipped(s, canMove, INBOX, sc);
    } else {
      InboxRun(s, canMove, sc);
      var t := MoveAllRun(s, canMove, INBOX, sc).0;
      assert forall f | f in s && f != INBOX :: t[f] == s[f];
    }
  }

  predicate AllHaveUnflaggedTwins(b: Mailbox) {
    forall u | u in b.messages :: UnflaggedTwin(b, u)
  }

  /** A reset of INBOX keeps every message exactly when EXPUNGE takes no effect behind the copies, or every message that is
      flagged \Deleted has a twin that is not: the copies carry the flag, and EXPUNGE takes them too. */
  lemma InboxKeptIff(s: Server, canMove: bool, sc: BatchScript)
    requires Valid(s) && INBOX in s
    ensures AllKept(s, ResetRun(s, canMove, INBOX, sc), INBOX) <==> !Purges(canMove, sc) || AllHaveUnflaggedTwins(s[INBOX])
  {
    var t := MoveAllRun(s, canMove, INBOX, sc).0;
    assert ResetRun(s, canMove, INBOX, sc) == t;
    InboxKeepsOutside(s, canMove, sc);
    forall u: nat | Has(s, INBOX, u)
      ensures KeptOrInInbox(s, t, INBOX, u) <==> !Purges(canMove, sc) || UnflaggedTwin(s[INBOX], u)
    {
      InboxKeepsOne(s, canMove, sc, u);
    }
    assert AllKept(s, t, INBOX) <==> forall u: nat | Has(s, INBOX, u) :: KeptOrInInbox(s, t, INBOX, u);
    assert forall u: nat | u in s[INBOX].messages :: Has(s, INBOX, u);
  }

  // ---- any folder ------------------------------------------------------------------------------

  /** move_all_to_inbox, on any folder: messages outside it stay.  Its messages all reach INBOX if MOVE took them all or
      COPY took the rest; otherwise those that MOVE took are in INBOX and the others where they were.  On INBOX itself
      EXPUNGE may take the copies too, and then exactly those are left that have a twin which is not flagged. */
  lemma MoveAllDelivers(s: Server, canMove: bool, folder: string, sc: BatchScript)
    requires Valid(s) && folder in s && INBOX in s && s[folder].messages != map[]
    ensures var t := MoveAllRun(s, canMove, folder, sc).0;
      && KeepsOutside(s, t, folder)
      && (folder == INBOX && Purges(canMove, sc) ==>
            forall u: nat | u in s[folder].messages :: InInbox(s, t, folder, u) <==> UnflaggedTwin(s[folder], u))
      && (!(folder == INBOX && Purges(canMove, sc)) && Reached(s, canMove, folder, sc) ==> AllInInbox(s, t, folder))
      && (!Reached(s, canMove, folder, sc) ==>
            && Left(s, canMove, folder, sc) != {}
            && forall u: nat | u in s[folder].messages ::
                 if u in Left(s, canMove, folder, sc) then Keeps(s, t, folder, u) else InInbox(s, t, folder, u))
  {
    if folder == INBOX {
      InboxKeepsOutside(s, canMove, sc);
      forall u: nat | u in s[folder].messages
        ensures var t := MoveAllRun(s, canMove, folder, sc).0;
          && (Purges(canMove, sc) ==> (InInbox(s, t, folder, u) <==> UnflaggedTwin(s[folder], u)))
          && (!Purges(canMove, sc) && Reached(s, canMove, folder, sc) ==> InInbox(s, t, folder, u))
          && (!Reached(s, canMove, folder, sc) ==>
                if u in Left(s, canMove, folder, sc) then Keeps(s, t, folder, u) else InInbox(s, t, folder, u))
      {
        if Purges(canMove, sc) { PurgedOne(s, canMove, sc, u); } else { UnpurgedOne(s, canMove, sc, u); }
        if !Reached(s, canMove, folder, sc) && u in Left(s, canMove, folder, sc) { InboxLeaves(s, canMove, sc, u); }
      }
      var u0 :| u0 in s[folder].messages;
    } else {
      OtherFolderDelivers(s, canMove, folder, sc);
    }
  }

  /** The reset keeps every message exactly when the folder was empty, or was not deleted, or its messages had really
      reached INBOX (or twins of them); and for INBOX, which is never deleted, when it keeps the flagged ones. */
  lemma ResetKeepsIff(s: Server, canMove: bool, folder: string, sc: BatchScript)
    requires Valid(s) && folder in s && INBOX in s
    ensures AllKept(s, ResetRun(s, canMove, folder, sc), folder)
      <==> if folder == INBOX then !Purges(canMove, sc) || AllHaveUnflaggedTwins(s[INBOX])
           else || s[folder].messages == map[] || !Takes(sc.delete, true)
                || Reached(s, canMove, folder, sc) || TwinsTaken(s, canMove, folder, sc)
  {
    if folder == INBOX {
      InboxKeptIff(s, canMove, sc);
    } else {
      OtherFolderKeptIff(s, canMove, folder, sc);
    }
  }

  /** Only an empty folder survives every failure pattern, and an INBOX where every message has a twin that is not
      flagged. */
  lemma ResetIsSafeIff(s: Server, canMove: bool, folder: string)
    requires Valid(s) && folder in s && INBOX in s
    ensures (forall sc :: AllKept(s, ResetRun(s, canMove, folder, sc), folder))
      <==> if folder == INBOX then AllHaveUnflaggedTwins(s[INBOX]) else s[folder].messages == map[]
  {
    if folder == INBOX {
      forall sc ensures AllHaveUnflaggedTwins(s[INBOX]) ==> AllKept(s, ResetRun(s, canMove, folder, sc), folder) {
        InboxKeptIff(s, canMove, sc);
      }
      InboxKeptIff(s, canMove, BatchScript(Ok, Ok, Ok, No, {}, Ok, Ok, Ok, No));
    } else {
      OtherFolderIsSafeIff(s, canMove, folder);
    }
  }

  /** UIDs are reported as moved exactly if the folder has messages, both selections and the listing succeed, and MOVE is
      answered OK, or COPY and STORE are and EXPUNGE does not raise; then all of them are, in ascending order. */
  lemma ReportedIff(s: Server, canMove: bool, folder: string, sc: BatchScript)
    requires Valid(s)
    ensures var moved := MoveAllRun(s, canMove, folder, sc).1;
      && (moved != [] <==>
            && folder in s && s[folder].messages != map[] && INBOX in s
            && sc.selectToList.Ok? && sc.search.Ok? && sc.selectToMove.Ok?
            && ((canMove && sc.move.Ok?) || (sc.copy.Ok? && sc.store.Ok? && !sc.expunge.Raise?)))
      && (moved != [] ==> forall u :: u in moved <==> u in s[folder].messages)
      && (forall i, j | 0 <= i < j < |moved| :: moved[i] < moved[j])
  {
    if folder in s {
      var uids := AllUids(s, folder);
      assert forall u :: u in uids <==> u in s[folder].messages;
      if s[folder].messages != map[] {
        var u0 :| u0 in s[folder].messages;
        assert u0 in uids;
      } else {
        ListingNone(s[folder], s[folder].messages.Keys, 0);
      }
    }
  }
}
