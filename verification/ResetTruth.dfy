/** Both halves of resetting a smart folder together: which rows of tracked_emails say where their mail is afterwards
    (backend/app/api/folders.py). */
module ResetTruth {
  import opened Prelude
  import opened ImapServer
  import opened ImapMoves
  import opened ImapBatch
  import Rows = FolderReset

  /** The content is at this place and nowhere else. */
  ghost predicate OnlyAt(s: Server, f: string, u: nat, id: nat) {
    forall g, n: nat :: Holds(s, g, n, id) <==> g == f && n == u
  }

  ghost predicate OnlyInInbox(t: Server, n: nat, id: nat) {
    forall m: nat :: Holds(t, INBOX, m, id) <==> m == n
  }

  ghost predicate NotInInbox(t: Server, id: nat) {
    forall m: nat :: !Holds(t, INBOX, m, id)
  }

  /** Position of a UID in a listing; there is one. */
  lemma ListedOnce(box: Mailbox, uids: set<nat>, u: nat) returns (k: nat)
    requires u in uids && u in box.messages && u < box.uidNext
    ensures var l := Listing(box, uids, 0); k < |l| && forall i | 0 <= i < |l| :: l[i] == u <==> i == k
  {
    var l := Listing(box, uids, 0);
    k :| 0 <= k < |l| && l[k] == u;
  }

  lemma DeliveredEntry(box: Mailbox, ms: seq<Message>, m: nat, id: nat)
    requires forall u | u in box.messages :: u < box.uidNext
    ensures var r := Deliver(box, ms);
      m in r.messages && r.messages[m].id == id <==>
        if m < box.uidNext then m in box.messages && box.messages[m].id == id
        else m < box.uidNext + |ms| && ms[m - box.uidNext].id == id
  {
    var r := Deliver(box, ms);
    if box.uidNext <= m < box.uidNext + |ms| {
      assert r.messages[box.uidNext + (m - box.uidNext)] == ms[m - box.uidNext];
    }
  }

  lemma InboxEntry(s: Server, t: Server, folder: string, uids: set<nat>, m: nat, id: nat)
    requires Valid(s) && INBOX in s && folder in s && INBOX in t
    requires t[INBOX] == Deliver(s[INBOX], Contents(s[folder], uids))
    ensures var l, next := Listing(s[folder], uids, 0), s[INBOX].uidNext;
      Holds(t, INBOX, m, id) <==>
        if m < next then Holds(s, INBOX, m, id) else m < next + |l| && Holds(s, folder, l[m - next], id)
  {
    DeliveredEntry(s[INBOX], Contents(s[folder], uids), m, id);
  }

  /** Delivering a selection of the folder puts the message into INBOX once if it is selected. */
  lemma DeliveredOnce(s: Server, t: Server, folder: string, uids: set<nat>, u: nat, id: nat) returns (n: nat)
    requires Valid(s) && folder != INBOX && INBOX in s && folder in s && INBOX in t
    requires t[INBOX] == Deliver(s[INBOX], Contents(s[folder], uids))
    requires OnlyAt(s, folder, u, id) && u in uids
    ensures OnlyInInbox(t, n, id)
  {
    assert Holds(s, folder, u, id);
    var k := ListedOnce(s[folder], uids, u);
    var l, next := Listing(s[folder], uids, 0), s[INBOX].uidNext;
    n := next + k;
    forall m: nat ensures Holds(t, INBOX, m, id) <==> m == n {
      InboxEntry(s, t, folder, uids, m, id);
    }
  }

  lemma NotDelivered(s: Server, t: Server, folder: string, uids: set<nat>, id: nat)
    requires Valid(s) && folder != INBOX && INBOX in s && folder in s && INBOX in t
    requires t[INBOX] == Deliver(s[INBOX], Contents(s[folder], uids))
    requires forall u: nat :: u in uids ==> !Holds(s, folder, u, id)
    ensures forall m: nat :: Holds(t, INBOX, m, id) <==> Holds(s, INBOX, m, id)
  {
    forall m: nat ensures Holds(t, INBOX, m, id) <==> Holds(s, INBOX, m, id) {
      InboxEntry(s, t, folder, uids, m, id);
    }
  }

  /** The message got to INBOX: MOVE took it, or COPY did. */
  predicate Arrives(s: Server, canMove: bool, folder: string, u: nat, sc: BatchScript)
    requires folder in s
  {
    Selects(sc) && ((canMove && u in Taken(s, s[folder].messages.Keys, sc)) || Takes(sc.copy, true))
  }

  /** The message left the folder: MOVE took it, or all three commands succeeded. */
  predicate Leaves(s: Server, canMove: bool, folder: string, u: nat, sc: BatchScript)
    requires folder in s
  {
    && Selects(sc)
    && ((canMove && u in Taken(s, s[folder].messages.Keys, sc)) || (sc.copy.Ok? && sc.store.Ok? && Takes(sc.expunge, true)))
  }

  lemma FallbackArrival(s: Server, folder: string, uids: set<nat>, sc: BatchScript, u: nat, id: nat) returns (n: nat)
    requires Valid(s) && folder in s && folder != INBOX && INBOX in s && u in uids && OnlyAt(s, folder, u, id)
    ensures var t := BatchFallback(s, folder, uids, sc).0;
      if Takes(sc.copy, true) then OnlyInInbox(t, n, id) else NotInInbox(t, id)
  {
    FallbackShape(s, folder, uids, sc);
    n := 0;
    if Takes(sc.copy, true) {
      n := DeliveredOnce(s, BatchFallback(s, folder, uids, sc).0, folder, uids, u, id);
    }
  }

  /** Behind a MOVE that took the message, or did not. */
  lemma MoveArrival(s: Server, folder: string, taken: set<nat>, u: nat, id: nat) returns (n: nat)
    requires Valid(s) && folder in s && folder != INBOX && INBOX in s && OnlyAt(s, folder, u, id)
    ensures var t := MoveEffect(s, folder, taken, INBOX);
      && Valid(t) && t.Keys == s.Keys
      && (u in taken ==> OnlyInInbox(t, n, id) && forall m: nat :: !Holds(t, folder, m, id))
      && (u !in taken ==> OnlyAt(t, folder, u, id))
  {
    MovedSome(s, folder, taken);
    var t := MoveEffect(s, folder, taken, INBOX);
    assert Holds(s, folder, u, id);
    n := 0;
    if u in taken {
      n := DeliveredOnce(s, t, folder, taken, u, id);
      forall m: nat ensures !Holds(t, folder, m, id) {
        assert Holds(t, folder, m, id) ==> Holds(s, folder, m, id);
      }
    } else {
      NotDelivered(s, t, folder, taken, id);
      forall g, m: nat ensures Holds(t, g, m, id) <==> g == folder && m == u {
        assert g != INBOX && g != folder ==> (Holds(t, g, m, id) <==> Holds(s, g, m, id));
        assert Holds(t, folder, m, id) ==> Holds(s, folder, m, id);
        assert Holds(t, INBOX, m, id) <==> Holds(s, INBOX, m, id);
      }
    }
  }

  lemma TakenStays(s1: Server, folder: string, uids: set<nat>, sc: BatchScript, n: nat, id: nat)
    requires Valid(s1) && folder in s1 && folder != INBOX && INBOX in s1 && OnlyInInbox(s1, n, id)
    requires forall m: nat :: !Holds(s1, folder, m, id)
    ensures OnlyInInbox(BatchFallback(s1, folder, uids, sc).0, n, id)
  {
    FallbackShape(s1, folder, uids, sc);
    if Takes(sc.copy, true) {
      NotDelivered(s1, BatchFallback(s1, folder, uids, sc).0, folder, uids, id);
    }
  }

  lemma BatchArrival(s: Server, canMove: bool, folder: string, sc: BatchScript, u: nat, id: nat) returns (n: nat)
    requires Valid(s) && folder in s && folder != INBOX && INBOX in s && OnlyAt(s, folder, u, id) && Selects(sc)
    ensures var t := BatchMove(s, canMove, folder, s[folder].messages.Keys, sc).0;
      if Arrives(s, canMove, folder, u, sc) then OnlyInInbox(t, n, id) else NotInInbox(t, id)
  {
    var all := s[folder].messages.Keys;
    assert Holds(s, folder, u, id);
    if !canMove {
      n := FallbackArrival(s, folder, all, sc, u, id);
    } else {
      var taken := Taken(s, all, sc);
      n := MoveArrival(s, folder, taken, u, id);
      var s1 := MoveEffect(s, folder, taken, INBOX);
      if u in taken {
        TakenStays(s1, folder, all, sc, n, id);
      } else {
        n := FallbackArrival(s1, folder, all, sc, u, id);
      }
    }
  }

  /** After the IMAP half the message is in INBOX under one new UID if it arrived, and else not there at all. */
  lemma ResetArrival(s: Server, canMove: bool, folder: string, sc: BatchScript, u: nat, id: nat) returns (n: nat)
    requires Valid(s) && folder in s && folder != INBOX && INBOX in s && OnlyAt(s, folder, u, id)
    ensures var t := ResetRun(s, canMove, folder, sc);
      if Arrives(s, canMove, folder, u, sc) then OnlyInInbox(t, n, id) else NotInInbox(t, id)
  {
    assert Holds(s, folder, u, id);
    assert u in AllUids(s, folder) && ToSet(AllUids(s, folder)) == s[folder].messages.Keys;
    n := 0;
    var t := MoveAllRun(s, canMove, folder, sc).0;
    if Selects(sc) {
      n := BatchArrival(s, canMove, folder, sc, u, id);
    } else {
      assert t == s;
    }
    var r := ResetRun(s, canMove, folder, sc);
    assert forall m: nat :: Holds(r, INBOX, m, id) <==> Holds(t, INBOX, m, id);
  }

  // ---- rows --------------------------------------------------------------------------------

  /** A row of the mail that the reset is about. */
  predicate RowOf(row: Rows.Tracked, user: nat, folder: string, u: nat, affected: set<Rows.Pair>) {
    row.user == user && row.uid == u && row.folder == folder && Rows.PairOf(row) in affected
  }

  lemma BatchLeaving(s: Server, folder: string, uids: set<nat>, sc: BatchScript, u: nat)
    requires Valid(s) && folder in s && INBOX in s && u in uids && u in s[folder].messages
    ensures var t := BatchFallback(s, folder, uids, sc).0;
      && folder in t
      && (u in t[folder].messages <==> !(sc.copy.Ok? && sc.store.Ok? && Takes(sc.expunge, true)))
      && (u in t[folder].messages ==> t[folder].messages[u].id == s[folder].messages[u].id)
  {
  }

  lemma BatchRemoves(s: Server, folder: string, uids: set<nat>, sc: BatchScript, u: nat)
    requires folder in s && INBOX in s && u !in s[folder].messages && u < s[folder].uidNext
    ensures folder in BatchFallback(s, folder, uids, sc).0 && u !in BatchFallback(s, folder, uids, sc).0[folder].messages
  {
  }

  /** A MOVE to INBOX, from another folder or within it. */
  lemma MoveLeaving(s: Server, folder: string, taken: set<nat>, u: nat)
    requires Valid(s) && folder in s && INBOX in s && u in s[folder].messages
    ensures var t := MoveEffect(s, folder, taken, INBOX);
      && Valid(t) && t.Keys == s.Keys && u < t[folder].uidNext
      && (u in t[folder].messages <==> u !in taken)
      && (u in t[folder].messages ==> t[folder].messages[u] == s[folder].messages[u])
  {
  }

  lemma LeavingAfterMove(s: Server, folder: string, taken: set<nat>, uids: set<nat>, sc: BatchScript, u: nat)
    requires Valid(s) && folder in s && INBOX in s && u in s[folder].messages && u in uids
    ensures var t := BatchFallback(MoveEffect(s, folder, taken, INBOX), folder, uids, sc).0;
      && folder in t
      && (u in t[folder].messages <==> u !in taken && !(sc.copy.Ok? && sc.store.Ok? && Takes(sc.expunge, true)))
      && (u in t[folder].messages ==> t[folder].messages[u].id == s[folder].messages[u].id)
  {
    MoveLeaving(s, folder, taken, u);
    var s1 := MoveEffect(s, folder, taken, INBOX);
    if u in taken {
      BatchRemoves(s1, folder, uids, sc, u);
    } else {
      BatchLeaving(s1, folder, uids, sc, u);
    }
  }

  lemma BatchMoveLeaving(s: Server, canMove: bool, folder: string, sc: BatchScript, u: nat)
    requires Valid(s) && folder in s && INBOX in s && u in s[folder].messages && Selects(sc)
    ensures var t := BatchMove(s, canMove, folder, s[folder].messages.Keys, sc).0;
      && folder in t
      && (u in t[folder].messages <==> !Leaves(s, canMove, folder, u, sc))
      && (u in t[folder].messages ==> t[folder].messages[u].id == s[folder].messages[u].id)
  {
    var all := s[folder].messages.Keys;
    if canMove {
      MoveLeaving(s, folder, Taken(s, all, sc), u);
      LeavingAfterMove(s, folder, Taken(s, all, sc), all, sc, u);
    } else {
      BatchLeaving(s, folder, all, sc, u);
    }
  }

  lemma MoveAllLeaving(s: Server, canMove: bool, folder: string, sc: BatchScript, u: nat)
    requires Valid(s) && folder in s && INBOX in s && u in s[folder].messages
    ensures var t := MoveAllRun(s, canMove, folder, sc).0;
      && folder in t
      && (u in t[folder].messages <==> !Leaves(s, canMove, folder, u, sc))
      && (u in t[folder].messages ==> t[folder].messages[u].id == s[folder].messages[u].id)
  {
    assert u in AllUids(s, folder) && ToSet(AllUids(s, folder)) == s[folder].messages.Keys;
    if Selects(sc) { BatchMoveLeaving(s, canMove, folder, sc, u); }
  }

  /** When the database half is rolled back, as it is on a violated key, the IMAP half stays: the row still names the
      folder and the old UID, and the mail is there exactly when it did not leave and the folder was not deleted, as INBOX
      never is. */
  lemma RolledBackRowLocatesIff(s: Server, canMove: bool, folder: string, sc: BatchScript, u: nat, id: nat,
      row: Rows.Tracked)
    requires Valid(s) && folder in s && INBOX in s && OnlyAt(s, folder, u, id)
    requires row.folder == folder && row.uid == u
    ensures Holds(ResetRun(s, canMove, folder, sc), row.folder, row.uid, id)
      <==> !Leaves(s, canMove, folder, u, sc) && !(folder != INBOX && Takes(sc.delete, true))
  {
    assert Holds(s, folder, u, id);
    MoveAllLeaving(s, canMove, folder, sc, u);
  }

  /** The MOVE gives the message a new UID, but the reset only sets the folder of its row: a row that was sent to INBOX
      says where the mail is exactly when the mail arrived and happened to get its old UID. */
  lemma RelocatedRowLocatesIff(s: Server, canMove: bool, folder: string, sc: BatchScript, u: nat, id: nat,
      rows: Rows.Table, user: nat, affected: set<Rows.Pair>, i: nat) returns (n: nat)
    requires Valid(s) && folder in s && folder != INBOX && INBOX in s && OnlyAt(s, folder, u, id)
    requires i in rows && RowOf(rows[i], user, folder, u, affected)
    requires i in Rows.After(rows, user, folder, affected)
    requires Rows.After(rows, user, folder, affected)[i].folder == INBOX
    ensures var t, row := ResetRun(s, canMove, folder, sc), Rows.After(rows, user, folder, affected)[i];
      && (Holds(t, row.folder, row.uid, id) <==> Arrives(s, canMove, folder, u, sc) && n == u)
      && (Arrives(s, canMove, folder, u, sc) ==> OnlyInInbox(t, n, id))
  {
    n := ResetArrival(s, canMove, folder, sc, u, id);
    assert Rows.After(rows, user, folder, affected)[i].uid == u;
  }

  /** A reset of INBOX has no such row: it deletes the row of every affected mail that names INBOX. */
  lemma InboxRowIsDeleted(u: nat, rows: Rows.Table, user: nat, affected: set<Rows.Pair>, i: nat)
    requires i in rows && RowOf(rows[i], user, INBOX, u, affected)
    ensures i !in Rows.After(rows, user, INBOX, affected)
  {
  }
}
