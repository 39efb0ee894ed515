/** Emptying a folder into INBOX and deleting it: the IMAP half of resetting a smart folder
    (backend/app/services/mail.py, backend/app/api/folders.py). */
module ImapBatch {
  import opened Prelude
  import opened ImapServer
  import opened ImapMoves

  /** The answers to the commands of one batch; `part` is what a MOVE that is not answered OK has moved by then. */
  datatype BatchScript = BatchScript(selectToList: Reply, search: Reply, selectToMove: Reply,
                                     move: Reply, part: set<nat>, copy: Reply, store: Reply, expunge: Reply, delete: Reply)

  // ---- as functions ------------------------------------------------------------------------

  function AllUids(s: Server, folder: string): seq<nat>
    requires folder in s
  {
    Listing(s[folder], s[folder].messages.Keys, 0)
  }

  function ToSet(l: seq<nat>): set<nat> {
    set u | u in l
  }

  /** STORE and EXPUNGE; server and "every UID is reported as moved". */
  function BatchFlagged(s: Server, folder: string, uids: set<nat>, sc: BatchScript): (r: (Server, bool))
    requires folder in s
    ensures r.0.Keys == s.Keys && forall f | f in s && f != folder :: r.0[f] == s[f]
  {
    var s1 := if Takes(sc.store, true) then StoreEffect(s, folder, uids, DELETED) else s;
    if Answer(sc.store, true) != StatusOk then (s1, false)
    else (if Takes(sc.expunge, true) then ExpungeEffect(s1, folder) else s1, !sc.expunge.Raise?)
  }

  function BatchFallback(s: Server, folder: string, uids: set<nat>, sc: BatchScript): (r: (Server, bool))
    requires folder in s
    ensures r.0.Keys == s.Keys
  {
    var s1 := if Takes(sc.copy, INBOX in s) then CopyEffect(s, folder, uids, INBOX) else s;
    if Answer(sc.copy, INBOX in s) != StatusOk then (s1, false) else BatchFlagged(s1, folder, uids, sc)
  }

  /** The messages that MOVE has moved. */
  function Taken(s: Server, uids: set<nat>, sc: BatchScript): set<nat> {
    if INBOX !in s then {}
    else if Takes(sc.move, true) then uids
    else sc.part * uids
  }

  function BatchMove(s: Server, canMove: bool, folder: string, uids: set<nat>, sc: BatchScript): (r: (Server, bool))
    requires folder in s
    ensures r.0.Keys == s.Keys
  {
    if !canMove then BatchFallback(s, folder, uids, sc)
    else
      var s1 := if INBOX in s then MoveEffect(s, folder, Taken(s, uids, sc), INBOX) else s;
      if Answer(sc.move, INBOX in s) == StatusOk then (s1, true)
      else BatchFallback(s1, folder, uids, sc)
  }

  /** The server afterwards and the UIDs reported as moved; no exception leaves the call. */
  function MoveAllRun(s: Server, canMove: bool, folder: string, sc: BatchScript): (r: (Server, seq<nat>))
    ensures r.0.Keys == s.Keys
  {
    if folder !in s || !sc.selectToList.Ok? || !sc.search.Ok? then (s, [])
    else
      var uids := AllUids(s, folder);
      if uids == [] || !sc.selectToMove.Ok? then (s, [])
      else
        var (t, moved) := BatchMove(s, canMove, folder, ToSet(uids), sc);
        (t, if moved then uids else [])
  }

  /** INBOX cannot be deleted; any other mailbox goes with whatever is in it. */
  function DeleteRun(s: Server, folder: string, reply: Reply): (Server, bool) {
    var possible := folder in s && folder != INBOX;
    (if Takes(reply, possible) then s - {folder} else s, Answer(reply, possible) == StatusOk)
  }

  /** One account of a smart-folder reset: move everything back, then delete the folder whatever was moved. */
  function ResetRun(s: Server, canMove: bool, folder: string, sc: BatchScript): Server {
    DeleteRun(MoveAllRun(s, canMove, folder, sc).0, folder, sc.delete).0
  }

  // ---- as methods --------------------------------------------------------------------------

  method MoveAllToInbox(c: Connection, folder: string, sc: BatchScript) returns (moved: seq<nat>)
    modifies c
    ensures (c.server, moved) == MoveAllRun(old(c.server), c.supportsMove, folder, sc)
  {
    moved := [];
    var listable := c.Select(folder, sc.selectToList);
    if !listable || !sc.search.Ok? { return; }
    var uidList := AllUids(c.server, folder);
    if uidList == [] { return; }
    var selected := c.Select(folder, sc.selectToMove);
    if !selected { return; }
    var uidSet := ToSet(uidList);
    if c.supportsMove {
      var status := c.UidMoveSome(uidSet, sc.part, INBOX, sc.move);
      if status == StatusOk { return uidList; }
    }
    var status := c.UidCopy(uidSet, INBOX, sc.copy);
    if status != StatusOk { return; }
    status := c.UidStore(uidSet, DELETED, sc.store);
    if status != StatusOk { return; }
    status := c.Expunge(sc.expunge);
    if status != Raised { moved := uidList; }
  }

  method DeleteFolder(c: Connection, folder: string, reply: Reply) returns (deleted: bool)
    modifies c`server
    ensures (c.server, deleted) == DeleteRun(old(c.server), folder, reply)
  {
    var possible := folder in c.server && folder != INBOX;
    deleted := Answer(reply, possible) == StatusOk;
    if Takes(reply, possible) { c.server := c.server - {folder}; }
  }

  /** The loop body of the reset for one account with a connection. */
  method ResetAccount(c: Connection, folder: string, sc: BatchScript) returns (movedToInbox: nat, folderDeleted: bool)
    modifies c
    ensures c.server == ResetRun(old(c.server), c.supportsMove, folder, sc)
    ensures movedToInbox == |MoveAllRun(old(c.server), c.supportsMove, folder, sc).1|
    ensures folderDeleted <==> folder in old(c.server) && folder != INBOX && sc.delete.Ok?
  {
    var moved := MoveAllToInbox(c, folder, sc);
    movedToInbox := |moved|;
    folderDeleted := DeleteFolder(c, folder, sc.delete);
  }

  // ---- what is kept ------------------------------------------------------------------------

  ghost predicate KeptOrInInbox(s: Server, t: Server, folder: string, u: nat)
    requires Has(s, folder, u)
  {
    || Holds(t, folder, u, s[folder].messages[u].id)
    || (INBOX in s && exists n: nat :: n >= s[INBOX].uidNext && Holds(t, INBOX, n, s[folder].messages[u].id))
  }

  /** Everything outside the folder is untouched; each message of the folder is in its place or newly in INBOX. */
  ghost predicate AllKept(s: Server, t: Server, folder: string) {
    && (forall f, u: nat | Has(s, f, u) && f != folder :: Keeps(s, t, f, u))
    && (forall u: nat | Has(s, folder, u) :: KeptOrInInbox(s, t, folder, u))
  }

  /** Both selections and the listing succeed. */
  predicate Selects(sc: BatchScript) {
    sc.selectToList.Ok? && sc.search.Ok? && sc.selectToMove.Ok?
  }

  /** The messages all reached INBOX, whatever was reported: MOVE took them all, or COPY took what MOVE had left. */
  predicate Reached(s: Server, canMove: bool, folder: string, sc: BatchScript)
    requires folder in s
  {
    var all := s[folder].messages.Keys;
    Selects(sc) && ((canMove && Taken(s, all, sc) == all) || Takes(sc.copy, true))
  }

  /** A message has a copy in INBOX that was not there before. */
  ghost predicate InInbox(s: Server, t: Server, folder: string, u: nat)
    requires Has(s, folder, u) && INBOX in s
  {
    exists n: nat :: n >= s[INBOX].uidNext && Holds(t, INBOX, n, s[folder].messages[u].id)
  }

  ghost predicate AllInInbox(s: Server, t: Server, folder: string)
    requires folder in s && INBOX in s
  {
    forall u: nat | u in s[folder].messages :: InInbox(s, t, folder, u)
  }

  /** Outside the folder every message stays in its place. */
  ghost predicate KeepsOutside(s: Server, t: Server, folder: string) {
    t.Keys == s.Keys && forall f, u: nat | Has(s, f, u) && f != folder :: Keeps(s, t, f, u)
  }

  /** Some messages are delivered to INBOX, whatever happens to the folder. */
  lemma DeliveredToInbox(s: Server, t: Server, folder: string, uids: set<nat>)
    requires Valid(s) && folder in s && folder != INBOX && INBOX in s && t.Keys == s.Keys
    requires forall f | f in s && f != folder && f != INBOX :: t[f] == s[f]
    requires t[INBOX] == Deliver(s[INBOX], Contents(s[folder], uids))
    ensures KeepsOutside(s, t, folder)
    ensures forall u: nat | u in s[folder].messages && u in uids :: InInbox(s, t, folder, u)
  {
    CopyKeeps(s, folder, uids, INBOX);
    forall u: nat | u in s[folder].messages && u in uids ensures InInbox(s, t, folder, u) {
      var n := CopyHasAll(s, folder, uids, INBOX, u);
      assert Holds(t, INBOX, n, s[folder].messages[u].id);
    }
  }

  /** What a partial MOVE leaves: the taken messages in INBOX, the others in their places. */
  lemma MovedSome(s: Server, folder: string, taken: set<nat>)
    requires Valid(s) && folder in s && folder != INBOX && INBOX in s
    ensures var t := MoveEffect(s, folder, taken, INBOX);
      && Valid(t) && KeepsOutside(s, t, folder) && s[INBOX].uidNext <= t[INBOX].uidNext
      && t[folder].messages == s[folder].messages - taken
      && forall u: nat | u in s[folder].messages && u in taken :: InInbox(s, t, folder, u)
  {
    DeliveredToInbox(s, MoveEffect(s, folder, taken, INBOX), folder, taken);
  }

  lemma FallbackShape(s: Server, folder: string, uids: set<nat>, sc: BatchScript)
    requires folder in s && folder != INBOX && INBOX in s
    ensures var t := BatchFallback(s, folder, uids, sc).0;
      && t.Keys == s.Keys
      && (forall f | f in s && f != folder && f != INBOX :: t[f] == s[f])
      && (Takes(sc.copy, true) ==> t[INBOX] == Deliver(s[INBOX], Contents(s[folder], uids)))
      && (!Takes(sc.copy, true) ==> t == s)
  {
  }

  /** The three commands: nothing, or a copy of everything that is there. */
  lemma FallbackDelivers(s: Server, folder: string, uids: set<nat>, sc: BatchScript)
    requires Valid(s) && folder in s && folder != INBOX && INBOX in s && s[folder].messages.Keys <= uids
    ensures var t := BatchFallback(s, folder, uids, sc).0;
      && KeepsOutside(s, t, folder)
      && (Takes(sc.copy, true) ==> AllInInbox(s, t, folder))
      && (!Takes(sc.copy, true) ==> t == s)
  {
    FallbackShape(s, folder, uids, sc);
    if Takes(sc.copy, true) {
      DeliveredToInbox(s, BatchFallback(s, folder, uids, sc).0, folder, uids);
    }
  }

  /** Behind a partial MOVE: every message is in INBOX if COPY took the rest, else those that MOVE took. */
  lemma FallbackAfterMove(s: Server, folder: string, taken: set<nat>, uids: set<nat>, sc: BatchScript)
    requires Valid(s) && folder in s && folder != INBOX && INBOX in s && s[folder].messages.Keys <= uids
    ensures var t := BatchFallback(MoveEffect(s, folder, taken, INBOX), folder, uids, sc).0;
      && KeepsOutside(s, t, folder)
      && (forall u: nat | u in s[folder].messages && (u in taken || Takes(sc.copy, true)) :: InInbox(s, t, folder, u))
      && (!Takes(sc.copy, true) ==> t == MoveEffect(s, folder, taken, INBOX))
  {
    var s1 := MoveEffect(s, folder, taken, INBOX);
    MovedSome(s, folder, taken);
    FallbackDelivers(s1, folder, uids, sc);
    var t := BatchFallback(s1, folder, uids, sc).0;
    forall f, u: nat | Has(s, f, u) && f != folder ensures Keeps(s, t, f, u) {
      assert Keeps(s, s1, f, u) && Keeps(s1, t, f, u);
    }
    forall u: nat | u in s[folder].messages && (u in taken || Takes(sc.copy, true)) ensures InInbox(s, t, folder, u) {
      if u in taken {
        var n: nat :| n >= s[INBOX].uidNext && Holds(s1, INBOX, n, s[folder].messages[u].id);
        assert Keeps(s1, t, INBOX, n);
        assert Holds(t, INBOX, n, s[folder].messages[u].id);
      } else {
        assert s1[folder].messages[u] == s[folder].messages[u] && InInbox(s1, t, folder, u);
      }
    }
  }

  /** What is left in the folder when COPY took nothing. */
  function Left(s: Server, canMove: bool, folder: string, sc: BatchScript): set<nat>
    requires folder in s
  {
    var all := s[folder].messages.Keys;
    if Selects(sc) && canMove then all - Taken(s, all, sc) else all
  }

  /** The server when COPY took nothing. */
  function Unreached(s: Server, canMove: bool, folder: string, sc: BatchScript): Server
    requires folder in s && INBOX in s
  {
    if Selects(sc) && canMove then MoveEffect(s, folder, Taken(s, s[folder].messages.Keys, sc), INBOX) else s
  }

  lemma UnreachedMeans(s: Server, canMove: bool, folder: string, sc: BatchScript)
    requires Valid(s) && folder in s && folder != INBOX && INBOX in s
    ensures var t := Unreached(s, canMove, folder, sc);
      && KeepsOutside(s, t, folder)
      && forall u: nat | u in s[folder].messages ::
           if u in Left(s, canMove, folder, sc) then Keeps(s, t, folder, u) else InInbox(s, t, folder, u)
  {
    MovedSome(s, folder, Taken(s, s[folder].messages.Keys, sc));
  }

  lemma BatchDelivers(s: Server, canMove: bool, folder: string, sc: BatchScript)
    requires Valid(s) && folder in s && folder != INBOX && INBOX in s && Selects(sc)
    ensures var t := BatchMove(s, canMove, folder, s[folder].messages.Keys, sc).0;
      && KeepsOutside(s, t, folder)
      && (forall u: nat | u in s[folder].messages && (Takes(sc.copy, true) || u !in Left(s, canMove, folder, sc)) ::
            InInbox(s, t, folder, u) || (canMove && sc.move.Ok?))
      && (canMove && sc.move.Ok? ==> AllInInbox(s, t, folder))
      && (!Reached(s, canMove, folder, sc) ==> t == Unreached(s, canMove, folder, sc))
  {
    var all := s[folder].messages.Keys;
    if canMove {
      var taken := Taken(s, all, sc);
      MovedSome(s, folder, taken);
      FallbackAfterMove(s, folder, taken, all, sc);
    } else {
      FallbackDelivers(s, folder, all, sc);
    }
  }

  /** move_all_to_inbox: messages outside the folder stay.  The folder's messages all reach INBOX if MOVE took them all
      or COPY took the rest; otherwise those that MOVE took are in INBOX and the others where they were. */
  lemma OtherFolderDelivers(s: Server, canMove: bool, folder: string, sc: BatchScript)
    requires Valid(s) && folder in s && folder != INBOX && INBOX in s && s[folder].messages != map[]
    ensures var t := MoveAllRun(s, canMove, folder, sc).0;
      && KeepsOutside(s, t, folder)
      && (Reached(s, canMove, folder, sc) ==> AllInInbox(s, t, folder))
      && (!Reached(s, canMove, folder, sc) ==>
            && Left(s, canMove, folder, sc) != {}
            && forall u: nat | u in s[folder].messages ::
                 if u in Left(s, canMove, folder, sc) then Keeps(s, t, folder, u) else InInbox(s, t, folder, u))
  {
    var uids := AllUids(s, folder);
    assert ToSet(uids) == s[folder].messages.Keys;
    assert uids != [] by {
      var u0 :| u0 in s[folder].messages;
      assert u0 in uids;
    }
    if Selects(sc) { BatchDelivers(s, canMove, folder, sc); }
    UnreachedMeans(s, canMove, folder, sc);
  }

  lemma UnreachedServer(s: Server, canMove: bool, folder: string, sc: BatchScript)
    requires Valid(s) && folder in s && folder != INBOX && INBOX in s && s[folder].messages != map[]
    requires !Reached(s, canMove, folder, sc)
    ensures MoveAllRun(s, canMove, folder, sc).0 == Unreached(s, canMove, folder, sc)
  {
    assert ToSet(AllUids(s, folder)) == s[folder].messages.Keys;
    var u0 :| u0 in s[folder].messages;
    assert u0 in AllUids(s, folder);
    if Selects(sc) { BatchDelivers(s, canMove, folder, sc); }
  }

  /** Every message that is left has a twin with the same content that was taken. */
  predicate TwinsTaken(s: Server, canMove: bool, folder: string, sc: BatchScript)
    requires folder in s
  {
    var left := Left(s, canMove, folder, sc);
    forall u | u in left :: exists v | v in s[folder].messages ::
      v !in left && s[folder].messages[v].id == s[folder].messages[u].id
  }

  lemma EmptyFolderIsSkipped(s: Server, canMove: bool, folder: string, sc: BatchScript)
    requires folder in s && s[folder].messages == map[]
    ensures MoveAllRun(s, canMove, folder, sc) == (s, [])
  {
    ListingNone(s[folder], s[folder].messages.Keys, 0);
  }

  /** Once the messages are in INBOX, deleting the folder loses nothing. */
  lemma DeliveredIsKept(s: Server, t: Server, folder: string, reply: Reply)
    requires folder in s && folder != INBOX && INBOX in s && KeepsOutside(s, t, folder) && AllInInbox(s, t, folder)
    ensures AllKept(s, DeleteRun(t, folder, reply).0, folder)
  {
    var r := DeleteRun(t, folder, reply).0;
    forall u: nat | Has(s, folder, u) ensures KeptOrInInbox(s, r, folder, u) {
      assert InInbox(s, t, folder, u);
      var n: nat :| n >= s[INBOX].uidNext && Holds(t, INBOX, n, s[folder].messages[u].id);
      assert Holds(r, INBOX, n, s[folder].messages[u].id);
    }
    forall f, u: nat | Has(s, f, u) && f != folder ensures Keeps(s, r, f, u) {
      assert Keeps(s, t, f, u);
    }
  }

  /** Without the deletion every message is in its place or in INBOX, whatever failed. */
  lemma UndeletedIsKept(s: Server, canMove: bool, folder: string, sc: BatchScript)
    requires Valid(s) && folder in s && folder != INBOX && INBOX in s
    requires !Reached(s, canMove, folder, sc) && !Takes(sc.delete, true)
    ensures AllKept(s, Unreached(s, canMove, folder, sc), folder)
  {
    UnreachedMeans(s, canMove, folder, sc);
    var t := Unreached(s, canMove, folder, sc);
    forall u: nat | Has(s, folder, u) ensures KeptOrInInbox(s, t, folder, u) {
      assert if u in Left(s, canMove, folder, sc) then Keeps(s, t, folder, u) else InInbox(s, t, folder, u);
    }
  }

  lemma TwinsAreKept(s: Server, canMove: bool, folder: string, sc: BatchScript)
    requires Valid(s) && folder in s && folder != INBOX && INBOX in s && TwinsTaken(s, canMove, folder, sc)
    ensures AllInInbox(s, Unreached(s, canMove, folder, sc), folder)
  {
    UnreachedMeans(s, canMove, folder, sc);
    var t, left := Unreached(s, canMove, folder, sc), Left(s, canMove, folder, sc);
    forall u: nat | u in s[folder].messages ensures InInbox(s, t, folder, u) {
      if u in left {
        var v: nat :| v in s[folder].messages && v !in left && s[folder].messages[v].id == s[folder].messages[u].id;
        assert InInbox(s, t, folder, v);
        var n: nat :| n >= s[INBOX].uidNext && Holds(t, INBOX, n, s[folder].messages[v].id);
        assert Holds(t, INBOX, n, s[folder].messages[u].id);
      }
    }
  }

  /** What is new in INBOX was taken. */
  lemma NewInInboxWasTaken(s: Server, canMove: bool, folder: string, sc: BatchScript, n: nat) returns (v: nat)
    requires Valid(s) && folder in s && folder != INBOX && INBOX in s
    requires n >= s[INBOX].uidNext && Has(Unreached(s, canMove, folder, sc), INBOX, n)
    ensures v in s[folder].messages && v !in Left(s, canMove, folder, sc)
    ensures Holds(Unreached(s, canMove, folder, sc), INBOX, n, s[folder].messages[v].id)
  {
    var taken := Taken(s, s[folder].messages.Keys, sc);
    var l := Listing(s[folder], taken, 0);
    v := l[n - s[INBOX].uidNext];
    assert Contents(s[folder], taken)[n - s[INBOX].uidNext] == s[folder].messages[v];
  }

  lemma LeftIsLost(s: Server, canMove: bool, folder: string, sc: BatchScript)
    requires Valid(s) && folder in s && folder != INBOX && INBOX in s && Takes(sc.delete, true)
    requires !TwinsTaken(s, canMove, folder, sc)
    ensures !AllKept(s, DeleteRun(Unreached(s, canMove, folder, sc), folder, sc.delete).0, folder)
  {
    var t, left := Unreached(s, canMove, folder, sc), Left(s, canMove, folder, sc);
    var u0: nat :| u0 in left && !exists v | v in s[folder].messages ::
      v !in left && s[folder].messages[v].id == s[folder].messages[u0].id;
    var r := DeleteRun(t, folder, sc.delete).0;
    assert r == t - {folder};
    if KeptOrInInbox(s, r, folder, u0) {
      var n: nat :| n >= s[INBOX].uidNext && Holds(r, INBOX, n, s[folder].messages[u0].id);
      var v := NewInInboxWasTaken(s, canMove, folder, sc, n);
    }
    assert Has(s, folder, u0);
  }

  /** The reset keeps every message exactly when the folder was empty, or was not deleted, or its messages had really
      reached INBOX (or twins of them). */
  lemma OtherFolderKeptIff(s: Server, canMove: bool, folder: string, sc: BatchScript)
    requires Valid(s) && folder in s && folder != INBOX && INBOX in s
    ensures AllKept(s, ResetRun(s, canMove, folder, sc), folder)
      <==> || s[folder].messages == map[] || !Takes(sc.delete, true)
           || Reached(s, canMove, folder, sc) || TwinsTaken(s, canMove, folder, sc)
  {
    if s[folder].messages == map[] {
      EmptyFolderIsSkipped(s, canMove, folder, sc);
    } else if Reached(s, canMove, folder, sc) {
      OtherFolderDelivers(s, canMove, folder, sc);
      DeliveredIsKept(s, MoveAllRun(s, canMove, folder, sc).0, folder, sc.delete);
    } else {
      UnreachedServer(s, canMove, folder, sc);
      if TwinsTaken(s, canMove, folder, sc) {
        UnreachedMeans(s, canMove, folder, sc);
        TwinsAreKept(s, canMove, folder, sc);
        DeliveredIsKept(s, Unreached(s, canMove, folder, sc), folder, sc.delete);
      } else if Takes(sc.delete, true) {
        LeftIsLost(s, canMove, folder, sc);
      } else {
        UndeletedIsKept(s, canMove, folder, sc);
      }
    }
  }

  /** Only an empty folder survives every failure pattern. */
  lemma OtherFolderIsSafeIff(s: Server, canMove: bool, folder: string)
    requires Valid(s) && folder in s && folder != INBOX && INBOX in s
    ensures (forall sc :: AllKept(s, ResetRun(s, canMove, folder, sc), folder)) <==> s[folder].messages == map[]
  {
    forall sc ensures s[folder].messages == map[] ==> AllKept(s, ResetRun(s, canMove, folder, sc), folder) {
      OtherFolderKeptIff(s, canMove, folder, sc);
    }
    var refused := BatchScript(Ok, Ok, Ok, No, {}, No, Ok, Ok, Ok);
    OtherFolderKeptIff(s, canMove, folder, refused);
    if s[folder].messages != map[] {
      var u0 :| u0 in s[folder].messages;
      assert Left(s, canMove, folder, refused) == s[folder].messages.Keys;
      assert u0 in Left(s, canMove, folder, refused);
      assert !TwinsTaken(s, canMove, folder, refused) && !Reached(s, canMove, folder, refused);
    }
  }
}
