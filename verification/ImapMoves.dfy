/** Moving messages between mailboxes (backend/app/services/mail.py). */
module ImapMoves {
  import opened Prelude
  import opened ImapServer

  // ---- what one move does, as a function ---------------------------------------------------

  /** What the server answers to each command of one call; `copyUid` says whether it sends COPYUID. */
  datatype MoveScript = MoveScript(select: Reply, move: Reply, copy: Reply, store: Reply, expunge: Reply,
                                   copyUid: bool)

  datatype MoveResult = MoveResult(success: bool, newUid: Option<nat>)

  /** Either the call returns, or an exception leaves it. */
  datatype MoveEnd = Returned(result: MoveResult) | Threw

  const FAILED := Returned(MoveResult(false, None))

  /** COPYUID names the UID of the copy, and is sent only when something was copied. */
  function CopyUid(s: Server, uid: nat, dst: string, src: string, sc: MoveScript): Option<nat> {
    if sc.copyUid && Has(s, src, uid) && dst in s then Some(s[dst].uidNext) else None
  }

  function Expunged(s: Server, src: string, newUid: Option<nat>, sc: MoveScript): (Server, MoveEnd)
    requires src in s
  {
    (if Takes(sc.expunge, true) then ExpungeEffect(s, src) else s,
     if sc.expunge.Raise? then Threw else Returned(MoveResult(true, newUid)))
  }

  function Flagged(s: Server, uid: nat, src: string, newUid: Option<nat>, sc: MoveScript): (Server, MoveEnd)
    requires src in s
  {
    var s1 := if Takes(sc.store, true) then StoreEffect(s, src, {uid}, DELETED) else s;
    match Answer(sc.store, true)
    case StatusOk => Expunged(s1, src, newUid, sc)
    case StatusNo => (s1, FAILED)
    case Raised => (s1, Threw)
  }

  /** COPY, then STORE \Deleted, then EXPUNGE. */
  function Fallback(s: Server, uid: nat, dst: string, src: string, sc: MoveScript): (Server, MoveEnd)
    requires src in s
  {
    var s1 := if Takes(sc.copy, dst in s) then CopyEffect(s, src, {uid}, dst) else s;
    match Answer(sc.copy, dst in s)
    case StatusOk => Flagged(s1, uid, src, CopyUid(s, uid, dst, src, sc), sc)
    case StatusNo => (s1, FAILED)
    case Raised => (s1, Threw)
  }

  function MoveRun(s: Server, canMove: bool, uid: nat, dst: string, src: string, sc: MoveScript): (Server, MoveEnd) {
    if src !in s || !sc.select.Ok? then (s, Threw)
    else if !canMove then Fallback(s, uid, dst, src, sc)
    else
      var s1 := if Takes(sc.move, dst in s) then MoveEffect(s, src, {uid}, dst) else s;
      if Answer(sc.move, dst in s) == StatusOk then
        (s1, Returned(MoveResult(true, CopyUid(s, uid, dst, src, sc))))
      else Fallback(s1, uid, dst, src, sc)
  }

  // ---- the connection ----------------------------------------------------------------------

  /** A connection with the server behind it.  Each command method answers as `reply` says. */
  class Connection {
    var server: Server
    var selected: string
    const supportsMove: bool

    constructor (server: Server, supportsMove: bool)
      ensures this.server == server && this.supportsMove == supportsMove
    {
      this.server, this.selected, this.supportsMove := server, "", supportsMove;
    }

    method Select(folder: string, reply: Reply) returns (ok: bool)
      modifies this`selected
      ensures ok == (folder in server && reply.Ok?)
      ensures selected == if ok then folder else old(selected)
    {
      ok := folder in server && reply.Ok?;
      if ok { selected := folder; }
    }

    method UidMove(uids: set<nat>, dst: string, reply: Reply) returns (status: Status)
      requires selected in server
      modifies this`server
      ensures status == Answer(reply, dst in old(server))
      ensures server == if Takes(reply, dst in old(server)) then MoveEffect(old(server), selected, uids, dst) else old(server)
    {
      status := Answer(reply, dst in server);
      if Takes(reply, dst in server) { server := MoveEffect(server, selected, uids, dst); }
    }

    /** MOVE of several messages; when it is not answered OK, those in `part` may have been moved. */
    method UidMoveSome(uids: set<nat>, part: set<nat>, dst: string, reply: Reply) returns (status: Status)
      requires selected in server
      modifies this`server
      ensures status == Answer(reply, dst in old(server))
      ensures server == if dst !in old(server) then old(server)
                        else MoveEffect(old(server), selected, if Takes(reply, true) then uids else part * uids, dst)
    {
      status := Answer(reply, dst in server);
      if dst in server {
        server := MoveEffect(server, selected, if Takes(reply, true) then uids else part * uids, dst);
      }
    }

    method UidCopy(uids: set<nat>, dst: string, reply: Reply) returns (status: Status)
      requires selected in server
      modifies this`server
      ensures status == Answer(reply, dst in old(server))
      ensures server == if Takes(reply, dst in old(server)) then CopyEffect(old(server), selected, uids, dst) else old(server)
    {
      status := Answer(reply, dst in server);
      if Takes(reply, dst in server) { server := CopyEffect(server, selected, uids, dst); }
    }

    method UidStore(uids: set<nat>, flag: string, reply: Reply) returns (status: Status)
      requires selected in server
      modifies this`server
      ensures status == Answer(reply, true)
      ensures server == if Takes(reply, true) then StoreEffect(old(server), selected, uids, flag) else old(server)
    {
      status := Answer(reply, true);
      if Takes(reply, true) { server := StoreEffect(server, selected, uids, flag); }
    }

    method Expunge(reply: Reply) returns (status: Status)
      requires selected in server
      modifies this`server
      ensures status == Answer(reply, true)
      ensures server == if Takes(reply, true) then ExpungeEffect(old(server), selected) else old(server)
    {
      status := Answer(reply, true);
      if Takes(reply, true) { server := ExpungeEffect(server, selected); }
    }

    /** Move one message: UID MOVE if the server has it, otherwise or after a failure COPY, flag and EXPUNGE.
        The status of EXPUNGE is not looked at. */
    method MoveMessage(uid: nat, dst: string, src: string, sc: MoveScript) returns (end: MoveEnd)
      modifies this
      ensures (server, end) == MoveRun(old(server), supportsMove, uid, dst, src, sc)
    {
      var selectedOk := Select(src, sc.select);
      if !selectedOk { return Threw; }
      if supportsMove {
        var newUid := CopyUid(server, uid, dst, src, sc);
        var moved := UidMove({uid}, dst, sc.move);
        if moved == StatusOk { return Returned(MoveResult(true, newUid)); }
      }
      assert MoveRun(old(server), supportsMove, uid, dst, src, sc) == Fallback(server, uid, dst, src, sc);
      var newUid := CopyUid(server, uid, dst, src, sc);
      var status := UidCopy({uid}, dst, sc.copy);
      if status == Raised { return Threw; }
      if status != StatusOk { return FAILED; }
      assert MoveRun(old(server), supportsMove, uid, dst, src, sc) == Flagged(server, uid, src, newUid, sc);
      status := UidStore({uid}, DELETED, sc.store);
      if status == Raised { return Threw; }
      if status != StatusOk { return FAILED; }
      assert MoveRun(old(server), supportsMove, uid, dst, src, sc) == Expunged(server, src, newUid, sc);
      status := Expunge(sc.expunge);
      if status == Raised { return Threw; }
      return Returned(MoveResult(true, newUid));
    }
  }

  // ---- no message is lost ------------------------------------------------------------------

  /** What a single move may change: the moved message sits at its old place or at the next UID of the
      destination, every other message is untouched in its place, and nothing else appears. */
  ghost predicate Conserves(s: Server, t: Server, uid: nat, dst: string, src: string) {
    && (forall f, u: nat :: (f, u) != (src, uid) ==> Keeps(s, t, f, u))
    && (Has(s, src, uid) ==>
          var id := s[src].messages[uid].id;
          Holds(t, src, uid, id) || (dst in s && Holds(t, dst, s[dst].uidNext, id)))
    && (forall f, u: nat :: Has(t, f, u) && !Has(s, f, u) ==>
          dst in s && f == dst && u == s[dst].uidNext && Has(s, src, uid))
  }

  /** No other message of the source is flagged \Deleted, and the message itself is not flagged when it is moved
      to the mailbox it is in.  Without source or destination the expunge is never reached. */
  ghost predicate Safe(s: Server, uid: nat, dst: string, src: string) {
    src in s && dst in s ==>
      && (forall u | u in s[src].messages && u != uid :: DELETED !in s[src].messages[u].flags)
      && (src == dst && Has(s, src, uid) ==> DELETED !in s[src].messages[uid].flags)
  }

  predicate MoveTook(s: Server, canMove: bool, dst: string, sc: MoveScript) {
    canMove && Takes(sc.move, dst in s)
  }

  /** An absent UID is ignored: with nothing flagged in the source the three commands change nothing. */
  lemma FallbackIgnoresAbsent(s: Server, uid: nat, dst: string, src: string, sc: MoveScript)
    requires Valid(s) && src in s && uid !in s[src].messages
    requires forall u | u in s[src].messages :: DELETED !in s[src].messages[u].flags
    ensures Fallback(s, uid, dst, src, sc).0 == s
  {
    ContentsOne(s, src, uid);
    assert StoreEffect(s, src, {uid}, DELETED) == s by {
      assert StoreEffect(s, src, {uid}, DELETED)[src].messages == s[src].messages;
    }
    assert ExpungeEffect(s, src) == s by {
      assert ExpungeEffect(s, src)[src].messages == s[src].messages;
    }
  }

  /** What COPY of one present message does to the mailboxes. */
  lemma CopyOne(s: Server, uid: nat, dst: string, src: string)
    requires Valid(s) && Has(s, src, uid) && dst in s
    ensures CopyEffect(s, src, {uid}, dst)
            == s[dst := Mailbox(s[dst].messages[s[dst].uidNext := s[src].messages[uid]], s[dst].uidNext + 1)]
  {
    ContentsOne(s, src, uid);
    DeliverOne(s[dst], s[src].messages[uid]);
  }

  /** Flagging and expunging stays inside the source, spares what is not flagged, and adds nothing. */
  lemma FlaggedStaysInSource(s: Server, uid: nat, src: string, newUid: Option<nat>, sc: MoveScript)
    requires src in s
    ensures var t := Flagged(s, uid, src, newUid, sc).0;
      && t.Keys == s.Keys
      && (forall f | f in s && f != src :: t[f] == s[f])
      && t[src].uidNext == s[src].uidNext
      && (forall u: nat :: Has(t, src, u) ==> Has(s, src, u))
      && (forall u: nat | u in s[src].messages && u != uid && DELETED !in s[src].messages[u].flags :: Keeps(s, t, src, u))
      && (forall u: nat | Has(t, src, u) :: t[src].messages[u].id == s[src].messages[u].id)
  {
  }

  lemma FallbackIsSafe(s: Server, uid: nat, dst: string, src: string, sc: MoveScript)
    requires Valid(s) && src in s && Safe(s, uid, dst, src)
    ensures Conserves(s, Fallback(s, uid, dst, src, sc).0, uid, dst, src)
  {
    if Has(s, src, uid) && dst in s && Takes(sc.copy, true) {
      CopyOne(s, uid, dst, src);
      var n := s[dst].uidNext;
      var s1 := CopyEffect(s, src, {uid}, dst);
      FlaggedStaysInSource(s1, uid, src, CopyUid(s, uid, dst, src, sc), sc);
      var t := Fallback(s, uid, dst, src, sc).0;
      assert Holds(t, dst, n, s[src].messages[uid].id);
      forall f, u: nat | (f, u) != (src, uid) && Has(s, f, u) ensures Keeps(s, t, f, u) {
        assert Keeps(s, s1, f, u);
        assert f == src ==> DELETED !in s1[src].messages[u].flags;
      }
      forall f, u: nat | Has(t, f, u) && !Has(s, f, u) ensures f == dst && u == n {
        assert Has(s1, f, u);
      }
    } else if src in s && dst in s && uid !in s[src].messages {
      FallbackIgnoresAbsent(s, uid, dst, src, sc);
    }
  }

  lemma MovedOne(s: Server, uid: nat, dst: string, src: string)
    requires Valid(s) && Has(s, src, uid) && dst in s
    ensures var t := MoveEffect(s, src, {uid}, dst);
      && Valid(t) && !Has(t, src, uid)
      && t.Keys == s.Keys
      && Has(t, dst, s[dst].uidNext) && t[dst].messages[s[dst].uidNext] == s[src].messages[uid]
  {
    ContentsOne(s, src, uid);
    DeliverOne(Without(s[dst], if src == dst then {uid} else {}), s[src].messages[uid]);
  }

  /** Two folders change; the source, unless it is the destination too, only loses messages. */
  ghost predicate StaysIn(s: Server, t: Server, dst: string, src: string) {
    && Valid(t) && t.Keys == s.Keys
    && (forall f | f in s && f != src && f != dst :: t[f] == s[f])
    && (src != dst ==> forall u: nat :: Has(t, src, u) ==> Holds(s, src, u, t[src].messages[u].id))
  }

  lemma MoveEffectStays(s: Server, uid: nat, dst: string, src: string)
    requires Valid(s) && src in s && dst in s
    ensures StaysIn(s, MoveEffect(s, src, {uid}, dst), dst, src)
  {
  }

  /** What MOVE did is safe, and the fallback behind it finds nothing. */
  lemma MovedIsSafe(s: Server, uid: nat, dst: string, src: string, sc: MoveScript)
    requires Valid(s) && src in s && dst in s && Safe(s, uid, dst, src)
    ensures Conserves(s, MoveEffect(s, src, {uid}, dst), uid, dst, src)
    ensures Fallback(MoveEffect(s, src, {uid}, dst), uid, dst, src, sc).0 == MoveEffect(s, src, {uid}, dst)
  {
    ContentsOne(s, src, uid);
    var t := MoveEffect(s, src, {uid}, dst);
    MoveEffectStays(s, uid, dst, src);
    FallbackIgnoresAbsent(t, uid, dst, src, sc);
    if Has(s, src, uid) { MovedOne(s, uid, dst, src); }
  }

  lemma MoveIsSafe(s: Server, canMove: bool, uid: nat, dst: string, src: string, sc: MoveScript)
    requires Valid(s) && Safe(s, uid, dst, src)
    ensures Conserves(s, MoveRun(s, canMove, uid, dst, src, sc).0, uid, dst, src)
  {
    if src in s {
      if MoveTook(s, canMove, dst, sc) {
        MovedIsSafe(s, uid, dst, src, sc);
      } else {
        FallbackIsSafe(s, uid, dst, src, sc);
      }
    }
  }

  /** All commands succeed, on a server that answers NO to MOVE. */
  const NO_MOVE := MoveScript(Ok, No, Ok, Ok, Ok, true)

  lemma UnsafeFallbackLoses(s: Server, uid: nat, dst: string, src: string)
    requires Valid(s) && !Safe(s, uid, dst, src)
    ensures !Conserves(s, Fallback(s, uid, dst, src, NO_MOVE).0, uid, dst, src)
  {
    ContentsOne(s, src, uid);
    var t := Fallback(s, uid, dst, src, NO_MOVE).0;
    if u :| u in s[src].messages && u != uid && DELETED in s[src].messages[u].flags {
      assert !Keeps(s, t, src, u);
    }
  }

  lemma UnsafeMoveLoses(s: Server, canMove: bool, uid: nat, dst: string, src: string)
    requires Valid(s) && !Safe(s, uid, dst, src)
    ensures !Conserves(s, MoveRun(s, canMove, uid, dst, src, NO_MOVE).0, uid, dst, src)
  {
    assert MoveRun(s, canMove, uid, dst, src, NO_MOVE).0 == Fallback(s, uid, dst, src, NO_MOVE).0;
    UnsafeFallbackLoses(s, uid, dst, src);
  }

  /** move_message loses nothing under every failure pattern exactly when no bystander is flagged \Deleted. */
  lemma MoveConservesIff(s: Server, canMove: bool, uid: nat, dst: string, src: string)
    requires Valid(s)
    ensures (forall sc :: Conserves(s, MoveRun(s, canMove, uid, dst, src, sc).0, uid, dst, src))
            <==> Safe(s, uid, dst, src)
  {
    if Safe(s, uid, dst, src) {
      forall sc ensures Conserves(s, MoveRun(s, canMove, uid, dst, src, sc).0, uid, dst, src) {
        MoveIsSafe(s, canMove, uid, dst, src, sc);
      }
    } else {
      UnsafeMoveLoses(s, canMove, uid, dst, src);
    }
  }

  // ---- what the outcome says ---------------------------------------------------------------

  /** The message is flagged and moved into the folder it is in, so its copy carries the flag too. */
  predicate FlaggedReturn(s: Server, uid: nat, dst: string, src: string)
    requires Has(s, src, uid)
  {
    src == dst && DELETED in s[src].messages[uid].flags
  }

  /** The fallback alone, on a message that is in the source.  EXPUNGE takes the copy of a flagged return with it. */
  lemma FallbackEndMeans(s: Server, uid: nat, dst: string, src: string, sc: MoveScript)
    requires Valid(s) && Has(s, src, uid)
    ensures var (t, end) := Fallback(s, uid, dst, src, sc);
      var keeps := !FlaggedReturn(s, uid, dst, src) || sc.expunge == No;
      && (end.Returned? && end.result.success ==>
            && dst in s
            && (Holds(t, dst, s[dst].uidNext, s[src].messages[uid].id) <==> keeps)
            && (end.result.newUid.Some? ==> end.result.newUid.value == s[dst].uidNext)
            && (Has(t, src, uid) <==> sc.expunge == No))
      && (end == FAILED ==> Holds(t, src, uid, s[src].messages[uid].id))
  {
    if dst in s && sc.copy.Ok? {
      CopyOne(s, uid, dst, src);
      var s1 := CopyEffect(s, src, {uid}, dst);
      var (t, end) := Flagged(s1, uid, src, CopyUid(s, uid, dst, src, sc), sc);
      FlaggedStaysInSource(s1, uid, src, CopyUid(s, uid, dst, src, sc), sc);
      if !FlaggedReturn(s, uid, dst, src) { assert Keeps(s1, t, dst, s[dst].uidNext); }
    }
  }

  /** On an absent UID the fallback puts nothing anywhere, reports no UID, and keeps what is not flagged or is elsewhere. */
  lemma AbsentMoveFindsNothing(s: Server, uid: nat, dst: string, src: string, sc: MoveScript)
    requires Valid(s) && src in s && !Has(s, src, uid)
    ensures var (t, end) := Fallback(s, uid, dst, src, sc);
      && (forall f, u: nat :: Has(t, f, u) ==> Keeps(t, s, f, u))
      && (forall f, u: nat :: Has(s, f, u) && (f != src || DELETED !in s[f].messages[u].flags) ==> Keeps(s, t, f, u))
      && (end.Returned? ==> end.result.newUid == None)
  {
    ContentsOne(s, src, uid);
    if dst in s {
      assert CopyEffect(s, src, {uid}, dst) == s;
    }
    assert StoreEffect(s, src, {uid}, DELETED) == s by {
      assert StoreEffect(s, src, {uid}, DELETED)[src].messages == s[src].messages;
    }
  }

  /** EXPUNGE behind a MOVE within the folder takes the moved message if it is flagged. */
  lemma AbsentMovePurges(s: Server, uid: nat, dst: string, src: string, sc: MoveScript, n: nat)
    requires Valid(s) && src in s && dst in s && !Has(s, src, uid)
    requires Has(s, src, n) && DELETED in s[src].messages[n].flags
    requires sc.copy.Ok? && sc.store.Ok? && !sc.expunge.Raise?
    ensures var t := Fallback(s, uid, dst, src, sc).0;
      if sc.expunge == No then Holds(t, src, n, s[src].messages[n].id) else !Has(t, src, n)
  {
    ContentsOne(s, src, uid);
    assert CopyEffect(s, src, {uid}, dst) == s;
    assert StoreEffect(s, src, {uid}, DELETED) == s by {
      assert StoreEffect(s, src, {uid}, DELETED)[src].messages == s[src].messages;
    }
  }

  /** What becomes of the copy when MOVE took the message and the fallback followed. */
  lemma MovedEndMeans(s: Server, uid: nat, dst: string, src: string, sc: MoveScript)
    requires Valid(s) && Has(s, src, uid) && dst in s
    ensures var (t, end) := Fallback(MoveEffect(s, src, {uid}, dst), uid, dst, src, sc);
      var keeps := !FlaggedReturn(s, uid, dst, src) || sc.expunge == No;
      && !Has(t, src, uid)
      && (end.Returned? && end.result.success ==>
            && end.result.newUid == None
            && (Holds(t, dst, s[dst].uidNext, s[src].messages[uid].id) <==> keeps))
  {
    MovedOne(s, uid, dst, src);
    var s1, n := MoveEffect(s, src, {uid}, dst), s[dst].uidNext;
    AbsentMoveFindsNothing(s1, uid, dst, src, sc);
    var (t, end) := Fallback(s1, uid, dst, src, sc);
    if FlaggedReturn(s, uid, dst, src) {
      if end.Returned? && end.result.success { AbsentMovePurges(s1, uid, dst, src, sc, n); }
    } else {
      assert Keeps(s1, t, dst, n);
    }
    assert Has(t, src, uid) ==> Keeps(t, s1, src, uid);
  }

  /** For a message that is in the source at the start: success means it is in the destination, under the reported UID if
      one is reported, and it is gone from its old place unless EXPUNGE was answered NO; failure means it never left,
      unless MOVE raised after moving it.  Of a flagged return, success behind the fallback leaves nothing unless EXPUNGE
      was answered NO. */
  lemma MoveEndMeans(s: Server, canMove: bool, uid: nat, dst: string, src: string, sc: MoveScript)
    requires Valid(s) && Has(s, src, uid)
    ensures var (t, end) := MoveRun(s, canMove, uid, dst, src, sc);
      var keeps := !FlaggedReturn(s, uid, dst, src) || (canMove && sc.move.Ok?) || sc.expunge == No;
      && (end.Returned? && end.result.success ==>
            && dst in s
            && (Holds(t, dst, s[dst].uidNext, s[src].messages[uid].id) <==> keeps)
            && (end.result.newUid.Some? ==> end.result.newUid.value == s[dst].uidNext)
            && (Has(t, src, uid) <==> !MoveTook(s, canMove, dst, sc) && sc.expunge == No))
      && (end.Returned? && !end.result.success ==>
            (Holds(t, src, uid, s[src].messages[uid].id) <==> !MoveTook(s, canMove, dst, sc)))
  {
    if MoveTook(s, canMove, dst, sc) {
      MovedOne(s, uid, dst, src);
      MovedEndMeans(s, uid, dst, src, sc);
    } else {
      FallbackEndMeans(s, uid, dst, src, sc);
    }
  }

  /** Success does not mean that a message was found: on an absent UID a willing server answers OK throughout. */
  lemma AbsentMoveStillSucceeds(s: Server, canMove: bool, uid: nat, dst: string, src: string, sc: MoveScript)
    requires Valid(s) && src in s && dst in s && !Has(s, src, uid)
    requires sc.select.Ok? && sc.copy.Ok? && sc.store.Ok? && !sc.expunge.Raise?
    ensures var (t, end) := MoveRun(s, canMove, uid, dst, src, sc);
      && end == Returned(MoveResult(true, None))
      && forall f, u: nat :: Has(t, f, u) ==> Keeps(t, s, f, u)
  {
    ContentsOne(s, src, uid);
    assert MoveEffect(s, src, {uid}, dst) == s by {
      assert s[src].messages - {uid} == s[src].messages;
    }
    AbsentMoveFindsNothing(s, uid, dst, src, sc);
  }

  lemma FallbackStays(s: Server, uid: nat, dst: string, src: string, sc: MoveScript)
    requires Valid(s) && src in s
    ensures StaysIn(s, Fallback(s, uid, dst, src, sc).0, dst, src)
  {
    var s1 := if Takes(sc.copy, dst in s) then CopyEffect(s, src, {uid}, dst) else s;
    if dst in s {
      CopyKeeps(s, src, {uid}, dst);
    }
    FlaggedStaysInSource(s1, uid, src, CopyUid(s, uid, dst, src, sc), sc);
  }

  lemma StaysInTwice(s: Server, s1: Server, t: Server, dst: string, src: string)
    requires StaysIn(s, s1, dst, src) && StaysIn(s1, t, dst, src)
    ensures StaysIn(s, t, dst, src)
  {
  }

  lemma MoveStaysInTwoFolders(s: Server, canMove: bool, uid: nat, dst: string, src: string, sc: MoveScript)
    requires Valid(s)
    ensures StaysIn(s, MoveRun(s, canMove, uid, dst, src, sc).0, dst, src)
  {
    if src in s {
      FallbackStays(s, uid, dst, src, sc);
      if dst in s {
        var s1 := MoveEffect(s, src, {uid}, dst);
        MoveEffectStays(s, uid, dst, src);
        FallbackStays(s1, uid, dst, src, sc);
        StaysInTwice(s, s1, Fallback(s1, uid, dst, src, sc).0, dst, src);
      }
    }
  }

  /** The destination gains at most the place of the next UID. */
  ghost predicate GainsOne(s: Server, t: Server, dst: string) {
    dst in s && dst in t && forall u: nat :: Has(t, dst, u) && u != s[dst].uidNext ==> Holds(s, dst, u, t[dst].messages[u].id)
  }

  lemma FallbackGainsOne(s: Server, uid: nat, dst: string, src: string, sc: MoveScript)
    requires Valid(s) && src in s && dst in s && src != dst
    ensures var t := Fallback(s, uid, dst, src, sc).0;
      dst in t && (t[dst] == s[dst] || (Has(s, src, uid) && GainsOne(s, t, dst)))
  {
    var s1 := if Takes(sc.copy, true) then CopyEffect(s, src, {uid}, dst) else s;
    ContentsOne(s, src, uid);
    if uid in s[src].messages { CopyOne(s, uid, dst, src); }
    FlaggedStaysInSource(s1, uid, src, CopyUid(s, uid, dst, src, sc), sc);
  }

  lemma MovedGainsOne(s: Server, uid: nat, dst: string, src: string)
    requires Valid(s) && Has(s, src, uid) && dst in s && src != dst
    ensures GainsOne(s, MoveEffect(s, src, {uid}, dst), dst)
  {
    ContentsOne(s, src, uid);
    DeliverOne(s[dst], s[src].messages[uid]);
  }

  lemma MoveGainsOne(s: Server, canMove: bool, uid: nat, dst: string, src: string, sc: MoveScript)
    requires Valid(s) && Has(s, src, uid) && dst in s && src != dst
    ensures GainsOne(s, MoveRun(s, canMove, uid, dst, src, sc).0, dst)
  {
    FallbackGainsOne(s, uid, dst, src, sc);
    MovedGainsOne(s, uid, dst, src);
    MovedOne(s, uid, dst, src);
    FallbackGainsOne(MoveEffect(s, src, {uid}, dst), uid, dst, src, sc);
  }

  lemma FallbackKeepsContent(s: Server, uid: nat, dst: string, src: string, sc: MoveScript, u: nat)
    requires Valid(s) && src in s && u < s[src].uidNext
    ensures var t := Fallback(s, uid, dst, src, sc).0;
      src in t && (Has(t, src, u) ==> Holds(s, src, u, t[src].messages[u].id))
  {
    var s1 := if Takes(sc.copy, dst in s) then CopyEffect(s, src, {uid}, dst) else s;
    if dst in s { CopyKeeps(s, src, {uid}, dst); }
    FlaggedStaysInSource(s1, uid, src, CopyUid(s, uid, dst, src, sc), sc);
    assert Has(s1, src, u) ==> Has(s, src, u) && Keeps(s, s1, src, u);
  }

  lemma MovedKeepsContent(s: Server, uid: nat, dst: string, src: string, u: nat)
    requires Valid(s) && src in s && dst in s && u < s[src].uidNext
    ensures var t := MoveEffect(s, src, {uid}, dst);
      Valid(t) && src in t && u < t[src].uidNext && (Has(t, src, u) ==> Keeps(t, s, src, u))
  {
  }

  /** What stands at an old place of the source afterwards was there before, also within one folder. */
  lemma MoveKeepsContent(s: Server, canMove: bool, uid: nat, dst: string, src: string, sc: MoveScript, u: nat)
    requires Valid(s) && src in s && u < s[src].uidNext
    ensures var t := MoveRun(s, canMove, uid, dst, src, sc).0;
      src in t && (Has(t, src, u) ==> Holds(s, src, u, t[src].messages[u].id))
  {
    FallbackKeepsContent(s, uid, dst, src, sc, u);
    if MoveTook(s, canMove, dst, sc) {
      MovedKeepsContent(s, uid, dst, src, u);
      FallbackKeepsContent(MoveEffect(s, src, {uid}, dst), uid, dst, src, sc, u);
    }
  }
}
