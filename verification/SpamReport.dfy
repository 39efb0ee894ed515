/** Reporting a mail as spam: blocklist entries, the move, and the row that tracks the mail
    (backend/app/services/spam.py). */
module SpamReport {
  import opened Prelude
  import opened ImapServer
  import opened ImapMoves
  import opened ActionStrings
  import opened RuleActions
  import opened ImapActions
  import opened MoveTruth
  import opened OutcomeTruthIff
  import opened ExecutionTruth

  datatype EntryKind = EMAIL | DOMAIN | PATTERN

  datatype Entry = Entry(user: nat, kind: EntryKind, value: string)

  /** One row of tracked_emails, as far as it locates a mail. */
  datatype Row = Row(account: nat, uid: nat, folder: string)

  /** The part behind the last '@'. */
  function Domain(email: string): Option<string> {
    if email == "" then None
    else
      match Domain(email[1..])
      case Some(d) => Some(d)
      case None => if email[0] == '@' then Some(email[1..]) else None
  }

  predicate AtDomain(email: string, a: string, d: string) {
    email == a + "@" + d
  }

  /** It is what follows an '@' and has none itself. */
  lemma {:induction false} DomainIff(email: string, d: string)
    ensures Domain(email) == Some(d) <==> '@' !in d && exists a :: AtDomain(email, a, d)
    ensures Domain(email) == None <==> '@' !in email
  {
    if email != "" {
      DomainIff(email[1..], d);
      if a :| AtDomain(email[1..], a, d) { assert AtDomain(email, [email[0]] + a, d); }
      if a :| AtDomain(email, a, d) {
        if a != "" { assert AtDomain(email[1..], a[1..], d); } else { assert email[1..] == d; }
      }
      if email[0] == '@' && email[1..] == d { assert AtDomain(email, "", d); }
      assert '@' in email <==> email[0] == '@' || '@' in email[1..];
    }
  }

  /** `norm` is lower-casing followed by stripping. */
  function SenderEntries(user: nat, sender: string, norm: string -> string): set<Entry> {
    var email, domain := Entry(user, EMAIL, norm(sender)), Domain(sender);
    if domain.Some? && norm(domain.value) != "" then {email, Entry(user, DOMAIN, norm(norm(domain.value)))} else {email}
  }

  /** The sender's address is blocked as an address and its domain, if it has one, as a domain, for this user. */
  lemma EntriesAre(user: nat, sender: string, norm: string -> string, e: Entry)
    ensures e in SenderEntries(user, sender, norm) <==>
      && e.user == user
      && match e.kind
         case EMAIL => e.value == norm(sender)
         case DOMAIN =>
           exists d :: Domain(sender) == Some(d) && norm(d) != "" && e.value == norm(norm(d))
         case PATTERN => false
  {
    if Domain(sender).Some? { assert Domain(sender) == Some(Domain(sender).value); }
  }

  const SPAM_PARSED := ParsedAction(MOVE_TO_SPAM, None, "move_to_spam")
  const READ_PARSED := ParsedAction(MARK_AS_READ, None, "mark_as_read")

  /** What the two action strings of a report parse to. */
  lemma ReportActionsParse()
    ensures ParseAction("move_to_spam") == SPAM_PARSED && ParseAction("mark_as_read") == READ_PARSED
  {
    BareActionsSurvive();
  }

  function SpamJobs(move: ActionScript, read: ActionScript): seq<Job> {
    [Job(SPAM_PARSED, move), Job(READ_PARSED, read)]
  }

  /** Where the row goes. */
  function NewPlace(at: Row, out: MoveOutcome): Row
    requires out.folder.Some?
  {
    Row(at.account, if out.newUid.Some? then out.newUid.value else at.uid, out.folder.value)
  }

  /** The row of the mail, moved to the reported folder and UID. */
  function Relocated(rows: map<nat, Row>, at: Row, out: MoveOutcome): map<nat, Row> {
    if out.folder == None then rows
    else map i | i in rows :: if rows[i] == at then NewPlace(at, out) else rows[i]
  }

  /** (mail_account_id, mail_uid, current_folder) */
  ghost predicate UniqueRows(rows: map<nat, Row>) {
    forall i, j | i in rows && j in rows && i != j :: rows[i] != rows[j]
  }

  /** Another row stands at the new place already, so the update violates the unique key. */
  predicate Collides(rows: map<nat, Row>, at: Row, out: MoveOutcome) {
    && out.folder.Some? && NewPlace(at, out) != at
    && at in rows.Values && NewPlace(at, out) in rows.Values
  }

  /** The rows afterwards: the failed flush is swallowed, but the transaction is gone. */
  function Updated(rows: map<nat, Row>, at: Row, out: MoveOutcome): map<nat, Row> {
    if Collides(rows, at, out) then rows else Relocated(rows, at, out)
  }

  /** The server and the outcome after both actions: the flag first, then the move. */
  function ReportRun(s: Server, e: Setting, move: ActionScript, read: ActionScript): (Server, MoveOutcome)
    requires |SPAM_FOLDERS[0]| < |move.creates|
  {
    MoveStep(StoreRun(s, e, "\\Seen", read.mv), e, Job(SPAM_PARSED, move), NOT_MOVED)
  }

  lemma MoveApartFromFlag(m: Job, f: Job)
    requires IsMove(m.action) && !IsMove(f.action)
    ensures FlagsOf([m, f]) == [f] && MovesOf([m, f]) == [m]
  {
    var l := [m, f];
    SplitFirst(l, 0);
    SplitFirst(l, 1);
    assert l[0..] == l && l[2..] == [];
  }

  lemma {:induction false} OneFlag(s: Server, e: Setting, f: Job)
    requires Covers(e, f)
    ensures AllCovered(e, [f]) && FlagsRun(s, e, [f]) == FlagStep(s, e, f)
  {
    assert [f][1..] == [];
  }

  lemma {:induction false} OneMove(s: Server, e: Setting, m: Job)
    requires IsMove(m.action) && Covers(e, m)
    ensures AllCovered(e, [m]) && MovesRun(s, e, [m], NOT_MOVED) == MoveStep(s, e, m, NOT_MOVED)
  {
    assert [m][1..] == [];
  }

  lemma SpamJobsRun(s: Server, e: Setting, move: ActionScript, read: ActionScript)
    requires |SPAM_FOLDERS[0]| < |move.creates| && |SPAM_FOLDERS[0]| < |read.creates|
    ensures var jobs := SpamJobs(move, read);
      && AllCovered(e, jobs)
      && MovesRun(FlagsRun(s, e, FlagsOf(jobs)), e, MovesOf(jobs), NOT_MOVED) == ReportRun(s, e, move, read)
  {
    var m, f := Job(SPAM_PARSED, move), Job(READ_PARSED, read);
    MoveApartFromFlag(m, f);
    OneFlag(s, e, f);
    OneMove(FlagStep(s, e, f), e, m);
  }

  predicate TracksIn(row: Row, account: nat, uid: nat, folder: string) {
    row.account == account && row.uid == uid && folder == if row.folder != "" then row.folder else INBOX
  }

  ghost predicate FoundIn(rows: map<nat, Row>, account: nat, uid: nat, folder: string) {
    if exists i | i in rows :: rows[i].account == account && rows[i].uid == uid
    then exists i | i in rows :: TracksIn(rows[i], account, uid, folder)
    else folder == INBOX
  }

  lemma UpdateKeepsKey(rows: map<nat, Row>, at: Row, out: MoveOutcome)
    requires UniqueRows(rows)
    ensures UniqueRows(Updated(rows, at, out))
  {
    if out.folder.Some? && !Collides(rows, at, out) {
      var t := Relocated(rows, at, out);
      forall i, j | i in t && j in t && i != j ensures t[i] != t[j] {
        assert rows[i] in rows.Values && rows[j] in rows.Values;
      }
    }
  }

  lemma NewEntries(known: set<Entry>, entries: set<Entry>)
    ensures |known + entries| == |known| + |entries - known|
    ensures |entries - known| == 0 <==> entries <= known
  {
    assert known + entries == known + (entries - known) && known !! (entries - known);
    if |entries - known| == 0 { assert entries - known == {}; }
  }

  class SpamService {
    var blocklist: set<Entry>
    var rows: map<nat, Row>

    constructor (blocklist: set<Entry>, rows: map<nat, Row>)
      ensures this.blocklist == blocklist && this.rows == rows
    {
      this.blocklist, this.rows := blocklist, rows;
    }

    /** Insert unless present. */
    method UpsertEntry(e: Entry) returns (inserted: bool)
      modifies this`blocklist
      ensures blocklist == old(blocklist) + {e}
      ensures inserted <==> e !in old(blocklist)
      ensures |blocklist| == |old(blocklist)| + if inserted then 1 else 0
    {
      inserted := e !in blocklist;
      if inserted {
        blocklist := blocklist + {e};
      } else {
        assert blocklist + {e} == blocklist;
      }
    }

    method BlockSender(user: nat, sender: string, norm: string -> string) returns (created: nat)
      modifies this`blocklist
      ensures blocklist == old(blocklist) + SenderEntries(user, sender, norm)
      ensures created == |SenderEntries(user, sender, norm) - old(blocklist)|
      ensures created == 0 <==> SenderEntries(user, sender, norm) <= old(blocklist)
    {
      created := 0;
      var email := Entry(user, EMAIL, norm(sender));
      var inserted := UpsertEntry(email);
      if inserted { created := created + 1; }
      var domain := Domain(sender);
      if domain.Some? && norm(domain.value) != "" {
        var entry := Entry(user, DOMAIN, norm(norm(domain.value)));
        inserted := UpsertEntry(entry);
        if inserted { created := created + 1; }
        assert blocklist == old(blocklist) + {email, entry};
      }
      NewEntries(old(blocklist), SenderEntries(user, sender, norm));
    }

    /** The folder to look in: that of any row with this UID, INBOX if there is none or it has no folder. */
    method CurrentFolder(account: nat, uid: nat) returns (folder: string)
      ensures FoundIn(rows, account, uid, folder)
    {
      folder := INBOX;
      if i :| i in rows && rows[i].account == account && rows[i].uid == uid {
        if rows[i].folder != "" { folder := rows[i].folder; }
        assert TracksIn(rows[i], account, uid, folder);
      }
    }

    /** `found` says whether the account is the user's; without a connection nothing is moved.  A move is claimed
        whenever the account is found, because failures on the way are swallowed.  If the row cannot be updated the
        transaction is `lost`, and with it the blocklist entries; the move on the server stays. */
    method ReportAsSpam(c: Connection, e0: Setting, user: nat, account: nat, found: bool, sender: string,
                        norm: string -> string, connected: bool, move: ActionScript, read: ActionScript)
      returns (created: nat, mailMoved: bool, src: string, lost: bool)
      requires |SPAM_FOLDERS[0]| < |move.creates| && |SPAM_FOLDERS[0]| < |read.creates|
      requires e0.canMove == c.supportsMove && UniqueRows(rows)
      modifies this, c
      ensures UniqueRows(rows)
      ensures created == |SenderEntries(user, sender, norm) - old(blocklist)|
      ensures blocklist == if lost then old(blocklist) else old(blocklist) + SenderEntries(user, sender, norm)
      ensures mailMoved <==> found
      ensures found ==> FoundIn(old(rows), account, e0.uid, src)
      ensures !found || !connected ==> c.server == old(c.server) && rows == old(rows) && !lost
      ensures found && connected ==>
        var (t, out) := ReportRun(old(c.server), e0.(src := src), move, read);
        && c.server == t && rows == Updated(old(rows), Row(account, e0.uid, src), out)
        && (lost <==> Collides(old(rows), Row(account, e0.uid, src), out))
    {
      var before := blocklist;
      created := BlockSender(user, sender, norm);
      mailMoved, src, lost := false, INBOX, false;
      if !found { return; }
      src := CurrentFolder(account, e0.uid);
      var e := e0.(src := src);
      var out := NOT_MOVED;
      if connected {
        SpamJobsRun(c.server, e, move, read);
        out := ExecuteJobs(c, e, SpamJobs(move, read));
      }
      mailMoved := true;
      if out.folder.Some? {
        var at := Row(account, e.uid, src);
        UpdateKeepsKey(rows, at, out);
        if Collides(rows, at, out) {
          blocklist, lost := before, true;
        } else {
          rows := Relocated(rows, at, out);
        }
      }
    }
  }

  // ---- many reports ----------------------------------------------------------------------------

  /** A report, and whether its transaction is lost. */
  datatype Report = Report(user: nat, sender: string, lost: bool)

  function Blocked(blocklist: set<Entry>, reports: seq<Report>, norm: string -> string): set<Entry> {
    if reports == [] then blocklist
    else
      var before, r := Blocked(blocklist, reports[..|reports| - 1], norm), reports[|reports| - 1];
      if r.lost then before else before + SenderEntries(r.user, r.sender, norm)
  }

  /** What report i answers, as BlockSender counts it. */
  function CreatedBy(blocklist: set<Entry>, reports: seq<Report>, i: nat, norm: string -> string): nat
    requires i < |reports|
  {
    |SenderEntries(reports[i].user, reports[i].sender, norm) - Blocked(blocklist, reports[..i], norm)|
  }

  /** The sum of these answers over the reports that were not lost. */
  function TotalCreated(blocklist: set<Entry>, reports: seq<Report>, n: nat, norm: string -> string): nat
    requires n <= |reports|
  {
    if n == 0 then 0
    else
      TotalCreated(blocklist, reports, n - 1, norm)
      + if reports[n - 1].lost then 0 else CreatedBy(blocklist, reports, n - 1, norm)
  }

  ghost predicate ReportedBefore(reports: seq<Report>, i: nat, e: Entry, norm: string -> string)
    requires i <= |reports|
  {
    exists k | 0 <= k < i :: !reports[k].lost && e in SenderEntries(reports[k].user, reports[k].sender, norm)
  }

  /** Every entry of report i was there, or in an earlier report that was not lost. */
  ghost predicate AllKnown(blocklist: set<Entry>, reports: seq<Report>, i: nat, norm: string -> string)
    requires i < |reports|
  {
    forall e | e in SenderEntries(reports[i].user, reports[i].sender, norm) ::
      e in blocklist || ReportedBefore(reports, i, e, norm)
  }

  lemma {:induction false} BlockedMeans(
      blocklist: set<Entry>, reports: seq<Report>, n: nat, e: Entry, norm: string -> string)
    requires n <= |reports|
    ensures e in Blocked(blocklist, reports[..n], norm) <==> e in blocklist || ReportedBefore(reports, n, e, norm)
  {
    if n > 0 {
      BlockedMeans(blocklist, reports, n - 1, e, norm);
      assert reports[..n][..n - 1] == reports[..n - 1];
    } else {
      assert reports[..0] == [];
    }
  }

  lemma {:induction false} TotalIsGrowth(blocklist: set<Entry>, reports: seq<Report>, n: nat, norm: string -> string)
    requires n <= |reports|
    ensures |Blocked(blocklist, reports[..n], norm)| == |blocklist| + TotalCreated(blocklist, reports, n, norm)
  {
    if n > 0 {
      TotalIsGrowth(blocklist, reports, n - 1, norm);
      assert reports[..n][..n - 1] == reports[..n - 1];
      var r := reports[n - 1];
      NewEntries(Blocked(blocklist, reports[..n - 1], norm), SenderEntries(r.user, r.sender, norm));
    } else {
      assert reports[..0] == [];
    }
  }

  /** Over every run of reports: the counts that were answered, less those of lost reports, add up to the growth of the
      blocklist, and a report answers 0 exactly when each of its entries was there or in an earlier report that was not
      lost; so on a second report of a sender, unless the first was lost. */
  lemma ReportsCreateOnce(blocklist: set<Entry>, reports: seq<Report>, norm: string -> string)
    ensures |Blocked(blocklist, reports, norm)| == |blocklist| + TotalCreated(blocklist, reports, |reports|, norm)
    ensures forall i: nat | i < |reports| ::
      CreatedBy(blocklist, reports, i, norm) == 0 <==> AllKnown(blocklist, reports, i, norm)
  {
    TotalIsGrowth(blocklist, reports, |reports|, norm);
    assert reports[..|reports|] == reports;
    forall i: nat | i < |reports|
      ensures CreatedBy(blocklist, reports, i, norm) == 0 <==> AllKnown(blocklist, reports, i, norm)
    {
      NewEntries(Blocked(blocklist, reports[..i], norm), SenderEntries(reports[i].user, reports[i].sender, norm));
      forall e ensures e in Blocked(blocklist, reports[..i], norm) <==> e in blocklist || ReportedBefore(reports, i, e, norm) {
        BlockedMeans(blocklist, reports, i, e, norm);
      }
    }
  }

  // ---- when the claim is true ------------------------------------------------------------------

  /** The folder a report moves to, and the server with it, once the mail is marked as read. */
  function SpamTarget(s: Server, e: Setting, move: ActionScript, read: ActionScript): (Server, string)
    requires |SPAM_FOLDERS[0]| < |move.creates|
  {
    ResolveSpam(StoreRun(s, e, "\\Seen", read.mv), e.sep, move.creates)
  }

  /** The answers on which a report really moves something. */
  predicate Moves(s: Server, e: Setting, move: ActionScript, read: ActionScript)
    requires |SPAM_FOLDERS[0]| < |move.creates|
  {
    var (s1, dst) := SpamTarget(s, e, move, read);
    var sc := move.mv;
    && move.list.Ok? && dst in s1 && e.src in s1 && sc.select.Ok?
    && ((e.canMove && sc.move.Ok?) || (sc.copy.Ok? && sc.store.Ok? && !sc.expunge.Raise?))
  }

  /** A folder is reported by the moves exactly on these answers. */
  lemma ReportMovesIff(s: Server, e: Setting, move: ActionScript, read: ActionScript)
    requires |SPAM_FOLDERS[0]| < |move.creates|
    ensures ReportRun(s, e, move, read).1.folder.Some? <==> Moves(s, e, move, read)
    ensures Moves(s, e, move, read) ==> ReportRun(s, e, move, read).1.folder == Some(SpamTarget(s, e, move, read).1)
  {
    var (s1, dst) := SpamTarget(s, e, move, read);
    if move.list.Ok? { ReportedAnswers(s1, e, dst, move.mv); }
  }

  /** A move that is claimed, and one that took place as far as the answers say. */
  predicate ClaimIsTrue(s: Server, e: Setting, found: bool, connected: bool, move: ActionScript, read: ActionScript)
    requires |SPAM_FOLDERS[0]| < |move.creates|
  {
    found <==> found && connected && Moves(s, e, move, read)
  }

  /** The claim is true under all replies, with or without a connection, if and only if nothing is claimed. */
  lemma ClaimIsTrueIff(s: Server, e: Setting, found: bool, connected: bool)
    ensures (forall move: ActionScript, read: ActionScript | |SPAM_FOLDERS[0]| < |move.creates| ::
        ClaimIsTrue(s, e, found, connected, move, read))
      <==> !found
  {
    var refused := ActionScript(MoveScript(No, No, No, No, No, false), No, [No, No, No, No, No]);
    assert ClaimIsTrue(s, e, found, connected, refused, refused) <==> !found;
  }

  // ---- where the row says the mail is --------------------------------------------------------------

  lemma ReportKeepsOnly(s: Server, e: Setting, move: ActionScript, read: ActionScript, id: nat)
    requires |SPAM_FOLDERS[0]| < |move.creates| && Valid(s) && Holds(s, e.src, e.uid, id) && Only(s, e, id)
    ensures var s2 := SpamTarget(s, e, move, read).0; Valid(s2) && Holds(s2, e.src, e.uid, id) && Only(s2, e, id)
  {
    StoreKeepsMessage(s, e, "\\Seen", read.mv);
    var s1 := StoreRun(s, e, "\\Seen", read.mv);
    forall f, u: nat | Holds(s1, f, u, id) ensures f == e.src && u == e.uid { assert Holds(s, f, u, id); }
    assert Holds(s1, e.src, e.uid, id);
    ResolveGrows(s1, e, move.creates);
    GrowthKeepsOnly(s1, ResolveSpam(s1, e.sep, move.creates).0, e, id);
  }

  /** MOVE has not taken the mail, and EXPUNGE is answered NO: the mail is also where it was. */
  predicate Stayed(e: Setting, sc: MoveScript) {
    !(e.canMove && Takes(sc.move, true)) && sc.expunge == No
  }

  /** The answers to the move from the place the row names, as far as the row is concerned. */
  lemma MovedRow(s2: Server, e: Setting, dst: string, sc: MoveScript, id: nat) returns (n: nat)
    requires Valid(s2) && Holds(s2, e.src, e.uid, id) && Only(s2, e, id)
    requires MoveTo(s2, e, dst, sc, NOT_MOVED).1.folder.Some?
    ensures var (t, out) := MoveTo(s2, e, dst, sc, NOT_MOVED);
      && out.folder == Some(dst) && (out.newUid.Some? ==> out.newUid == Some(n))
      && (Holds(t, dst, n, id) <==> !Vanishes(s2, e, dst, sc))
      && (Holds(t, e.src, e.uid, id) <==> Stayed(e, sc))
      && (dst != e.src ==> (Holds(t, dst, e.uid, id) <==> n == e.uid))
  {
    n := MoveToTruth(s2, e, dst, sc, id);
    ReportedAnswers(s2, e, dst, sc);
    MoveEndMeans(s2, e.canMove, e.uid, dst, e.src, sc);
    MoveKeepsContent(s2, e.canMove, e.uid, dst, e.src, sc, e.uid);
    if dst != e.src { MoveGainsOne(s2, e.canMove, e.uid, dst, e.src, sc); }
  }

  lemma SeenLeavesFlag(s: Server, e: Setting, move: ActionScript, read: ActionScript)
    requires |SPAM_FOLDERS[0]| < |move.creates| && Has(s, e.src, e.uid)
    ensures var s2 := SpamTarget(s, e, move, read).0;
      Has(s2, e.src, e.uid) && (IsFlagged(s2, e) <==> IsFlagged(s, e))
  {
    assert "\\Seen"[1] == 'S' && DELETED[1] == 'D';
    ResolveGrows(StoreRun(s, e, "\\Seen", read.mv), e, move.creates);
  }

  /** After a report that reported a folder, its row says where the mail is: in another folder, exactly when the server
      sent COPYUID or the copy happened to get the old UID; if another row stands at the new place, the row keeps naming
      the old one, and that is right exactly when the mail was copied and EXPUNGE answered NO.  In the folder it was in,
      exactly when COPYUID was sent, no other row stands there, and EXPUNGE did not take a flagged copy; or the mail
      stayed.  `n` is the UID of the copy. */
  lemma RowLocatesIff(s: Server, e: Setting, move: ActionScript, read: ActionScript, id: nat,
                      rows: map<nat, Row>, i: nat, account: nat) returns (n: nat)
    requires |SPAM_FOLDERS[0]| < |move.creates| && Valid(s) && Holds(s, e.src, e.uid, id) && Only(s, e, id)
    requires i in rows && rows[i] == Row(account, e.uid, e.src)
    requires ReportRun(s, e, move, read).1.folder.Some?
    ensures var (t, out) := ReportRun(s, e, move, read);
      var row := Updated(rows, rows[i], out)[i];
      var follows := out.newUid.Some? && !Collides(rows, rows[i], out);
      var moved := e.canMove && move.mv.move.Ok?;
      var vanished := out.folder.value == e.src && IsFlagged(s, e) && !moved && move.mv.expunge.Ok?;
      && (Holds(t, out.folder.value, n, id) <==> !vanished)
      && (Holds(t, row.folder, row.uid, id) <==>
            if out.folder.value == e.src then (follows && (IsFlagged(s, e) ==> moved)) || Stayed(e, move.mv)
            else if Collides(rows, rows[i], out) then Stayed(e, move.mv)
            else out.newUid.Some? || n == e.uid)
  {
    var (s2, dst) := SpamTarget(s, e, move, read);
    ReportKeepsOnly(s, e, move, read, id);
    SeenLeavesFlag(s, e, move, read);
    ReportedAnswers(s2, e, dst, move.mv);
    n := MovedRow(s2, e, dst, move.mv, id);
  }

  const SPAM_MAIL := Message(7, {DELETED})

  /** One mail in the spam folder, flagged \Deleted. */
  const REPORTED: Server := map[SPAM_FOLDERS[0] := Mailbox(map[1 := SPAM_MAIL], 2)]

  /** A run: a mail whose row names the spam folder already is copied there, COPYUID is sent, EXPUNGE takes both, the row
      follows to the new UID, and nothing is there. */
  lemma ReportedTwiceIsLost(upper: string -> string, row: Row)
    requires row == Row(1, 1, SPAM_FOLDERS[0])
    ensures var e := Setting(1, SPAM_FOLDERS[0], false, '/', upper);
      var sc := Willing(SPAM_PARSED, COPIED);
      var (t, out) := ReportRun(REPORTED, e, sc, sc);
      && out == MoveOutcome(Some(SPAM_FOLDERS[0]), Some(2))
      && Updated(map[0 := row], row, out) == map[0 := Row(1, 2, SPAM_FOLDERS[0])]
      && t.Keys == {SPAM_FOLDERS[0]} && t[SPAM_FOLDERS[0]].messages == map[]
  {
    var junk := SPAM_FOLDERS[0];
    var e := Setting(1, junk, false, '/', upper);
    var s1 := StoreRun(REPORTED, e, "\\Seen", COPIED);
    CopyOne(s1, 1, junk, junk);
  }

  /** After a report that reported no folder its row is unchanged, and says where the mail is exactly when the answers did
      not let the mail slip. */
  lemma UnreportedRowLocatesIff(s: Server, e: Setting, move: ActionScript, read: ActionScript, id: nat,
                                rows: map<nat, Row>, i: nat, account: nat)
    requires |SPAM_FOLDERS[0]| < |move.creates| && Valid(s) && Holds(s, e.src, e.uid, id)
    requires i in rows && rows[i] == Row(account, e.uid, e.src) && ReportRun(s, e, move, read).1.folder == None
    ensures var (t, out) := ReportRun(s, e, move, read);
      var row := Updated(rows, rows[i], out)[i];
      && row == rows[i]
      && (Holds(t, row.folder, row.uid, id) <==> !SlipsOn(StoreRun(s, e, "\\Seen", read.mv), e, Job(SPAM_PARSED, move)))
  {
    StoreKeepsMessage(s, e, "\\Seen", read.mv);
    var s1 := StoreRun(s, e, "\\Seen", read.mv);
    assert Holds(s1, e.src, e.uid, id);
    if move.list.Ok? {
      ResolveGrows(s1, e, move.creates);
      var (s2, dst) := SpamTarget(s, e, move, read);
      assert Holds(s2, e.src, e.uid, id);
      UnreportedIff(s2, e, dst, move.mv, id);
    }
  }
}
