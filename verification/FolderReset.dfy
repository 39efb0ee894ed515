/** The database half of resetting a smart folder (backend/app/api/folders.py), against the unique key of
    tracked_emails (backend/app/models/mail.py). */
module FolderReset {
  import opened Prelude

  // ---- tables ------------------------------------------------------------------------------

  datatype Status = QUEUED | PROCESSING | COMPLETED | FAILED

  /** What a run of the pipeline leaves on a row. */
  datatype Progress = Progress(retryCount: nat, lastError: Option<string>, errorType: Option<nat>,
                               plugins: Option<nat>, completionReason: Option<nat>)

  const FRESH := Progress(0, None, None, None, None)

  datatype Tracked = Tracked(user: nat, account: nat, uid: nat, folder: string, status: Status, progress: Progress)

  datatype Assigned = Assigned(user: nat, mail: nat, folder: string)

  type Table = map<nat, Tracked>

  /** A mail account and a UID. */
  type Pair = (nat, nat)

  /** (mail_account_id, mail_uid, current_folder) */
  ghost predicate UniqueKey(rows: Table) {
    forall i, j | i in rows && j in rows && i != j ::
      !(rows[i].account == rows[j].account && rows[i].uid == rows[j].uid && rows[i].folder == rows[j].folder)
  }

  /** All rows of an account belong to the owner of the account. */
  ghost predicate OneOwner(rows: Table) {
    forall i, j | i in rows && j in rows && rows[i].account == rows[j].account :: rows[i].user == rows[j].user
  }

  function PairOf(r: Tracked): Pair {
    (r.account, r.uid)
  }

  ghost predicate Tracks(rows: Table, p: Pair) {
    exists i :: i in rows && PairOf(rows[i]) == p
  }

  // ---- the rewrite, row by row ---------------------------------------------------------------

  predicate InInbox(rows: Table, user: nat, p: Pair) {
    exists i | i in rows :: rows[i].user == user && PairOf(rows[i]) == p && rows[i].folder == INBOX
  }

  function Requeued(r: Tracked): Tracked {
    r.(status := QUEUED, progress := FRESH)
  }

  /** What becomes of one row when the pairs in `affected` are reset; None means deleted. */
  function NewRow(rows: Table, user: nat, folder: string, affected: set<Pair>, r: Tracked): Option<Tracked> {
    if r.user != user || PairOf(r) !in affected then Some(r)
    else if InInbox(rows, user, PairOf(r)) then
      if r.folder == folder then None
      else if r.folder == INBOX then Some(Requeued(r))
      else Some(r)
    else if r.status == COMPLETED then Some(Requeued(r).(folder := INBOX))
    else Some(r)
  }

  function After(rows: Table, user: nat, folder: string, affected: set<Pair>): Table {
    map i | i in rows && NewRow(rows, user, folder, affected, rows[i]).Some? ::
      NewRow(rows, user, folder, affected, rows[i]).value
  }

  /** The pairs of the rows that a folder assignment of this user names. */
  function Affected(rows: Table, links: map<nat, Assigned>, user: nat, folder: string): set<Pair> {
    set a | a in links && links[a].user == user && links[a].folder == folder && links[a].mail in rows
      :: PairOf(rows[links[a].mail])
  }

  // ---- when it keeps the unique key ------------------------------------------------------------

  /** The rows that the last update moves to INBOX: completed rows, in whatever folder. */
  predicate Relocates(rows: Table, user: nat, affected: set<Pair>, r: Tracked) {
    r.user == user && PairOf(r) in affected && !InInbox(rows, user, PairOf(r)) && r.status == COMPLETED
  }

  ghost predicate AtMostOneCompleted(rows: Table, user: nat, affected: set<Pair>) {
    forall i, j | i in rows && j in rows && i != j && PairOf(rows[i]) == PairOf(rows[j]) ::
      !(Relocates(rows, user, affected, rows[i]) && Relocates(rows, user, affected, rows[j]))
  }

  /** The reset keeps the unique key exactly when no affected UID without an INBOX row has two completed rows. */
  lemma KeepsUniqueKeyIff(rows: Table, user: nat, folder: string, affected: set<Pair>)
    requires UniqueKey(rows) && OneOwner(rows)
    ensures UniqueKey(After(rows, user, folder, affected)) <==> AtMostOneCompleted(rows, user, affected)
  {
    var t := After(rows, user, folder, affected);
    if AtMostOneCompleted(rows, user, affected) {
      forall i, j | i in t && j in t && i != j
        ensures !(t[i].account == t[j].account && t[i].uid == t[j].uid && t[i].folder == t[j].folder)
      {
        assert !(rows[i].account == rows[j].account && rows[i].uid == rows[j].uid && rows[i].folder == rows[j].folder);
      }
    } else {
      var i, j :| i in rows && j in rows && i != j && PairOf(rows[i]) == PairOf(rows[j])
        && Relocates(rows, user, affected, rows[i]) && Relocates(rows, user, affected, rows[j]);
      assert t[i].account == t[j].account && t[i].uid == t[j].uid && t[i].folder == t[j].folder;
    }
  }

  /** Two completed rows for one UID, in the smart folder and elsewhere, make the reset fail for every such table. */
  lemma TwoCompletedRowsClash(rows: Table, user: nat, folder: string, affected: set<Pair>, i: nat, j: nat)
    requires UniqueKey(rows) && OneOwner(rows) && i in rows && j in rows && i != j
    requires rows[i].user == user && PairOf(rows[i]) == PairOf(rows[j]) && PairOf(rows[i]) in affected
    requires rows[i].folder == folder && !InInbox(rows, user, PairOf(rows[i]))
    requires rows[i].status == COMPLETED && rows[j].status == COMPLETED
    ensures !UniqueKey(After(rows, user, folder, affected))
  {
    KeepsUniqueKeyIff(rows, user, folder, affected);
    assert Relocates(rows, user, affected, rows[i]) && Relocates(rows, user, affected, rows[j]);
  }

  // ---- when it keeps every tracked mail --------------------------------------------------------

  lemma NothingAppears(rows: Table, user: nat, folder: string, affected: set<Pair>, p: Pair)
    requires Tracks(After(rows, user, folder, affected), p)
    ensures Tracks(rows, p)
  {
    var t := After(rows, user, folder, affected);
    var i :| i in t && PairOf(t[i]) == p;
    assert PairOf(rows[i]) == p;
  }

  /** The only row of an affected mail, in INBOX. */
  ghost predicate Lonely(rows: Table, user: nat, affected: set<Pair>, i: nat)
    requires i in rows
  {
    && rows[i].user == user && PairOf(rows[i]) in affected && rows[i].folder == INBOX
    && !exists j :: j in rows && PairOf(rows[j]) == PairOf(rows[i]) && rows[j].folder != INBOX
  }

  lemma LonelyIsLost(rows: Table, user: nat, affected: set<Pair>, i: nat)
    requires UniqueKey(rows) && OneOwner(rows) && i in rows && Lonely(rows, user, affected, i)
    ensures Tracks(rows, PairOf(rows[i])) && !Tracks(After(rows, user, INBOX, affected), PairOf(rows[i]))
  {
    var t := After(rows, user, INBOX, affected);
    assert InInbox(rows, user, PairOf(rows[i]));
    forall j | j in t ensures PairOf(t[j]) != PairOf(rows[i]) {
      assert PairOf(t[j]) == PairOf(rows[j]);
    }
  }

  lemma PairSurvivesInbox(rows: Table, user: nat, affected: set<Pair>, p: Pair)
    requires UniqueKey(rows) && OneOwner(rows) && Tracks(rows, p)
    requires forall i | i in rows :: !Lonely(rows, user, affected, i)
    ensures Tracks(After(rows, user, INBOX, affected), p)
  {
    var t := After(rows, user, INBOX, affected);
    var i :| i in rows && PairOf(rows[i]) == p;
    if i in t {
      assert PairOf(t[i]) == p;
    } else {
      assert !Lonely(rows, user, affected, i);
      var j :| j in rows && PairOf(rows[j]) == PairOf(rows[i]) && rows[j].folder != INBOX;
      assert j in t && PairOf(t[j]) == p;
    }
  }

  lemma PairSurvives(rows: Table, user: nat, folder: string, affected: set<Pair>, p: Pair)
    requires folder != INBOX && Tracks(rows, p)
    ensures Tracks(After(rows, user, folder, affected), p)
  {
    var t := After(rows, user, folder, affected);
    var i :| i in rows && PairOf(rows[i]) == p;
    if i in t {
      assert PairOf(t[i]) == p;
    } else {
      var j :| j in rows && rows[j].user == user && PairOf(rows[j]) == p && rows[j].folder == INBOX;
      assert j in t && PairOf(t[j]) == p;
    }
  }

  /** Every tracked (account, UID) stays tracked, and none appears, exactly when the folder is not INBOX or every
      affected mail with an INBOX row has another row elsewhere. */
  lemma KeepsPairsIff(rows: Table, user: nat, folder: string, affected: set<Pair>)
    requires UniqueKey(rows) && OneOwner(rows)
    ensures (forall p :: Tracks(After(rows, user, folder, affected), p) <==> Tracks(rows, p))
      <==> (folder == INBOX ==>
              forall i | i in rows && rows[i].user == user && PairOf(rows[i]) in affected && rows[i].folder == INBOX ::
                exists j :: j in rows && PairOf(rows[j]) == PairOf(rows[i]) && rows[j].folder != INBOX)
  {
    forall p | Tracks(After(rows, user, folder, affected), p) ensures Tracks(rows, p) {
      NothingAppears(rows, user, folder, affected, p);
    }
    if folder != INBOX {
      forall p | Tracks(rows, p) ensures Tracks(After(rows, user, folder, affected), p) {
        PairSurvives(rows, user, folder, affected, p);
      }
    } else if i :| i in rows && Lonely(rows, user, affected, i) {
      LonelyIsLost(rows, user, affected, i);
    } else {
      forall p | Tracks(rows, p) ensures Tracks(After(rows, user, folder, affected), p) {
        PairSurvivesInbox(rows, user, affected, p);
      }
    }
  }

  // ---- which rows end up where their mail is -----------------------------------------------------

  /** The mails of the smart folder are in INBOX afterwards; no row is left naming the deleted folder exactly when
      every row of an affected mail in that folder was completed or had an INBOX twin. */
  lemma NoRowLeftBehindIff(rows: Table, user: nat, folder: string, affected: set<Pair>)
    requires folder != INBOX
    ensures (forall i | i in rows && rows[i].user == user && PairOf(rows[i]) in affected && rows[i].folder == folder ::
               i in After(rows, user, folder, affected) ==> After(rows, user, folder, affected)[i].folder == INBOX)
      <==> (forall i | i in rows && rows[i].user == user && PairOf(rows[i]) in affected && rows[i].folder == folder ::
               rows[i].status == COMPLETED || InInbox(rows, user, PairOf(rows[i])))
  {
    var t := After(rows, user, folder, affected);
    forall i | i in rows && rows[i].user == user && PairOf(rows[i]) in affected && rows[i].folder == folder
      ensures (i in t ==> t[i].folder == INBOX) <==> rows[i].status == COMPLETED || InInbox(rows, user, PairOf(rows[i])) {
    }
  }

  /** The last update does not look at the folder: a completed row in a third folder is sent to INBOX too, although
      the reset moves only the mails of the smart folder. */
  lemma ThirdFolderIsRelocated(rows: Table, user: nat, folder: string, affected: set<Pair>, i: nat)
    requires i in rows && rows[i].folder != folder && rows[i].folder != INBOX
    ensures i in After(rows, user, folder, affected)
    ensures After(rows, user, folder, affected)[i].folder == INBOX <==> Relocates(rows, user, affected, rows[i])
  {
  }

  // ---- account by account ----------------------------------------------------------------------

  /** Accounts do not interfere. */
  lemma AccountsCompose(rows: Table, user: nat, folder: string, done: set<Pair>, next: set<Pair>)
    requires forall p, q | p in done && q in next :: p.0 != q.0
    ensures After(After(rows, user, folder, done), user, folder, next) == After(rows, user, folder, done + next)
  {
    var t := After(rows, user, folder, done);
    forall p | p in next ensures InInbox(t, user, p) <==> InInbox(rows, user, p) {
      forall i | i in rows && PairOf(rows[i]) == p ensures i in t && t[i] == rows[i] {
        assert p !in done;
      }
      forall i | i in t ensures PairOf(t[i]) == PairOf(rows[i]) { }
    }
    var a, b := After(t, user, folder, next), After(rows, user, folder, done + next);
    forall i | i in rows ensures (i in a <==> i in b) && (i in a ==> a[i] == b[i]) {
      assert i in t ==> PairOf(t[i]) == PairOf(rows[i]);
    }
  }

  function AccountPairs(account: nat, uids: set<nat>): set<Pair> {
    set u | u in uids :: (account, u)
  }

  predicate IsOf(r: Tracked, user: nat, account: nat, uids: set<nat>) {
    r.user == user && r.account == account && r.uid in uids
  }

  function UidsInInbox(rows: Table, user: nat, account: nat, uids: set<nat>): set<nat> {
    set i | i in rows && IsOf(rows[i], user, account, uids) && rows[i].folder == INBOX :: rows[i].uid
  }

  /** DELETE of the rows of the folder that would collide. */
  function DeleteColliding(rows: Table, user: nat, folder: string, account: nat, existing: set<nat>): Table {
    map i | i in rows && !(IsOf(rows[i], user, account, existing) && rows[i].folder == folder) :: rows[i]
  }

  /** UPDATE of their INBOX twins. */
  function RequeueTwins(rows: Table, user: nat, account: nat, existing: set<nat>): Table {
    map i | i in rows ::
      if IsOf(rows[i], user, account, existing) && rows[i].folder == INBOX then Requeued(rows[i]) else rows[i]
  }

  /** UPDATE of the completed rows of the other UIDs. */
  function RelocateRest(rows: Table, user: nat, account: nat, safe: set<nat>): Table {
    map i | i in rows ::
      if IsOf(rows[i], user, account, safe) && rows[i].status == COMPLETED then Requeued(rows[i]).(folder := INBOX)
      else rows[i]
  }

  /** The three statements for one account are the row-by-row rewrite for its UIDs. */
  lemma StatementsCompose(rows: Table, user: nat, folder: string, account: nat, uids: set<nat>)
    ensures var existing := UidsInInbox(rows, user, account, uids);
      var left := RequeueTwins(DeleteColliding(rows, user, folder, account, existing), user, account, existing);
      RelocateRest(left, user, account, uids - existing)
      == After(rows, user, folder, AccountPairs(account, uids))
  {
    var existing := UidsInInbox(rows, user, account, uids);
    forall i | i in rows && IsOf(rows[i], user, account, uids)
      ensures rows[i].uid in existing <==> InInbox(rows, user, PairOf(rows[i])) {
    }
    assert forall i | i in rows ::
      IsOf(rows[i], user, account, uids) <==> rows[i].user == user && PairOf(rows[i]) in AccountPairs(account, uids);
    var a := DeleteColliding(rows, user, folder, account, existing);
    var b := RequeueTwins(a, user, account, existing);
    var c := RelocateRest(b, user, account, uids - existing);
    forall i | i in rows
      ensures i in c <==> NewRow(rows, user, folder, AccountPairs(account, uids), rows[i]).Some?
      ensures i in c ==> c[i] == NewRow(rows, user, folder, AccountPairs(account, uids), rows[i]).value
    {
      if i in a { assert b[i] == a[i] || b[i] == Requeued(a[i]); }
    }
  }

  /** A statement for no UID changes nothing. */
  lemma NoUidsNoChange(rows: Table, user: nat, folder: string, account: nat)
    ensures DeleteColliding(rows, user, folder, account, {}) == rows
    ensures RequeueTwins(rows, user, account, {}) == rows && RelocateRest(rows, user, account, {}) == rows
  {
  }

  /** The assignments that are left when those of this folder are deleted. */
  function Unlinked(links: map<nat, Assigned>, user: nat, folder: string): map<nat, Assigned> {
    map a | a in links && !(links[a].user == user && links[a].folder == folder) :: links[a]
  }

  lemma NothingAffected(rows: Table, user: nat, folder: string)
    ensures After(rows, user, folder, {}) == rows
  {
  }

  lemma MoreAffectedIsNoBetter(rows: Table, user: nat, some: set<Pair>, all: set<Pair>)
    requires some <= all && !AtMostOneCompleted(rows, user, some)
    ensures !AtMostOneCompleted(rows, user, all)
  {
  }

  predicate HasUniqueKey(rows: Table)
    ensures HasUniqueKey(rows) <==> UniqueKey(rows)
  {
    forall i | i in rows ::
      (forall j | j in rows ::
         i == j || !(rows[i].account == rows[j].account && rows[i].uid == rows[j].uid && rows[i].folder == rows[j].folder))
  }

  datatype Outcome = Reset | NotFound | IntegrityError

  class Database {
    var tracked: Table
    var links: map<nat, Assigned>

    constructor (tracked: Table, links: map<nat, Assigned>)
      ensures this.tracked == tracked && this.links == links
    {
      this.tracked, this.links := tracked, links;
    }

    /** The statements for one account; the unique key is checked by the last one. */
    method ResetAccount(user: nat, folder: string, account: nat, uids: set<nat>)
      modifies this`tracked
      ensures tracked == After(old(tracked), user, folder, AccountPairs(account, uids))
    {
      StatementsCompose(tracked, user, folder, account, uids);
      var existing := UidsInInbox(tracked, user, account, uids);
      NoUidsNoChange(tracked, user, folder, account);
      if existing != {} {
        tracked := DeleteColliding(tracked, user, folder, account, existing);
        tracked := RequeueTwins(tracked, user, account, existing);
      }
      NoUidsNoChange(tracked, user, folder, account);
      var safe := uids - existing;
      if safe != {} {
        tracked := RelocateRest(tracked, user, account, safe);
      }
    }

    method ResetAccounts(user: nat, folder: string, affected: set<Pair>) returns (kept: bool)
      requires UniqueKey(tracked) && OneOwner(tracked)
      modifies this`tracked
      ensures kept <==> AtMostOneCompleted(old(tracked), user, affected)
      ensures kept ==> tracked == After(old(tracked), user, folder, affected) && UniqueKey(tracked)
    {
      ghost var before := tracked;
      var todo := set p | p in affected :: p.0;
      ghost var done: set<Pair> := {};
      NothingAffected(before, user, folder);
      while todo != {}
        invariant forall p :: p in done <==> p in affected && p.0 !in todo
        invariant tracked == After(before, user, folder, done) && UniqueKey(tracked)
      {
        var account :| account in todo;
        var uids := set p | p in affected && p.0 == account :: p.1;
        ghost var next := AccountPairs(account, uids);
        assert forall p :: p in next <==> p in affected && p.0 == account;
        ResetAccount(user, folder, account, uids);
        AccountsCompose(before, user, folder, done, next);
        KeepsUniqueKeyIff(before, user, folder, done + next);
        var unique := HasUniqueKey(tracked);
        if !unique {
          MoreAffectedIsNoBetter(before, user, done + next, affected);
          return false;
        }
        todo, done := todo - {account}, done + next;
      }
      assert done == affected;
      KeepsUniqueKeyIff(before, user, folder, affected);
      kept := true;
    }

    /** All accounts in turn; a violated key raises and the whole transaction is rolled back. */
    method ResetRows(user: nat, folder: string) returns (outcome: Outcome)
      requires UniqueKey(tracked) && OneOwner(tracked)
      modifies this
      ensures var affected := Affected(old(tracked), old(links), user, folder);
        && (outcome == NotFound <==> affected == {})
        && (outcome == IntegrityError <==> !AtMostOneCompleted(old(tracked), user, affected))
        && (outcome == Reset ==>
              && tracked == After(old(tracked), user, folder, affected) && UniqueKey(tracked)
              && links == Unlinked(old(links), user, folder))
        && (outcome != Reset ==> tracked == old(tracked) && links == old(links))
    {
      var affected := Affected(tracked, links, user, folder);
      if affected == {} { return NotFound; }
      var before := tracked;
      var kept := ResetAccounts(user, folder, affected);
      if kept {
        links := Unlinked(links, user, folder);
        outcome := Reset;
      } else {
        tracked := before;
        outcome := IntegrityError;
      }
    }
  }

  /** Some row of the user tracks this mail in INBOX. */
  ghost predicate HasInboxRow(rows: Table, user: nat, account: nat, uid: nat) {
    exists i | i in rows :: rows[i].user == user && rows[i].account == account && rows[i].uid == uid && rows[i].folder == "INBOX"
  }

  /** What becomes of a row: those of other users and other mails stay; a mail with a row in INBOX loses its rows in the
      folder and has that one queued afresh; of a mail without, the completed rows are queued afresh in INBOX. */
  lemma RowBecomes(rows: Table, user: nat, folder: string, affected: set<Pair>, i: nat)
    requires i in rows
    ensures var r, t := rows[i], After(rows, user, folder, affected);
      var mine := r.user == user && (r.account, r.uid) in affected;
      var inbox := HasInboxRow(rows, user, r.account, r.uid);
      && (i !in t <==> mine && inbox && r.folder == folder)
      && (i in t ==>
            && t[i].user == r.user && t[i].account == r.account && t[i].uid == r.uid
            && t[i].folder == (if mine && !inbox && r.status == COMPLETED then "INBOX" else r.folder)
            && (if mine && (if inbox then r.folder == "INBOX" else r.status == COMPLETED)
                then t[i].status == QUEUED && t[i].progress == Progress(0, None, None, None, None)
                else t[i] == r))
  {
    var r := rows[i];
    assert HasInboxRow(rows, user, r.account, r.uid) <==> InInbox(rows, user, PairOf(r));
  }
}
