/** Whether the reported outcome of a list of actions says where the message is. */
module MoveTruth {
  import opened Prelude
  import opened Text
  import opened ImapServer
  import opened ImapMoves
  import opened ActionStrings
  import opened ImapActions

  // ---- one move ----------------------------------------------------------------------------

  /** Answers on which a move takes the message away and yet reports nothing: MOVE raises behind its effect and the three
      commands that follow do not all succeed, or EXPUNGE raises behind its effect. */
  predicate Slips(canMove: bool, sc: MoveScript) {
    && sc.select.Ok? && !(canMove && sc.move.Ok?)
    && (|| (canMove && sc.move == Raise(true) && !(sc.copy.Ok? && sc.store.Ok? && !sc.expunge.Raise?))
        || (sc.copy.Ok? && sc.store.Ok? && sc.expunge == Raise(true)))
  }

  predicate IsFlagged(s: Server, e: Setting)
    requires Has(s, e.src, e.uid)
  {
    DELETED in s[e.src].messages[e.uid].flags
  }

  /** What the outcome promises about the server it left behind: a reported folder holds the message, under the reported
      UID if there is one, and a message that is not reported is where it was. */
  ghost predicate Truthful(t: Server, out: MoveOutcome, e: Setting, id: nat) {
    match out.folder
    case Some(f) => exists n: nat :: Holds(t, f, n, id) && (out.newUid == None || out.newUid == Some(n))
    case None => Holds(t, e.src, e.uid, id)
  }

  /** STORE and EXPUNGE on a message that is there. */
  lemma FlaggedLeaves(s: Server, uid: nat, src: string, newUid: Option<nat>, sc: MoveScript)
    requires Has(s, src, uid)
    ensures var (t, end) := Flagged(s, uid, src, newUid, sc);
      end == Threw || end == FAILED ==>
        (Holds(t, src, uid, s[src].messages[uid].id) <==> !(sc.store.Ok? && sc.expunge == Raise(true)))
  {
  }

  lemma FallbackLeavesIff(s: Server, uid: nat, dst: string, src: string, sc: MoveScript)
    requires Valid(s) && Has(s, src, uid)
    ensures var (t, end) := Fallback(s, uid, dst, src, sc);
      var gone := dst in s && sc.copy.Ok? && sc.store.Ok? && sc.expunge == Raise(true);
      end == Threw || end == FAILED ==> (Holds(t, src, uid, s[src].messages[uid].id) <==> !gone)
  {
    if dst in s {
      CopyKeeps(s, src, {uid}, dst);
      var s1 := CopyEffect(s, src, {uid}, dst);
      assert Keeps(s, s1, src, uid);
      FlaggedLeaves(s1, uid, src, CopyUid(s, uid, dst, src, sc), sc);
    }
  }

  /** The three commands report success exactly when the first two are OK and EXPUNGE does not raise. */
  lemma FallbackSucceedsIff(s: Server, uid: nat, dst: string, src: string, sc: MoveScript)
    requires src in s
    ensures var end := Fallback(s, uid, dst, src, sc).1;
      end != Threw && end != FAILED <==> dst in s && sc.copy.Ok? && sc.store.Ok? && !sc.expunge.Raise?
  {
  }

  /** Behind a MOVE the message is gone, whatever follows. */
  lemma MovedIsGone(s: Server, uid: nat, dst: string, src: string, sc: MoveScript)
    requires Valid(s) && Has(s, src, uid) && dst in s
    ensures !Has(Fallback(MoveEffect(s, src, {uid}, dst), uid, dst, src, sc).0, src, uid)
    ensures !Has(MoveEffect(s, src, {uid}, dst), src, uid)
  {
    MovedOne(s, uid, dst, src);
    var s1 := MoveEffect(s, src, {uid}, dst);
    AbsentMoveFindsNothing(s1, uid, dst, src, sc);
    assert Has(Fallback(s1, uid, dst, src, sc).0, src, uid) ==> Keeps(Fallback(s1, uid, dst, src, sc).0, s1, src, uid);
  }

  /** What MOVE did, if anything, and whether the three commands followed. */
  lemma MoveShape(t: Server, canMove: bool, uid: nat, d: string, src: string, sc: MoveScript)
    returns (b: Server, falls: bool)
    requires src in t && d in t && sc.select.Ok?
    ensures b == if MoveTook(t, canMove, d, sc) then MoveEffect(t, src, {uid}, d) else t
    ensures falls <==> !(canMove && sc.move.Ok?)
    ensures falls ==> MoveRun(t, canMove, uid, d, src, sc) == Fallback(b, uid, d, src, sc)
    ensures !falls ==> var (u, end) := MoveRun(t, canMove, uid, d, src, sc); u == b && end != Threw && end != FAILED
  {
    b := if MoveTook(t, canMove, d, sc) then MoveEffect(t, src, {uid}, d) else t;
    falls := !(canMove && sc.move.Ok?);
  }

  /** A call that reports nothing has left the message in its place exactly when the answers do not let it slip. */
  lemma UnreportedMoveIff(s: Server, canMove: bool, uid: nat, dst: string, src: string, sc: MoveScript)
    requires Valid(s) && Has(s, src, uid)
    ensures var (t, end) := MoveRun(s, canMove, uid, dst, src, sc);
      && (end == Threw || end == FAILED ==>
            (Holds(t, src, uid, s[src].messages[uid].id) <==> !(dst in s && Slips(canMove, sc))))
      && (dst in s && Slips(canMove, sc) ==> end == Threw || end == FAILED)
  {
    if dst in s && sc.select.Ok? {
      var b, falls := MoveShape(s, canMove, uid, dst, src, sc);
      FallbackSucceedsIff(b, uid, dst, src, sc);
      if MoveTook(s, canMove, dst, sc) {
        MovedIsGone(s, uid, dst, src, sc);
      } else {
        FallbackLeavesIff(s, uid, dst, src, sc);
      }
    } else if sc.select.Ok? {
      assert MoveRun(s, canMove, uid, dst, src, sc) == (s, FAILED) || MoveRun(s, canMove, uid, dst, src, sc) == (s, Threw);
    }
  }

  /** The same of one move of the list. */
  lemma UnreportedIff(s: Server, e: Setting, dst: string, sc: MoveScript, id: nat)
    requires Valid(s) && Holds(s, e.src, e.uid, id)
    ensures var (t, out) := MoveTo(s, e, dst, sc, NOT_MOVED);
      && (out == NOT_MOVED ==> (Holds(t, e.src, e.uid, id) <==> !(dst in s && Slips(e.canMove, sc))))
      && (dst in s && Slips(e.canMove, sc) ==> out == NOT_MOVED)
  {
    UnreportedMoveIff(s, e.canMove, e.uid, dst, e.src, sc);
  }

  /** A flagged message is moved into the folder it is in, and EXPUNGE takes it and its copy: success is reported. */
  predicate Vanishes(s: Server, e: Setting, dst: string, sc: MoveScript)
    requires Has(s, e.src, e.uid)
  {
    && FlaggedReturn(s, e.uid, dst, e.src)
    && sc.select.Ok? && !(e.canMove && sc.move.Ok?) && sc.copy.Ok? && sc.store.Ok? && sc.expunge.Ok?
  }

  /** The same content is in the source, not flagged. */
  ghost predicate CleanTwin(s: Server, e: Setting, id: nat) {
    exists u: nat :: Holds(s, e.src, u, id) && DELETED !in s[e.src].messages[u].flags
  }

  /** Behind EXPUNGE the source has what was not flagged, and no copy of a flagged message. */
  lemma PurgedFallback(s: Server, e: Setting, sc: MoveScript, u: nat, id: nat)
    requires Valid(s) && Has(s, e.src, e.uid) && IsFlagged(s, e) && sc.copy.Ok? && sc.store.Ok? && sc.expunge.Ok?
    ensures Holds(Fallback(s, e.uid, e.src, e.src, sc).0, e.src, u, id)
      <==> Holds(s, e.src, u, id) && DELETED !in s[e.src].messages[u].flags
  {
    CopyOne(s, e.uid, e.src, e.src);
  }

  lemma PurgedMove(s: Server, e: Setting, sc: MoveScript, u: nat, id: nat)
    requires Valid(s) && Has(s, e.src, e.uid) && IsFlagged(s, e) && sc.copy.Ok? && sc.store.Ok? && sc.expunge.Ok?
    ensures Holds(Fallback(MoveEffect(s, e.src, {e.uid}, e.src), e.uid, e.src, e.src, sc).0, e.src, u, id)
      <==> Holds(s, e.src, u, id) && DELETED !in s[e.src].messages[u].flags
  {
    ContentsOne(s, e.src, e.uid);
    DeliverOne(Without(s[e.src], {e.uid}), s[e.src].messages[e.uid]);
    var s1 := MoveEffect(s, e.src, {e.uid}, e.src);
    MovedOne(s, e.uid, e.src, e.src);
    ContentsOne(s1, e.src, e.uid);
    assert CopyEffect(s1, e.src, {e.uid}, e.src) == s1;
  }

  lemma VanishedLeaves(s: Server, e: Setting, sc: MoveScript, u: nat, id: nat)
    requires Valid(s) && Has(s, e.src, e.uid) && Vanishes(s, e, e.src, sc)
    ensures var (t, out) := MoveTo(s, e, e.src, sc, NOT_MOVED);
      && out.folder == Some(e.src)
      && (Holds(t, e.src, u, id) <==> Holds(s, e.src, u, id) && DELETED !in s[e.src].messages[u].flags)
  {
    var b, falls := MoveShape(s, e.canMove, e.uid, e.src, e.src, sc);
    FallbackSucceedsIff(b, e.uid, e.src, e.src, sc);
    if MoveTook(s, e.canMove, e.src, sc) { PurgedMove(s, e, sc, u, id); } else { PurgedFallback(s, e, sc, u, id); }
  }

  /** A vanished message is only reported truly by chance: without a UID, while the same content is in the folder. */
  lemma VanishedTruth(s: Server, e: Setting, sc: MoveScript, id: nat)
    requires Valid(s) && Holds(s, e.src, e.uid, id) && Vanishes(s, e, e.src, sc)
    ensures var (t, out) := MoveTo(s, e, e.src, sc, NOT_MOVED);
      Truthful(t, out, e, id) <==> out.newUid == None && CleanTwin(s, e, id)
  {
    var (t, out) := MoveTo(s, e, e.src, sc, NOT_MOVED);
    MoveEndMeans(s, e.canMove, e.uid, e.src, e.src, sc);
    forall u: nat
      ensures Holds(t, e.src, u, id) <==> Holds(s, e.src, u, id) && DELETED !in s[e.src].messages[u].flags
    {
      VanishedLeaves(s, e, sc, u, id);
    }
    VanishedLeaves(s, e, sc, 0, id);
  }

  /** The answers on which a folder is reported. */
  lemma ReportedAnswers(s: Server, e: Setting, dst: string, sc: MoveScript)
    ensures var out := MoveTo(s, e, dst, sc, NOT_MOVED).1;
      && (out.folder.Some? <==>
            && dst in s && e.src in s && sc.select.Ok?
            && ((e.canMove && sc.move.Ok?) || (sc.copy.Ok? && sc.store.Ok? && !sc.expunge.Raise?)))
      && (out.folder.Some? ==> out.folder == Some(dst))
  {
  }

  /** One move: a reported folder holds the message unless it vanished, under the reported UID if there is one.  The
      outcome as a whole is true exactly when the answers do not let the message slip or vanish. */
  lemma MoveToTruth(s: Server, e: Setting, dst: string, sc: MoveScript, id: nat) returns (n: nat)
    requires Valid(s) && Holds(s, e.src, e.uid, id)
    ensures var (t, out) := MoveTo(s, e, dst, sc, NOT_MOVED);
      && (out.folder.Some? ==>
            && out.folder == Some(dst) && dst in s && n == s[dst].uidNext
            && (Holds(t, dst, n, id) <==> !Vanishes(s, e, dst, sc)) && (out.newUid.Some? ==> out.newUid == Some(n)))
      && (Truthful(t, out, e, id) <==>
            if Vanishes(s, e, dst, sc) then out.newUid == None && CleanTwin(s, e, id)
            else !(dst in s && Slips(e.canMove, sc)))
  {
    n := if dst in s then s[dst].uidNext else 0;
    MoveEndMeans(s, e.canMove, e.uid, dst, e.src, sc);
    UnreportedIff(s, e, dst, sc, id);
    ReportedAnswers(s, e, dst, sc);
    if Vanishes(s, e, dst, sc) { VanishedTruth(s, e, sc, id); }
  }

  lemma MissingTargetFails(s: Server, e: Setting, dst: string, sc: MoveScript, out: MoveOutcome)
    requires dst !in s
    ensures MoveTo(s, e, dst, sc, out) == (s, out)
  {
  }

  // ---- the spam folder ---------------------------------------------------------------------

  function SpamFolder(s: Server): string {
    match FirstExisting(s, SPAM_FOLDERS)
    case Some(name) => name
    case None => SPAM_FOLDERS[0]
  }

  /** What a missing spam folder makes the client create. */
  function SpamPaths(sep: char): seq<string> {
    Paths(Split(SPAM_FOLDERS[0], sep), "", sep)
  }

  predicate Over(s: string, chars: string) {
    forall i | 0 <= i < |s| :: s[i] in chars
  }

  lemma {:induction false} SplitOver(s: string, sep: char, chars: string)
    requires Over(s, chars)
    ensures forall i | 0 <= i < |Split(s, sep)| :: Over(Split(s, sep)[i], chars)
    ensures sep !in s ==> Split(s, sep) == [s]
  {
    if s != "" {
      SplitOver(s[1..], sep, chars);
      assert s == [s[0]] + s[1..];
    }
  }

  lemma {:induction false} PathsOver(parts: seq<string>, current: string, sep: char, chars: string)
    requires Over(current, chars) && forall i | 0 <= i < |parts| :: Over(parts[i], chars)
    requires sep in chars || (current == "" && |parts| <= 1)
    ensures forall i | 0 <= i < |Paths(parts, current, sep)| :: Over(Paths(parts, current, sep)[i], chars)
    decreases |parts|
  {
    if parts != [] {
      var next := if current != "" then current + [sep] + parts[0] else parts[0];
      if |parts| > 1 {
        PathsOver(parts[1..], next, sep, chars);
      } else {
        assert parts[1..] == [];
      }
    }
  }

  /** None of these paths is one of the other spam folders. */
  lemma SpamPathsMissTheRest(sep: char)
    ensures forall i | 1 <= i < |SPAM_FOLDERS| :: SPAM_FOLDERS[i] !in SpamPaths(sep)
  {
    var junk := SPAM_FOLDERS[0];
    SplitOver(junk, sep, junk);
    PathsOver(Split(junk, sep), "", sep, junk);
    forall i | 1 <= i < |SPAM_FOLDERS| ensures SPAM_FOLDERS[i] !in SpamPaths(sep) {
      assert SPAM_FOLDERS[i][0] !in junk;
    }
  }

  lemma {:induction false} FirstExistingMeans(s: Server, candidates: seq<string>)
    ensures match FirstExisting(s, candidates)
      case Some(n) => n in s && n in candidates
      case None => forall c | c in candidates :: c !in s
  {
    if candidates != [] && candidates[0] !in s {
      FirstExistingMeans(s, candidates[1..]);
    }
  }

  lemma {:induction false} FirstExistingOfKeys(s: Server, t: Server, candidates: seq<string>)
    requires s.Keys == t.Keys
    ensures FirstExisting(s, candidates) == FirstExisting(t, candidates)
  {
    if candidates != [] {
      assert candidates[0] in s <==> candidates[0] in s.Keys;
      assert candidates[0] in t <==> candidates[0] in t.Keys;
      FirstExistingOfKeys(s, t, candidates[1..]);
    }
  }

  /** The folders there can be, once a move to spam has or has not been tried. */
  function Names(s: Server, e: Setting, tried: bool): set<string> {
    s.Keys + if tried && FirstExisting(s, SPAM_FOLDERS) == None then set p | p in SpamPaths(e.sep) else {}
  }

  ghost predicate Within(s: Server, t: Server, e: Setting, tried: bool) {
    s.Keys <= t.Keys <= Names(s, e, tried)
  }

  /** All moves to spam of one list go to the same folder. */
  lemma SpamFolderStays(s: Server, t: Server, e: Setting, tried: bool)
    requires Within(s, t, e, tried)
    ensures SpamFolder(t) == SpamFolder(s)
    ensures FirstExisting(t, SPAM_FOLDERS) == None ==> FirstExisting(s, SPAM_FOLDERS) == None
  {
    FirstExistingMeans(s, SPAM_FOLDERS);
    FirstExistingMeans(t, SPAM_FOLDERS);
    if FirstExisting(s, SPAM_FOLDERS).Some? {
      FirstExistingOfKeys(s, t, SPAM_FOLDERS);
    } else {
      SpamPathsMissTheRest(e.sep);
      assert forall i | 1 <= i < |SPAM_FOLDERS| :: SPAM_FOLDERS[i] in SPAM_FOLDERS;
    }
  }

  lemma {:induction false} ResolveGrows(t: Server, e: Setting, replies: seq<Reply>)
    requires |SPAM_FOLDERS[0]| < |replies|
    ensures var (t1, dst) := ResolveSpam(t, e.sep, replies);
      && dst == SpamFolder(t) && Grows(t, t1)
      && (forall f | f in t1 && f !in t :: FirstExisting(t, SPAM_FOLDERS) == None && f in SpamPaths(e.sep))
  {
    PathCount(SPAM_FOLDERS[0], e.sep);
    CreateGrows(t, SpamPaths(e.sep), replies);
  }

  // ---- which moves can find their folder ---------------------------------------------------------

  /** Where a move goes, as the server is when the first move starts. */
  function Target(s: Server, e: Setting, a: ParsedAction): string
    requires IsMove(a) && !Skipped(e, a)
  {
    if a.kind == MOVE_TO then a.value.value else SpamFolder(s)
  }

  predicate AllMoves(moves: seq<ParsedAction>) {
    forall i | 0 <= i < |moves| :: IsMove(moves[i])
  }

  predicate TriesSpam(moves: seq<ParsedAction>, n: nat)
    requires n <= |moves|
  {
    exists k | 0 <= k < n :: moves[k].kind == MOVE_TO_SPAM
  }

  /** Move i is not skipped, and its folder exists or may have been created by then. */
  predicate MayHit(s: Server, e: Setting, moves: seq<ParsedAction>, i: nat)
    requires AllMoves(moves) && i < |moves|
  {
    !Skipped(e, moves[i]) && Target(s, e, moves[i]) in Names(s, e, TriesSpam(moves, i + 1))
  }

  /** The moves that can find their folder all name one folder, and only one of them if that is the one the message is
      in. */
  predicate OneFolder(s: Server, e: Setting, moves: seq<ParsedAction>)
    requires AllMoves(moves)
  {
    forall i, j | 0 <= i < |moves| && 0 <= j < |moves| && MayHit(s, e, moves, i) && MayHit(s, e, moves, j) ::
      Target(s, e, moves[i]) == Target(s, e, moves[j]) && (Target(s, e, moves[i]) == e.src ==> i == j)
  }

  /** The moves that can find their folder all name one folder.  If that is the folder the message is in, there is only
      one such move and the message is not flagged \Deleted. */
  predicate Unambiguous(s: Server, e: Setting, moves: seq<ParsedAction>)
    requires AllMoves(moves) && Has(s, e.src, e.uid)
  {
    forall i, j | 0 <= i < |moves| && 0 <= j < |moves| && MayHit(s, e, moves, i) && MayHit(s, e, moves, j) ::
      && Target(s, e, moves[i]) == Target(s, e, moves[j])
      && (Target(s, e, moves[i]) == e.src ==> i == j && !IsFlagged(s, e))
  }

  function JobsOf(actions: seq<ParsedAction>, scripts: seq<ActionScript>): (r: seq<Job>)
    requires |scripts| == |actions|
    ensures |r| == |actions| && forall i | 0 <= i < |r| :: r[i] == Job(actions[i], scripts[i])
  {
    seq(|actions|, i requires 0 <= i < |actions| => Job(actions[i], scripts[i]))
  }

  function ActionsOf(jobs: seq<Job>): (r: seq<ParsedAction>)
    ensures |r| == |jobs| && forall i | 0 <= i < |r| :: r[i] == jobs[i].action
  {
    seq(|jobs|, i requires 0 <= i < |jobs| => jobs[i].action)
  }

  predicate AreMoves(e: Setting, jobs: seq<Job>) {
    AllCovered(e, jobs) && forall j | j in jobs :: IsMove(j.action)
  }

  /** The server a move is tried on, and the folder it goes to. */
  function Aim(t: Server, e: Setting, j: Job): (Server, string)
    requires IsMove(j.action) && Covers(e, j) && !Skipped(e, j.action)
  {
    if j.action.kind == MOVE_TO then (t, j.action.value.value) else ResolveSpam(t, e.sep, j.script.creates)
  }

  /** This move is tried, finds its folder, and its answers let the message slip. */
  predicate SlipsOn(t: Server, e: Setting, j: Job)
    requires IsMove(j.action) && Covers(e, j)
  {
    && !Skipped(e, j.action) && (j.action.kind == MOVE_TO_SPAM ==> j.script.list.Ok?)
    && Aim(t, e, j).1 in Aim(t, e, j).0 && Slips(e.canMove, j.script.mv)
  }

  /** This move is tried, and the message vanishes. */
  predicate VanishesOn(t: Server, e: Setting, j: Job)
    requires IsMove(j.action) && Covers(e, j)
  {
    && !Skipped(e, j.action) && (j.action.kind == MOVE_TO_SPAM ==> j.script.list.Ok?)
    && Has(Aim(t, e, j).0, e.src, e.uid) && Vanishes(Aim(t, e, j).0, e, Aim(t, e, j).1, j.script.mv)
  }

  /** Server and outcome behind the first i moves. */
  function Prefix(s: Server, e: Setting, jobs: seq<Job>, i: nat): (Server, MoveOutcome)
    requires AreMoves(e, jobs) && i <= |jobs|
  {
    if i == 0 then (s, NOT_MOVED)
    else
      var (t, out) := Prefix(s, e, jobs, i - 1);
      assert jobs[i - 1] in jobs;
      MoveStep(t, e, jobs[i - 1], out)
  }

  lemma {:induction false} PrefixGoesOn(s: Server, e: Setting, jobs: seq<Job>, i: nat)
    requires AreMoves(e, jobs) && i <= |jobs|
    ensures forall j | j in jobs[i..] :: j in jobs
    ensures var (t, out) := Prefix(s, e, jobs, i);
      MovesRun(t, e, jobs[i..], out) == MovesRun(s, e, jobs, NOT_MOVED)
  {
    if i == 0 {
      assert jobs[0..] == jobs;
    } else {
      PrefixGoesOn(s, e, jobs, i - 1);
      assert jobs[i - 1..][0] == jobs[i - 1] && jobs[i - 1..][1..] == jobs[i..];
    }
  }

  lemma {:induction false} PrefixIsRun(s: Server, e: Setting, jobs: seq<Job>)
    requires AreMoves(e, jobs)
    ensures Prefix(s, e, jobs, |jobs|) == MovesRun(s, e, jobs, NOT_MOVED)
  {
    PrefixGoesOn(s, e, jobs, |jobs|);
    assert jobs[|jobs|..] == [];
  }

  /** One of the first n moves slips. */
  predicate SlipsBefore(s: Server, e: Setting, jobs: seq<Job>, n: nat)
    requires AreMoves(e, jobs) && n <= |jobs|
  {
    n > 0 && (SlipsBefore(s, e, jobs, n - 1) || (assert jobs[n - 1] in jobs; SlipsOn(Prefix(s, e, jobs, n - 1).0, e, jobs[n - 1])))
  }

  /** In one of the first n moves the message vanishes. */
  predicate VanishesBefore(s: Server, e: Setting, jobs: seq<Job>, n: nat)
    requires AreMoves(e, jobs) && n <= |jobs|
  {
    n > 0
      && (VanishesBefore(s, e, jobs, n - 1)
          || (assert jobs[n - 1] in jobs; VanishesOn(Prefix(s, e, jobs, n - 1).0, e, jobs[n - 1])))
  }

  /** A move is tried on a server that at most has new empty folders, or it is not tried at all. */
  lemma StepShape(s: Server, t: Server, e: Setting, j: Job, out: MoveOutcome, tried: bool)
    returns (t1: Server, goes: bool)
    requires Valid(t) && Within(s, t, e, tried) && IsMove(j.action) && Covers(e, j) && !Skipped(e, j.action)
    ensures Valid(t1) && Grows(t, t1) && Within(s, t1, e, tried || j.action.kind == MOVE_TO_SPAM)
    ensures MoveStep(t, e, j, out)
      == if goes then MoveTo(t1, e, Target(s, e, j.action), j.script.mv, out) else (t1, out)
    ensures SlipsOn(t, e, j) <==> goes && Target(s, e, j.action) in t1 && Slips(e.canMove, j.script.mv)
    ensures VanishesOn(t, e, j)
      <==> goes && Has(t1, e.src, e.uid) && Vanishes(t1, e, Target(s, e, j.action), j.script.mv)
    ensures j.action.kind == MOVE_TO ==> t1 == t && goes
    ensures j.action.kind == MOVE_TO_SPAM && j.script.list.Ok? ==>
      t1 == ResolveSpam(t, e.sep, j.script.creates).0 && goes
  {
    SpamFolderStays(s, t, e, tried);
    if j.action.kind == MOVE_TO {
      t1, goes := t, true;
    } else if !j.script.list.Ok? {
      t1, goes := t, false;
    } else {
      ResolveGrows(t, e, j.script.creates);
      t1, goes := ResolveSpam(t, e.sep, j.script.creates).0, true;
    }
  }

  lemma {:induction false} PrefixWithin(s: Server, e: Setting, jobs: seq<Job>, i: nat)
    requires Valid(s) && AreMoves(e, jobs) && i <= |jobs|
    ensures Valid(Prefix(s, e, jobs, i).0) && Within(s, Prefix(s, e, jobs, i).0, e, TriesSpam(ActionsOf(jobs), i))
  {
    if i > 0 {
      PrefixWithin(s, e, jobs, i - 1);
      var (t, out) := Prefix(s, e, jobs, i - 1);
      var j := jobs[i - 1];
      assert j in jobs && ActionsOf(jobs)[i - 1] == j.action;
      if !Skipped(e, j.action) {
        var t1, goes := StepShape(s, t, e, j, out, TriesSpam(ActionsOf(jobs), i - 1));
        MoveStaysInTwoFolders(t1, e.canMove, e.uid, Target(s, e, j.action), e.src, j.script.mv);
      }
    }
  }

  /** A move that cannot find its folder changes no message and no outcome. */
  lemma {:induction false} NonHitDoesNothing(s: Server, e: Setting, jobs: seq<Job>, i: nat)
    requires Valid(s) && AreMoves(e, jobs) && i < |jobs| && AllMoves(ActionsOf(jobs))
    requires !MayHit(s, e, ActionsOf(jobs), i)
    ensures Grows(Prefix(s, e, jobs, i).0, Prefix(s, e, jobs, i + 1).0)
    ensures Prefix(s, e, jobs, i + 1).1 == Prefix(s, e, jobs, i).1
    ensures jobs[i] in jobs && !SlipsOn(Prefix(s, e, jobs, i).0, e, jobs[i])
    ensures !VanishesOn(Prefix(s, e, jobs, i).0, e, jobs[i])
  {
    PrefixWithin(s, e, jobs, i);
    var (t, out) := Prefix(s, e, jobs, i);
    var j := jobs[i];
    assert j in jobs;
    if !Skipped(e, j.action) {
      var t1, goes := StepShape(s, t, e, j, out, TriesSpam(ActionsOf(jobs), i));
      assert Within(s, t1, e, TriesSpam(ActionsOf(jobs), i + 1));
      if goes { MissingTargetFails(t1, e, Target(s, e, j.action), j.script.mv, out); }
    }
  }
}
