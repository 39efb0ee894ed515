/** Ambiguous lists of moves can report a wrong outcome, so the condition of OutcomeTruth is exact
    (backend/app/services/imap_actions.py). */
module OutcomeTruthIff {
  import opened Prelude
  import opened ImapServer
  import opened ImapMoves
  import opened ActionStrings
  import opened ImapActions
  import opened MoveTruth
  import opened OutcomeTruth

  // ---- scripts -----------------------------------------------------------------------------

  /** A server that creates every folder it is asked for, with these answers to the move itself. */
  function Willing(a: ParsedAction, mv: MoveScript): ActionScript {
    var n := |SPAM_FOLDERS[0]| + 1 + if a.value.Some? then |a.value.value| else 0;
    ActionScript(mv, Ok, seq(n, _ => Ok))
  }

  /** SELECT fails: the message stays where it is. */
  const IDLE := MoveScript(No, No, No, No, No, false)

  /** Everything succeeds. */
  const DONE := MoveScript(Ok, Ok, Ok, Ok, Ok, true)

  /** The copy is made and the original flagged, but EXPUNGE is refused. */
  const UNEXPUNGED := MoveScript(Ok, No, Ok, Ok, No, true)

  /** All commands succeed behind a MOVE that is refused. */
  const COPIED := MoveScript(Ok, No, Ok, Ok, Ok, true)

  /** EXPUNGE raises behind its effect. */
  const SLIPPING := MoveScript(Ok, No, Ok, Ok, Raise(true), true)

  function Scripts(moves: seq<ParsedAction>, i: nat, a: MoveScript, j: nat, b: MoveScript): (r: seq<ActionScript>)
    ensures |r| == |moves|
    ensures forall k | 0 <= k < |moves| :: r[k] == Willing(moves[k], if k == j then b else if k == i then a else IDLE)
  {
    seq(|moves|, k requires 0 <= k < |moves| => Willing(moves[k], if k == j then b else if k == i then a else IDLE))
  }

  predicate IsWilling(j: Job) {
    j.script.list.Ok? && forall k | 0 <= k < |j.script.creates| :: j.script.creates[k] == Ok
  }

  predicate AllWilling(jobs: seq<Job>) {
    forall k | 0 <= k < |jobs| :: IsWilling(jobs[k])
  }

  lemma {:induction false} WillingCreates(s: Server, paths: seq<string>, replies: seq<Reply>)
    requires |paths| <= |replies| && forall k | 0 <= k < |replies| :: replies[k] == Ok
    ensures CreateRun(s, paths, replies).1
    decreases |paths|
  {
    if paths != [] {
      WillingCreates(CreateOne(s, paths[0], replies[0]).0, paths[1..], replies[1..]);
    }
  }

  /** Trying spam on a willing server leaves all its folders created. */
  lemma {:induction false} WillingResolve(t: Server, e: Setting, replies: seq<Reply>)
    requires |SPAM_FOLDERS[0]| < |replies| && forall k | 0 <= k < |replies| :: replies[k] == Ok
    ensures FirstExisting(t, SPAM_FOLDERS) == None ==>
      forall p | p in SpamPaths(e.sep) :: p in ResolveSpam(t, e.sep, replies).0
  {
    PathCount(SPAM_FOLDERS[0], e.sep);
    CreateGrows(t, SpamPaths(e.sep), replies);
    WillingCreates(t, SpamPaths(e.sep), replies);
  }

  /** All the folders that may exist do exist. */
  ghost predicate Complete(s: Server, t: Server, e: Setting, tried: bool) {
    Names(s, e, tried) <= t.Keys
  }

  lemma SpamTried(s: Server, t: Server, t1: Server, e: Setting, tried: bool)
    requires Within(s, t, e, tried) && Complete(s, t, e, tried) && Grows(t, t1)
    requires FirstExisting(t, SPAM_FOLDERS) == None ==> forall p | p in SpamPaths(e.sep) :: p in t1
    ensures Complete(s, t1, e, true)
  {
    if FirstExisting(s, SPAM_FOLDERS) == None && FirstExisting(t, SPAM_FOLDERS).Some? && !tried {
      FirstExistingOfKeys(s, t, SPAM_FOLDERS);
    }
  }

  lemma WillingStep(s: Server, t: Server, e: Setting, j: Job, out: MoveOutcome, tried: bool) returns (t1: Server)
    requires Valid(t) && Within(s, t, e, tried) && Complete(s, t, e, tried)
    requires IsMove(j.action) && Covers(e, j) && !Skipped(e, j.action) && IsWilling(j)
    ensures Valid(t1) && Grows(t, t1) && Complete(s, t1, e, tried || j.action.kind == MOVE_TO_SPAM)
    ensures MoveStep(t, e, j, out) == MoveTo(t1, e, Target(s, e, j.action), j.script.mv, out)
  {
    var goes;
    t1, goes := StepShape(s, t, e, j, out, tried);
    if j.action.kind == MOVE_TO_SPAM {
      WillingResolve(t, e, j.script.creates);
      ResolveGrows(t, e, j.script.creates);
      SpamTried(s, t, t1, e, tried);
    }
  }

  lemma CompleteStep(s: Server, t: Server, e: Setting, j: Job, out: MoveOutcome, tried: bool)
    requires Valid(t) && Within(s, t, e, tried) && Complete(s, t, e, tried)
    requires IsMove(j.action) && Covers(e, j) && IsWilling(j)
    ensures Complete(s, MoveStep(t, e, j, out).0, e, tried || j.action.kind == MOVE_TO_SPAM)
  {
    if !Skipped(e, j.action) {
      var t1 := WillingStep(s, t, e, j, out, tried);
      MoveStaysInTwoFolders(t1, e.canMove, e.uid, Target(s, e, j.action), e.src, j.script.mv);
    }
  }

  lemma {:induction false} PrefixCompleteStep(s: Server, e: Setting, jobs: seq<Job>, i: nat)
    requires Valid(s) && AreMoves(e, jobs) && i < |jobs| && AllWilling(jobs)
    requires Complete(s, Prefix(s, e, jobs, i).0, e, TriesSpam(ActionsOf(jobs), i))
    ensures Complete(s, Prefix(s, e, jobs, i + 1).0, e, TriesSpam(ActionsOf(jobs), i + 1))
  {
    PrefixWithin(s, e, jobs, i);
    assert jobs[i] in jobs && ActionsOf(jobs)[i] == jobs[i].action;
    var (t, out) := Prefix(s, e, jobs, i);
    CompleteStep(s, t, e, jobs[i], out, TriesSpam(ActionsOf(jobs), i));
  }

  lemma {:induction false} PrefixComplete(s: Server, e: Setting, jobs: seq<Job>, i: nat)
    requires Valid(s) && AreMoves(e, jobs) && i <= |jobs| && AllWilling(jobs)
    ensures Complete(s, Prefix(s, e, jobs, i).0, e, TriesSpam(ActionsOf(jobs), i))
  {
    if i > 0 {
      PrefixComplete(s, e, jobs, i - 1);
      PrefixCompleteStep(s, e, jobs, i - 1);
    }
  }

  /** A move that may find its folder does find it on a willing server. */
  lemma {:induction false} HitShape(s: Server, e: Setting, jobs: seq<Job>, i: nat) returns (t1: Server)
    requires Valid(s) && AreMoves(e, jobs) && i < |jobs| && AllWilling(jobs) && AllMoves(ActionsOf(jobs))
    requires MayHit(s, e, ActionsOf(jobs), i)
    ensures Valid(t1) && Grows(Prefix(s, e, jobs, i).0, t1) && Target(s, e, jobs[i].action) in t1
    ensures Prefix(s, e, jobs, i + 1)
      == MoveTo(t1, e, Target(s, e, jobs[i].action), jobs[i].script.mv, Prefix(s, e, jobs, i).1)
  {
    PrefixComplete(s, e, jobs, i);
    PrefixWithin(s, e, jobs, i);
    assert jobs[i] in jobs;
    var (t, out) := Prefix(s, e, jobs, i);
    t1 := WillingStep(s, t, e, jobs[i], out, TriesSpam(ActionsOf(jobs), i));
    assert TriesSpam(ActionsOf(jobs), i + 1)
      <==> TriesSpam(ActionsOf(jobs), i) || jobs[i].action.kind == MOVE_TO_SPAM;
  }

  lemma {:induction false} IdleStep(s: Server, e: Setting, jobs: seq<Job>, i: nat)
    requires Valid(s) && AreMoves(e, jobs) && i < |jobs| && !jobs[i].script.mv.select.Ok?
    ensures Grows(Prefix(s, e, jobs, i).0, Prefix(s, e, jobs, i + 1).0)
    ensures Prefix(s, e, jobs, i + 1).1 == Prefix(s, e, jobs, i).1
  {
    PrefixWithin(s, e, jobs, i);
    assert jobs[i] in jobs;
    var (t, out) := Prefix(s, e, jobs, i);
    if !Skipped(e, jobs[i].action) {
      var t1, goes := StepShape(s, t, e, jobs[i], out, TriesSpam(ActionsOf(jobs), i));
    }
  }

  /** In these moves SELECT fails. */
  predicate IdleIn(jobs: seq<Job>, lo: nat, hi: nat)
    requires hi <= |jobs|
  {
    forall k | lo <= k < hi :: !jobs[k].script.mv.select.Ok?
  }

  lemma {:induction false} Idle(s: Server, e: Setting, jobs: seq<Job>, lo: nat, hi: nat)
    requires Valid(s) && AreMoves(e, jobs) && lo <= hi <= |jobs| && IdleIn(jobs, lo, hi)
    ensures Grows(Prefix(s, e, jobs, lo).0, Prefix(s, e, jobs, hi).0)
    ensures Prefix(s, e, jobs, hi).1 == Prefix(s, e, jobs, lo).1
  {
    var trace := Trace(s, e, jobs);
    forall k | lo <= k < hi ensures Grows(trace[k].0, trace[k + 1].0) && trace[k + 1].1 == trace[k].1 {
      IdleStep(s, e, jobs, k);
    }
    GrowsThroughout(trace, lo, hi);
  }

  // ---- two folders -------------------------------------------------------------------------

  /** Only the place (src, uid) holds this content. */
  ghost predicate Only(s: Server, e: Setting, id: nat) {
    forall f, u: nat :: Holds(s, f, u, id) ==> f == e.src && u == e.uid
  }

  /** The message has left its place and is in folder d, if anywhere. */
  ghost predicate Gone(t: Server, e: Setting, id: nat, d: string) {
    Valid(t) && e.src in t && !Has(t, e.src, e.uid) && forall f, u: nat :: Holds(t, f, u, id) ==> f == d
  }

  lemma MoveEffectLeaves(t: Server, e: Setting, d: string, id: nat)
    requires Valid(t) && Holds(t, e.src, e.uid, id) && Only(t, e, id) && d in t
    ensures Gone(MoveEffect(t, e.src, {e.uid}, d), e, id, d)
  {
    MovedOne(t, e.uid, d, e.src);
    ContentsOne(t, e.src, e.uid);
    var u := MoveEffect(t, e.src, {e.uid}, d);
    forall f, n: nat | Holds(u, f, n, id) ensures f == d {
      if f != d { assert Holds(t, f, n, id); }
    }
  }

  lemma FallbackLeaves(t: Server, e: Setting, d: string, id: nat)
    requires Valid(t) && Holds(t, e.src, e.uid, id) && Only(t, e, id) && d in t
    ensures Gone(Fallback(t, e.uid, d, e.src, DONE).0, e, id, d)
  {
    CopyOne(t, e.uid, d, e.src);
    FallbackStays(t, e.uid, d, e.src, DONE);
    var t1 := CopyEffect(t, e.src, {e.uid}, d);
    FlaggedStaysInSource(t1, e.uid, e.src, CopyUid(t, e.uid, d, e.src, DONE), DONE);
    var u := Fallback(t, e.uid, d, e.src, DONE).0;
    forall f, n: nat | Holds(u, f, n, id) ensures f == d {
      if f != d { assert Holds(t1, f, n, id) && Holds(t, f, n, id); }
    }
  }

  lemma DoneLeaves(t: Server, e: Setting, d: string, out: MoveOutcome, id: nat)
    requires Valid(t) && Holds(t, e.src, e.uid, id) && Only(t, e, id) && d in t
    ensures Gone(MoveTo(t, e, d, DONE, out).0, e, id, d)
  {
    if e.canMove { MoveEffectLeaves(t, e, d, id); } else { FallbackLeaves(t, e, d, id); }
  }

  /** A second move to another folder is answered OK and overwrites the outcome. */
  lemma DoneOverwrites(t: Server, e: Setting, d: string, d2: string, out: MoveOutcome, id: nat)
    requires Gone(t, e, id, d) && d2 in t
    ensures var (u, o) := MoveTo(t, e, d2, DONE, out); o == MoveOutcome(Some(d2), None) && Gone(u, e, id, d)
  {
    AbsentMoveStillSucceeds(t, e.canMove, e.uid, d2, e.src, DONE);
    MoveStaysInTwoFolders(t, e.canMove, e.uid, d2, e.src, DONE);
    var u := MoveTo(t, e, d2, DONE, out).0;
    forall f, n: nat | Holds(u, f, n, id) ensures f == d {
      assert Keeps(u, t, f, n);
      assert Holds(t, f, n, id);
    }
  }

  lemma GoneStays(t: Server, u: Server, e: Setting, id: nat, d: string)
    requires Gone(t, e, id, d) && Grows(t, u) && Valid(u)
    ensures Gone(u, e, id, d)
  {
    forall f, n: nat | Holds(u, f, n, id) ensures f == d {
      assert Holds(t, f, n, id);
    }
  }

  lemma GrowthKeepsOnly(s: Server, t: Server, e: Setting, id: nat)
    requires Grows(s, t) && Only(s, e, id) && Holds(s, e.src, e.uid, id)
    ensures Only(t, e, id) && Holds(t, e.src, e.uid, id)
  {
    forall f, u: nat | Holds(t, f, u, id) ensures f == e.src && u == e.uid {
      assert Holds(s, f, u, id);
    }
  }

  lemma FirstLeaves(s: Server, t: Server, t1: Server, e: Setting, d: string, out: MoveOutcome, id: nat)
    requires Valid(t1) && Grows(s, t) && Grows(t, t1) && d in t1 && Holds(s, e.src, e.uid, id) && Only(s, e, id)
    ensures Gone(MoveTo(t1, e, d, DONE, out).0, e, id, d)
  {
    GrowthKeepsOnly(s, t, e, id);
    GrowthKeepsOnly(t, t1, e, id);
    DoneLeaves(t1, e, d, out, id);
  }

  lemma {:induction false} FirstGoes(s: Server, e: Setting, jobs: seq<Job>, i: nat, d: string, id: nat)
    requires Valid(s) && Holds(s, e.src, e.uid, id) && Only(s, e, id)
    requires AreMoves(e, jobs) && AllWilling(jobs) && AllMoves(ActionsOf(jobs)) && i < |jobs|
    requires MayHit(s, e, ActionsOf(jobs), i) && Target(s, e, jobs[i].action) == d && jobs[i].script.mv == DONE
    requires IdleIn(jobs, 0, i)
    ensures Gone(Prefix(s, e, jobs, i + 1).0, e, id, d)
  {
    Idle(s, e, jobs, 0, i);
    var t1 := HitShape(s, e, jobs, i);
    FirstLeaves(s, Prefix(s, e, jobs, i).0, t1, e, d, Prefix(s, e, jobs, i).1, id);
  }

  lemma {:induction false} FirstMovesOn(s: Server, e: Setting, jobs: seq<Job>, i: nat, j: nat, d: string, id: nat)
    requires Valid(s) && Holds(s, e.src, e.uid, id) && Only(s, e, id)
    requires AreMoves(e, jobs) && AllWilling(jobs) && AllMoves(ActionsOf(jobs)) && i < j < |jobs|
    requires MayHit(s, e, ActionsOf(jobs), i) && Target(s, e, jobs[i].action) == d && jobs[i].script.mv == DONE
    requires IdleIn(jobs, 0, i) && IdleIn(jobs, i + 1, j)
    ensures Gone(Prefix(s, e, jobs, j).0, e, id, d)
  {
    FirstGoes(s, e, jobs, i, d, id);
    Idle(s, e, jobs, i + 1, j);
    PrefixWithin(s, e, jobs, j);
    GoneStays(Prefix(s, e, jobs, i + 1).0, Prefix(s, e, jobs, j).0, e, id, d);
  }

  /** The outcome names d2, and the message is in d, if anywhere. */
  ghost predicate Lied(end: (Server, MoveOutcome), e: Setting, id: nat, d: string, d2: string) {
    Gone(end.0, e, id, d) && end.1 == MoveOutcome(Some(d2), None)
  }

  lemma {:induction false} SecondLies(s: Server, e: Setting, jobs: seq<Job>, j: nat, d: string, d2: string, id: nat)
    requires Valid(s) && AreMoves(e, jobs) && AllWilling(jobs) && AllMoves(ActionsOf(jobs)) && j < |jobs|
    requires MayHit(s, e, ActionsOf(jobs), j) && Target(s, e, jobs[j].action) == d2 && jobs[j].script.mv == DONE
    requires Gone(Prefix(s, e, jobs, j).0, e, id, d)
    ensures Lied(Prefix(s, e, jobs, j + 1), e, id, d, d2)
  {
    var t1 := HitShape(s, e, jobs, j);
    GoneStays(Prefix(s, e, jobs, j).0, t1, e, id, d);
    DoneOverwrites(t1, e, d, d2, Prefix(s, e, jobs, j).1, id);
  }

  lemma {:induction false} LieStays(s: Server, e: Setting, jobs: seq<Job>, i: nat, d: string, d2: string, id: nat)
    requires Valid(s) && AreMoves(e, jobs) && i <= |jobs| && Lied(Prefix(s, e, jobs, i), e, id, d, d2)
    requires IdleIn(jobs, i, |jobs|)
    ensures Lied(MovesRun(s, e, jobs, NOT_MOVED), e, id, d, d2)
  {
    Idle(s, e, jobs, i, |jobs|);
    PrefixWithin(s, e, jobs, |jobs|);
    GoneStays(Prefix(s, e, jobs, i).0, Prefix(s, e, jobs, |jobs|).0, e, id, d);
    PrefixIsRun(s, e, jobs);
  }

  // ---- the folder the message is in ---------------------------------------------------------------

  /** The reported place in the source is empty. */
  ghost predicate Lost(end: (Server, MoveOutcome), e: Setting) {
    var (t, out) := end;
    out.folder == Some(e.src) && out.newUid.Some? && e.src in t && !Has(t, e.src, out.newUid.value)
  }

  /** The message is in its place, flagged \Deleted. */
  predicate Marked(t: Server, e: Setting) {
    Has(t, e.src, e.uid) && IsFlagged(t, e)
  }

  /** A flagged message is copied into its own folder with its flag, and EXPUNGE takes both. */
  lemma FlaggedCopyIsLost(t: Server, e: Setting, out: MoveOutcome)
    requires Valid(t) && Marked(t, e)
    ensures Lost(MoveTo(t, e, e.src, COPIED, out), e)
  {
    CopyOne(t, e.uid, e.src, e.src);
  }

  lemma UnexpungedIsMarked(t: Server, e: Setting, out: MoveOutcome)
    requires Valid(t) && Has(t, e.src, e.uid)
    ensures Marked(MoveTo(t, e, e.src, UNEXPUNGED, out).0, e)
  {
    CopyOne(t, e.uid, e.src, e.src);
    FallbackStays(t, e.uid, e.src, e.src, UNEXPUNGED);
  }

  /** Move i may find its folder, and that is the folder the message is in. */
  predicate ReturnsAt(s: Server, e: Setting, jobs: seq<Job>, i: nat)
    requires i < |jobs|
  {
    AllMoves(ActionsOf(jobs)) && MayHit(s, e, ActionsOf(jobs), i) && Target(s, e, jobs[i].action) == e.src
  }

  lemma {:induction false} LostAt(s: Server, e: Setting, jobs: seq<Job>, i: nat)
    requires Valid(s) && AreMoves(e, jobs) && AllWilling(jobs) && i < |jobs|
    requires ReturnsAt(s, e, jobs, i) && jobs[i].script.mv == COPIED
    requires Marked(Prefix(s, e, jobs, i).0, e)
    ensures Lost(Prefix(s, e, jobs, i + 1), e)
  {
    var t1 := HitShape(s, e, jobs, i);
    FlaggedCopyIsLost(t1, e, Prefix(s, e, jobs, i).1);
  }

  lemma {:induction false} LostStays(s: Server, e: Setting, jobs: seq<Job>, i: nat)
    requires Valid(s) && AreMoves(e, jobs) && i <= |jobs| && Lost(Prefix(s, e, jobs, i), e)
    requires IdleIn(jobs, i, |jobs|)
    ensures Lost(MovesRun(s, e, jobs, NOT_MOVED), e)
  {
    Idle(s, e, jobs, i, |jobs|);
    PrefixIsRun(s, e, jobs);
  }

  lemma {:induction false} MarkedAt(s: Server, e: Setting, jobs: seq<Job>, i: nat)
    requires Valid(s) && AreMoves(e, jobs) && AllWilling(jobs) && i < |jobs|
    requires ReturnsAt(s, e, jobs, i) && jobs[i].script.mv == UNEXPUNGED
    requires Has(Prefix(s, e, jobs, i).0, e.src, e.uid)
    ensures Marked(Prefix(s, e, jobs, i + 1).0, e)
  {
    var t1 := HitShape(s, e, jobs, i);
    UnexpungedIsMarked(t1, e, Prefix(s, e, jobs, i).1);
  }

  lemma {:induction false} MarkedStays(s: Server, e: Setting, jobs: seq<Job>, i: nat, j: nat)
    requires Valid(s) && AreMoves(e, jobs) && i <= j <= |jobs| && Marked(Prefix(s, e, jobs, i).0, e)
    requires IdleIn(jobs, i, j)
    ensures Marked(Prefix(s, e, jobs, j).0, e)
  {
    Idle(s, e, jobs, i, j);
  }

  lemma {:induction false} FirstMarks(s: Server, e: Setting, jobs: seq<Job>, i: nat, j: nat)
    requires Valid(s) && Has(s, e.src, e.uid)
    requires AreMoves(e, jobs) && AllWilling(jobs) && i < j < |jobs|
    requires ReturnsAt(s, e, jobs, i) && jobs[i].script.mv == UNEXPUNGED
    requires IdleIn(jobs, 0, i) && IdleIn(jobs, i + 1, j)
    ensures Marked(Prefix(s, e, jobs, j).0, e)
  {
    Idle(s, e, jobs, 0, i);
    MarkedAt(s, e, jobs, i);
    MarkedStays(s, e, jobs, i + 1, j);
  }

  // ---- the exact condition for a list of moves ------------------------------------------------------

  predicate Fits(e: Setting, actions: seq<ParsedAction>, scripts: seq<ActionScript>) {
    |scripts| == |actions| && AllCovered(e, JobsOf(actions, scripts))
  }

  lemma {:induction false} MovesFit(e: Setting, moves: seq<ParsedAction>, scripts: seq<ActionScript>)
    requires AllMoves(moves) && Fits(e, moves, scripts)
    ensures AreMoves(e, JobsOf(moves, scripts)) && ActionsOf(JobsOf(moves, scripts)) == moves
  {
  }

  ghost predicate ReportsTruly(s: Server, e: Setting, moves: seq<ParsedAction>, scripts: seq<ActionScript>, id: nat)
    requires AllMoves(moves) && Fits(e, moves, scripts)
  {
    MovesFit(e, moves, scripts);
    var (t, out) := MovesRun(s, e, JobsOf(moves, scripts), NOT_MOVED);
    Truthful(t, out, e, id)
  }

  /** One of the moves takes the message away and hides it behind an exception. */
  predicate AnySlips(s: Server, e: Setting, moves: seq<ParsedAction>, scripts: seq<ActionScript>)
    requires AllMoves(moves) && Fits(e, moves, scripts)
  {
    MovesFit(e, moves, scripts);
    SlipsBefore(s, e, JobsOf(moves, scripts), |moves|)
  }

  lemma {:induction false} NoneSlips(s: Server, e: Setting, jobs: seq<Job>, n: nat)
    requires AreMoves(e, jobs) && n <= |jobs|
    requires forall k | 0 <= k < n :: !Slips(e.canMove, jobs[k].script.mv)
    ensures !SlipsBefore(s, e, jobs, n)
  {
    if n > 0 { NoneSlips(s, e, jobs, n - 1); }
  }

  /** Willing replies with two chosen ones: what the lemmas above ask for. */
  lemma {:induction false} ScriptsFit(e: Setting, moves: seq<ParsedAction>, i: nat, a: MoveScript, j: nat, b: MoveScript)
    returns (scripts: seq<ActionScript>, jobs: seq<Job>)
    requires AllMoves(moves)
    ensures Fits(e, moves, scripts) && jobs == JobsOf(moves, scripts) && ActionsOf(jobs) == moves
    ensures AreMoves(e, jobs) && AllWilling(jobs)
    ensures forall k | 0 <= k < |jobs| :: jobs[k].script.mv == if k == j then b else if k == i then a else IDLE
  {
    scripts := Scripts(moves, i, a, j, b);
    jobs := JobsOf(moves, scripts);
    forall k | 0 <= k < |jobs| ensures Covers(e, jobs[k]) && IsWilling(jobs[k]) {
    }
    MovesFit(e, moves, scripts);
  }

  lemma LostIsUntrue(end: (Server, MoveOutcome), e: Setting, id: nat)
    requires Lost(end, e)
    ensures !Truthful(end.0, end.1, e, id)
  {
  }

  lemma {:induction false} DifferentFoldersLie(s: Server, e: Setting, moves: seq<ParsedAction>, i: nat, j: nat, id: nat)
    returns (scripts: seq<ActionScript>)
    requires Valid(s) && Holds(s, e.src, e.uid, id) && Only(s, e, id) && AllMoves(moves) && i < j < |moves|
    requires MayHit(s, e, moves, i) && MayHit(s, e, moves, j) && Target(s, e, moves[i]) != Target(s, e, moves[j])
    ensures Fits(e, moves, scripts) && !AnySlips(s, e, moves, scripts) && !ReportsTruly(s, e, moves, scripts, id)
  {
    var jobs;
    scripts, jobs := ScriptsFit(e, moves, i, DONE, j, DONE);
    NoneSlips(s, e, jobs, |jobs|);
    var d, d2 := Target(s, e, moves[i]), Target(s, e, moves[j]);
    FirstMovesOn(s, e, jobs, i, j, d, id);
    SecondLies(s, e, jobs, j, d, d2, id);
    LieStays(s, e, jobs, j + 1, d, d2, id);
  }

  lemma {:induction false} SecondLoses(s: Server, e: Setting, jobs: seq<Job>, i: nat, j: nat)
    requires Valid(s) && Has(s, e.src, e.uid)
    requires AreMoves(e, jobs) && AllWilling(jobs) && i < j < |jobs|
    requires ReturnsAt(s, e, jobs, i) && jobs[i].script.mv == UNEXPUNGED
    requires ReturnsAt(s, e, jobs, j) && jobs[j].script.mv == COPIED
    requires IdleIn(jobs, 0, i) && IdleIn(jobs, i + 1, j)
    ensures Lost(Prefix(s, e, jobs, j + 1), e)
  {
    FirstMarks(s, e, jobs, i, j);
    LostAt(s, e, jobs, j);
  }

  lemma {:induction false} SourceTwiceLies(s: Server, e: Setting, moves: seq<ParsedAction>, i: nat, j: nat, id: nat)
    returns (scripts: seq<ActionScript>)
    requires Valid(s) && Has(s, e.src, e.uid) && AllMoves(moves) && i < j < |moves|
    requires MayHit(s, e, moves, i) && MayHit(s, e, moves, j)
    requires Target(s, e, moves[i]) == Target(s, e, moves[j]) == e.src
    ensures Fits(e, moves, scripts) && !AnySlips(s, e, moves, scripts) && !ReportsTruly(s, e, moves, scripts, id)
  {
    var jobs;
    scripts, jobs := ScriptsFit(e, moves, i, UNEXPUNGED, j, COPIED);
    NoneSlips(s, e, jobs, |jobs|);
    SecondLoses(s, e, jobs, i, j);
    LostStays(s, e, jobs, j + 1);
    LostIsUntrue(MovesRun(s, e, jobs, NOT_MOVED), e, id);
  }

  lemma {:induction false} FlaggedSourceIsLost(s: Server, e: Setting, jobs: seq<Job>, i: nat)
    requires Valid(s) && Marked(s, e) && AreMoves(e, jobs) && AllWilling(jobs) && i < |jobs|
    requires ReturnsAt(s, e, jobs, i) && jobs[i].script.mv == COPIED
    requires IdleIn(jobs, 0, i) && IdleIn(jobs, i + 1, |jobs|)
    ensures Lost(MovesRun(s, e, jobs, NOT_MOVED), e)
  {
    MarkedStays(s, e, jobs, 0, i);
    LostAt(s, e, jobs, i);
    LostStays(s, e, jobs, i + 1);
  }

  lemma {:induction false} FlaggedSourceLies(s: Server, e: Setting, moves: seq<ParsedAction>, i: nat, id: nat)
    returns (scripts: seq<ActionScript>)
    requires Valid(s) && Has(s, e.src, e.uid) && AllMoves(moves) && i < |moves|
    requires MayHit(s, e, moves, i) && Target(s, e, moves[i]) == e.src && IsFlagged(s, e)
    ensures Fits(e, moves, scripts) && !AnySlips(s, e, moves, scripts) && !ReportsTruly(s, e, moves, scripts, id)
  {
    var jobs;
    scripts, jobs := ScriptsFit(e, moves, i, COPIED, i, COPIED);
    NoneSlips(s, e, jobs, |jobs|);
    FlaggedSourceIsLost(s, e, jobs, i);
    LostIsUntrue(MovesRun(s, e, jobs, NOT_MOVED), e, id);
  }

  /** For every ambiguous list there are replies that make the outcome wrong although no move slips. */
  lemma {:induction false} AmbiguousLies(s: Server, e: Setting, moves: seq<ParsedAction>, id: nat) returns (scripts: seq<ActionScript>)
    requires Valid(s) && Holds(s, e.src, e.uid, id) && Only(s, e, id) && AllMoves(moves)
    requires !Unambiguous(s, e, moves)
    ensures Fits(e, moves, scripts) && !AnySlips(s, e, moves, scripts) && !ReportsTruly(s, e, moves, scripts, id)
  {
    var i: nat, j: nat :| i < |moves| && j < |moves| && MayHit(s, e, moves, i) && MayHit(s, e, moves, j)
      && !(Target(s, e, moves[i]) == Target(s, e, moves[j])
           && (Target(s, e, moves[i]) == e.src ==> i == j && !IsFlagged(s, e)));
    var lo, hi := if i <= j then i else j, if i <= j then j else i;
    if Target(s, e, moves[i]) != Target(s, e, moves[j]) {
      scripts := DifferentFoldersLie(s, e, moves, lo, hi, id);
    } else if IsFlagged(s, e) {
      scripts := FlaggedSourceLies(s, e, moves, i, id);
    } else {
      scripts := SourceTwiceLies(s, e, moves, lo, hi, id);
    }
  }

  /** For every list of moves, on a message that is in its place and nowhere else: the reported outcome is true under all
      replies on which no move slips if and only if the moves that can find their folder name one folder and, if that is
      the folder the message is in, there is one such move and the message is not flagged \Deleted. */
  lemma {:induction false} MovesAreTruthfulIff(s: Server, e: Setting, moves: seq<ParsedAction>, id: nat)
    requires Valid(s) && Holds(s, e.src, e.uid, id) && Only(s, e, id) && AllMoves(moves)
    ensures (forall scripts | Fits(e, moves, scripts) && !AnySlips(s, e, moves, scripts) ::
        ReportsTruly(s, e, moves, scripts, id))
      <==> Unambiguous(s, e, moves)
  {
    if Unambiguous(s, e, moves) {
      forall scripts | Fits(e, moves, scripts) && !AnySlips(s, e, moves, scripts)
        ensures ReportsTruly(s, e, moves, scripts, id)
      {
        MovesFit(e, moves, scripts);
        UnambiguousTruthIff(s, e, JobsOf(moves, scripts), id);
      }
    } else {
      var scripts := AmbiguousLies(s, e, moves, id);
    }
  }

  // ---- all replies ---------------------------------------------------------------------------

  /** Nothing is reported, and the message is not in its place. */
  ghost predicate Hidden(end: (Server, MoveOutcome), e: Setting) {
    end.1 == NOT_MOVED && e.src in end.0 && !Has(end.0, e.src, e.uid)
  }

  lemma SlippingHides(t: Server, e: Setting, d: string)
    requires Valid(t) && Has(t, e.src, e.uid) && d in t
    ensures Hidden(MoveTo(t, e, d, SLIPPING, NOT_MOVED), e)
  {
    var id := t[e.src].messages[e.uid].id;
    UnreportedIff(t, e, d, SLIPPING, id);
    MoveStaysInTwoFolders(t, e.canMove, e.uid, d, e.src, SLIPPING);
    CopyOne(t, e.uid, d, e.src);
  }

  lemma {:induction false} HiddenAt(s: Server, e: Setting, jobs: seq<Job>, i: nat)
    requires Valid(s) && AreMoves(e, jobs) && AllWilling(jobs) && AllMoves(ActionsOf(jobs)) && i < |jobs|
    requires MayHit(s, e, ActionsOf(jobs), i) && jobs[i].script.mv == SLIPPING
    requires Has(Prefix(s, e, jobs, i).0, e.src, e.uid) && Prefix(s, e, jobs, i).1 == NOT_MOVED
    ensures Hidden(Prefix(s, e, jobs, i + 1), e)
  {
    var t1 := HitShape(s, e, jobs, i);
    SlippingHides(t1, e, Target(s, e, jobs[i].action));
  }

  lemma {:induction false} HiddenStays(s: Server, e: Setting, jobs: seq<Job>, i: nat)
    requires Valid(s) && AreMoves(e, jobs) && i <= |jobs| && Hidden(Prefix(s, e, jobs, i), e)
    requires IdleIn(jobs, i, |jobs|)
    ensures Hidden(MovesRun(s, e, jobs, NOT_MOVED), e)
  {
    Idle(s, e, jobs, i, |jobs|);
    PrefixIsRun(s, e, jobs);
  }

  lemma {:induction false} HitIsHidden(s: Server, e: Setting, jobs: seq<Job>, i: nat)
    requires Valid(s) && Has(s, e.src, e.uid)
    requires AreMoves(e, jobs) && AllWilling(jobs) && AllMoves(ActionsOf(jobs)) && i < |jobs|
    requires MayHit(s, e, ActionsOf(jobs), i) && jobs[i].script.mv == SLIPPING
    requires IdleIn(jobs, 0, i) && IdleIn(jobs, i + 1, |jobs|)
    ensures Hidden(MovesRun(s, e, jobs, NOT_MOVED), e)
  {
    Idle(s, e, jobs, 0, i);
    HiddenAt(s, e, jobs, i);
    HiddenStays(s, e, jobs, i + 1);
  }

  /** Any move that can find its folder can lose sight of the message. */
  lemma {:induction false} HitHides(s: Server, e: Setting, moves: seq<ParsedAction>, i: nat, id: nat) returns (scripts: seq<ActionScript>)
    requires Valid(s) && Has(s, e.src, e.uid) && AllMoves(moves) && i < |moves| && MayHit(s, e, moves, i)
    ensures Fits(e, moves, scripts) && !ReportsTruly(s, e, moves, scripts, id)
  {
    var jobs;
    scripts, jobs := ScriptsFit(e, moves, i, SLIPPING, i, SLIPPING);
    HitIsHidden(s, e, jobs, i);
  }

  /** Without that exemption nothing can be relied on: the outcome is true under all replies if and only if no move can
      find its folder. */
  lemma {:induction false} AlwaysTruthfulIff(s: Server, e: Setting, moves: seq<ParsedAction>, id: nat)
    requires Valid(s) && Holds(s, e.src, e.uid, id) && AllMoves(moves)
    ensures (forall scripts | Fits(e, moves, scripts) :: ReportsTruly(s, e, moves, scripts, id))
      <==> NoHitIn(s, e, moves, 0, |moves|)
  {
    if NoHitIn(s, e, moves, 0, |moves|) {
      forall scripts | Fits(e, moves, scripts) ensures ReportsTruly(s, e, moves, scripts, id) {
        MovesFit(e, moves, scripts);
        var jobs := JobsOf(moves, scripts);
        NoHitDoesNothing(s, e, jobs, 0, |jobs|);
        PrefixIsRun(s, e, jobs);
      }
    } else {
      var i: nat :| i < |moves| && MayHit(s, e, moves, i);
      var scripts := HitHides(s, e, moves, i, id);
    }
  }
}
