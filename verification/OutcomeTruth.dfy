/** For which lists of actions the reported outcome is true under all replies
    (backend/app/services/imap_actions.py). */
module OutcomeTruth {
  import opened Prelude
  import opened ImapServer
  import opened ImapMoves
  import opened ActionStrings
  import opened ImapActions
  import opened MoveTruth

  // ---- one folder is enough ------------------------------------------------------------------

  ghost predicate InFolder(t: Server, d: string, id: nat) {
    exists n: nat :: Holds(t, d, n, id)
  }

  /** What every list of moves to one other folder keeps; `slipped` says whether one of them has slipped. */
  ghost predicate OnTheWay(t: Server, out: MoveOutcome, e: Setting, id: nat, d: string, slipped: bool) {
    && Valid(t) && e.src in t
    && (Has(t, e.src, e.uid) ==> Holds(t, e.src, e.uid, id))
    && (Holds(t, e.src, e.uid, id) || InFolder(t, d, id))
    && (out.folder.Some? ==> out.folder == Some(d) && Truthful(t, out, e, id))
    && (out.folder == None ==> out == NOT_MOVED && (Holds(t, e.src, e.uid, id) <==> !slipped))
  }

  lemma GrowthKeepsTruth(t: Server, t1: Server, out: MoveOutcome, e: Setting, id: nat)
    requires Grows(t, t1) && e.src in t
    ensures Truthful(t1, out, e, id) <==> Truthful(t, out, e, id)
  {
    if out.folder.Some? {
      var f := out.folder.value;
      assert forall n: nat :: Holds(t1, f, n, id) <==> Holds(t, f, n, id) by {
        assert f in t1 && f !in t ==> t1[f].messages == map[];
      }
    }
  }

  lemma GrowthKeepsTheWay(t: Server, t1: Server, out: MoveOutcome, e: Setting, id: nat, d: string, slipped: bool)
    requires Grows(t, t1) && Valid(t1) && OnTheWay(t, out, e, id, d, slipped)
    ensures OnTheWay(t1, out, e, id, d, slipped)
  {
    GrowthKeepsTruth(t, t1, out, e, id);
    if n: nat :| Holds(t, d, n, id) {
      assert Holds(t1, d, n, id);
    }
  }

  lemma FallbackKeepsDestination(t: Server, uid: nat, d: string, src: string, sc: MoveScript)
    requires Valid(t) && src in t && d in t && d != src
    ensures forall n: nat :: Keeps(t, Fallback(t, uid, d, src, sc).0, d, n)
  {
    CopyKeeps(t, src, {uid}, d);
    var t1 := if Takes(sc.copy, true) then CopyEffect(t, src, {uid}, d) else t;
    FlaggedStaysInSource(t1, uid, src, CopyUid(t, uid, d, src, sc), sc);
  }

  lemma BaseKeeps(t: Server, b: Server, falls: bool, uid: nat, d: string, src: string, sc: MoveScript)
    requires Valid(t) && src in t && d in t && d != src && (b == t || b == MoveEffect(t, src, {uid}, d))
    ensures var u := if falls then Fallback(b, uid, d, src, sc).0 else b; forall n: nat :: Keeps(t, u, d, n)
  {
    MoveEffectStays(t, uid, d, src);
    assert forall n: nat :: Keeps(t, b, d, n);
    FallbackKeepsDestination(b, uid, d, src, sc);
    if falls {
      var u := Fallback(b, uid, d, src, sc).0;
      forall n: nat | Has(t, d, n) ensures Keeps(t, u, d, n) {
        assert Keeps(t, b, d, n) && Keeps(b, u, d, n);
      }
    }
  }

  /** A move to another folder takes nothing away there. */
  lemma DestinationKeeps(t: Server, canMove: bool, uid: nat, d: string, src: string, sc: MoveScript)
    requires Valid(t) && src in t && d in t && d != src
    ensures forall n: nat :: Keeps(t, MoveRun(t, canMove, uid, d, src, sc).0, d, n)
  {
    if sc.select.Ok? {
      var b, falls := MoveShape(t, canMove, uid, d, src, sc);
      BaseKeeps(t, b, falls, uid, d, src, sc);
    }
  }

  /** The message is copied before it can be expunged. */
  lemma FallbackLosesNothing(t: Server, e: Setting, d: string, sc: MoveScript, id: nat)
    requires Valid(t) && Holds(t, e.src, e.uid, id) && d != e.src
    ensures var u := Fallback(t, e.uid, d, e.src, sc).0; Holds(u, e.src, e.uid, id) || InFolder(u, d, id)
  {
    var u := Fallback(t, e.uid, d, e.src, sc).0;
    if d in t && Takes(sc.copy, true) {
      CopyOne(t, e.uid, d, e.src);
      var t1 := CopyEffect(t, e.src, {e.uid}, d);
      FlaggedStaysInSource(t1, e.uid, e.src, CopyUid(t, e.uid, d, e.src, sc), sc);
      assert Holds(u, d, t[d].uidNext, id);
    }
  }

  lemma MoveLosesNothing(t: Server, e: Setting, d: string, sc: MoveScript, id: nat)
    requires Valid(t) && Holds(t, e.src, e.uid, id) && d != e.src
    ensures var u := MoveRun(t, e.canMove, e.uid, d, e.src, sc).0; Holds(u, e.src, e.uid, id) || InFolder(u, d, id)
  {
    if !sc.select.Ok? {
    } else if MoveTook(t, e.canMove, d, sc) {
      MovedOne(t, e.uid, d, e.src);
      var t1 := MoveEffect(t, e.src, {e.uid}, d);
      FallbackKeepsDestination(t1, e.uid, d, e.src, sc);
      assert Holds(t1, d, t[d].uidNext, id);
      assert Keeps(t1, Fallback(t1, e.uid, d, e.src, sc).0, d, t[d].uidNext);
      assert Holds(MoveRun(t, e.canMove, e.uid, d, e.src, sc).0, d, t[d].uidNext, id);
    } else {
      FallbackLosesNothing(t, e, d, sc, id);
    }
  }

  lemma PresentStep(t: Server, e: Setting, d: string, sc: MoveScript, out: MoveOutcome, id: nat, slipped: bool)
    requires OnTheWay(t, out, e, id, d, slipped) && d != e.src && d in t && Has(t, e.src, e.uid)
    ensures var (u, o) := MoveTo(t, e, d, sc, out); OnTheWay(u, o, e, id, d, slipped || Slips(e.canMove, sc))
  {
    var (u, o) := MoveTo(t, e, d, sc, out);
    MoveStaysInTwoFolders(t, e.canMove, e.uid, d, e.src, sc);
    MoveLosesNothing(t, e, d, sc, id);
    DestinationKeeps(t, e.canMove, e.uid, d, e.src, sc);
    var n := MoveToTruth(t, e, d, sc, id);
    if o == out && out.folder.Some? {
      var m: nat :| Holds(t, d, m, id) && (out.newUid == None || out.newUid == Some(m));
      assert Keeps(t, u, d, m) && Holds(u, d, m, id);
    }
  }

  lemma AbsentMoveReportsNoUid(t: Server, e: Setting, d: string, sc: MoveScript)
    requires Valid(t) && e.src in t && d in t && !Has(t, e.src, e.uid)
    ensures var end := MoveRun(t, e.canMove, e.uid, d, e.src, sc).1; end.Returned? ==> end.result.newUid == None
    ensures MoveEffect(t, e.src, {e.uid}, d) == t
  {
    ContentsOne(t, e.src, e.uid);
    assert MoveEffect(t, e.src, {e.uid}, d) == t by {
      assert t[e.src].messages - {e.uid} == t[e.src].messages;
    }
    AbsentMoveFindsNothing(t, e.uid, d, e.src, sc);
  }

  lemma AbsentStep(t: Server, e: Setting, d: string, sc: MoveScript, out: MoveOutcome, id: nat, slipped: bool)
    requires OnTheWay(t, out, e, id, d, slipped) && d != e.src && d in t && !Has(t, e.src, e.uid)
    ensures var (u, o) := MoveTo(t, e, d, sc, out); OnTheWay(u, o, e, id, d, slipped || Slips(e.canMove, sc))
  {
    var (u, o) := MoveTo(t, e, d, sc, out);
    MoveStaysInTwoFolders(t, e.canMove, e.uid, d, e.src, sc);
    DestinationKeeps(t, e.canMove, e.uid, d, e.src, sc);
    AbsentMoveReportsNoUid(t, e, d, sc);
    var m: nat :| Holds(t, d, m, id);
    assert Keeps(t, u, d, m) && Holds(u, d, m, id);
    if o == out && out.folder.Some? {
      var k: nat :| Holds(t, d, k, id) && (out.newUid == None || out.newUid == Some(k));
      assert Keeps(t, u, d, k) && Holds(u, d, k, id);
    }
  }

  lemma HitStep(t: Server, e: Setting, d: string, sc: MoveScript, out: MoveOutcome, id: nat, slipped: bool)
    requires OnTheWay(t, out, e, id, d, slipped) && d != e.src
    ensures var (u, o) := MoveTo(t, e, d, sc, out);
      OnTheWay(u, o, e, id, d, slipped || (d in t && Slips(e.canMove, sc)))
  {
    if d !in t {
      MissingTargetFails(t, e, d, sc, out);
    } else if Has(t, e.src, e.uid) {
      PresentStep(t, e, d, sc, out, id, slipped);
    } else {
      AbsentStep(t, e, d, sc, out, id, slipped);
    }
  }

  ghost predicate AllTo(s: Server, e: Setting, moves: seq<ParsedAction>, d: string)
    requires AllMoves(moves)
  {
    forall i | 0 <= i < |moves| && MayHit(s, e, moves, i) :: Target(s, e, moves[i]) == d
  }

  lemma {:induction false} SlipsSoFar(s: Server, e: Setting, jobs: seq<Job>, i: nat)
    requires AreMoves(e, jobs) && i < |jobs|
    ensures jobs[i] in jobs
    ensures SlipsBefore(s, e, jobs, i + 1) <==> SlipsBefore(s, e, jobs, i) || SlipsOn(Prefix(s, e, jobs, i).0, e, jobs[i])
  {
    assert jobs[i] in jobs;
  }

  lemma StepOnTheWay(
      s: Server, t: Server, e: Setting, j: Job, out: MoveOutcome, tried: bool, id: nat, d: string, slipped: bool)
    requires Within(s, t, e, tried) && IsMove(j.action) && Covers(e, j) && !Skipped(e, j.action)
    requires d != e.src && Target(s, e, j.action) == d && OnTheWay(t, out, e, id, d, slipped)
    ensures var (u, o) := MoveStep(t, e, j, out); OnTheWay(u, o, e, id, d, slipped || SlipsOn(t, e, j))
  {
    var t1, goes := StepShape(s, t, e, j, out, tried);
    GrowthKeepsTheWay(t, t1, out, e, id, d, slipped);
    if goes { HitStep(t1, e, d, j.script.mv, out, id, slipped); }
  }

  lemma {:induction false} OneOtherHit(s: Server, e: Setting, jobs: seq<Job>, i: nat, d: string, id: nat, slipped: bool)
    requires Valid(s) && AreMoves(e, jobs) && i < |jobs| && AllMoves(ActionsOf(jobs))
    requires d != e.src && MayHit(s, e, ActionsOf(jobs), i) && Target(s, e, jobs[i].action) == d
    requires OnTheWay(Prefix(s, e, jobs, i).0, Prefix(s, e, jobs, i).1, e, id, d, slipped)
    ensures jobs[i] in jobs
    ensures var (t, out) := Prefix(s, e, jobs, i + 1);
      OnTheWay(t, out, e, id, d, slipped || SlipsOn(Prefix(s, e, jobs, i).0, e, jobs[i]))
  {
    PrefixWithin(s, e, jobs, i);
    assert jobs[i] in jobs;
    StepOnTheWay(s, Prefix(s, e, jobs, i).0, e, jobs[i], Prefix(s, e, jobs, i).1, TriesSpam(ActionsOf(jobs), i), id, d,
      slipped);
  }

  lemma {:induction false} OneOtherStep(s: Server, e: Setting, jobs: seq<Job>, i: nat, d: string, id: nat)
    requires Valid(s) && AreMoves(e, jobs) && i < |jobs| && AllMoves(ActionsOf(jobs))
    requires d != e.src && AllTo(s, e, ActionsOf(jobs), d)
    requires OnTheWay(Prefix(s, e, jobs, i).0, Prefix(s, e, jobs, i).1, e, id, d, SlipsBefore(s, e, jobs, i))
    ensures var (t, out) := Prefix(s, e, jobs, i + 1); OnTheWay(t, out, e, id, d, SlipsBefore(s, e, jobs, i + 1))
  {
    SlipsSoFar(s, e, jobs, i);
    if !MayHit(s, e, ActionsOf(jobs), i) {
      NonHitDoesNothing(s, e, jobs, i);
      PrefixWithin(s, e, jobs, i + 1);
      var (t, out) := Prefix(s, e, jobs, i);
      GrowthKeepsTheWay(t, Prefix(s, e, jobs, i + 1).0, out, e, id, d, SlipsBefore(s, e, jobs, i));
    } else {
      OneOtherHit(s, e, jobs, i, d, id, SlipsBefore(s, e, jobs, i));
    }
  }

  lemma {:induction false} OneOtherFolder(s: Server, e: Setting, jobs: seq<Job>, i: nat, d: string, id: nat)
    requires Valid(s) && Holds(s, e.src, e.uid, id) && AreMoves(e, jobs) && i <= |jobs| && AllMoves(ActionsOf(jobs))
    requires d != e.src && AllTo(s, e, ActionsOf(jobs), d)
    ensures OnTheWay(Prefix(s, e, jobs, i).0, Prefix(s, e, jobs, i).1, e, id, d, SlipsBefore(s, e, jobs, i))
  {
    if i > 0 {
      OneOtherFolder(s, e, jobs, i - 1, d, id);
      OneOtherStep(s, e, jobs, i - 1, d, id);
    }
  }

  lemma GrowsOn(s: Server, t: Server, u: Server)
    requires Grows(s, t) && Grows(t, u)
    ensures Grows(s, u)
  {
  }

  // ---- one move within the source ------------------------------------------------------------

  ghost predicate NoHitIn(s: Server, e: Setting, moves: seq<ParsedAction>, lo: nat, hi: nat)
    requires AllMoves(moves) && hi <= |moves|
  {
    forall i | lo <= i < hi :: !MayHit(s, e, moves, i)
  }

  lemma {:induction false} GrowsThroughout(trace: seq<(Server, MoveOutcome)>, lo: nat, hi: nat)
    requires lo <= hi < |trace|
    requires forall k | lo <= k < hi :: Grows(trace[k].0, trace[k + 1].0) && trace[k + 1].1 == trace[k].1
    ensures Grows(trace[lo].0, trace[hi].0) && trace[hi].1 == trace[lo].1
    decreases hi
  {
    if lo < hi {
      GrowsThroughout(trace, lo, hi - 1);
      GrowsOn(trace[lo].0, trace[hi - 1].0, trace[hi].0);
    }
  }

  function Trace(s: Server, e: Setting, jobs: seq<Job>): (r: seq<(Server, MoveOutcome)>)
    requires AreMoves(e, jobs)
    ensures |r| == |jobs| + 1 && forall i | 0 <= i <= |jobs| :: r[i] == Prefix(s, e, jobs, i)
  {
    seq(|jobs| + 1, i requires 0 <= i <= |jobs| => Prefix(s, e, jobs, i))
  }

  lemma {:induction false} NoHitNoSlip(s: Server, e: Setting, jobs: seq<Job>, lo: nat, hi: nat)
    requires Valid(s) && AreMoves(e, jobs) && lo <= hi <= |jobs| && AllMoves(ActionsOf(jobs))
    requires NoHitIn(s, e, ActionsOf(jobs), lo, hi)
    ensures SlipsBefore(s, e, jobs, hi) <==> SlipsBefore(s, e, jobs, lo)
    decreases hi
  {
    if lo < hi {
      NoHitNoSlip(s, e, jobs, lo, hi - 1);
      NonHitDoesNothing(s, e, jobs, hi - 1);
    }
  }

  lemma {:induction false} NoHitDoesNothing(s: Server, e: Setting, jobs: seq<Job>, lo: nat, hi: nat)
    requires Valid(s) && AreMoves(e, jobs) && lo <= hi <= |jobs| && AllMoves(ActionsOf(jobs))
    requires NoHitIn(s, e, ActionsOf(jobs), lo, hi)
    ensures Grows(Prefix(s, e, jobs, lo).0, Prefix(s, e, jobs, hi).0)
    ensures Prefix(s, e, jobs, hi).1 == Prefix(s, e, jobs, lo).1
  {
    var trace := Trace(s, e, jobs);
    forall k | lo <= k < hi ensures Grows(trace[k].0, trace[k + 1].0) && trace[k + 1].1 == trace[k].1 {
      NonHitDoesNothing(s, e, jobs, k);
    }
    GrowsThroughout(trace, lo, hi);
  }

  lemma {:induction false} NoHitNoneVanishes(s: Server, e: Setting, jobs: seq<Job>, lo: nat, hi: nat)
    requires Valid(s) && AreMoves(e, jobs) && lo <= hi <= |jobs| && AllMoves(ActionsOf(jobs))
    requires NoHitIn(s, e, ActionsOf(jobs), lo, hi)
    ensures VanishesBefore(s, e, jobs, hi) <==> VanishesBefore(s, e, jobs, lo)
    decreases hi
  {
    if lo < hi {
      NoHitNoneVanishes(s, e, jobs, lo, hi - 1);
      NonHitDoesNothing(s, e, jobs, hi - 1);
    }
  }

  /** The exact condition for one outcome, by what happened on the way. */
  ghost predicate TrueExactly(s: Server, t: Server, out: MoveOutcome, e: Setting, id: nat, slips: bool, vanishes: bool) {
    && (Truthful(t, out, e, id) <==>
          if vanishes then out.newUid == None && CleanTwin(s, e, id) else out.folder.Some? || !slips)
    && (vanishes ==> Has(s, e.src, e.uid) && IsFlagged(s, e))
  }

  lemma SameTwins(s: Server, t: Server, e: Setting, id: nat)
    requires e.src in s && e.src in t && t[e.src] == s[e.src]
    ensures CleanTwin(t, e, id) <==> CleanTwin(s, e, id)
  {
    assert forall u: nat :: Holds(t, e.src, u, id) <==> Holds(s, e.src, u, id);
  }

  /** The only move that finds its folder. */
  lemma HitStepTruth(s: Server, t: Server, e: Setting, j: Job, tried: bool, id: nat)
    requires Valid(t) && Grows(s, t) && Within(s, t, e, tried) && IsMove(j.action) && Covers(e, j) && !Skipped(e, j.action)
    requires Holds(s, e.src, e.uid, id)
    ensures var (u, o) := MoveStep(t, e, j, NOT_MOVED);
      e.src in u && TrueExactly(s, u, o, e, id, SlipsOn(t, e, j), VanishesOn(t, e, j))
  {
    var t1, goes := StepShape(s, t, e, j, NOT_MOVED, tried);
    assert t1[e.src] == t[e.src] == s[e.src];
    SameTwins(s, t1, e, id);
    if goes {
      var d := Target(s, e, j.action);
      var n := MoveToTruth(t1, e, d, j.script.mv, id);
      UnreportedIff(t1, e, d, j.script.mv, id);
      MoveStaysInTwoFolders(t1, e.canMove, e.uid, d, e.src, j.script.mv);
    }
  }

  lemma {:induction false} OneHit(s: Server, e: Setting, jobs: seq<Job>, h: nat, id: nat)
    requires Valid(s) && Holds(s, e.src, e.uid, id) && AreMoves(e, jobs) && h < |jobs| && AllMoves(ActionsOf(jobs))
    requires NoHitIn(s, e, ActionsOf(jobs), 0, h) && MayHit(s, e, ActionsOf(jobs), h)
    ensures var (t, out) := Prefix(s, e, jobs, h + 1);
      && e.src in t
      && TrueExactly(s, t, out, e, id, SlipsBefore(s, e, jobs, h + 1), VanishesBefore(s, e, jobs, h + 1))
  {
    NoHitDoesNothing(s, e, jobs, 0, h);
    NoHitNoSlip(s, e, jobs, 0, h);
    NoHitNoneVanishes(s, e, jobs, 0, h);
    PrefixWithin(s, e, jobs, h);
    SlipsSoFar(s, e, jobs, h);
    HitStepTruth(s, Prefix(s, e, jobs, h).0, e, jobs[h], TriesSpam(ActionsOf(jobs), h), id);
  }

  lemma {:induction false} OneHitTruth(s: Server, e: Setting, jobs: seq<Job>, h: nat, id: nat)
    requires Valid(s) && Holds(s, e.src, e.uid, id) && AreMoves(e, jobs) && h < |jobs| && AllMoves(ActionsOf(jobs))
    requires NoHitIn(s, e, ActionsOf(jobs), 0, h) && NoHitIn(s, e, ActionsOf(jobs), h + 1, |jobs|)
    requires MayHit(s, e, ActionsOf(jobs), h)
    ensures var (t, out) := MovesRun(s, e, jobs, NOT_MOVED);
      TrueExactly(s, t, out, e, id, SlipsBefore(s, e, jobs, |jobs|), VanishesBefore(s, e, jobs, |jobs|))
  {
    OneHit(s, e, jobs, h, id);
    NoHitDoesNothing(s, e, jobs, h + 1, |jobs|);
    NoHitNoSlip(s, e, jobs, h + 1, |jobs|);
    NoHitNoneVanishes(s, e, jobs, h + 1, |jobs|);
    var (u, o) := Prefix(s, e, jobs, h + 1);
    GrowthKeepsTruth(u, Prefix(s, e, jobs, |jobs|).0, o, e, id);
    PrefixIsRun(s, e, jobs);
  }

  lemma {:induction false} OtherFolder(s: Server, e: Setting, moves: seq<ParsedAction>) returns (d: string)
    requires AllMoves(moves) && Has(s, e.src, e.uid) && OneFolder(s, e, moves)
    requires forall h | 0 <= h < |moves| && MayHit(s, e, moves, h) :: Target(s, e, moves[h]) != e.src
    ensures d != e.src && AllTo(s, e, moves, d)
  {
    if h :| 0 <= h < |moves| && MayHit(s, e, moves, h) {
      d := Target(s, e, moves[h]);
    } else {
      d := e.src + "x";
    }
  }

  lemma {:induction false} NoneVanishesElsewhere(s: Server, e: Setting, jobs: seq<Job>, n: nat, d: string)
    requires Valid(s) && AreMoves(e, jobs) && n <= |jobs| && AllMoves(ActionsOf(jobs))
    requires d != e.src && AllTo(s, e, ActionsOf(jobs), d)
    ensures !VanishesBefore(s, e, jobs, n)
  {
    if n > 0 {
      NoneVanishesElsewhere(s, e, jobs, n - 1, d);
      var i := n - 1;
      assert jobs[i] in jobs;
      if !MayHit(s, e, ActionsOf(jobs), i) {
        NonHitDoesNothing(s, e, jobs, i);
      } else {
        PrefixWithin(s, e, jobs, i);
        var t1, goes :=
          StepShape(s, Prefix(s, e, jobs, i).0, e, jobs[i], NOT_MOVED, TriesSpam(ActionsOf(jobs), i));
      }
    }
  }

  /** For every list whose moves can find one folder only, under all replies: the outcome is true exactly if a folder is
      reported or no move slipped; and if the message vanished in the folder it was in, exactly if no UID is reported and
      the same content is in the folder. */
  lemma {:induction false} OneFolderTruthIff(s: Server, e: Setting, jobs: seq<Job>, id: nat)
    requires Valid(s) && Holds(s, e.src, e.uid, id) && AreMoves(e, jobs)
    requires AllMoves(ActionsOf(jobs)) && OneFolder(s, e, ActionsOf(jobs))
    ensures var (t, out) := MovesRun(s, e, jobs, NOT_MOVED);
      TrueExactly(s, t, out, e, id, SlipsBefore(s, e, jobs, |jobs|), VanishesBefore(s, e, jobs, |jobs|))
    ensures VanishesBefore(s, e, jobs, |jobs|) ==>
      exists h | 0 <= h < |jobs| && MayHit(s, e, ActionsOf(jobs), h) :: Target(s, e, jobs[h].action) == e.src
  {
    var moves := ActionsOf(jobs);
    if h :| 0 <= h < |moves| && MayHit(s, e, moves, h) && Target(s, e, moves[h]) == e.src {
      OneHitTruth(s, e, jobs, h, id);
      assert Target(s, e, jobs[h].action) == e.src;
    } else {
      var d := OtherFolder(s, e, moves);
      OneOtherFolder(s, e, jobs, |jobs|, d, id);
      NoneVanishesElsewhere(s, e, jobs, |jobs|, d);
      PrefixIsRun(s, e, jobs);
    }
  }

  /** The outcome of an unambiguous list is true, under all replies, unless nothing is reported and a move slipped; then
      it is not. */
  lemma {:induction false} UnambiguousTruthIff(s: Server, e: Setting, jobs: seq<Job>, id: nat)
    requires Valid(s) && Holds(s, e.src, e.uid, id) && AreMoves(e, jobs)
    requires AllMoves(ActionsOf(jobs)) && Unambiguous(s, e, ActionsOf(jobs))
    ensures var (t, out) := MovesRun(s, e, jobs, NOT_MOVED);
      Truthful(t, out, e, id) <==> out.folder.Some? || !SlipsBefore(s, e, jobs, |jobs|)
  {
    OneFolderTruthIff(s, e, jobs, id);
  }
}
