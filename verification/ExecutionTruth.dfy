/** Truth of the outcome of execute_imap_actions as a whole, from the server it starts on
    (backend/app/services/imap_actions.py). */
module ExecutionTruth {
  import opened Prelude
  import opened Text
  import opened ImapServer
  import opened ImapMoves
  import opened ActionStrings
  import opened ImapActions
  import opened MoveTruth
  import opened OutcomeTruth
  import opened OutcomeTruthIff

  // ---- the first loop ------------------------------------------------------------------------

  lemma StoreKeepsMessage(s: Server, e: Setting, flag: string, sc: MoveScript)
    requires Valid(s)
    ensures var t := StoreRun(s, e, flag, sc);
      && Valid(t) && t.Keys == s.Keys
      && forall f, u: nat, id :: Holds(t, f, u, id) <==> Holds(s, f, u, id)
  {
  }

  lemma {:induction false} CreateKeepsMessage(s: Server, e: Setting, path: string, replies: seq<Reply>)
    requires Valid(s) && |path| < |replies|
    ensures var t := CreateFolderRun(s, path, e.sep, replies).0;
      && Valid(t) && Grows(s, t)
      && forall f, u: nat, id :: Holds(t, f, u, id) <==> Holds(s, f, u, id)
  {
    PathCount(path, e.sep);
    CreateGrows(s, Paths(Split(path, e.sep), "", e.sep), replies);
    var t := CreateFolderRun(s, path, e.sep, replies).0;
    forall f, u: nat, id ensures Holds(t, f, u, id) <==> Holds(s, f, u, id) {
      assert f in t && f !in s ==> t[f].messages == map[];
    }
  }

  lemma FlagStepKeepsMessage(s: Server, e: Setting, j: Job)
    requires Valid(s) && Covers(e, j)
    ensures var t := FlagStep(s, e, j);
      && Valid(t) && s.Keys <= t.Keys
      && forall f, u: nat, id :: Holds(t, f, u, id) <==> Holds(s, f, u, id)
  {
    match (j.action.kind, j.action.value)
    case (MARK_AS_READ, _) => StoreKeepsMessage(s, e, "\\Seen", j.script.mv);
    case (APPLY_LABEL, Some(flag)) => StoreKeepsMessage(s, e, flag, j.script.mv);
    case (CREATE_AND_APPLY_LABEL, Some(flag)) => StoreKeepsMessage(s, e, flag, j.script.mv);
    case (CREATE_FOLDER, Some(path)) => CreateKeepsMessage(s, e, path, j.script.creates);
    case _ =>
  }

  /** Labels, flags and new folders leave every message where it is. */
  lemma {:induction false} FlagsKeepMessages(s: Server, e: Setting, jobs: seq<Job>)
    requires Valid(s) && AllCovered(e, jobs)
    ensures var t := FlagsRun(s, e, jobs);
      && Valid(t) && s.Keys <= t.Keys
      && forall f, u: nat, id :: Holds(t, f, u, id) <==> Holds(s, f, u, id)
    decreases |jobs|
  {
    if jobs != [] {
      assert jobs[0] in jobs;
      FlagStepKeepsMessage(s, e, jobs[0]);
      FlagsKeepMessages(FlagStep(s, e, jobs[0]), e, jobs[1..]);
    }
  }

  // ---- one effective move --------------------------------------------------------------------

  /** The moves that are not skipped. */
  function Effective(e: Setting, jobs: seq<Job>): (r: seq<Job>)
    ensures forall j | j in r :: j in jobs && !Skipped(e, j.action)
  {
    if jobs == [] then []
    else (if Skipped(e, jobs[0].action) then [] else [jobs[0]]) + Effective(e, jobs[1..])
  }

  lemma {:induction false} EffectiveCounts(e: Setting, jobs: seq<Job>, i: nat, j: nat)
    requires i <= j < |jobs| && !Skipped(e, jobs[i].action) && !Skipped(e, jobs[j].action)
    ensures |Effective(e, jobs)| >= if i < j then 2 else 1
    decreases |jobs|
  {
    if i > 0 {
      EffectiveCounts(e, jobs[1..], i - 1, j - 1);
    } else if j > 0 {
      EffectiveCounts(e, jobs[1..], j - 1, j - 1);
    }
  }

  /** One of the moves takes the message away and hides it behind an exception. */
  predicate AnyMoveSlips(s: Server, e: Setting, jobs: seq<Job>)
    requires AllCovered(e, jobs)
  {
    SlipsBefore(FlagsRun(s, e, FlagsOf(jobs)), e, MovesOf(jobs), |MovesOf(jobs)|)
  }

  /** In one of the moves the message vanishes in the folder it is in. */
  predicate AnyMoveVanishes(s: Server, e: Setting, jobs: seq<Job>)
    requires AllCovered(e, jobs)
  {
    VanishesBefore(FlagsRun(s, e, FlagsOf(jobs)), e, MovesOf(jobs), |MovesOf(jobs)|)
  }

  lemma {:induction false} OneEffective(s1: Server, e: Setting, moves: seq<Job>)
    requires AreMoves(e, moves) && AllMoves(ActionsOf(moves)) && |Effective(e, moves)| <= 1
    ensures OneFolder(s1, e, ActionsOf(moves))
  {
    forall i, j | 0 <= i < |moves| && 0 <= j < |moves| && !Skipped(e, moves[i].action) && !Skipped(e, moves[j].action)
      ensures i == j
    {
      EffectiveCounts(e, moves, if i <= j then i else j, if i <= j then j else i);
    }
  }

  /** For every list of actions with at most one move that is not skipped, on a message that is in its place before the
      first action, under all replies: the outcome is true exactly if a folder is reported or the move did not slip.  Only
      a move to spam can go to the folder the message is in; if the message is flagged \Deleted by then and vanishes, the
      outcome is true exactly if it has no UID and the same content is in the folder, not flagged. */
  lemma {:induction false} OneMoveTruthIff(s: Server, e: Setting, jobs: seq<Job>, id: nat)
    requires Valid(s) && Holds(s, e.src, e.uid, id) && AllCovered(e, jobs)
    requires |Effective(e, MovesOf(jobs))| <= 1
    ensures var (t, out) := ExecuteRun(s, e, jobs);
      Truthful(t, out, e, id) <==>
        if AnyMoveVanishes(s, e, jobs) then out.newUid == None && CleanTwin(FlagsRun(s, e, FlagsOf(jobs)), e, id)
        else out.folder.Some? || !AnyMoveSlips(s, e, jobs)
  {
    var s1, moves := FlagsRun(s, e, FlagsOf(jobs)), MovesOf(jobs);
    FlagsKeepMessages(s, e, FlagsOf(jobs));
    assert Holds(s1, e.src, e.uid, id);
    assert AreMoves(e, moves) && AllMoves(ActionsOf(moves));
    OneEffective(s1, e, moves);
    OneFolderTruthIff(s1, e, moves, id);
  }

  // ---- any list of actions --------------------------------------------------------------------

  function OnlyMoves(actions: seq<ParsedAction>): (r: seq<ParsedAction>)
    ensures AllMoves(r)
  {
    if actions == [] then []
    else (if IsMove(actions[0]) then [actions[0]] else []) + OnlyMoves(actions[1..])
  }

  lemma {:induction false} JobsTail(actions: seq<ParsedAction>, scripts: seq<ActionScript>)
    requires |scripts| == |actions| && actions != []
    ensures JobsOf(actions, scripts) == [Job(actions[0], scripts[0])] + JobsOf(actions[1..], scripts[1..])
  {
  }

  lemma {:induction false} ActionsOfCons(j: Job, jobs: seq<Job>)
    ensures ActionsOf([j] + jobs) == [j.action] + ActionsOf(jobs)
  {
  }

  lemma {:induction false} MovesOfCons(j: Job, jobs: seq<Job>)
    ensures MovesOf([j] + jobs) == if IsMove(j.action) then [j] + MovesOf(jobs) else MovesOf(jobs)
  {
    assert ([j] + jobs)[0] == j && ([j] + jobs)[1..] == jobs;
  }

  lemma {:induction false} MovesOfJobs(actions: seq<ParsedAction>, scripts: seq<ActionScript>)
    requires |scripts| == |actions|
    ensures ActionsOf(MovesOf(JobsOf(actions, scripts))) == OnlyMoves(actions)
    decreases |actions|
  {
    if actions != [] {
      JobsTail(actions, scripts);
      var j, rest := Job(actions[0], scripts[0]), JobsOf(actions[1..], scripts[1..]);
      MovesOfCons(j, rest);
      ActionsOfCons(j, MovesOf(rest));
      MovesOfJobs(actions[1..], scripts[1..]);
    }
  }

  /** The server when the moves start. */
  ghost function BeforeMoves(s: Server, e: Setting, actions: seq<ParsedAction>, scripts: seq<ActionScript>): Server
    requires Fits(e, actions, scripts)
  {
    FlagsRun(s, e, FlagsOf(JobsOf(actions, scripts)))
  }

  ghost predicate ExecutesTruly(s: Server, e: Setting, actions: seq<ParsedAction>, scripts: seq<ActionScript>, id: nat)
    requires Fits(e, actions, scripts)
  {
    var jobs := JobsOf(actions, scripts);
    var (t, out) := ExecuteRun(s, e, jobs);
    Truthful(t, out, e, id)
  }

  /** The replies of one run to the non-moves and of another to the moves. */
  function Merge(actions: seq<ParsedAction>, flags: seq<ActionScript>, moves: seq<ActionScript>): (r: seq<ActionScript>)
    requires |flags| == |actions| && |moves| == |OnlyMoves(actions)|
    ensures |r| == |actions|
    decreases |actions|
  {
    if actions == [] then []
    else if IsMove(actions[0]) then [moves[0]] + Merge(actions[1..], flags[1..], moves[1..])
    else [flags[0]] + Merge(actions[1..], flags[1..], moves)
  }

  lemma {:induction false} MergedJobs(
      e: Setting, actions: seq<ParsedAction>, flags: seq<ActionScript>, moves: seq<ActionScript>)
    requires |flags| == |actions| && |moves| == |OnlyMoves(actions)|
    ensures var jobs := JobsOf(actions, Merge(actions, flags, moves));
      && FlagsOf(jobs) == FlagsOf(JobsOf(actions, flags))
      && MovesOf(jobs) == JobsOf(OnlyMoves(actions), moves)
    decreases |actions|
  {
    if actions != [] {
      JobsTail(actions, flags);
      JobsTail(actions, Merge(actions, flags, moves));
      if IsMove(actions[0]) {
        assert OnlyMoves(actions)[1..] == OnlyMoves(actions[1..]);
        assert Merge(actions, flags, moves)[1..] == Merge(actions[1..], flags[1..], moves[1..]);
        MergedJobs(e, actions[1..], flags[1..], moves[1..]);
        JobsTail(OnlyMoves(actions), moves);
      } else {
        assert Merge(actions, flags, moves)[1..] == Merge(actions[1..], flags[1..], moves);
        MergedJobs(e, actions[1..], flags[1..], moves);
        assert OnlyMoves(actions) == OnlyMoves(actions[1..]);
      }
      var m, g := JobsOf(actions, Merge(actions, flags, moves)), JobsOf(actions, flags);
      assert m[1..] == JobsOf(actions[1..], Merge(actions, flags, moves)[1..]) && g[1..] == JobsOf(actions[1..], flags[1..]);
    }
  }

  lemma {:induction false} JobIsFlagOrMove(jobs: seq<Job>, j: Job)
    requires j in jobs
    ensures j in FlagsOf(jobs) || j in MovesOf(jobs)
  {
    if j != jobs[0] { JobIsFlagOrMove(jobs[1..], j); }
  }

  lemma {:induction false} MergedFits(e: Setting, actions: seq<ParsedAction>, flags: seq<ActionScript>, moves: seq<ActionScript>)
    requires Fits(e, actions, flags) && Fits(e, OnlyMoves(actions), moves)
    ensures Fits(e, actions, Merge(actions, flags, moves))
  {
    MergedJobs(e, actions, flags, moves);
    var jobs := JobsOf(actions, Merge(actions, flags, moves));
    forall j | j in jobs ensures Covers(e, j) {
      JobIsFlagOrMove(jobs, j);
    }
  }

  lemma {:induction false} FlagsKeepOnly(s: Server, e: Setting, jobs: seq<Job>, id: nat)
    requires Valid(s) && AllCovered(e, jobs) && Holds(s, e.src, e.uid, id) && Only(s, e, id)
    ensures var t := FlagsRun(s, e, jobs); Valid(t) && Holds(t, e.src, e.uid, id) && Only(t, e, id)
  {
    FlagsKeepMessages(s, e, jobs);
    var t := FlagsRun(s, e, jobs);
    assert Holds(t, e.src, e.uid, id);
    forall f, u: nat | Holds(t, f, u, id) ensures f == e.src && u == e.uid {
      assert Holds(s, f, u, id);
    }
  }

  ghost predicate UnambiguousAt(s: Server, e: Setting, actions: seq<ParsedAction>, scripts: seq<ActionScript>)
    requires Fits(e, actions, scripts)
  {
    var s1 := BeforeMoves(s, e, actions, scripts);
    Has(s1, e.src, e.uid) && Unambiguous(s1, e, OnlyMoves(actions))
  }

  lemma {:induction false} TrueFromUnambiguous(
      s: Server, e: Setting, actions: seq<ParsedAction>, scripts: seq<ActionScript>, id: nat)
    requires Valid(s) && Holds(s, e.src, e.uid, id) && Fits(e, actions, scripts)
    requires UnambiguousAt(s, e, actions, scripts) && !AnyMoveSlips(s, e, JobsOf(actions, scripts))
    ensures ExecutesTruly(s, e, actions, scripts, id)
  {
    var jobs := JobsOf(actions, scripts);
    FlagsKeepMessages(s, e, FlagsOf(jobs));
    MovesOfJobs(actions, scripts);
    assert AreMoves(e, MovesOf(jobs));
    UnambiguousTruthIff(BeforeMoves(s, e, actions, scripts), e, MovesOf(jobs), id);
  }

  lemma {:induction false} FalseFromAmbiguous(
      s: Server, e: Setting, actions: seq<ParsedAction>, scripts: seq<ActionScript>, id: nat)
    returns (worse: seq<ActionScript>)
    requires Valid(s) && Holds(s, e.src, e.uid, id) && Only(s, e, id) && Fits(e, actions, scripts)
    requires Has(BeforeMoves(s, e, actions, scripts), e.src, e.uid) && !UnambiguousAt(s, e, actions, scripts)
    ensures Fits(e, actions, worse) && !AnyMoveSlips(s, e, JobsOf(actions, worse))
    ensures !ExecutesTruly(s, e, actions, worse, id)
  {
    FlagsKeepOnly(s, e, FlagsOf(JobsOf(actions, scripts)), id);
    var bad := AmbiguousLies(BeforeMoves(s, e, actions, scripts), e, OnlyMoves(actions), id);
    worse := Merge(actions, scripts, bad);
    MergedFits(e, actions, scripts, bad);
    MergedJobs(e, actions, scripts, bad);
  }

  lemma {:induction false} FalseFromHit(
      s: Server, e: Setting, actions: seq<ParsedAction>, scripts: seq<ActionScript>, i: nat, id: nat)
    returns (worse: seq<ActionScript>)
    requires Valid(s) && Holds(s, e.src, e.uid, id) && Fits(e, actions, scripts)
    requires i < |OnlyMoves(actions)| && MayHit(BeforeMoves(s, e, actions, scripts), e, OnlyMoves(actions), i)
    ensures Fits(e, actions, worse) && !ExecutesTruly(s, e, actions, worse, id)
  {
    FlagsKeepMessages(s, e, FlagsOf(JobsOf(actions, scripts)));
    assert Holds(BeforeMoves(s, e, actions, scripts), e.src, e.uid, id);
    var bad := HitHides(BeforeMoves(s, e, actions, scripts), e, OnlyMoves(actions), i, id);
    worse := Merge(actions, scripts, bad);
    MergedFits(e, actions, scripts, bad);
    MergedJobs(e, actions, scripts, bad);
  }

  lemma {:induction false} TrueWithoutHit(
      s: Server, e: Setting, actions: seq<ParsedAction>, scripts: seq<ActionScript>, id: nat)
    requires Valid(s) && Holds(s, e.src, e.uid, id) && Fits(e, actions, scripts)
    requires NoHitIn(BeforeMoves(s, e, actions, scripts), e, OnlyMoves(actions), 0, |OnlyMoves(actions)|)
    ensures ExecutesTruly(s, e, actions, scripts, id)
  {
    var jobs, s1 := JobsOf(actions, scripts), BeforeMoves(s, e, actions, scripts);
    FlagsKeepMessages(s, e, FlagsOf(jobs));
    MovesOfJobs(actions, scripts);
    assert AreMoves(e, MovesOf(jobs)) && Holds(s1, e.src, e.uid, id);
    NoHitDoesNothing(s1, e, MovesOf(jobs), 0, |MovesOf(jobs)|);
    PrefixIsRun(s1, e, MovesOf(jobs));
  }

  // ---- what the first loop can leave -----------------------------------------------------------------

  function Folder(s: Server, path: string): Server {
    if path in s then s else s[path := Mailbox(map[], 1)]
  }

  /** The first n paths exist. */
  function Folders(s: Server, paths: seq<string>, n: nat): Server
    decreases n
  {
    if n == 0 || paths == [] then s else Folders(Folder(s, paths[0]), paths[1..], n - 1)
  }

  function PathsOf(path: string, sep: char): seq<string> {
    Paths(Split(path, sep), "", sep)
  }

  predicate IsLabel(a: ParsedAction) {
    a.kind == APPLY_LABEL || a.kind == CREATE_AND_APPLY_LABEL
  }

  /** How far an action of the first loop may get, as far as the moves can tell: how many folders it creates, and whether
      it flags the message \Deleted. */
  function Got(s: Server, e: Setting, a: ParsedAction, n: nat): Server {
    if a.kind == CREATE_FOLDER && a.value.Some? then Folders(s, PathsOf(a.value.value, e.sep), n)
    else if IsLabel(a) && a.value == Some(DELETED) && n > 0 && e.src in s then StoreEffect(s, e.src, {e.uid}, DELETED)
    else s
  }

  function GotAll(s: Server, e: Setting, actions: seq<ParsedAction>, ns: seq<nat>): Server
    requires |ns| == |actions|
    decreases |actions|
  {
    if actions == [] then s else GotAll(Got(s, e, actions[0], ns[0]), e, actions[1..], ns[1..])
  }

  /** The moves cannot tell these servers apart. */
  predicate SameMoves(s: Server, t: Server, e: Setting) {
    t.Keys == s.Keys && Has(s, e.src, e.uid) && Has(t, e.src, e.uid) && (IsFlagged(t, e) <==> IsFlagged(s, e))
  }

  lemma {:induction false} SameMovesSameHits(s: Server, t: Server, e: Setting, moves: seq<ParsedAction>)
    requires SameMoves(s, t, e) && AllMoves(moves)
    ensures Unambiguous(t, e, moves) <==> Unambiguous(s, e, moves)
    ensures NoHitIn(t, e, moves, 0, |moves|) <==> NoHitIn(s, e, moves, 0, |moves|)
  {
    FirstExistingOfKeys(s, t, SPAM_FOLDERS);
    forall i: nat | i < |moves| ensures MayHit(s, e, moves, i) == MayHit(t, e, moves, i) {
      assert Names(s, e, TriesSpam(moves, i + 1)) == Names(t, e, TriesSpam(moves, i + 1));
    }
  }

  lemma {:induction false} FoldersMeans(s: Server, paths: seq<string>, n: nat)
    ensures Grows(s, Folders(s, paths, n))
    ensures Folders(s, paths, n).Keys == s.Keys + set i | 0 <= i < |paths| && i < n :: paths[i]
    decreases |paths|
  {
    if n > 0 && paths != [] {
      FoldersMeans(Folder(s, paths[0]), paths[1..], n - 1);
      var t := Folders(s, paths, n);
      forall p ensures p in t.Keys <==> p in s.Keys || exists i :: 0 <= i < |paths| && i < n && paths[i] == p {
        if p in t.Keys && p !in s.Keys && p != paths[0] {
          var i :| 0 <= i < |paths[1..]| && i < n - 1 && paths[1..][i] == p;
          assert paths[i + 1] == p;
        }
        if i :| 0 < i < |paths| && i < n && paths[i] == p { assert paths[1..][i - 1] == p; }
      }
    }
  }

  /** A creation makes the first n folders, for some n ... */
  lemma {:induction false} CreationStops(s: Server, paths: seq<string>, replies: seq<Reply>) returns (n: nat)
    requires |paths| <= |replies|
    ensures CreateRun(s, paths, replies).0 == Folders(s, paths, n)
    decreases |paths|
  {
    n := 0;
    if paths != [] {
      var (s1, goOn) := CreateOne(s, paths[0], replies[0]);
      if goOn {
        var m := CreationStops(s1, paths[1..], replies[1..]);
        n := m + 1;
      } else if Takes(replies[0], true) {
        n := 1;
        assert Folders(s1, paths[1..], 0) == s1;
      }
    }
  }

  /** ... and for every n there are replies that do so. */
  function StopAt(n: nat, length: nat): (r: seq<Reply>)
    ensures |r| == length && forall i | 0 <= i < length :: r[i] == if i < n then Ok else No
  {
    seq(length, i => if i < n then Ok else No)
  }

  lemma {:induction false} CreationStopsAt(s: Server, paths: seq<string>, n: nat, replies: seq<Reply>)
    requires |paths| <= |replies| && forall i | 0 <= i < |replies| :: replies[i] == if i < n then Ok else No
    ensures CreateRun(s, paths, replies).0 == Folders(s, paths, n)
    decreases |paths|
  {
    if paths != [] && n > 0 {
      CreationStopsAt(Folder(s, paths[0]), paths[1..], n - 1, replies[1..]);
    }
  }

  lemma {:induction false} FoldersAlike(s: Server, t: Server, e: Setting, paths: seq<string>, n: nat)
    requires SameMoves(s, t, e)
    ensures SameMoves(Folders(s, paths, n), Folders(t, paths, n), e)
  {
    FoldersMeans(s, paths, n);
    FoldersMeans(t, paths, n);
  }

  lemma StoredAlike(s: Server, t: Server, e: Setting, flag: string)
    requires SameMoves(s, t, e)
    ensures flag != DELETED ==> SameMoves(StoreEffect(s, e.src, {e.uid}, flag), t, e)
    ensures flag == DELETED ==> SameMoves(StoreEffect(s, e.src, {e.uid}, flag), StoreEffect(t, e.src, {e.uid}, flag), e)
  {
  }

  /** Every step of the first loop gets somewhere ... */
  lemma StepGets(s: Server, t: Server, e: Setting, j: Job) returns (n: nat)
    requires SameMoves(s, t, e) && Covers(e, j) && !IsMove(j.action)
    ensures SameMoves(FlagStep(s, e, j), Got(t, e, j.action, n), e)
  {
    n := if j.script.mv.select.Ok? && Takes(j.script.mv.store, true) then 1 else 0;
    match (j.action.kind, j.action.value)
    case (MARK_AS_READ, _) =>
      assert "\\Seen"[1] == 'S' && DELETED[1] == 'D';
      StoredAlike(s, t, e, "\\Seen");
    case (APPLY_LABEL, Some(flag)) => StoredAlike(s, t, e, flag);
    case (CREATE_AND_APPLY_LABEL, Some(flag)) => StoredAlike(s, t, e, flag);
    case (CREATE_FOLDER, Some(path)) =>
      PathCount(path, e.sep);
      n := CreationStops(s, PathsOf(path, e.sep), j.script.creates);
      FoldersAlike(s, t, e, PathsOf(path, e.sep), n);
    case _ =>
  }

  /** The answers that get an action this far. */
  function Getting(a: ParsedAction, n: nat): ActionScript {
    var length := |SPAM_FOLDERS[0]| + 1 + if a.value.Some? then |a.value.value| else 0;
    ActionScript(if n > 0 then DONE else IDLE, Ok, StopAt(n, length))
  }

  /** ... and can be made to get anywhere. */
  lemma StepCanGet(s: Server, t: Server, e: Setting, a: ParsedAction, n: nat)
    requires SameMoves(s, t, e) && !IsMove(a)
    ensures Covers(e, Job(a, Getting(a, n))) && SameMoves(FlagStep(s, e, Job(a, Getting(a, n))), Got(t, e, a, n), e)
  {
    match (a.kind, a.value)
    case (MARK_AS_READ, _) =>
      assert "\\Seen"[1] == 'S' && DELETED[1] == 'D';
      StoredAlike(s, t, e, "\\Seen");
    case (APPLY_LABEL, Some(flag)) => StoredAlike(s, t, e, flag);
    case (CREATE_AND_APPLY_LABEL, Some(flag)) => StoredAlike(s, t, e, flag);
    case (CREATE_FOLDER, Some(path)) =>
      PathCount(path, e.sep);
      CreationStopsAt(s, PathsOf(path, e.sep), n, Getting(a, n).creates);
      FoldersAlike(s, t, e, PathsOf(path, e.sep), n);
    case _ =>
  }

  lemma {:induction false} FlagsOfCons(j: Job, jobs: seq<Job>)
    ensures FlagsOf([j] + jobs) == if IsMove(j.action) then FlagsOf(jobs) else [j] + FlagsOf(jobs)
  {
    assert ([j] + jobs)[0] == j && ([j] + jobs)[1..] == jobs;
  }

  lemma {:induction false} FitsTail(e: Setting, actions: seq<ParsedAction>, scripts: seq<ActionScript>)
    requires Fits(e, actions, scripts) && actions != []
    ensures Fits(e, actions[1..], scripts[1..]) && Covers(e, Job(actions[0], scripts[0]))
  {
    JobsTail(actions, scripts);
    var j, rest := Job(actions[0], scripts[0]), JobsOf(actions[1..], scripts[1..]);
    assert j in [j] + rest && forall k | k in rest :: k in [j] + rest;
  }

  lemma {:induction false} FlagsCons(s: Server, e: Setting, j: Job, rest: seq<Job>)
    requires Covers(e, j) && AllCovered(e, rest)
    ensures AllCovered(e, FlagsOf([j] + rest))
    ensures FlagsRun(s, e, FlagsOf([j] + rest)) == FlagsRun(if IsMove(j.action) then s else FlagStep(s, e, j), e, FlagsOf(rest))
  {
    FlagsOfCons(j, rest);
    if !IsMove(j.action) { FlagsRunFirst(s, e, j, FlagsOf(rest)); }
  }

  lemma {:induction false} FlagsRunCons(
      s: Server, e: Setting, actions: seq<ParsedAction>, scripts: seq<ActionScript>)
    requires Fits(e, actions, scripts) && actions != []
    ensures Fits(e, actions[1..], scripts[1..]) && Covers(e, Job(actions[0], scripts[0]))
    ensures BeforeMoves(s, e, actions, scripts)
      == BeforeMoves(if IsMove(actions[0]) then s else FlagStep(s, e, Job(actions[0], scripts[0])), e, actions[1..], scripts[1..])
  {
    FitsTail(e, actions, scripts);
    JobsTail(actions, scripts);
    FlagsCons(s, e, Job(actions[0], scripts[0]), JobsOf(actions[1..], scripts[1..]));
  }

  lemma {:induction false} LoopGets(
      s: Server, t: Server, e: Setting, actions: seq<ParsedAction>, scripts: seq<ActionScript>) returns (ns: seq<nat>)
    requires SameMoves(s, t, e) && Fits(e, actions, scripts)
    ensures |ns| == |actions| && SameMoves(BeforeMoves(s, e, actions, scripts), GotAll(t, e, actions, ns), e)
    decreases |actions|
  {
    ns := [];
    if actions != [] {
      FlagsRunCons(s, e, actions, scripts);
      var j, n := Job(actions[0], scripts[0]), 0;
      if !IsMove(actions[0]) { n := StepGets(s, t, e, j); }
      var more := LoopGets(if IsMove(actions[0]) then s else FlagStep(s, e, j), Got(t, e, actions[0], n), e,
        actions[1..], scripts[1..]);
      ns := [n] + more;
      assert ns[1..] == more;
    }
  }

  lemma {:induction false} LoopCanGet(s: Server, t: Server, e: Setting, actions: seq<ParsedAction>, ns: seq<nat>)
    returns (scripts: seq<ActionScript>)
    requires SameMoves(s, t, e) && |ns| == |actions|
    ensures Fits(e, actions, scripts) && SameMoves(BeforeMoves(s, e, actions, scripts), GotAll(t, e, actions, ns), e)
    decreases |actions|
  {
    scripts := [];
    if actions != [] {
      var first := Getting(actions[0], ns[0]);
      if !IsMove(actions[0]) { StepCanGet(s, t, e, actions[0], ns[0]); }
      var more := LoopCanGet(if IsMove(actions[0]) then s else FlagStep(s, e, Job(actions[0], first)),
        Got(t, e, actions[0], ns[0]), e, actions[1..], ns[1..]);
      scripts := [first] + more;
      assert scripts[1..] == more;
      JobsTail(actions, scripts);
      FlagsRunCons(s, e, actions, scripts);
    }
  }

  // ---- the exact conditions -----------------------------------------------------------------------

  /** The moves are unambiguous, however far the actions of the first loop get. */
  predicate UnambiguousAfter(s: Server, e: Setting, actions: seq<ParsedAction>, ns: seq<nat>)
    requires |ns| == |actions|
  {
    var t := GotAll(s, e, actions, ns);
    Has(t, e.src, e.uid) && Unambiguous(t, e, OnlyMoves(actions))
  }

  /** For every list of actions, on a message that is in its place and nowhere else before the first action: the outcome
      is true under all replies on which no move slips if and only if the moves are unambiguous, however many folders each
      creation makes and whichever labels named \Deleted are set. */
  lemma {:induction false} ExecutionIsTruthfulIff(s: Server, e: Setting, actions: seq<ParsedAction>, id: nat)
    requires Valid(s) && Holds(s, e.src, e.uid, id) && Only(s, e, id)
    ensures (forall scripts | Fits(e, actions, scripts) && !AnyMoveSlips(s, e, JobsOf(actions, scripts)) ::
        ExecutesTruly(s, e, actions, scripts, id))
      <==> (forall ns: seq<nat> | |ns| == |actions| :: UnambiguousAfter(s, e, actions, ns))
  {
    if ns: seq<nat> :| |ns| == |actions| && !UnambiguousAfter(s, e, actions, ns) {
      var scripts := LoopCanGet(s, s, e, actions, ns);
      SameMovesSameHits(BeforeMoves(s, e, actions, scripts), GotAll(s, e, actions, ns), e, OnlyMoves(actions));
      var worse := FalseFromAmbiguous(s, e, actions, scripts, id);
    } else {
      forall scripts | Fits(e, actions, scripts) && !AnyMoveSlips(s, e, JobsOf(actions, scripts))
        ensures ExecutesTruly(s, e, actions, scripts, id)
      {
        var ns := LoopGets(s, s, e, actions, scripts);
        assert UnambiguousAfter(s, e, actions, ns);
        SameMovesSameHits(BeforeMoves(s, e, actions, scripts), GotAll(s, e, actions, ns), e, OnlyMoves(actions));
        TrueFromUnambiguous(s, e, actions, scripts, id);
      }
    }
  }

  /** It is true under all replies whatsoever if and only if no move can ever find its folder. */
  lemma {:induction false} ExecutionIsAlwaysTruthfulIff(s: Server, e: Setting, actions: seq<ParsedAction>, id: nat)
    requires Valid(s) && Holds(s, e.src, e.uid, id)
    ensures (forall scripts | Fits(e, actions, scripts) :: ExecutesTruly(s, e, actions, scripts, id))
      <==> (forall ns: seq<nat> | |ns| == |actions| ::
        NoHitIn(GotAll(s, e, actions, ns), e, OnlyMoves(actions), 0, |OnlyMoves(actions)|))
  {
    var moves := OnlyMoves(actions);
    if ns: seq<nat> :| |ns| == |actions| && !NoHitIn(GotAll(s, e, actions, ns), e, moves, 0, |moves|) {
      var scripts := LoopCanGet(s, s, e, actions, ns);
      SameMovesSameHits(BeforeMoves(s, e, actions, scripts), GotAll(s, e, actions, ns), e, moves);
      var i: nat :| i < |moves| && MayHit(BeforeMoves(s, e, actions, scripts), e, moves, i);
      var worse := FalseFromHit(s, e, actions, scripts, i, id);
    } else {
      forall scripts | Fits(e, actions, scripts) ensures ExecutesTruly(s, e, actions, scripts, id) {
        var ns := LoopGets(s, s, e, actions, scripts);
        assert NoHitIn(GotAll(s, e, actions, ns), e, moves, 0, |moves|);
        SameMovesSameHits(BeforeMoves(s, e, actions, scripts), GotAll(s, e, actions, ns), e, moves);
        TrueWithoutHit(s, e, actions, scripts, id);
      }
    }
  }

  /** No folder is created and nothing is flagged \Deleted on the way. */
  predicate Plain(a: ParsedAction) {
    a.kind != CREATE_FOLDER && (IsLabel(a) ==> a.value != Some(DELETED))
  }

  lemma {:induction false} PlainGetsNowhere(s: Server, e: Setting, actions: seq<ParsedAction>, ns: seq<nat>)
    requires |ns| == |actions| && forall i | 0 <= i < |actions| :: Plain(actions[i])
    ensures GotAll(s, e, actions, ns) == s
    decreases |actions|
  {
    if actions != [] { PlainGetsNowhere(s, e, actions[1..], ns[1..]); }
  }

  /** For every list that creates no folder and applies no label named \Deleted, the condition is one on the server
      before the first action. */
  lemma {:induction false} PlainExecutionIsTruthfulIff(s: Server, e: Setting, actions: seq<ParsedAction>, id: nat)
    requires Valid(s) && Holds(s, e.src, e.uid, id) && Only(s, e, id)
    requires forall i | 0 <= i < |actions| :: Plain(actions[i])
    ensures (forall scripts | Fits(e, actions, scripts) && !AnyMoveSlips(s, e, JobsOf(actions, scripts)) ::
        ExecutesTruly(s, e, actions, scripts, id))
      <==> Unambiguous(s, e, OnlyMoves(actions))
  {
    ExecutionIsTruthfulIff(s, e, actions, id);
    forall ns: seq<nat> | |ns| == |actions|
      ensures UnambiguousAfter(s, e, actions, ns) <==> Unambiguous(s, e, OnlyMoves(actions))
    {
      PlainGetsNowhere(s, e, actions, ns);
    }
    var none: seq<nat> := seq(|actions|, _ => 0);
    assert |none| == |actions|;
  }

  /** Every folder is created and every label is set. */
  function Most(actions: seq<ParsedAction>): (r: seq<nat>)
    ensures |r| == |actions|
    ensures forall i | 0 <= i < |r| :: r[i] == if actions[i].value.Some? then |actions[i].value.value| + 1 else 1
  {
    seq(|actions|, i requires 0 <= i < |actions| => if actions[i].value.Some? then |actions[i].value.value| + 1 else 1)
  }

  predicate NoMoreMoves(s: Server, t: Server, e: Setting) {
    s.Keys <= t.Keys && Has(s, e.src, e.uid) && Has(t, e.src, e.uid) && (IsFlagged(s, e) ==> IsFlagged(t, e))
  }

  lemma GotIsMost(s: Server, t: Server, e: Setting, a: ParsedAction, n: nat, most: nat)
    requires NoMoreMoves(s, t, e) && most == if a.value.Some? then |a.value.value| + 1 else 1
    ensures NoMoreMoves(Got(s, e, a, n), Got(t, e, a, most), e)
  {
    if a.kind == CREATE_FOLDER && a.value.Some? {
      var paths := PathsOf(a.value.value, e.sep);
      PathCount(a.value.value, e.sep);
      FoldersMeans(s, paths, n);
      FoldersMeans(t, paths, most);
    }
  }

  lemma {:induction false} AllGotIsMost(s: Server, t: Server, e: Setting, actions: seq<ParsedAction>, ns: seq<nat>)
    requires NoMoreMoves(s, t, e) && |ns| == |actions|
    ensures NoMoreMoves(GotAll(s, e, actions, ns), GotAll(t, e, actions, Most(actions)), e)
    decreases |actions|
  {
    if actions != [] {
      GotIsMost(s, t, e, actions[0], ns[0], Most(actions)[0]);
      assert Most(actions)[1..] == Most(actions[1..]);
      AllGotIsMost(Got(s, e, actions[0], ns[0]), Got(t, e, actions[0], Most(actions)[0]), e, actions[1..], ns[1..]);
    }
  }

  predicate NoSpam(actions: seq<ParsedAction>) {
    forall i | 0 <= i < |actions| :: actions[i].kind != MOVE_TO_SPAM
  }

  lemma {:induction false} OnlyMovesNoSpam(actions: seq<ParsedAction>)
    requires NoSpam(actions)
    ensures NoSpam(OnlyMoves(actions))
  {
    if actions != [] { OnlyMovesNoSpam(actions[1..]); }
  }

  lemma {:induction false} MoreFoldersMoreHits(s: Server, t: Server, e: Setting, moves: seq<ParsedAction>)
    requires NoMoreMoves(s, t, e) && AllMoves(moves) && NoSpam(moves) && Unambiguous(t, e, moves)
    ensures Unambiguous(s, e, moves)
  {
    forall i: nat | i < |moves| && MayHit(s, e, moves, i) ensures MayHit(t, e, moves, i) {
    }
  }

  /** For every list without a move to spam, such as the one the smart-folder plugin prints, it is enough to look at the
      server with all folders created and all labels set. */
  lemma {:induction false} FolderListIsTruthfulIff(s: Server, e: Setting, actions: seq<ParsedAction>, id: nat)
    requires Valid(s) && Holds(s, e.src, e.uid, id) && Only(s, e, id) && NoSpam(actions)
    ensures (forall scripts | Fits(e, actions, scripts) && !AnyMoveSlips(s, e, JobsOf(actions, scripts)) ::
        ExecutesTruly(s, e, actions, scripts, id))
      <==> UnambiguousAfter(s, e, actions, Most(actions))
  {
    ExecutionIsTruthfulIff(s, e, actions, id);
    OnlyMovesNoSpam(actions);
    if UnambiguousAfter(s, e, actions, Most(actions)) {
      forall ns: seq<nat> | |ns| == |actions| ensures UnambiguousAfter(s, e, actions, ns) {
        AllGotIsMost(s, s, e, actions, ns);
        MoreFoldersMoreHits(GotAll(s, e, actions, ns), GotAll(s, e, actions, Most(actions)), e, OnlyMoves(actions));
      }
    }
  }

  // ---- two moves ---------------------------------------------------------------------------

  /** Once the first of two moves has really moved the message, a second move that the server answers OK overwrites the
      outcome with a folder that does not hold it. */
  lemma SecondMoveOverwrites(s: Server, e: Setting, first: Job, second: Job, id: nat)
    requires Covers(e, first) && Covers(e, second) && first.action.kind == MOVE_TO && second.action.kind == MOVE_TO
    requires !Skipped(e, first.action) && !Skipped(e, second.action)
    requires Valid(s) && Holds(s, e.src, e.uid, id)
    requires first.action.value != second.action.value && second.action.value.value in s
    requires forall u: nat :: !Holds(s, second.action.value.value, u, id)
    requires MoveRun(s, e.canMove, e.uid, first.action.value.value, e.src, first.script.mv).1.Returned?
    requires MoveRun(s, e.canMove, e.uid, first.action.value.value, e.src, first.script.mv).1.result.success
    requires !Has(MoveRun(s, e.canMove, e.uid, first.action.value.value, e.src, first.script.mv).0, e.src, e.uid)
    requires var sc := second.script.mv; sc.select.Ok? && sc.copy.Ok? && sc.store.Ok? && !sc.expunge.Raise?
    ensures var (t, out) := MovesRun(s, e, [first, second], NOT_MOVED);
      && out == MoveOutcome(second.action.value, None)
      && (forall u: nat :: !Holds(t, second.action.value.value, u, id))
  {
    var d1, d2 := first.action.value.value, second.action.value.value;
    var (s1, out1) := MoveStep(s, e, first, NOT_MOVED);
    assert s1 == MoveRun(s, e.canMove, e.uid, d1, e.src, first.script.mv).0;
    MoveStaysInTwoFolders(s, e.canMove, e.uid, d1, e.src, first.script.mv);
    assert forall u: nat :: Has(s1, d2, u) ==> Holds(s, d2, u, s1[d2].messages[u].id);
    AbsentMoveStillSucceeds(s1, e.canMove, e.uid, d2, e.src, second.script.mv);
    var (t, out) := MoveStep(s1, e, second, out1);
    assert [first, second][1..] == [second] && [second][1..] == [];
    assert MovesRun(s, e, [first, second], NOT_MOVED) == MovesRun(s1, e, [second], out1) == MovesRun(t, e, [], out);
  }

  const THE_MAIL := Message(7, {})

  /** One mail in INBOX, and two empty folders. */
  const BEFORE: Server :=
    map[INBOX := Mailbox(map[1 := THE_MAIL], 2), "Work" := Mailbox(map[], 1), "Home" := Mailbox(map[], 1)]

  const AFTERWARDS: Server :=
    map[INBOX := Mailbox(map[], 2), "Work" := Mailbox(map[1 := THE_MAIL], 2), "Home" := Mailbox(map[], 1)]

  function MoveJob(folder: string): Job {
    var a := ParsedAction(MOVE_TO, Some(folder), MOVE_TO_PREFIX + folder);
    Job(a, Willing(a, DONE))
  }

  lemma FirstToWork(e: Setting)
    requires e == Setting(1, INBOX, true, '/', e.upper) && e.upper("Work") != e.upper(INBOX)
    ensures Covers(e, MoveJob("Work"))
    ensures MoveStep(BEFORE, e, MoveJob("Work"), NOT_MOVED) == (AFTERWARDS, MoveOutcome(Some("Work"), Some(1)))
  {
    ContentsOne(BEFORE, INBOX, 1);
    DeliverOne(BEFORE["Work"], THE_MAIL);
    assert MoveEffect(BEFORE, INBOX, {1}, "Work") == AFTERWARDS;
  }

  lemma ThenNotHome(e: Setting)
    requires e == Setting(1, INBOX, true, '/', e.upper) && e.upper("Home") != e.upper(INBOX)
    ensures Covers(e, MoveJob("Home"))
    ensures MoveStep(AFTERWARDS, e, MoveJob("Home"), MoveOutcome(Some("Work"), Some(1)))
      == (AFTERWARDS, MoveOutcome(Some("Home"), None))
  {
    ContentsOne(AFTERWARDS, INBOX, 1);
    assert MoveEffect(AFTERWARDS, INBOX, {1}, "Home") == AFTERWARDS;
  }

  /** A run: a mail is moved to Work and then, as UID 1 is gone, not to Home; Home is reported. */
  lemma TwoMovesReportTheWrongFolder(upper: string -> string)
    requires upper("Work") != upper(INBOX) && upper("Home") != upper(INBOX)
    ensures var e := Setting(1, INBOX, true, '/', upper);
      var jobs := [MoveJob("Work"), MoveJob("Home")];
      && AreMoves(e, jobs)
      && MovesRun(BEFORE, e, jobs, NOT_MOVED) == (AFTERWARDS, MoveOutcome(Some("Home"), None))
      && !Truthful(AFTERWARDS, MoveOutcome(Some("Home"), None), e, THE_MAIL.id)
  {
    var e := Setting(1, INBOX, true, '/', upper);
    var jobs := [MoveJob("Work"), MoveJob("Home")];
    FirstToWork(e);
    ThenNotHome(e);
    assert jobs[1..] == [MoveJob("Home")] && jobs[1..][1..] == [];
    assert MovesRun(BEFORE, e, jobs, NOT_MOVED) == MovesRun(AFTERWARDS, e, jobs[1..], MoveOutcome(Some("Work"), Some(1)));
  }
}
