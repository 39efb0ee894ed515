/** Carrying out a list of action strings on one message (backend/app/services/imap_actions.py,
    with create_folder and resolve_folder of backend/app/services/mail.py). */
module ImapActions {
  import opened Prelude
  import opened Text
  import opened ImapServer
  import opened ImapMoves
  import opened ActionStrings

  // ---- folders -----------------------------------------------------------------------------

  /** The folder names create_folder tries: every ancestor path, then the path itself. */
  function Paths(parts: seq<string>, current: string, sep: char): seq<string> {
    if parts == [] then []
    else
      var next := if current != "" then current + [sep] + parts[0] else parts[0];
      [next] + Paths(parts[1..], next, sep)
  }

  /** CREATE of one folder, and whether the loop goes on: `Ok` creates it or says it exists already. */
  function CreateOne(s: Server, path: string, reply: Reply): (Server, bool) {
    (if path !in s && Takes(reply, true) then s[path := Mailbox(map[], 1)] else s, reply.Ok?)
  }

  function CreateRun(s: Server, paths: seq<string>, replies: seq<Reply>): (Server, bool)
    requires |paths| <= |replies|
    decreases |paths|
  {
    if paths == [] then (s, true)
    else
      var (s1, goOn) := CreateOne(s, paths[0], replies[0]);
      if goOn then CreateRun(s1, paths[1..], replies[1..]) else (s1, false)
  }

  /** Existing mailboxes are untouched and new ones are empty. */
  ghost predicate Grows(s: Server, t: Server) {
    && (forall f | f in s :: f in t && t[f] == s[f])
    && (forall f | f in t && f !in s :: t[f].messages == map[])
  }

  /** create_folder never touches a message; it creates nothing but the path and its ancestors, and it reports
      success only if all of them exist. */
  lemma {:induction false} CreateGrows(s: Server, paths: seq<string>, replies: seq<Reply>)
    requires |paths| <= |replies|
    ensures var (t, ok) := CreateRun(s, paths, replies);
      && Grows(s, t)
      && (forall f | f in t && f !in s :: f in paths)
      && (ok ==> forall p | p in paths :: p in t)
    decreases |paths|
  {
    if paths != [] {
      var (s1, goOn) := CreateOne(s, paths[0], replies[0]);
      CreateGrows(s1, paths[1..], replies[1..]);
    }
  }

  const SPAM_FOLDERS := ["Junk", "Spam", "INBOX.Junk", "INBOX.Spam"]

  function FirstExisting(s: Server, candidates: seq<string>): Option<string> {
    if candidates == [] then None
    else if candidates[0] in s then Some(candidates[0])
    else FirstExisting(s, candidates[1..])
  }

  // ---- one action --------------------------------------------------------------------------

  /** What the services answer while one action is carried out; `creates` must cover the path's parts. */
  datatype ActionScript = ActionScript(mv: MoveScript, list: Reply, creates: seq<Reply>)

  datatype Job = Job(action: ParsedAction, script: ActionScript)

  datatype MoveOutcome = MoveOutcome(folder: Option<string>, newUid: Option<nat>)

  const NOT_MOVED := MoveOutcome(None, None)

  /** What stays fixed while the actions of one message run.  `upper` is str.upper. */
  datatype Setting = Setting(uid: nat, src: string, canMove: bool, sep: char, upper: string -> string)

  predicate Covers(e: Setting, j: Job) {
    && |SPAM_FOLDERS[0]| < |j.script.creates|
    && (j.action.value.Some? ==> |j.action.value.value| < |j.script.creates|)
  }

  lemma {:induction false} SplitCount(s: string, sep: char)
    ensures |Split(s, sep)| <= |s| + 1
  {
    if s != "" { SplitCount(s[1..], sep); }
  }

  lemma {:induction false} PathsCount(parts: seq<string>, current: string, sep: char)
    ensures |Paths(parts, current, sep)| == |parts|
  {
    if parts != [] {
      PathsCount(parts[1..], if current != "" then current + [sep] + parts[0] else parts[0], sep);
    }
  }

  lemma PathCount(path: string, sep: char)
    ensures |Paths(Split(path, sep), "", sep)| <= |path| + 1
  {
    SplitCount(path, sep);
    PathsCount(Split(path, sep), "", sep);
  }

  function CreateFolderRun(s: Server, path: string, sep: char, replies: seq<Reply>): (Server, bool)
    requires |path| < |replies|
  {
    PathCount(path, sep);
    CreateRun(s, Paths(Split(path, sep), "", sep), replies)
  }

  /** The spam folder: the first known name that exists, else the first name, which is created if possible. */
  function ResolveSpam(s: Server, sep: char, replies: seq<Reply>): (Server, string)
    requires |SPAM_FOLDERS[0]| < |replies|
  {
    match FirstExisting(s, SPAM_FOLDERS)
    case Some(name) => (s, name)
    case None => (CreateFolderRun(s, SPAM_FOLDERS[0], sep, replies).0, SPAM_FOLDERS[0])
  }

  predicate IsMove(a: ParsedAction) {
    a.kind in {MOVE_TO, MOVE_TO_SPAM}
  }

  function StoreRun(s: Server, e: Setting, flag: string, sc: MoveScript): Server {
    if e.src in s && sc.select.Ok? && Takes(sc.store, true) then StoreEffect(s, e.src, {e.uid}, flag) else s
  }

  /** A label, flag or folder action; its failures are swallowed. */
  function FlagStep(s: Server, e: Setting, j: Job): Server
    requires Covers(e, j)
  {
    match (j.action.kind, j.action.value)
    case (MARK_AS_READ, _) => StoreRun(s, e, "\\Seen", j.script.mv)
    case (APPLY_LABEL, Some(flag)) => StoreRun(s, e, flag, j.script.mv)
    case (CREATE_AND_APPLY_LABEL, Some(flag)) => StoreRun(s, e, flag, j.script.mv)
    case (CREATE_FOLDER, Some(path)) => CreateFolderRun(s, path, e.sep, j.script.creates).0
    case _ => s
  }

  /** A move to the folder the message is in, up to case, is skipped. */
  predicate Skipped(e: Setting, a: ParsedAction) {
    a.kind == MOVE_TO && (a.value == None || (a.value.value != "" && e.upper(a.value.value) == e.upper(e.src)))
  }

  function MoveTo(s: Server, e: Setting, dst: string, sc: MoveScript, out: MoveOutcome): (Server, MoveOutcome) {
    var (t, end) := MoveRun(s, e.canMove, e.uid, dst, e.src, sc);
    (t, if end.Returned? && end.result.success then MoveOutcome(Some(dst), end.result.newUid) else out)
  }

  function MoveStep(s: Server, e: Setting, j: Job, out: MoveOutcome): (Server, MoveOutcome)
    requires IsMove(j.action) && Covers(e, j)
  {
    if Skipped(e, j.action) then (s, out)
    else if j.action.kind == MOVE_TO then MoveTo(s, e, j.action.value.value, j.script.mv, out)
    else if !j.script.list.Ok? then (s, out)
    else
      var (s1, dst) := ResolveSpam(s, e.sep, j.script.creates);
      MoveTo(s1, e, dst, j.script.mv, out)
  }

  // ---- the whole list ----------------------------------------------------------------------

  predicate AllCovered(e: Setting, jobs: seq<Job>) {
    forall j | j in jobs :: Covers(e, j)
  }

  function FlagsOf(jobs: seq<Job>): (r: seq<Job>)
    ensures forall j | j in r :: j in jobs && !IsMove(j.action)
  {
    if jobs == [] then []
    else (if IsMove(jobs[0].action) then [] else [jobs[0]]) + FlagsOf(jobs[1..])
  }

  function MovesOf(jobs: seq<Job>): (r: seq<Job>)
    ensures forall j | j in r :: j in jobs && IsMove(j.action)
  {
    if jobs == [] then []
    else (if IsMove(jobs[0].action) then [jobs[0]] else []) + MovesOf(jobs[1..])
  }

  function FlagsRun(s: Server, e: Setting, jobs: seq<Job>): Server
    requires AllCovered(e, jobs)
    decreases |jobs|
  {
    if jobs == [] then s else assert jobs[0] in jobs; FlagsRun(FlagStep(s, e, jobs[0]), e, jobs[1..])
  }

  function MovesRun(s: Server, e: Setting, jobs: seq<Job>, out: MoveOutcome): (Server, MoveOutcome)
    requires AllCovered(e, jobs) && forall j | j in jobs :: IsMove(j.action)
    decreases |jobs|
  {
    if jobs == [] then (s, out)
    else
      assert jobs[0] in jobs;
      var (s1, out1) := MoveStep(s, e, jobs[0], out);
      MovesRun(s1, e, jobs[1..], out1)
  }

  /** Labels, flags and folders first, moves last. */
  function ExecuteRun(s: Server, e: Setting, jobs: seq<Job>): (Server, MoveOutcome)
    requires AllCovered(e, jobs)
  {
    MovesRun(FlagsRun(s, e, FlagsOf(jobs)), e, MovesOf(jobs), NOT_MOVED)
  }

  lemma SplitFirst(jobs: seq<Job>, i: nat)
    requires i < |jobs|
    ensures FlagsOf(jobs[i..]) == if IsMove(jobs[i].action) then FlagsOf(jobs[i + 1..]) else [jobs[i]] + FlagsOf(jobs[i + 1..])
    ensures MovesOf(jobs[i..]) == if IsMove(jobs[i].action) then [jobs[i]] + MovesOf(jobs[i + 1..]) else MovesOf(jobs[i + 1..])
  {
    assert jobs[i..][0] == jobs[i] && jobs[i..][1..] == jobs[i + 1..];
  }

  lemma FlagsRunFirst(s: Server, e: Setting, j: Job, rest: seq<Job>)
    requires Covers(e, j) && AllCovered(e, rest)
    ensures AllCovered(e, [j] + rest)
    ensures FlagsRun(s, e, [j] + rest) == FlagsRun(FlagStep(s, e, j), e, rest)
  {
    assert ([j] + rest)[0] == j && ([j] + rest)[1..] == rest;
  }

  // ---- as methods --------------------------------------------------------------------------

  method CreateFolder(c: Connection, path: string, sep: char, replies: seq<Reply>) returns (ok: bool)
    requires |path| < |replies|
    modifies c`server
    ensures (c.server, ok) == CreateFolderRun(old(c.server), path, sep, replies)
  {
    var parts := Split(path, sep);
    var currentPath := "";
    PathCount(path, sep);
    PathsCount(parts, "", sep);
    for i := 0 to |parts|
      invariant |Paths(parts[i..], currentPath, sep)| <= |replies| - i
      invariant CreateRun(old(c.server), Paths(parts, "", sep), replies)
             == CreateRun(c.server, Paths(parts[i..], currentPath, sep), replies[i..])
    {
      assert parts[i..][0] == parts[i] && parts[i..][1..] == parts[i + 1..];
      assert replies[i..][0] == replies[i] && replies[i..][1..] == replies[i + 1..];
      if currentPath != "" {
        currentPath := currentPath + [sep] + parts[i];
      } else {
        currentPath := parts[i];
      }
      if currentPath !in c.server && Takes(replies[i], true) {
        c.server := c.server[currentPath := Mailbox(map[], 1)];
      }
      if !replies[i].Ok? { return false; }
    }
    return true;
  }

  method ResolveFolder(c: Connection, candidates: seq<string>, sep: char, replies: seq<Reply>) returns (name: string)
    requires candidates != [] && |candidates[0]| < |replies|
    modifies c`server
    ensures match FirstExisting(old(c.server), candidates)
            case Some(n) => name == n && c.server == old(c.server)
            case None => name == candidates[0] && c.server == CreateFolderRun(old(c.server), candidates[0], sep, replies).0
  {
    for i := 0 to |candidates|
      invariant c.server == old(c.server)
      invariant FirstExisting(c.server, candidates) == FirstExisting(c.server, candidates[i..])
    {
      if candidates[i] in c.server { return candidates[i]; }
    }
    var _ := CreateFolder(c, candidates[0], sep, replies);
    return candidates[0];
  }

  method StoreFlags(c: Connection, uid: nat, flag: string, src: string, sc: MoveScript) returns (ok: bool)
    modifies c
    ensures c.server == if src in old(c.server) && sc.select.Ok? && Takes(sc.store, true)
                        then StoreEffect(old(c.server), src, {uid}, flag) else old(c.server)
    ensures ok <==> src in old(c.server) && sc.select.Ok? && sc.store.Ok?
  {
    ok := c.Select(src, sc.select);
    if !ok { return; }
    var status := c.UidStore({uid}, flag, sc.store);
    ok := status == StatusOk;
  }

  method ApplyFlag(c: Connection, e: Setting, j: Job)
    requires Covers(e, j) && !IsMove(j.action)
    modifies c
    ensures c.server == FlagStep(old(c.server), e, j)
  {
    match (j.action.kind, j.action.value)
    case (MARK_AS_READ, _) => var _ := StoreFlags(c, e.uid, "\\Seen", e.src, j.script.mv);
    case (APPLY_LABEL, Some(flag)) => var _ := StoreFlags(c, e.uid, flag, e.src, j.script.mv);
    case (CREATE_AND_APPLY_LABEL, Some(flag)) => var _ := StoreFlags(c, e.uid, flag, e.src, j.script.mv);
    case (CREATE_FOLDER, Some(path)) => var _ := CreateFolder(c, path, e.sep, j.script.creates);
    case _ =>
  }

  method ApplyMove(c: Connection, e: Setting, j: Job, before: MoveOutcome) returns (out: MoveOutcome)
    requires Covers(e, j) && IsMove(j.action) && e.canMove == c.supportsMove
    modifies c
    ensures (c.server, out) == MoveStep(old(c.server), e, j, before)
  {
    out := before;
    if j.action.kind == MOVE_TO_SPAM {
      if j.script.list.Ok? {
        var dst := ResolveFolder(c, SPAM_FOLDERS, e.sep, j.script.creates);
        var end := c.MoveMessage(e.uid, dst, e.src, j.script.mv);
        if end.Returned? && end.result.success { out := MoveOutcome(Some(dst), end.result.newUid); }
      }
    } else if !Skipped(e, j.action) {
      var end := c.MoveMessage(e.uid, j.action.value.value, e.src, j.script.mv);
      if end.Returned? && end.result.success { out := MoveOutcome(j.action.value, end.result.newUid); }
    }
  }

  /** First loop: flags, labels and folders at once, moves put aside. */
  method ApplyFlags(c: Connection, e: Setting, jobs: seq<Job>) returns (moves: seq<Job>)
    requires AllCovered(e, jobs)
    modifies c
    ensures c.server == FlagsRun(old(c.server), e, FlagsOf(jobs)) && moves == MovesOf(jobs)
  {
    moves := [];
    for i := 0 to |jobs|
      invariant moves + MovesOf(jobs[i..]) == MovesOf(jobs)
      invariant FlagsRun(c.server, e, FlagsOf(jobs[i..])) == FlagsRun(old(c.server), e, FlagsOf(jobs))
    {
      SplitFirst(jobs, i);
      Reassociate(moves, jobs[i], MovesOf(jobs[i + 1..]));
      if IsMove(jobs[i].action) {
        moves := moves + [jobs[i]];
      } else {
        FlagsRunFirst(c.server, e, jobs[i], FlagsOf(jobs[i + 1..]));
        ApplyFlag(c, e, jobs[i]);
      }
    }
    assert jobs[|jobs|..] == [];
  }

  /** Second loop: the moves, in order. */
  method ApplyMoves(c: Connection, e: Setting, moves: seq<Job>) returns (out: MoveOutcome)
    requires AllCovered(e, moves) && (forall j | j in moves :: IsMove(j.action)) && e.canMove == c.supportsMove
    modifies c
    ensures (c.server, out) == MovesRun(old(c.server), e, moves, NOT_MOVED)
  {
    out := NOT_MOVED;
    for i := 0 to |moves|
      invariant forall j | j in moves[i..] :: j in moves
      invariant MovesRun(c.server, e, moves[i..], out) == MovesRun(old(c.server), e, moves, NOT_MOVED)
    {
      assert moves[i..][0] == moves[i] && moves[i..][1..] == moves[i + 1..];
      out := ApplyMove(c, e, moves[i], out);
    }
  }

  /** The result depends only on the list of non-moves in order and on the list of moves in order, however the two are
      interleaved. */
  method ExecuteJobs(c: Connection, e: Setting, jobs: seq<Job>) returns (out: MoveOutcome)
    requires AllCovered(e, jobs) && e.canMove == c.supportsMove
    modifies c
    ensures (c.server, out) == ExecuteRun(old(c.server), e, jobs)
  {
    var moves := ApplyFlags(c, e, jobs);
    out := ApplyMoves(c, e, moves);
  }
}
