/** The life of one approval over any run of requests (backend/app/api/approvals.py). */
module ApprovalRuns {
  import opened Prelude
  import opened Approvals

  // ---- what a request means for a row that can be acted on ------------------------------------------

  /** The request is the owner's, in time, and its transaction commits if nothing is raised. */
  predicate Reaches(row: Row, id: nat, r: Request) {
    r.id == id && r.user == row.user && r.commit && !(row.expiresAt.Some? && row.expiresAt.value < r.now)
  }

  predicate Edits(row: Row, id: nat, r: Request) {
    Reaches(row, id, r) && r.op.Edit?
  }

  /** A rejection that puts the mail back into the pipeline. */
  predicate Requeues(tracked: set<nat>, row: Row) {
    row.functionType == "spam_detection" && row.mail in tracked
  }

  /** Approvals, and rejections that have to, are lost if the queue raises. */
  predicate Resolves(tracked: set<nat>, row: Row, id: nat, r: Request) {
    && Reaches(row, id, r)
    && ((r.op.Approve? && !r.enqueue.Raise?) || (r.op.Reject? && !(Requeues(tracked, row) && r.enqueue.Raise?)))
  }

  /** The actions of the last edit among the first n requests, or the row's own. */
  function LastEdit(row: Row, id: nat, rs: seq<Request>, n: nat): Option<nat>
    requires n <= |rs|
  {
    if n == 0 then row.editedActions
    else if Edits(row, id, rs[n - 1]) then Some(rs[n - 1].op.actions)
    else LastEdit(row, id, rs, n - 1)
  }

  predicate Unresolved(tracked: set<nat>, row: Row, id: nat, rs: seq<Request>, n: nat)
    requires n <= |rs|
  {
    forall k | 0 <= k < n :: !Resolves(tracked, row, id, rs[k])
  }

  /** The row as it was resolved by request k. */
  function ResolvedBy(row: Row, id: nat, rs: seq<Request>, k: nat): Row
    requires k < |rs|
  {
    row.(editedActions := LastEdit(row, id, rs, k), resolvedAt := Some(rs[k].now),
         status := if rs[k].op.Approve? then APPROVED else REJECTED)
  }

  lemma {:induction false} AfterLast(tracked: set<nat>, s: State, rs: seq<Request>, n: nat)
    requires n < |rs|
    ensures After(tracked, s, rs[..n + 1]) == Serve(tracked, After(tracked, s, rs[..n]), rs[n]).0
    decreases n
  {
    if n == 0 {
      assert rs[..1][0] == rs[0] && rs[..1][1..] == [] && rs[..0] == [];
    } else {
      AfterLast(tracked, Serve(tracked, s, rs[0]).0, rs[1..], n - 1);
      assert rs[..n + 1][1..] == rs[1..][..n] && rs[..n][1..] == rs[1..][..n - 1];
    }
  }

  lemma ServeActionable(tracked: set<nat>, s: State, r: Request, id: nat, row: Row)
    requires id in s.rows && Actionable(s.rows[id].status)
    requires row == s.rows[id].(editedActions := row.editedActions)
    ensures var t := Serve(tracked, s, r).0;
      && id in t.rows
      && t.rows[id] ==
           if Edits(row, id, r) then s.rows[id].(editedActions := Some(r.op.actions))
           else if Resolves(tracked, row, id, r) then
             s.rows[id].(resolvedAt := Some(r.now), status := if r.op.Approve? then APPROVED else REJECTED)
           else s.rows[id]
  {
  }

  /** Until it is resolved an approval only changes by its owner's edits that are committed in time: it carries the actions
      of the last of them. */
  lemma {:induction false} CarriesLastEdit(tracked: set<nat>, s: State, rs: seq<Request>, n: nat, id: nat)
    requires n <= |rs| && id in s.rows && Actionable(s.rows[id].status)
    requires Unresolved(tracked, s.rows[id], id, rs, n)
    ensures var t := After(tracked, s, rs[..n]);
      id in t.rows && t.rows[id] == s.rows[id].(editedActions := LastEdit(s.rows[id], id, rs, n))
  {
    if n == 0 {
      assert rs[..0] == [];
    } else {
      CarriesLastEdit(tracked, s, rs, n - 1, id);
      AfterLast(tracked, s, rs, n - 1);
      ServeActionable(tracked, After(tracked, s, rs[..n - 1]), rs[n - 1], id, s.rows[id]);
    }
  }

  lemma {:induction false} AfterSplit(tracked: set<nat>, s: State, rs: seq<Request>, n: nat)
    requires n <= |rs|
    ensures After(tracked, s, rs) == After(tracked, After(tracked, s, rs[..n]), rs[n..])
    decreases n
  {
    if n == 0 {
      assert rs[..0] == [] && rs[0..] == rs;
    } else {
      AfterSplit(tracked, Serve(tracked, s, rs[0]).0, rs[1..], n - 1);
      assert rs[..n][1..] == rs[1..][..n - 1] && rs[1..][n - 1..] == rs[n..];
    }
  }

  /** The first request that resolves it decides: from then on it is approved or rejected, with the time of that request
      and the actions edited before, until it is deleted. */
  lemma FirstResolutionDecides(tracked: set<nat>, s: State, rs: seq<Request>, k: nat, id: nat)
    requires k < |rs| && id in s.rows && Actionable(s.rows[id].status)
    requires Unresolved(tracked, s.rows[id], id, rs, k) && Resolves(tracked, s.rows[id], id, rs[k])
    ensures var t := After(tracked, s, rs); id in t.rows ==> t.rows[id] == ResolvedBy(s.rows[id], id, rs, k)
  {
    CarriesLastEdit(tracked, s, rs, k, id);
    AfterLast(tracked, s, rs, k);
    ServeActionable(tracked, After(tracked, s, rs[..k]), rs[k], id, s.rows[id]);
    var u := After(tracked, s, rs[..k + 1]);
    AfterSplit(tracked, s, rs, k + 1);
    ResolvedRowsAreFrozen(tracked, u, rs[k + 1..], id);
  }

  lemma {:induction false} FirstResolution(tracked: set<nat>, row: Row, id: nat, rs: seq<Request>, n: nat) returns (k: nat)
    requires n <= |rs| && !Unresolved(tracked, row, id, rs, n)
    ensures k < n && Unresolved(tracked, row, id, rs, k) && Resolves(tracked, row, id, rs[k])
  {
    if Unresolved(tracked, row, id, rs, n - 1) {
      k := n - 1;
    } else {
      k := FirstResolution(tracked, row, id, rs, n - 1);
    }
  }

  /** An approval that was ever actionable is, over any run: as edited last, as first resolved, or deleted after that. */
  lemma ApprovalLives(tracked: set<nat>, s: State, rs: seq<Request>, id: nat)
    requires id in s.rows && Actionable(s.rows[id].status)
    ensures var t, row := After(tracked, s, rs), s.rows[id];
      if Unresolved(tracked, row, id, rs, |rs|) then
        id in t.rows && t.rows[id] == row.(editedActions := LastEdit(row, id, rs, |rs|))
      else
        exists k: nat | k < |rs| && Unresolved(tracked, row, id, rs, k) && Resolves(tracked, row, id, rs[k]) ::
          id in t.rows ==> t.rows[id] == ResolvedBy(row, id, rs, k)
  {
    var row := s.rows[id];
    if Unresolved(tracked, row, id, rs, |rs|) {
      CarriesLastEdit(tracked, s, rs, |rs|, id);
      assert rs[..|rs|] == rs;
    } else {
      var k := FirstResolution(tracked, row, id, rs, |rs|);
      FirstResolutionDecides(tracked, s, rs, k, id);
    }
  }

  /** A mail goes back into the pipeline exactly when its spam verdict is rejected in time by the owner, the mail is
      tracked, and the queue takes the job; a commit that fails then does not take it back. */
  lemma ReprocessedIff(tracked: set<nat>, s: State, r: Request, mail: nat)
    ensures var t := Serve(tracked, s, r).0;
      && s.jobs <= t.jobs
      && (Reprocess(mail) in t.jobs[|s.jobs|..] <==>
            && r.op.Reject? && r.id in s.rows && s.rows[r.id].user == r.user
            && (s.rows[r.id].status == PENDING || s.rows[r.id].status == MANUAL_INPUT)
            && !(s.rows[r.id].expiresAt.Some? && s.rows[r.id].expiresAt.value < r.now)
            && s.rows[r.id].functionType == "spam_detection" && s.rows[r.id].mail == mail && mail in tracked
            && (r.enqueue == Ok || r.enqueue == Raise(true)))
  {
    var t, jobs := Serve(tracked, s, r).0, Body(tracked, s.rows, r).1;
    assert t.jobs[|s.jobs|..] == jobs;
  }

  /** A row goes by its owner's deletion alone, once it can no longer be acted on and if the commit works. */
  lemma GoneIff(tracked: set<nat>, s: State, r: Request, id: nat)
    requires id in s.rows
    ensures id !in Serve(tracked, s, r).0.rows <==>
      && r.op.Delete? && r.id == id && r.user == s.rows[id].user && r.commit
      && s.rows[id].status != PENDING && s.rows[id].status != MANUAL_INPUT
  {
  }

  /** What the caller is told: 404 for rows that are not there or not the caller's, 409 for a status that does not allow the
      request, 410 past the expiry, 500 if the queue or the commit fails, and 200 otherwise. */
  lemma AnswerIs(tracked: set<nat>, s: State, r: Request)
    ensures Serve(tracked, s, r).1 ==
      if r.id !in s.rows || s.rows[r.id].user != r.user then NotFound404
      else
        var row := s.rows[r.id];
        var open := row.status == PENDING || row.status == MANUAL_INPUT;
        if open == r.op.Delete? then Conflict409
        else if open && row.expiresAt.Some? && row.expiresAt.value < r.now then Gone410
        else if r.enqueue.Raise? && (r.op.Approve? || (r.op.Reject? && Requeues(tracked, row))) then Error500
        else if !r.commit then Error500
        else Ok200
  {
  }
}
