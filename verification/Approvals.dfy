/** The approval endpoints and the transaction around each of them
    (backend/app/api/approvals.py, backend/app/core/database.py). */
module Approvals {
  import opened Prelude

  // ---- data --------------------------------------------------------------------------------

  datatype Status = PENDING | APPROVED | REJECTED | EXPIRED | MANUAL_INPUT

  datatype Row = Row(user: nat, mail: nat, functionType: string, status: Status,
                     resolvedAt: Option<int>, editedActions: Option<nat>, expiresAt: Option<int>)

  type Table = map<nat, Row>

  datatype Job = Execute(approval: nat) | Reprocess(mail: nat)

  datatype Http = Ok200 | NotFound404 | Conflict409 | Gone410 | Error500

  datatype Op = Approve | Reject | Edit(actions: nat) | Delete

  /** `enqueue` is the answer of the job queue, where No means that the job was there already;
      `commit` says whether the final commit succeeds. */
  datatype Request = Request(op: Op, id: nat, user: nat, now: int, enqueue: Reply, commit: bool)

  /** The committed table and everything ever put on the job queue, which is outside the transaction. */
  datatype State = State(rows: Table, jobs: seq<Job>)

  predicate Actionable(s: Status) {
    s == PENDING || s == MANUAL_INPUT
  }

  predicate PastExpiry(row: Row, now: int) {
    row.expiresAt.Some? && row.expiresAt.value < now
  }

  // ---- endpoint bodies, on the table of the session ------------------------------------------

  function Find(rows: Table, id: nat, user: nat): Option<Row> {
    if id in rows && rows[id].user == user then Some(rows[id]) else None
  }

  /** The table after the check and the status raised; Ok200 means the row is returned. */
  function GetPending(rows: Table, id: nat, user: nat, now: int): (Table, Http) {
    match Find(rows, id, user)
    case None => (rows, NotFound404)
    case Some(row) =>
      if !Actionable(row.status) then (rows, Conflict409)
      else if PastExpiry(row, now) then (rows[id := row.(status := EXPIRED, resolvedAt := Some(now))], Gone410)
      else (rows, Ok200)
  }

  function Queued(j: Job, reply: Reply): seq<Job> {
    if reply == Ok || reply == Raise(true) then [j] else []
  }

  predicate Wants(tracked: set<nat>, row: Row) {
    row.functionType == "spam_detection" && row.mail in tracked
  }

  /** Session table, new jobs and outcome of an endpoint. */
  function Body(tracked: set<nat>, rows: Table, r: Request): (Table, seq<Job>, Http) {
    if r.op == Delete then
      match Find(rows, r.id, r.user)
      case None => (rows, [], NotFound404)
      case Some(row) => if Actionable(row.status) then (rows, [], Conflict409) else (rows - {r.id}, [], Ok200)
    else
      var (t, http) := GetPending(rows, r.id, r.user, r.now);
      if http != Ok200 then (t, [], http)
      else
        var row := rows[r.id];
        var sent := if r.enqueue.Raise? then Error500 else Ok200;
        match r.op
        case Approve =>
          (t[r.id := row.(status := APPROVED, resolvedAt := Some(r.now))], Queued(Execute(r.id), r.enqueue), sent)
        case Reject =>
          var t1 := t[r.id := row.(status := REJECTED, resolvedAt := Some(r.now))];
          if Wants(tracked, row) then (t1, Queued(Reprocess(row.mail), r.enqueue), sent) else (t1, [], Ok200)
        case Edit(actions) => (t[r.id := row.(editedActions := Some(actions))], [], Ok200)
        case Delete => (t, [], Ok200)
  }

  /** The session commits when the endpoint returns and rolls back when it raises; the job queue does not. */
  function Serve(tracked: set<nat>, s: State, r: Request): (State, Http) {
    var (t, jobs, http) := Body(tracked, s.rows, r);
    if http == Ok200 && r.commit then (State(t, s.jobs + jobs), Ok200)
    else (State(s.rows, s.jobs + jobs), if http == Ok200 then Error500 else http)
  }

  // ---- as an object ------------------------------------------------------------------------

  class Api {
    var committed: Table
    var session: Table
    var jobs: seq<Job>
    const tracked: set<nat>

    constructor (rows: Table, tracked: set<nat>)
      ensures committed == rows && jobs == [] && this.tracked == tracked
    {
      this.committed, this.session, this.jobs, this.tracked := rows, rows, [], tracked;
    }

    method GetPendingOr404(id: nat, user: nat, now: int) returns (http: Http)
      modifies this`session
      ensures (session, http) == GetPending(old(session), id, user, now)
    {
      if id !in session || session[id].user != user { return NotFound404; }
      if !Actionable(session[id].status) { return Conflict409; }
      if session[id].expiresAt.Some? && session[id].expiresAt.value < now {
        session := session[id := session[id].(status := EXPIRED, resolvedAt := Some(now))];
        return Gone410;
      }
      return Ok200;
    }

    method Enqueue(j: Job, reply: Reply) returns (http: Http)
      modifies this`jobs
      ensures jobs == old(jobs) + Queued(j, reply) && http == if reply.Raise? then Error500 else Ok200
    {
      if reply == Ok || reply == Raise(true) { jobs := jobs + [j]; }
      http := if reply.Raise? then Error500 else Ok200;
    }

    /** The endpoint that the request names, up to the point where it returns or raises. */
    method Endpoint(r: Request) returns (http: Http)
      modifies this`session, this`jobs
      ensures var (t, js, h) := Body(tracked, old(session), r);
        session == t && jobs == old(jobs) + js && http == h
    {
      if r.op == Delete {
        if r.id !in session || session[r.id].user != r.user { return NotFound404; }
        if Actionable(session[r.id].status) { return Conflict409; }
        session := session - {r.id};
        return Ok200;
      }
      http := GetPendingOr404(r.id, r.user, r.now);
      if http != Ok200 { return; }
      match r.op
      case Approve =>
        session := session[r.id := session[r.id].(status := APPROVED, resolvedAt := Some(r.now))];
        http := Enqueue(Execute(r.id), r.enqueue);
      case Reject =>
        var row := session[r.id];
        session := session[r.id := row.(status := REJECTED, resolvedAt := Some(r.now))];
        if row.functionType == "spam_detection" && row.mail in tracked {
          http := Enqueue(Reprocess(row.mail), r.enqueue);
        }
      case Edit(actions) =>
        session := session[r.id := session[r.id].(editedActions := Some(actions))];
      case Delete =>
    }

    /** One request: a session on the committed table, then commit or rollback. */
    method Handle(r: Request) returns (http: Http)
      modifies this
      ensures (State(committed, jobs), http) == Serve(tracked, State(old(committed), old(jobs)), r)
    {
      session := committed;
      http := Endpoint(r);
      if http == Ok200 && r.commit {
        committed := session;
      } else {
        session := committed;
        if http == Ok200 { http := Error500; }
      }
    }
  }

  // ---- runs --------------------------------------------------------------------------------

  function After(tracked: set<nat>, s: State, rs: seq<Request>): State
    decreases |rs|
  {
    if rs == [] then s else After(tracked, Serve(tracked, s, rs[0]).0, rs[1..])
  }

  /** An execution job is enqueued only by an approval of a row of the caller that is actionable and not expired. */
  lemma OnlyActionableIsExecuted(tracked: set<nat>, s: State, r: Request, id: nat)
    ensures var t := Serve(tracked, s, r).0;
      && s.jobs <= t.jobs
      && (Execute(id) in t.jobs[|s.jobs|..] ==>
            && r.op == Approve && r.id == id && id in s.rows && s.rows[id].user == r.user
            && Actionable(s.rows[id].status) && !PastExpiry(s.rows[id], r.now))
  {
    var t := Serve(tracked, s, r).0;
    assert t.jobs[|s.jobs|..] == Body(tracked, s.rows, r).1;
  }

  /** A resolved row stays exactly as it is until it is deleted, and a deleted row does not come back. */
  lemma {:induction false} ResolvedRowsAreFrozen(tracked: set<nat>, s: State, rs: seq<Request>, id: nat)
    ensures var t := After(tracked, s, rs);
      && (id in s.rows && !Actionable(s.rows[id].status) && id in t.rows ==> t.rows[id] == s.rows[id])
      && (id !in s.rows ==> id !in t.rows)
    decreases |rs|
  {
    if rs != [] {
      ResolvedRowsAreFrozen(tracked, Serve(tracked, s, rs[0]).0, rs[1..], id);
    }
  }

  /** The status EXPIRED is written and always rolled back: no run of these endpoints makes a row EXPIRED. */
  lemma {:induction false} NothingBecomesExpired(tracked: set<nat>, s: State, rs: seq<Request>, id: nat)
    requires id in s.rows && s.rows[id].status != EXPIRED
    ensures var t := After(tracked, s, rs); id in t.rows ==> t.rows[id].status != EXPIRED
    decreases |rs|
  {
    if rs != [] {
      var t := Serve(tracked, s, rs[0]).0;
      if id in t.rows {
        NothingBecomesExpired(tracked, t, rs[1..], id);
      } else {
        ResolvedRowsAreFrozen(tracked, t, rs[1..], id);
      }
    }
  }

  ghost predicate NotBefore(rs: seq<Request>, now: int) {
    forall i | 0 <= i < |rs| :: now <= rs[i].now
  }

  /** An approval past its expiry is stuck: whatever is requested from then on, its row never changes, cannot be
      deleted, and is never executed. */
  lemma {:induction false} ExpiredIsStuck(tracked: set<nat>, s: State, rs: seq<Request>, id: nat, now: int)
    requires id in s.rows && Actionable(s.rows[id].status) && PastExpiry(s.rows[id], now) && NotBefore(rs, now)
    ensures var t := After(tracked, s, rs);
      && id in t.rows && t.rows[id] == s.rows[id]
      && s.jobs <= t.jobs && Execute(id) !in t.jobs[|s.jobs|..]
    decreases |rs|
  {
    if rs != [] {
      var t := Serve(tracked, s, rs[0]).0;
      OnlyActionableIsExecuted(tracked, s, rs[0], id);
      ExpiredIsStuck(tracked, t, rs[1..], id, now);
      var u := After(tracked, t, rs[1..]);
      assert u.jobs[|s.jobs|..] == t.jobs[|s.jobs|..] + u.jobs[|t.jobs|..];
    }
  }

  // ---- jobs against rows ---------------------------------------------------------------------

  function Count(jobs: seq<Job>, j: Job): nat {
    multiset(jobs)[j]
  }

  /** Every execution job belongs to a row that is approved, or was and has been deleted; at most one per approval. */
  ghost predicate Agrees(s: State) {
    && (forall id | Execute(id) in s.jobs && id in s.rows :: s.rows[id].status == APPROVED)
    && (forall id :: Count(s.jobs, Execute(id)) <= 1)
  }

  /** Nothing fails between the queue taking a job and the end of the commit. */
  predicate Clean(r: Request) {
    r.commit && r.enqueue != Raise(true)
  }

  /** The request approves a row of the caller that is actionable and not expired. */
  predicate Approves(s: State, r: Request) {
    && r.op == Approve && r.id in s.rows && s.rows[r.id].user == r.user
    && Actionable(s.rows[r.id].status) && !PastExpiry(s.rows[r.id], r.now)
  }

  /** ... its job is on the queue, and the transaction is lost. */
  predicate LosesApproval(s: State, r: Request) {
    Approves(s, r) && (r.enqueue == Raise(true) || (r.enqueue == Ok && !r.commit))
  }

  lemma ServeJobs(tracked: set<nat>, s: State, r: Request, id: nat)
    ensures var u, jobs := Serve(tracked, s, r).0, Body(tracked, s.rows, r).1;
      && (Execute(id) in u.jobs <==> Execute(id) in s.jobs || Execute(id) in jobs)
      && Count(u.jobs, Execute(id)) == Count(s.jobs, Execute(id)) + Count(jobs, Execute(id))
      && (Execute(id) in jobs ==> Approves(s, r) && r.id == id && jobs == [Execute(id)])
  {
    var u, jobs := Serve(tracked, s, r).0, Body(tracked, s.rows, r).1;
    assert multiset(u.jobs) == multiset(s.jobs) + multiset(jobs);
  }

  lemma StepAgreesOn(tracked: set<nat>, s: State, r: Request, id: nat)
    requires Agrees(s) && !LosesApproval(s, r)
    ensures var u := Serve(tracked, s, r).0;
      && (Execute(id) in u.jobs && id in u.rows ==> u.rows[id].status == APPROVED)
      && Count(u.jobs, Execute(id)) <= 1
  {
    ServeJobs(tracked, s, r, id);
    if Approves(s, r) && r.id == id { assert Execute(id) !in s.jobs; }
  }

  /** A request breaks the agreement exactly when it is an approval whose job is on the queue and whose transaction is
      lost. */
  lemma StepAgreesIff(tracked: set<nat>, s: State, r: Request)
    requires Agrees(s)
    ensures Agrees(Serve(tracked, s, r).0) <==> !LosesApproval(s, r)
  {
    var u := Serve(tracked, s, r).0;
    if LosesApproval(s, r) {
      ServeJobs(tracked, s, r, r.id);
      assert Execute(r.id) in u.jobs && u.rows == s.rows;
    } else {
      forall id
        ensures Execute(id) in u.jobs && id in u.rows ==> u.rows[id].status == APPROVED
        ensures Count(u.jobs, Execute(id)) <= 1
      {
        StepAgreesOn(tracked, s, r, id);
      }
    }
  }

  /** Over any run of clean requests jobs and rows agree, and no approval is executed twice. */
  lemma {:induction false} CleanRunsAgree(tracked: set<nat>, s: State, rs: seq<Request>)
    requires Agrees(s) && forall i | 0 <= i < |rs| :: Clean(rs[i])
    ensures Agrees(After(tracked, s, rs))
    decreases |rs|
  {
    if rs != [] {
      StepAgreesIff(tracked, s, rs[0]);
      CleanRunsAgree(tracked, Serve(tracked, s, rs[0]).0, rs[1..]);
    }
  }

  /** Then the approval can still be rejected while its actions are queued for execution. */
  lemma LostCommitExecutesRejected(tracked: set<nat>, s: State, approve: Request, reject: Request)
    requires approve.op == Approve && approve.id in s.rows && s.rows[approve.id].user == approve.user
    requires Actionable(s.rows[approve.id].status) && !PastExpiry(s.rows[approve.id], reject.now) && approve.now <= reject.now
    requires approve.enqueue == Ok && !approve.commit
    requires reject.op == Reject && reject.id == approve.id && reject.user == approve.user
    requires reject.commit && !reject.enqueue.Raise?
    ensures var t := After(tracked, s, [approve, reject]);
      approve.id in t.rows && t.rows[approve.id].status == REJECTED && Execute(approve.id) in t.jobs
  {
    var s1 := Serve(tracked, s, approve).0;
    assert s1 == State(s.rows, s.jobs + [Execute(approve.id)]);
    assert [approve, reject][1..] == [reject] && [reject][1..] == [];
    var s2 := Serve(tracked, s1, reject).0;
    assert s1.jobs <= s2.jobs && Execute(approve.id) in s1.jobs;
    assert After(tracked, s, [approve, reject]) == After(tracked, s1, [reject]) == s2;
  }
}
