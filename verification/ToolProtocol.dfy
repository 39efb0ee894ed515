/** What holds of every run of the tool-calling loop, whatever the model, the tools and the validator do. */
module ToolProtocol {
  import opened Prelude
  import opened ToolLoop

  // ---- the protocol, independently of the loop -----------------------------------------------

  /** The arguments as they parse, and no arguments if they do not. */
  function Arguments<V(!new)>(w: World<V>, c: ToolCall): Json {
    var parsed := w.parse(c.args);
    if parsed.Some? then parsed.value else Object(map[])
  }

  /** What the validator says of the data, cut to the schema. */
  ghost predicate Judged<V(!new)>(w: World<V>, data: Json, check: Check<V>) {
    exists cut :: Cut(w.schema, data, cut) && w.validate(cut) == check
  }

  predicate Submits(c: ToolCall) {
    c.name == "submit_result"
  }

  /** The answer to call k of iteration i: what the tool returned for the arguments of the call, or that the submission
      was turned down. */
  ghost predicate RightAnswer<V(!new)>(w: World<V>, i: nat, k: nat, c: ToolCall, content: string) {
    if Submits(c) then
      && Judged(w, Arguments(w, c), Invalid)
      && content == "Validation failed. Please call submit_result again with corrected values."
    else w.tool(i, k, c.name, Arguments(w, c)) == Text(content)
  }

  /** The tool messages answer a prefix of calls k, k+1, ... of iteration i, in order and once each; the prefix is the
      whole list unless its last call is a rejected submission, and no other call in it is a submission. */
  ghost predicate Answers<V(!new)>(w: World<V>, i: nat, k: nat, calls: seq<ToolCall>, tools: seq<Message>) {
    && |tools| <= |calls|
    && (forall j | 0 <= j < |tools| ::
          tools[j].Tool? && tools[j].callId == calls[j].id && RightAnswer(w, i, k + j, calls[j], tools[j].content))
    && (forall j | 0 <= j < |tools| && Submits(calls[j]) :: j == |tools| - 1)
    && (|tools| < |calls| ==> tools != [] && Submits(calls[|tools| - 1]))
  }

  const PLEASE_SUBMIT := "Please submit your final result using the submit_result tool. Do not respond with plain text."

  /** After the prompts: assistant messages, each followed by its answers or, without tool calls, by a reminder. */
  ghost predicate WellFormed<V(!new)>(w: World<V>, ms: seq<Message>)
    decreases |ms|, 1
  {
    if ms == [] then true
    else if !ms[0].Assistant? then false
    else if ms[0].calls == [] then |ms| >= 2 && ms[1] == User(PLEASE_SUBMIT) && WellFormed(w, ms[2..])
    else exists i, n: nat :: Block(w, ms, i, n)
  }

  /** An assistant message of iteration i with n answers, and a well-formed rest. */
  ghost predicate Block<V(!new)>(w: World<V>, ms: seq<Message>, i: nat, n: nat)
    decreases |ms|, 0
  {
    && n < |ms| && ms[0].Assistant?
    && Answers(w, i, 0, ms[0].calls, ms[1..1 + n])
    && WellFormed(w, ms[1 + n..])
  }

  ghost predicate Sound<V(!new)>(w: World<V>, ms: seq<Message>) {
    |ms| >= 2 && ms[0].System? && ms[1].User? && WellFormed(w, ms[2..])
  }

  /** What is asked in the iteration behind i: the same, the reply that came, and its answers or a reminder. */
  ghost predicate GoesOn<V(!new)>(w: World<V>, i: nat, r: LlmReply, more: seq<Message>) {
    && more != [] && more[0] == Assistant(r.content, r.calls)
    && if r.calls != [] then Answers(w, i, 0, r.calls, more[1..]) else more[1..] == [User(PLEASE_SUBMIT)]
  }

  ghost predicate Follows<V(!new)>(w: World<V>, i: nat, request: seq<Message>, next: seq<Message>) {
    && w.llm(i, request).Answered? && request <= next
    && GoesOn(w, i, w.llm(i, request).reply, next[|request|..])
  }

  // ---- how a turn ends -----------------------------------------------------------------------

  /** No call before k is a submission, and all their tools returned. */
  ghost predicate Returned<V(!new)>(w: World<V>, i: nat, calls: seq<ToolCall>, k: nat)
    requires k <= |calls|
  {
    forall j | 0 <= j < k :: !Submits(calls[j]) && w.tool(i, j, calls[j].name, Arguments(w, calls[j])).Text?
  }

  /** The first submission, or the content if nothing is called, is judged so. */
  ghost predicate Comes<V(!new)>(w: World<V>, i: nat, r: LlmReply, check: Check<V>) {
    if r.calls != [] then
      exists k | 0 <= k < |r.calls| ::
        Returned(w, i, r.calls, k) && Submits(r.calls[k]) && Judged(w, Arguments(w, r.calls[k]), check)
    else
      !w.blank(r.content) && w.parseContent(r.content).Valid? && Judged(w, w.parseContent(r.content).v, check)
  }

  /** A tool, the validator or the parser of the content raises f. */
  ghost predicate Raises<V(!new)>(w: World<V>, i: nat, r: LlmReply, f: Failure) {
    || Comes(w, i, r, Broken(f))
    || (exists k | 0 <= k < |r.calls| ::
          && Returned(w, i, r.calls, k) && !Submits(r.calls[k])
          && w.tool(i, k, r.calls[k].name, Arguments(w, r.calls[k])) == ToolRaised(f))
    || (r.calls == [] && !w.blank(r.content) && w.parseContent(r.content) == Broken(f))
  }

  /** The calls that are dispatched when nothing raises: those before the first submission. */
  function ToolNames(calls: seq<ToolCall>): seq<string> {
    if calls == [] || Submits(calls[0]) then [] else [calls[0].name] + ToolNames(calls[1..])
  }

  function UsageOf<V(!new)>(w: World<V>, i: nat, request: seq<Message>): nat {
    var a := w.llm(i, request);
    if a.Answered? && a.reply.usage.Some? then a.reply.usage.value else 0
  }

  function CallsOf<V(!new)>(w: World<V>, i: nat, request: seq<Message>): seq<ToolCall> {
    match w.llm(i, request)
    case Answered(r) => r.calls
    case LlmRaised(_) => []
  }

  function TotalUsage<V(!new)>(w: World<V>, i: nat, log: seq<seq<Message>>): nat
    decreases |log|
  {
    if log == [] then 0 else UsageOf(w, i, log[0]) + TotalUsage(w, i + 1, log[1..])
  }

  function AllTools<V(!new)>(w: World<V>, i: nat, log: seq<seq<Message>>): seq<string>
    decreases |log|
  {
    if log == [] then [] else ToolNames(CallsOf(w, i, log[0])) + AllTools(w, i + 1, log[1..])
  }

  // ---- one turn ----------------------------------------------------------------------------

  lemma JudgedIff<V(!new)>(w: World<V>, data: Json, check: Check<V>)
    ensures Judged(w, data, check) <==> w.validate(Truncate(data, w.schema)) == check
  {
    CutIsDetermined(w.schema, data, Truncate(data, w.schema));
    if cut :| Cut(w.schema, data, cut) && w.validate(cut) == check { CutIsDetermined(w.schema, data, cut); }
  }

  lemma SubmittedIff<V(!new)>(w: World<V>, c: ToolCall, check: Check<V>)
    ensures Judged(w, Arguments(w, c), check) <==> Submitted(w, c) == check
  {
    JudgedIff(w, Arguments(w, c), check);
  }

  lemma ConsAnswers<V(!new)>(w: World<V>, i: nat, k: nat, c: ToolCall, calls: seq<ToolCall>, s: string, tools: seq<Message>)
    requires !Submits(c) && RightAnswer(w, i, k, c, s) && Answers(w, i, k + 1, calls, tools)
    ensures Answers(w, i, k, [c] + calls, [Tool(c.id, s)] + tools)
  {
    var cs, ts := [c] + calls, [Tool(c.id, s)] + tools;
    forall j | 0 <= j < |ts|
      ensures ts[j].Tool? && ts[j].callId == cs[j].id && RightAnswer(w, i, k + j, cs[j], ts[j].content)
      ensures Submits(cs[j]) ==> j == |ts| - 1
    {
      if j > 0 { assert ts[j] == tools[j - 1] && cs[j] == calls[j - 1]; }
    }
  }

  /** The end of answering calls k, k+1, ... when those before k have returned. */
  ghost predicate EndsAs<V(!new)>(w: World<V>, i: nat, r: LlmReply, end: TurnEnd<V>) {
    && (forall v :: end == Done(v) <==> Comes(w, i, r, Valid(v)))
    && (forall f :: end == Failed(f) <==> Raises(w, i, r, f))
  }

  ghost predicate AnsweredFrom<V(!new)>(w: World<V>, i: nat, calls: seq<ToolCall>, k: nat)
    requires k <= |calls|
  {
    var (ms, used, end) := AnswerCalls(w, i, calls, k);
    && (end == Continue ==> Answers(w, i, k, calls[k..], ms))
    && (!end.Failed? ==> used == ToolNames(calls[k..]))
  }

  lemma {:induction false} SubmissionAnswers<V(!new)>(w: World<V>, i: nat, calls: seq<ToolCall>, k: nat)
    requires k < |calls| && Submits(calls[k])
    ensures AnsweredFrom(w, i, calls, k)
  {
    assert calls[k..][0] == calls[k];
    SubmittedIff(w, calls[k], Invalid);
  }

  lemma {:induction false} ToolAnswers<V(!new)>(w: World<V>, i: nat, calls: seq<ToolCall>, k: nat)
    requires k < |calls| && !Submits(calls[k]) && AnsweredFrom(w, i, calls, k + 1)
    ensures AnsweredFrom(w, i, calls, k)
  {
    assert calls[k..] == [calls[k]] + calls[k + 1..] && calls[k..][1..] == calls[k + 1..];
    var (ms, used, end) := AnswerCalls(w, i, calls, k + 1);
    var answer := w.tool(i, k, calls[k].name, Arguments(w, calls[k]));
    if answer.Text? && end == Continue {
      ConsAnswers(w, i, k, calls[k], calls[k + 1..], answer.s, ms);
    }
  }

  lemma {:induction false} AnswerCallsAnswers<V(!new)>(w: World<V>, i: nat, calls: seq<ToolCall>, k: nat)
    requires k <= |calls|
    ensures AnsweredFrom(w, i, calls, k)
    decreases |calls| - k
  {
    if k < |calls| {
      if Submits(calls[k]) {
        SubmissionAnswers(w, i, calls, k);
      } else {
        AnswerCallsAnswers(w, i, calls, k + 1);
        ToolAnswers(w, i, calls, k);
      }
    }
  }

  /** At the first call that is a submission or does not return, the turn ends. */
  ghost predicate StopsAt<V(!new)>(w: World<V>, i: nat, calls: seq<ToolCall>, k: nat)
    requires k < |calls|
  {
    && Returned(w, i, calls, k)
    && (Submits(calls[k]) || w.tool(i, k, calls[k].name, Arguments(w, calls[k])).ToolRaised?)
  }

  lemma {:induction false} EndAtStop<V(!new)>(w: World<V>, i: nat, calls: seq<ToolCall>, k: nat, j: nat)
    requires j <= k < |calls| && StopsAt(w, i, calls, k)
    ensures AnswerCalls(w, i, calls, j).2 ==
      if !Submits(calls[k]) then Failed(w.tool(i, k, calls[k].name, Arguments(w, calls[k])).failure)
      else
        match Submitted(w, calls[k])
        case Valid(v) => Done(v)
        case Invalid => Continue
        case Broken(f) => Failed(f)
    decreases k - j
  {
    if j < k { EndAtStop(w, i, calls, k, j + 1); }
  }

  lemma {:induction false} FindStop<V(!new)>(w: World<V>, i: nat, calls: seq<ToolCall>, j: nat) returns (k: nat)
    requires j <= |calls| && Returned(w, i, calls, j)
    ensures k <= |calls| && (k < |calls| ==> StopsAt(w, i, calls, k))
    ensures k == |calls| ==> Returned(w, i, calls, k) && AnswerCalls(w, i, calls, j).2 == Continue
    decreases |calls| - j
  {
    if j < |calls| && !StopsAt(w, i, calls, j) {
      k := FindStop(w, i, calls, j + 1);
    } else {
      k := j;
    }
  }

  lemma StopIs<V(!new)>(w: World<V>, i: nat, calls: seq<ToolCall>, k: nat, j: nat)
    requires j < |calls| && StopsAt(w, i, calls, j)
    requires k <= |calls| && if k < |calls| then StopsAt(w, i, calls, k) else Returned(w, i, calls, k)
    ensures j == k
  {
  }

  lemma CallsEnd<V(!new)>(w: World<V>, i: nat, r: LlmReply)
    requires r.calls != []
    ensures EndsAs(w, i, r, AnswerCalls(w, i, r.calls, 0).2)
  {
    var calls := r.calls;
    var k := FindStop(w, i, calls, 0);
    forall check ensures Comes(w, i, r, check) <==> k < |calls| && Submits(calls[k]) && Submitted(w, calls[k]) == check {
      if k < |calls| { SubmittedIff(w, calls[k], check); }
      if j :| 0 <= j < |calls| && Returned(w, i, calls, j) && Submits(calls[j]) && Judged(w, Arguments(w, calls[j]), check) {
        StopIs(w, i, calls, k, j);
      }
    }
    forall f
      ensures Raises(w, i, r, f) <==>
        && k < |calls|
        && if Submits(calls[k]) then Submitted(w, calls[k]) == Broken(f)
           else w.tool(i, k, calls[k].name, Arguments(w, calls[k])) == ToolRaised(f)
    {
      if j :| 0 <= j < |calls| && Returned(w, i, calls, j) && !Submits(calls[j])
              && w.tool(i, j, calls[j].name, Arguments(w, calls[j])) == ToolRaised(f) {
        StopIs(w, i, calls, k, j);
      }
    }
    if k < |calls| { EndAtStop(w, i, calls, k, 0); }
  }

  lemma ContentEnds<V(!new)>(w: World<V>, i: nat, r: LlmReply)
    requires r.calls == []
    ensures EndsAs(w, i, r, AnswerContent(w, r.content).1)
  {
    var parsed := w.parseContent(r.content);
    if parsed.Valid? {
      forall check ensures Judged(w, parsed.v, check) <==> w.validate(Truncate(parsed.v, w.schema)) == check {
        JudgedIff(w, parsed.v, check);
      }
    }
  }

  /** A turn ends with a value exactly if its first submission, behind tools that returned, or its content is judged valid,
      and with an exception exactly if one of these raises it. */
  lemma TurnEndsAs<V(!new)>(w: World<V>, i: nat, r: LlmReply)
    ensures EndsAs(w, i, r, Turn(w, i, r).2)
  {
    if r.calls != [] { CallsEnd(w, i, r); } else { ContentEnds(w, i, r); }
  }

  lemma TurnGoesOn<V(!new)>(w: World<V>, i: nat, r: LlmReply)
    ensures var (ms, used, end) := Turn(w, i, r);
      && (end == Continue ==> GoesOn(w, i, r, ms))
      && (!end.Failed? ==> used == ToolNames(r.calls))
  {
    if r.calls != [] {
      assert r.calls[0..] == r.calls;
      AnswerCallsAnswers(w, i, r.calls, 0);
      var (tools, used, end) := AnswerCalls(w, i, r.calls, 0);
      assert ([Assistant(r.content, r.calls)] + tools)[1..] == tools;
    } else {
      assert [Assistant(r.content, []), User(PLEASE_SUBMIT)][1..] == [User(PLEASE_SUBMIT)];
    }
  }

  lemma BlockIsWellFormed<V(!new)>(w: World<V>, i: nat, head: Message, tools: seq<Message>, rest: seq<Message>)
    requires head.Assistant? && head.calls != [] && Answers(w, i, 0, head.calls, tools) && WellFormed(w, rest)
    ensures WellFormed(w, [head] + tools + rest)
  {
    var ms := [head] + tools + rest;
    assert ms[1..1 + |tools|] == tools && ms[1 + |tools|..] == rest;
    assert Block(w, ms, i, |tools|);
  }

  lemma ReminderIsWellFormed<V(!new)>(w: World<V>, more: seq<Message>)
    requires more != [] && more[0].Assistant? && more[0].calls == [] && more[1..] == [User(PLEASE_SUBMIT)]
    ensures WellFormed(w, more)
  {
    assert more[1] == more[1..][0] && |more| == 2;
    assert more[2..] == [];
  }

  lemma TurnIsWellFormed<V(!new)>(w: World<V>, i: nat, r: LlmReply, more: seq<Message>)
    requires GoesOn(w, i, r, more)
    ensures WellFormed(w, more)
  {
    if r.calls != [] {
      BlockIsWellFormed(w, i, more[0], more[1..], []);
      assert [more[0]] + more[1..] + [] == more;
    } else {
      ReminderIsWellFormed(w, more);
    }
  }

  lemma ReminderAppend<V(!new)>(w: World<V>, a: seq<Message>, b: seq<Message>)
    requires |a| >= 2 && a[0].Assistant? && a[0].calls == [] && a[1] == User(PLEASE_SUBMIT) && WellFormed(w, a[2..] + b)
    ensures WellFormed(w, a + b)
  {
    assert (a + b)[2..] == a[2..] + b;
  }

  lemma SplitBehindHead(a: seq<Message>, b: seq<Message>, n: nat)
    requires n < |a|
    ensures [a[0]] + a[1..1 + n] + (a[1 + n..] + b) == a + b
  {
  }

  lemma {:induction false} WellFormedAppend<V(!new)>(w: World<V>, a: seq<Message>, b: seq<Message>)
    requires WellFormed(w, a) && WellFormed(w, b)
    ensures WellFormed(w, a + b)
    decreases |a|
  {
    if a == [] {
      assert a + b == b;
    } else if a[0].calls == [] {
      WellFormedAppend(w, a[2..], b);
      ReminderAppend(w, a, b);
    } else {
      var i: nat, n: nat :| Block(w, a, i, n);
      WellFormedAppend(w, a[1 + n..], b);
      BlockIsWellFormed(w, i, a[0], a[1..1 + n], a[1 + n..] + b);
      SplitBehindHead(a, b, n);
    }
  }

  // ---- whole runs --------------------------------------------------------------------------

  lemma Continued<V(!new)>(w: World<V>, ms: seq<Message>, more: seq<Message>)
    requires Sound(w, ms) && WellFormed(w, more)
    ensures Sound(w, ms + more) && (ms + more)[|ms|..] == more
  {
    assert (ms + more)[2..] == ms[2..] + more;
    WellFormedAppend(w, ms[2..], more);
  }

  lemma SoundTurn<V(!new)>(w: World<V>, ms: seq<Message>, i: nat, r: LlmReply)
    requires Sound(w, ms) && w.llm(i, ms) == Answered(r) && Turn(w, i, r).2 == Continue
    ensures Sound(w, ms + Turn(w, i, r).0) && Follows(w, i, ms, ms + Turn(w, i, r).0)
  {
    var more := Turn(w, i, r).0;
    TurnGoesOn(w, i, r);
    TurnIsWellFormed(w, i, r, more);
    Continued(w, ms, more);
  }

  /** The requests of a run: sound lists, each of which is the one before with the reply and its answers. */
  ghost predicate AllSound<V(!new)>(w: World<V>, i: nat, log: seq<seq<Message>>) {
    && (forall k | 0 <= k < |log| :: Sound(w, log[k]))
    && (forall k | 0 < k < |log| :: Follows(w, i + k - 1, log[k - 1], log[k]))
  }

  lemma ConsSound<V(!new)>(w: World<V>, i: nat, ms: seq<Message>, log: seq<seq<Message>>)
    requires Sound(w, ms) && AllSound(w, i + 1, log) && (log != [] ==> Follows(w, i, ms, log[0]))
    ensures AllSound(w, i, [ms] + log)
  {
    var all := [ms] + log;
    forall k | 0 < k < |all| ensures Follows(w, i + k - 1, all[k - 1], all[k]) {
      if k > 1 { assert all[k - 1] == log[k - 2] && all[k] == log[k - 1]; }
    }
  }

  /** The model is asked at most max times, each time with a sound list that goes on from the one before; the loop gives up
      only after exactly max questions. */
  lemma {:induction false} EveryRequestIsSound<V(!new)>(
      w: World<V>, ms: seq<Message>, i: nat, max: nat, tokens: nat, used: seq<string>)
    requires Sound(w, ms) && i <= max
    ensures var (end, log) := Run(w, ms, i, max, tokens, used);
      && |log| <= max - i
      && (end.Exhausted? ==> |log| == max - i)
      && (log != [] ==> log[0] == ms)
      && AllSound(w, i, log)
    decreases max - i
  {
    if i < max && w.llm(i, ms).Answered? {
      var r := w.llm(i, ms).reply;
      var (more, tools, e) := Turn(w, i, r);
      if e == Continue {
        SoundTurn(w, ms, i, r);
        EveryRequestIsSound(w, ms + more, i + 1, max, tokens + Tokens(r), used + tools);
        ConsSound(w, i, ms, Run(w, ms + more, i + 1, max, tokens + Tokens(r), used + tools).1);
      }
    }
  }

  /** An exception of the model, a tool, the validator or the parser. */
  ghost predicate Thrown<V(!new)>(w: World<V>, i: nat, request: seq<Message>, f: Failure) {
    match w.llm(i, request)
    case LlmRaised(g) => g == f
    case Answered(r) => Raises(w, i, r, f)
  }

  ghost predicate FailsAs<V(!new)>(w: World<V>, i: nat, request: seq<Message>, end: End<V>) {
    exists f :: Thrown(w, i, request, f) && end == if f.permanent && !f.transient then Permanent else Transient
  }

  ghost predicate Undecided<V(!new)>(w: World<V>, i: nat, request: seq<Message>) {
    && w.llm(i, request).Answered?
    && (forall v :: !Comes(w, i, w.llm(i, request).reply, Valid(v)))
    && (forall f :: !Raises(w, i, w.llm(i, request).reply, f))
  }

  ghost predicate AllUndecided<V(!new)>(w: World<V>, i: nat, log: seq<seq<Message>>) {
    forall k | 0 <= k < |log| :: Undecided(w, i + k, log[k])
  }

  /** What is counted so far, and the run from here on. */
  ghost predicate Accounted<V(!new)>(
      w: World<V>, i: nat, tokens: nat, used: seq<string>, end: End<V>, log: seq<seq<Message>>)
  {
    && end.Result?
    && end.tokens == tokens + TotalUsage(w, i, log)
    && end.toolsUsed == used + AllTools(w, i, log)
  }

  /** How an iteration ends a run, if nothing is counted. */
  ghost predicate EndsIn<V(!new)>(w: World<V>, i: nat, request: seq<Message>, end: End<V>) {
    match end
    case Result(v, _, _) => w.llm(i, request).Answered? && Comes(w, i, w.llm(i, request).reply, Valid(v))
    case Exhausted => false
    case _ => FailsAs(w, i, request, end)
  }

  /** How the run ends: in the last iteration a value came or something was raised, or all iterations are used up; in the
      others the model's reply decided nothing. */
  ghost predicate EndsRightly<V(!new)>(
      w: World<V>, i: nat, max: nat, tokens: nat, used: seq<string>, end: End<V>, log: seq<seq<Message>>)
  {
    && (end.Exhausted? ==> i + |log| == max && AllUndecided(w, i, log))
    && (!end.Exhausted? ==>
          && log != [] && AllUndecided(w, i, log[..|log| - 1])
          && EndsIn(w, i + |log| - 1, log[|log| - 1], end))
    && (end.Result? ==> Accounted(w, i, tokens, used, end, log))
  }

  lemma AccountedStep<V(!new)>(
      w: World<V>, ms: seq<Message>, i: nat, r: LlmReply, tokens: nat, used: seq<string>, end: End<V>, log: seq<seq<Message>>)
    requires w.llm(i, ms) == Answered(r)
    requires Accounted(w, i + 1, tokens + Tokens(r), used + ToolNames(r.calls), end, log)
    ensures Accounted(w, i, tokens, used, end, [ms] + log)
  {
    assert ([ms] + log)[1..] == log;
  }

  lemma AccountedEnd<V(!new)>(w: World<V>, ms: seq<Message>, i: nat, r: LlmReply, tokens: nat, used: seq<string>, v: V)
    requires w.llm(i, ms) == Answered(r)
    ensures Accounted(w, i, tokens, used, Result(v, tokens + Tokens(r), used + ToolNames(r.calls)), [ms])
  {
    assert [ms][1..] == [] && ToolNames(r.calls) + [] == ToolNames(r.calls);
  }

  lemma RunContinues<V(!new)>(w: World<V>, ms: seq<Message>, i: nat, max: nat, tokens: nat, used: seq<string>, r: LlmReply)
    requires i < max && w.llm(i, ms) == Answered(r) && Turn(w, i, r).2 == Continue
    ensures var (more, tools, _) := Turn(w, i, r);
      var (end, log) := Run(w, ms + more, i + 1, max, tokens + Tokens(r), used + tools);
      Run(w, ms, i, max, tokens, used) == (end, [ms] + log)
  {
  }

  lemma ConsUndecided<V(!new)>(w: World<V>, i: nat, ms: seq<Message>, log: seq<seq<Message>>)
    requires Undecided(w, i, ms) && AllUndecided(w, i + 1, log)
    ensures AllUndecided(w, i, [ms] + log)
  {
    var all := [ms] + log;
    forall k | 0 <= k < |all| ensures Undecided(w, i + k, all[k]) {
      if k > 0 { assert all[k] == log[k - 1] && Undecided(w, i + 1 + (k - 1), log[k - 1]); }
    }
  }

  lemma EndsRightlyStep<V(!new)>(
      w: World<V>, ms: seq<Message>, i: nat, max: nat, tokens: nat, used: seq<string>, r: LlmReply, end: End<V>,
      log: seq<seq<Message>>)
    requires w.llm(i, ms) == Answered(r) && Undecided(w, i, ms)
    requires EndsRightly(w, i + 1, max, tokens + Tokens(r), used + ToolNames(r.calls), end, log)
    ensures EndsRightly(w, i, max, tokens, used, end, [ms] + log)
  {
    var all := [ms] + log;
    if end.Exhausted? {
      ConsUndecided(w, i, ms, log);
    } else {
      ConsUndecided(w, i, ms, log[..|log| - 1]);
      assert all[..|all| - 1] == [ms] + log[..|log| - 1] && all[|all| - 1] == log[|log| - 1];
    }
    if end.Result? { AccountedStep(w, ms, i, r, tokens, used, end, log); }
  }

  lemma TurnDecidesNothing<V(!new)>(w: World<V>, ms: seq<Message>, i: nat, r: LlmReply)
    requires w.llm(i, ms) == Answered(r) && Turn(w, i, r).2 == Continue
    ensures Undecided(w, i, ms)
  {
    TurnEndsAs(w, i, r);
  }

  lemma EndsAtOnce<V(!new)>(w: World<V>, ms: seq<Message>, i: nat, max: nat, tokens: nat, used: seq<string>)
    requires i < max && (w.llm(i, ms).Answered? ==> Turn(w, i, w.llm(i, ms).reply).2 != Continue)
    ensures var (end, log) := Run(w, ms, i, max, tokens, used);
      EndsRightly(w, i, max, tokens, used, end, log)
  {
    assert [ms][..0] == [];
    match w.llm(i, ms)
    case LlmRaised(f) => assert Thrown(w, i, ms, f);
    case Answered(r) =>
      TurnGoesOn(w, i, r);
      TurnEndsAs(w, i, r);
      match Turn(w, i, r).2
      case Failed(f) => assert Thrown(w, i, ms, f);
      case Done(v) => AccountedEnd(w, ms, i, r, tokens, used, v);
  }

  /** Every run ends rightly; a result carries the sum of all usages and exactly the tools dispatched, in order. */
  lemma {:induction false} ResultIsAccounted<V(!new)>(
      w: World<V>, ms: seq<Message>, i: nat, max: nat, tokens: nat, used: seq<string>)
    requires i <= max
    ensures var (end, log) := Run(w, ms, i, max, tokens, used);
      EndsRightly(w, i, max, tokens, used, end, log)
    decreases max - i
  {
    if i < max {
      if w.llm(i, ms).Answered? && Turn(w, i, w.llm(i, ms).reply).2 == Continue {
        var r := w.llm(i, ms).reply;
        var (more, tools, e) := Turn(w, i, r);
        ResultIsAccounted(w, ms + more, i + 1, max, tokens + Tokens(r), used + tools);
        RunContinues(w, ms, i, max, tokens, used, r);
        TurnGoesOn(w, i, r);
        TurnDecidesNothing(w, ms, i, r);
        var (end, log) := Run(w, ms + more, i + 1, max, tokens + Tokens(r), used + tools);
        EndsRightlyStep(w, ms, i, max, tokens, used, r, end, log);
      } else {
        EndsAtOnce(w, ms, i, max, tokens, used);
      }
    }
  }

  /** Every call of the loop, from the two prompts on. */
  lemma LoopKeepsTheProtocol<V(!new)>(w: World<V>, systemPrompt: string, userPrompt: string, max: nat)
    ensures var (end, log) := Run(w, [System(systemPrompt), User(userPrompt)], 0, max, 0, []);
      && |log| <= max
      && (log != [] ==> log[0] == [System(systemPrompt), User(userPrompt)])
      && AllSound(w, 0, log)
      && EndsRightly(w, 0, max, 0, [], end, log)
  {
    var start := [System(systemPrompt), User(userPrompt)];
    assert start[2..] == [];
    EveryRequestIsSound(w, start, 0, max, 0, []);
    ResultIsAccounted(w, start, 0, max, 0, []);
  }
}
