/** The tool-calling loop around a language model (backend/app/services/ai.py). */
module ToolLoop {
  import opened Prelude

  // ---- data --------------------------------------------------------------------------------

  datatype ToolCall = ToolCall(id: string, name: string, args: string)

  datatype Message =
    | System(content: string)
    | User(content: string)
    | Assistant(content: string, calls: seq<ToolCall>)
    | Tool(callId: string, content: string)

  const SUBMIT := "submit_result"
  const REJECTION := "Validation failed. Please call submit_result again with corrected values."
  const REMINDER := "Please submit your final result using the submit_result tool. Do not respond with plain text."

  /** Parsed arguments: an object whose fields are strings or something else, or no object at all. */
  datatype Field = Str(s: string) | OtherField(id: nat)
  datatype Json = Object(fields: map<string, Field>) | NoObject(id: nat)

  /** The schema's properties with their maxLength, if any. */
  type Schema = seq<(string, Option<nat>)>

  /** How an exception is classified. */
  datatype Failure = Failure(transient: bool, permanent: bool)

  datatype LlmReply = LlmReply(content: string, calls: seq<ToolCall>, usage: Option<nat>)
  datatype LlmEnd = Answered(reply: LlmReply) | LlmRaised(failure: Failure)
  datatype ToolEnd = Text(s: string) | ToolRaised(failure: Failure)

  /** Validation: a value, a rejection, or an exception of another kind. */
  datatype Check<V> = Valid(v: V) | Invalid | Broken(failure: Failure)

  /** Everything outside the loop, as arbitrary functions: the model is asked in iteration i with the messages so
      far, tools are run for call k of iteration i. */
  datatype World<V> = World(
    llm: (nat, seq<Message>) -> LlmEnd,
    tool: (nat, nat, string, Json) -> ToolEnd,
    parse: string -> Option<Json>,
    schema: Schema,
    validate: Json -> Check<V>,
    blank: string -> bool,
    parseContent: string -> Check<Json>)

  datatype End<V> = Result(v: V, tokens: nat, toolsUsed: seq<string>) | Transient | Permanent | Exhausted

  function Raise<V>(f: Failure): End<V> {
    if f.transient then Transient else if f.permanent then Permanent else Transient
  }

  // ---- truncation --------------------------------------------------------------------------

  function TruncateField(f: Field, max: nat): Field {
    if f.Str? && |f.s| > max then Str(f.s[..max]) else f
  }

  /** Properties in schema order; a maxLength of zero counts as none. */
  function TruncateFields(fields: map<string, Field>, schema: Schema): map<string, Field> {
    if schema == [] then fields
    else
      var (name, max) := schema[0];
      TruncateFields(
        if name in fields && max.Some? && max.value != 0 then fields[name := TruncateField(fields[name], max.value)] else fields,
        schema[1..])
  }

  function Truncate(data: Json, schema: Schema): Json {
    if data.Object? then Object(TruncateFields(data.fields, schema)) else data
  }

  method TruncateToSchema(data: map<string, Field>, schema: Schema) returns (r: map<string, Field>)
    ensures r == TruncateFields(data, schema)
  {
    r := data;
    for i := 0 to |schema|
      invariant TruncateFields(r, schema[i..]) == TruncateFields(data, schema)
    {
      var (name, max) := schema[i];
      assert schema[i..][0] == schema[i] && schema[i..][1..] == schema[i + 1..];
      if name !in r { continue; }
      if max.Some? && max.value != 0 && r[name].Str? && |r[name].s| > max.value {
        r := r[name := Str(r[name].s[..max.value])];
      } else {
        assert r[name := r[name]] == r;
      }
    }
  }

  /** The limits of a property; a limit of zero counts as none. */
  ghost predicate HasLimit(schema: Schema, name: string, n: nat) {
    n > 0 && exists p | p in schema :: p.0 == name && p.1 == Some(n)
  }

  /** A string fits its limits and is a prefix of what it was, cut to a limit if it was cut at all. */
  ghost predicate FieldCut(schema: Schema, name: string, f: Field, g: Field) {
    if f.OtherField? then g == f
    else
      && g.Str? && g.s <= f.s
      && (forall n | HasLimit(schema, name, n) :: |g.s| <= n)
      && (g == f || HasLimit(schema, name, |g.s|))
  }

  ghost predicate FieldsCut(schema: Schema, fields: map<string, Field>, cut: map<string, Field>) {
    cut.Keys == fields.Keys && forall n | n in fields :: FieldCut(schema, n, fields[n], cut[n])
  }

  /** What the truncation of data to the schema has to be. */
  ghost predicate Cut(schema: Schema, data: Json, cut: Json) {
    if data.Object? then cut.Object? && FieldsCut(schema, data.fields, cut.fields) else cut == data
  }

  lemma LimitsOfCons(name: string, max: Option<nat>, rest: Schema, n: string, k: nat)
    ensures HasLimit([(name, max)] + rest, n, k) <==> (k > 0 && n == name && max == Some(k)) || HasLimit(rest, n, k)
  {
    var schema := [(name, max)] + rest;
    assert schema[0] == (name, max);
    assert forall p :: p in schema <==> p == (name, max) || p in rest;
  }

  /** One property cuts its own field. */
  lemma CutOnce(name: string, max: Option<nat>, rest: Schema, f: Field, g: Field)
    requires var once := if max.Some? && max.value != 0 then TruncateField(f, max.value) else f;
      FieldCut(rest, name, once, g)
    ensures FieldCut([(name, max)] + rest, name, f, g)
  {
    forall k: nat ensures HasLimit([(name, max)] + rest, name, k) <==> (k > 0 && max == Some(k)) || HasLimit(rest, name, k) {
      LimitsOfCons(name, max, rest, name, k);
    }
  }

  lemma CutNot(name: string, max: Option<nat>, rest: Schema, n: string, f: Field, g: Field)
    requires n != name && FieldCut(rest, n, f, g)
    ensures FieldCut([(name, max)] + rest, n, f, g)
  {
    forall k: nat ensures HasLimit([(name, max)] + rest, n, k) <==> HasLimit(rest, n, k) {
      LimitsOfCons(name, max, rest, n, k);
    }
  }

  /** Truncation keeps the fields, cuts strings only at the end, leaves no field over its limits, and cuts no further. */
  lemma {:induction false} TruncationFits(fields: map<string, Field>, schema: Schema)
    ensures FieldsCut(schema, fields, TruncateFields(fields, schema))
    decreases |schema|
  {
    if schema != [] {
      var (name, max) := schema[0];
      var once := if name in fields && max.Some? && max.value != 0
                  then fields[name := TruncateField(fields[name], max.value)] else fields;
      TruncationFits(once, schema[1..]);
      var r := TruncateFields(fields, schema);
      assert schema == [(name, max)] + schema[1..];
      forall n | n in fields ensures FieldCut(schema, n, fields[n], r[n]) {
        if n == name { CutOnce(name, max, schema[1..], fields[n], r[n]); } else { CutNot(name, max, schema[1..], n, fields[n], r[n]); }
      }
    }
  }

  lemma FieldCutIsDetermined(schema: Schema, name: string, f: Field, g: Field, h: Field)
    requires FieldCut(schema, name, f, g) && FieldCut(schema, name, f, h)
    ensures g == h
  {
    if f.Str? {
      assert |g.s| == |h.s|;
      assert f.s[..|g.s|] == g.s && f.s[..|h.s|] == h.s;
    }
  }

  /** There is one way to do so. */
  lemma CutIsDetermined(schema: Schema, data: Json, cut: Json)
    ensures Cut(schema, data, cut) <==> cut == Truncate(data, schema)
  {
    if data.Object? {
      TruncationFits(data.fields, schema);
      var r := TruncateFields(data.fields, schema);
      if Cut(schema, data, cut) {
        forall n | n in data.fields ensures cut.fields[n] == r[n] {
          FieldCutIsDetermined(schema, n, data.fields[n], cut.fields[n], r[n]);
        }
        assert cut.fields == r;
      }
    }
  }

  // ---- one reply ---------------------------------------------------------------------------

  datatype TurnEnd<V> = Continue | Done(v: V) | Failed(failure: Failure)

  function Args<V>(w: World<V>, c: ToolCall): Json {
    match w.parse(c.args)
    case Some(j) => j
    case None => Object(map[])
  }

  function Submitted<V>(w: World<V>, c: ToolCall): Check<V> {
    w.validate(Truncate(Args(w, c), w.schema))
  }

  /** The tool messages, the tools dispatched and the end of answering calls k, k+1, ... of iteration i. */
  function AnswerCalls<V>(w: World<V>, i: nat, calls: seq<ToolCall>, k: nat): (seq<Message>, seq<string>, TurnEnd<V>)
    requires k <= |calls|
    decreases |calls| - k
  {
    if k == |calls| then ([], [], Continue)
    else
      var c := calls[k];
      if c.name == SUBMIT then
        match Submitted(w, c)
        case Valid(v) => ([], [], Done(v))
        case Invalid => ([Tool(c.id, REJECTION)], [], Continue)
        case Broken(f) => ([], [], Failed(f))
      else
        match w.tool(i, k, c.name, Args(w, c))
        case ToolRaised(f) => ([], [c.name], Failed(f))
        case Text(s) =>
          var (ms, used, end) := AnswerCalls(w, i, calls, k + 1);
          ([Tool(c.id, s)] + ms, [c.name] + used, end)
  }

  /** A reply without tool calls: its content may be the result itself. */
  function AnswerContent<V>(w: World<V>, content: string): (seq<Message>, TurnEnd<V>) {
    var again := [Assistant(content, []), User(REMINDER)];
    if w.blank(content) then (again, Continue)
    else
      match w.parseContent(content)
      case Broken(f) => ([], Failed(f))
      case Invalid => (again, Continue)
      case Valid(j) =>
        match w.validate(Truncate(j, w.schema))
        case Valid(v) => ([], Done(v))
        case Invalid => (again, Continue)
        case Broken(f) => ([], Failed(f))
  }

  function Turn<V>(w: World<V>, i: nat, r: LlmReply): (seq<Message>, seq<string>, TurnEnd<V>) {
    if r.calls != [] then
      var (ms, used, end) := AnswerCalls(w, i, r.calls, 0);
      ([Assistant(r.content, r.calls)] + ms, used, end)
    else
      var (ms, end) := AnswerContent(w, r.content);
      (ms, [], end)
  }

  function Tokens(r: LlmReply): nat {
    match r.usage
    case Some(n) => n
    case None => 0
  }

  // ---- the loop ----------------------------------------------------------------------------

  /** The end and, in order, the message lists the model was asked with, from iteration i on. */
  function Run<V>(w: World<V>, ms: seq<Message>, i: nat, max: nat, tokens: nat, used: seq<string>)
    : (End<V>, seq<seq<Message>>)
    decreases max - i
  {
    if i >= max then (Exhausted, [])
    else
      match w.llm(i, ms)
      case LlmRaised(f) => (Raise(f), [ms])
      case Answered(r) =>
        var (more, tools, end) := Turn(w, i, r);
        match end
        case Failed(f) => (Raise(f), [ms])
        case Done(v) => (Result(v, tokens + Tokens(r), used + tools), [ms])
        case Continue =>
          var (e, log) := Run(w, ms + more, i + 1, max, tokens + Tokens(r), used + tools);
          (e, [ms] + log)
  }

  /** A log whose first entry is moved to the end of what was logged before. */
  lemma LogGoesOn<T>(before: seq<T>, x: T, log: seq<T>)
    ensures log != [] && log[0] == x ==> (before + [x]) + log[1..] == before + log
  {
  }

  /** The loop over the tool calls of one reply, stopped by a rejected submission. */
  method AnswerToolCalls<V>(w: World<V>, iteration: nat, calls: seq<ToolCall>, messages: seq<Message>, toolsUsed: seq<string>)
    returns (messages': seq<Message>, toolsUsed': seq<string>, end: TurnEnd<V>)
    ensures var (ms, used, e) := AnswerCalls(w, iteration, calls, 0);
      messages' == messages + ms && toolsUsed' == toolsUsed + used && end == e
  {
    messages', toolsUsed', end := messages, toolsUsed, Continue;
    for k := 0 to |calls|
      invariant var (ms, used, e) := AnswerCalls(w, iteration, calls, 0);
        var (ms', used', e') := AnswerCalls(w, iteration, calls, k);
        messages' + ms' == messages + ms && toolsUsed' + used' == toolsUsed + used && e' == e
      invariant end == Continue
    {
      var call := calls[k];
      var parsed := w.parse(call.args);
      var args := if parsed.Some? then parsed.value else Object(map[]);
      if call.name == SUBMIT {
        match w.validate(Truncate(args, w.schema))
        case Valid(v) => return messages', toolsUsed', Done(v);
        case Invalid => return messages' + [Tool(call.id, REJECTION)], toolsUsed', Continue;
        case Broken(f) => return messages', toolsUsed', Failed(f);
      }
      toolsUsed' := toolsUsed' + [call.name];
      var outcome := w.tool(iteration, k, call.name, args);
      if outcome.ToolRaised? { return messages', toolsUsed', Failed(outcome.failure); }
      messages' := messages' + [Tool(call.id, outcome.s)];
    }
  }

  /** A reply without tool calls. */
  method AnswerText<V>(w: World<V>, content: string, messages: seq<Message>) returns (messages': seq<Message>, end: TurnEnd<V>)
    ensures var (ms, e) := AnswerContent(w, content); messages' == messages + ms && end == e
  {
    if !w.blank(content) {
      var parsed := w.parseContent(content);
      if parsed.Broken? { return messages, Failed(parsed.failure); }
      if parsed.Valid? {
        match w.validate(Truncate(parsed.v, w.schema))
        case Valid(v) => return messages, Done(v);
        case Broken(f) => return messages, Failed(f);
        case Invalid =>
      }
    }
    return messages + [Assistant(content, []), User(REMINDER)], Continue;
  }

  method AnswerReply<V>(w: World<V>, iteration: nat, message: LlmReply, messages: seq<Message>, toolsUsed: seq<string>)
    returns (messages': seq<Message>, toolsUsed': seq<string>, end: TurnEnd<V>)
    ensures var (ms, used, e) := Turn(w, iteration, message);
      messages' == messages + ms && toolsUsed' == toolsUsed + used && end == e
  {
    if message.calls != [] {
      messages' := messages + [Assistant(message.content, message.calls)];
      messages', toolsUsed', end := AnswerToolCalls(w, iteration, message.calls, messages', toolsUsed);
    } else {
      messages', end := AnswerText(w, message.content, messages);
      toolsUsed' := toolsUsed;
    }
  }

  method CallLlmWithTools<V>(w: World<V>, systemPrompt: string, userPrompt: string, maxIterations: nat)
    returns (end: End<V>, requests: seq<seq<Message>>)
    ensures var (e, log) := Run(w, [System(systemPrompt), User(userPrompt)], 0, maxIterations, 0, []);
      end == e && requests == log
  {
    var messages := [System(systemPrompt), User(userPrompt)];
    ghost var whole := Run(w, messages, 0, maxIterations, 0, []);
    requests := [];
    var totalTokens: nat := 0;
    var toolsUsed: seq<string> := [];
    for iteration := 0 to maxIterations
      invariant var (e, log) := Run(w, messages, iteration, maxIterations, totalTokens, toolsUsed);
        e == whole.0 && requests + log == whole.1
    {
      LogGoesOn(requests, messages, Run(w, messages, iteration, maxIterations, totalTokens, toolsUsed).1);
      requests := requests + [messages];
      var answer := w.llm(iteration, messages);
      if answer.LlmRaised? { return Raise(answer.failure), requests; }
      totalTokens := totalTokens + Tokens(answer.reply);
      var turnEnd;
      messages, toolsUsed, turnEnd := AnswerReply(w, iteration, answer.reply, messages, toolsUsed);
      match turnEnd
      case Done(v) => return Result(v, totalTokens, toolsUsed), requests;
      case Failed(f) => return Raise(f), requests;
      case Continue =>
    }
    end := Exhausted;
    assert requests + [] == requests;
  }
}
