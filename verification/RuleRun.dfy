/** One run of the rule engine over the rules of a user (backend/app/services/rules.py). */
module RuleRun {
  import opened Prelude
  import opened RuleActions
  import opened Conditions

  /** A stored rule.  `conditions` and the entries of `actions` are None where the stored JSON has not even the shape
      of a condition tree or of an action. */
  datatype Rule<V> = Rule(
    id: nat, user: nat, account: Option<nat>, active: bool, priority: int, created: int,
    name: string, conditions: Option<Item<V>>, actions: seq<Option<RuleAction>>, stop: bool
  )

  datatype Outcome = Outcome(taken: seq<string>, imapActions: seq<string>, matched: seq<nat>)

  function TypeName(k: ActionType): string {
    match k
    case MOVE => "move" case COPY => "copy" case LABEL => "label" case REMOVE_LABEL => "remove_label"
    case MARK_READ => "mark_read" case MARK_UNREAD => "mark_unread" case FLAG => "flag" case DELETE => "delete"
    case NOTIFY => "notify" case CREATE_DRAFT => "create_draft" case CREATE_EVENT => "create_calendar_event"
  }

  // ---- what a run amounts to -----------------------------------------------------------------

  predicate Matches<V>(lib: Library<V>, c: MailContext, r: Rule<V>) {
    r.conditions.Some? && Accepted(r.conditions.value) && Holds(lib, c, r.conditions.value)
  }

  function Matching<V>(lib: Library<V>, c: MailContext, rules: seq<Rule<V>>): (r: seq<Rule<V>>)
    ensures forall x | x in r :: x in rules && Matches(lib, c, x)
  {
    if rules == [] then []
    else (if Matches(lib, c, rules[0]) then [rules[0]] else []) + Matching(lib, c, rules[1..])
  }

  /** The rules up to and including the first that stops processing. */
  function ThroughStop<V>(rules: seq<Rule<V>>): seq<Rule<V>> {
    if rules == [] then []
    else [rules[0]] + if rules[0].stop then [] else ThroughStop(rules[1..])
  }

  function ValidActions(raw: seq<Option<RuleAction>>): seq<RuleAction> {
    if raw == [] then []
    else (if raw[0].Some? && ValidParams(raw[0].value) then [raw[0].value] else []) + ValidActions(raw[1..])
  }

  function Entry(name: string, a: RuleAction): string {
    name + ": " + TypeName(a.kind)
  }

  function Taken(name: string, actions: seq<RuleAction>): seq<string> {
    if actions == [] then [] else [Entry(name, actions[0])] + Taken(name, actions[1..])
  }

  function Imap(actions: seq<RuleAction>): seq<string> {
    if actions == [] then []
    else
      match ToImap(actions[0])
      case None => Imap(actions[1..])
      case Some(s) => [s] + Imap(actions[1..])
  }

  function Plus(a: Outcome, b: Outcome): Outcome {
    Outcome(a.taken + b.taken, a.imapActions + b.imapActions, a.matched + b.matched)
  }

  const NOTHING_DONE := Outcome([], [], [])

  function Contribution<V>(r: Rule<V>): Outcome {
    Outcome(Taken(r.name, ValidActions(r.actions)), Imap(ValidActions(r.actions)), [r.id])
  }

  function Contributions<V>(rules: seq<Rule<V>>): Outcome {
    if rules == [] then NOTHING_DONE else Plus(Contribution(rules[0]), Contributions(rules[1..]))
  }

  /** The run: the contributions of the matching rules, in order, through the first one that stops. */
  function Result<V>(lib: Library<V>, c: MailContext, rules: seq<Rule<V>>): Outcome {
    Contributions(ThroughStop(Matching(lib, c, rules)))
  }

  /** UPDATE rules SET match_count = match_count + 1 WHERE id = ... */
  function Bump(counts: map<nat, nat>, id: nat): map<nat, nat> {
    if id in counts then counts[id := counts[id] + 1] else counts
  }

  function Bumped(counts: map<nat, nat>, ids: seq<nat>): map<nat, nat> {
    if ids == [] then counts else Bump(Bumped(counts, ids[..|ids| - 1]), ids[|ids| - 1])
  }

  // ---- the engine --------------------------------------------------------------------------

  lemma ValidStep(raw: seq<Option<RuleAction>>, i: nat)
    requires i < |raw|
    ensures ValidActions(raw[i..])
      == if raw[i].Some? && ValidParams(raw[i].value) then [raw[i].value] + ValidActions(raw[i + 1..])
         else ValidActions(raw[i + 1..])
  {
    assert raw[i..][0] == raw[i] && raw[i..][1..] == raw[i + 1..];
    assert [] + ValidActions(raw[i + 1..]) == ValidActions(raw[i + 1..]);
  }

  lemma TakenStep(name: string, actions: seq<RuleAction>, i: nat)
    requires i < |actions|
    ensures Taken(name, actions[i..]) == [Entry(name, actions[i])] + Taken(name, actions[i + 1..])
  {
    assert actions[i..][0] == actions[i] && actions[i..][1..] == actions[i + 1..];
  }

  lemma ImapStep(actions: seq<RuleAction>, i: nat)
    requires i < |actions|
    ensures Imap(actions[i..]) == if ToImap(actions[i]) == None then Imap(actions[i + 1..])
                                  else [ToImap(actions[i]).value] + Imap(actions[i + 1..])
  {
    assert actions[i..][0] == actions[i] && actions[i..][1..] == actions[i + 1..];
  }

  lemma PlusAssociates(a: Outcome, b: Outcome, d: Outcome)
    ensures Plus(Plus(a, b), d) == Plus(a, Plus(b, d))
  {
  }

  lemma ThroughStopStep<V>(r: Rule<V>, rest: seq<Rule<V>>)
    ensures ThroughStop([r] + rest) == if r.stop then [r] else [r] + ThroughStop(rest)
  {
    assert ([r] + rest)[0] == r && ([r] + rest)[1..] == rest;
  }

  lemma ContributionsStep<V>(r: Rule<V>, rest: seq<Rule<V>>)
    ensures Contributions([r] + rest) == Plus(Contribution(r), Contributions(rest))
  {
    assert ([r] + rest)[0] == r && ([r] + rest)[1..] == rest;
  }

  lemma PlusNothing(a: Outcome)
    ensures Plus(a, NOTHING_DONE) == a && Plus(NOTHING_DONE, a) == a
  {
  }

  lemma ContributionsOfOne<V>(r: Rule<V>)
    ensures Contributions([r]) == Contribution(r)
  {
    assert [r] == [r] + [];
    ContributionsStep(r, []);
    PlusNothing(Contribution(r));
  }

  /** The run, one rule at a time. */
  lemma ResultStep<V>(lib: Library<V>, c: MailContext, rules: seq<Rule<V>>)
    requires rules != []
    ensures Result(lib, c, rules)
      == if !Matches(lib, c, rules[0]) then Result(lib, c, rules[1..])
         else if rules[0].stop then Contribution(rules[0])
         else Plus(Contribution(rules[0]), Result(lib, c, rules[1..]))
  {
    var rest := Matching(lib, c, rules[1..]);
    if Matches(lib, c, rules[0]) {
      ThroughStopStep(rules[0], rest);
      if rules[0].stop {
        ContributionsOfOne(rules[0]);
      } else {
        ContributionsStep(rules[0], ThroughStop(rest));
      }
    } else {
      assert [] + rest == rest;
    }
  }

  lemma ResultFrom<V>(lib: Library<V>, c: MailContext, rules: seq<Rule<V>>, i: nat)
    requires i < |rules|
    ensures Result(lib, c, rules[i..])
      == if !Matches(lib, c, rules[i]) then Result(lib, c, rules[i + 1..])
         else if rules[i].stop then Contribution(rules[i])
         else Plus(Contribution(rules[i]), Result(lib, c, rules[i + 1..]))
  {
    ResultStep(lib, c, rules[i..]);
    assert rules[i..][1..] == rules[i + 1..];
  }

  class Engine {
    var matchCount: map<nat, nat>

    /** The stored actions of a rule that are accepted. */
    method ParseActions(raw: seq<Option<RuleAction>>) returns (actions: seq<RuleAction>)
      ensures actions == ValidActions(raw)
    {
      actions := [];
      for i := 0 to |raw|
        invariant actions + ValidActions(raw[i..]) == ValidActions(raw)
      {
        ValidStep(raw, i);
        if raw[i].Some? && ValidParams(raw[i].value) {
          Reassociate(actions, raw[i].value, ValidActions(raw[i + 1..]));
          actions := actions + [raw[i].value];
        }
      }
    }

    /** Records the actions of one matched rule behind what is there. */
    method Record(name: string, actions: seq<RuleAction>, before: Outcome) returns (after: Outcome)
      ensures after == Outcome(before.taken + Taken(name, actions), before.imapActions + Imap(actions), before.matched)
    {
      var taken, printed := before.taken, before.imapActions;
      for i := 0 to |actions|
        invariant taken + Taken(name, actions[i..]) == before.taken + Taken(name, actions)
        invariant printed + Imap(actions[i..]) == before.imapActions + Imap(actions)
      {
        TakenStep(name, actions, i);
        ImapStep(actions, i);
        Reassociate(taken, Entry(name, actions[i]), Taken(name, actions[i + 1..]));
        taken := taken + [Entry(name, actions[i])];
        var s := ToImap(actions[i]);
        if s.Some? {
          Reassociate(printed, s.value, Imap(actions[i + 1..]));
          printed := printed + [s.value];
        }
      }
      after := Outcome(taken, printed, before.matched);
    }

    method IncrementMatch(id: nat)
      modifies this
      ensures matchCount == Bump(old(matchCount), id)
    {
      if id in matchCount {
        matchCount := matchCount[id := matchCount[id] + 1];
      }
    }

    method EvaluateRules<V>(lib: Library<V>, c: MailContext, rules: seq<Rule<V>>) returns (result: Outcome)
      modifies this
      ensures result == Result(lib, c, rules)
      ensures matchCount == Bumped(old(matchCount), result.matched)
    {
      result := NOTHING_DONE;
      for i := 0 to |rules|
        invariant Plus(result, Result(lib, c, rules[i..])) == Result(lib, c, rules)
        invariant matchCount == Bumped(old(matchCount), result.matched)
      {
        ResultFrom(lib, c, rules, i);
        var rule := rules[i];
        if rule.conditions == None || !Accepted(rule.conditions.value) { continue; }
        var (matched, _) := EvaluateItem(lib, c, rule.conditions.value);
        EvaluatorIsExact(lib, c, rule.conditions.value);
        if !matched { continue; }
        var before := result;
        var actions := ParseActions(rule.actions);
        var after := Record(rule.name, actions, before);
        result := Outcome(after.taken, after.imapActions, after.matched + [rule.id]);
        assert result == Plus(before, Contribution(rule));
        PlusAssociates(before, Contribution(rule), Result(lib, c, rules[i + 1..]));
        IncrementMatch(rule.id);
        assert result.matched[..|result.matched| - 1] == before.matched;
        if rule.stop { break; }
      }
    }
  }

  lemma Uncons<T>(xs: seq<T>, ys: seq<T>)
    requires xs != []
    ensures xs + ys == [xs[0]] + (xs[1..] + ys)
  {
  }

  lemma HeadAndTail<T>(x: T, xs: seq<T>)
    ensures ([x] + xs)[0] == x && ([x] + xs)[1..] == xs
  {
  }

  // ---- what follows for every run ------------------------------------------------------------

  predicate Stops<V>(lib: Library<V>, c: MailContext, r: Rule<V>) {
    Matches(lib, c, r) && r.stop
  }

  lemma ResultOfCons<V>(lib: Library<V>, c: MailContext, r: Rule<V>, rest: seq<Rule<V>>)
    ensures Result(lib, c, [r] + rest)
      == if !Matches(lib, c, r) then Result(lib, c, rest)
         else if r.stop then Contribution(r)
         else Plus(Contribution(r), Result(lib, c, rest))
  {
    HeadAndTail(r, rest);
    ResultStep(lib, c, [r] + rest);
  }

  lemma StopsBehind<V>(lib: Library<V>, c: MailContext, rules: seq<Rule<V>>)
    requires exists i :: 0 <= i < |rules| && Stops(lib, c, rules[i])
    ensures Stops(lib, c, rules[0]) || exists i :: 0 <= i < |rules[1..]| && Stops(lib, c, rules[1..][i])
  {
    var i :| 0 <= i < |rules| && Stops(lib, c, rules[i]);
    if i > 0 { assert rules[1..][i - 1] == rules[i]; }
  }

  /** No rule behind one that matches and stops has any influence. */
  lemma {:induction false} LaterRulesDoNotMatter<V>(lib: Library<V>, c: MailContext, rules: seq<Rule<V>>, later: seq<Rule<V>>)
    requires exists i :: 0 <= i < |rules| && Stops(lib, c, rules[i])
    ensures Result(lib, c, rules + later) == Result(lib, c, rules)
    decreases |rules|
  {
    ResultStep(lib, c, rules);
    Uncons(rules, later);
    ResultOfCons(lib, c, rules[0], rules[1..] + later);
    StopsBehind(lib, c, rules);
    if !Stops(lib, c, rules[0]) { LaterRulesDoNotMatter(lib, c, rules[1..], later); }
  }

  /** A rule that does not match, or whose conditions are not accepted, is as good as absent. */
  lemma {:induction false} UnmatchedRulesAreInvisible<V>(
      lib: Library<V>, c: MailContext, before: seq<Rule<V>>, r: Rule<V>, after: seq<Rule<V>>)
    requires !Matches(lib, c, r)
    ensures Result(lib, c, before + [r] + after) == Result(lib, c, before + after)
    decreases |before|
  {
    if before == [] {
      assert before + [r] + after == [r] + after && before + after == after;
      ResultOfCons(lib, c, r, after);
    } else {
      var b, rest := before[0], before[1..];
      assert before + [r] + after == [b] + (rest + [r] + after);
      assert before + after == [b] + (rest + after);
      ResultOfCons(lib, c, b, rest + [r] + after);
      ResultOfCons(lib, c, b, rest + after);
      UnmatchedRulesAreInvisible(lib, c, rest, r, after);
    }
  }

  ghost predicate DistinctIds<V>(rules: seq<Rule<V>>) {
    forall i, j | 0 <= i < j < |rules| :: rules[i].id != rules[j].id
  }

  ghost predicate Reached<V>(lib: Library<V>, c: MailContext, rules: seq<Rule<V>>, i: nat)
    requires i < |rules|
  {
    Matches(lib, c, rules[i]) && forall j | 0 <= j < i :: !Stops(lib, c, rules[j])
  }

  lemma {:induction false} MatchedAreRules<V>(lib: Library<V>, c: MailContext, rules: seq<Rule<V>>, id: nat)
    requires id in Result(lib, c, rules).matched
    ensures exists i :: 0 <= i < |rules| && rules[i].id == id
    decreases |rules|
  {
    if rules != [] {
      ResultStep(lib, c, rules);
      if rules[0].id != id {
        MatchedAreRules(lib, c, rules[1..], id);
        var i :| 0 <= i < |rules[1..]| && rules[1..][i].id == id;
        assert rules[i + 1].id == id;
      }
    }
  }

  lemma FirstIsNotBehind<V>(lib: Library<V>, c: MailContext, rules: seq<Rule<V>>)
    requires rules != [] && DistinctIds(rules)
    ensures rules[0].id !in Result(lib, c, rules[1..]).matched
  {
    assert forall j | 0 < j < |rules| :: rules[j] == rules[1..][j - 1];
    if rules[0].id in Result(lib, c, rules[1..]).matched {
      MatchedAreRules(lib, c, rules[1..], rules[0].id);
    }
  }

  lemma ReachedBehind<V>(lib: Library<V>, c: MailContext, rules: seq<Rule<V>>, i: nat)
    requires 0 < i < |rules|
    ensures Reached(lib, c, rules, i) <==> !Stops(lib, c, rules[0]) && Reached(lib, c, rules[1..], i - 1)
  {
    var rest := rules[1..];
    assert forall j | 0 < j < |rules| :: rules[j] == rest[j - 1];
    if !Stops(lib, c, rules[0]) && Reached(lib, c, rest, i - 1) {
      forall j | 0 <= j < i ensures !Stops(lib, c, rules[j]) {
        if j > 0 { assert !Stops(lib, c, rest[j - 1]); }
      }
    }
    if Reached(lib, c, rules, i) {
      forall j | 0 <= j < i - 1 ensures !Stops(lib, c, rest[j]) {
        assert !Stops(lib, c, rules[j + 1]);
      }
    }
  }

  lemma MatchedStep<V>(lib: Library<V>, c: MailContext, rules: seq<Rule<V>>, id: nat)
    requires rules != []
    ensures id in Result(lib, c, rules).matched
      <==> || (Matches(lib, c, rules[0]) && rules[0].id == id)
           || (!Stops(lib, c, rules[0]) && id in Result(lib, c, rules[1..]).matched)
  {
    ResultStep(lib, c, rules);
  }

  lemma DistinctBehind<V>(rules: seq<Rule<V>>, i: nat)
    requires 0 < i < |rules| && DistinctIds(rules)
    ensures DistinctIds(rules[1..]) && rules[1..][i - 1] == rules[i] && rules[0].id != rules[i].id
  {
  }

  /** A rule is reported exactly when it matches and no rule before it matches and stops. */
  lemma {:induction false} ReportedIff<V>(lib: Library<V>, c: MailContext, rules: seq<Rule<V>>, i: nat)
    requires i < |rules| && DistinctIds(rules)
    ensures rules[i].id in Result(lib, c, rules).matched <==> Reached(lib, c, rules, i)
    decreases |rules|
  {
    MatchedStep(lib, c, rules, rules[i].id);
    if i == 0 {
      FirstIsNotBehind(lib, c, rules);
    } else {
      DistinctBehind(rules, i);
      ReportedIff(lib, c, rules[1..], i - 1);
      ReachedBehind(lib, c, rules, i);
    }
  }

  lemma {:induction false} ReportedOnce<V>(lib: Library<V>, c: MailContext, rules: seq<Rule<V>>)
    requires DistinctIds(rules)
    ensures var ids := Result(lib, c, rules).matched; forall i, j | 0 <= i < j < |ids| :: ids[i] != ids[j]
    decreases |rules|
  {
    if rules != [] {
      ResultStep(lib, c, rules);
      assert DistinctIds(rules[1..]);
      ReportedOnce(lib, c, rules[1..]);
      FirstIsNotBehind(lib, c, rules);
    }
  }

  lemma {:induction false} BumpedByOne(counts: map<nat, nat>, ids: seq<nat>, id: nat)
    requires id in counts && forall i, j | 0 <= i < j < |ids| :: ids[i] != ids[j]
    ensures id in Bumped(counts, ids)
    ensures Bumped(counts, ids)[id] == counts[id] + if id in ids then 1 else 0
    decreases |ids|
  {
    if ids != [] {
      var before, last := ids[..|ids| - 1], ids[|ids| - 1];
      BumpedByOne(counts, before, id);
      assert ids == before + [last];
      if last == id { assert forall k | 0 <= k < |before| :: before[k] == ids[k] && ids[k] != id; }
    }
  }

  /** After a run the match count of a rule is one higher exactly when the rule was reached, and otherwise unchanged. */
  lemma CountsFollowMatches<V>(lib: Library<V>, c: MailContext, rules: seq<Rule<V>>, counts: map<nat, nat>, i: nat)
    requires i < |rules| && DistinctIds(rules) && rules[i].id in counts
    ensures var after := Bumped(counts, Result(lib, c, rules).matched);
      && rules[i].id in after
      && after[rules[i].id] == counts[rules[i].id] + if Reached(lib, c, rules, i) then 1 else 0
  {
    ReportedOnce(lib, c, rules);
    ReportedIff(lib, c, rules, i);
    BumpedByOne(counts, Result(lib, c, rules).matched, rules[i].id);
  }

  // ---- the order of the rules ----------------------------------------------------------------

  /** Before in ORDER BY priority, created_at. */
  predicate Before<V>(a: Rule<V>, b: Rule<V>) {
    a.priority < b.priority || (a.priority == b.priority && a.created < b.created)
  }

  predicate Wanted<V>(r: Rule<V>, user: nat, account: nat) {
    r.user == user && r.active && (r.account == None || r.account == Some(account))
  }

  /** What the database may answer: the wanted rows, sorted; rows with equal keys in any order. */
  ghost predicate IsFetch<V(!new)>(table: seq<Rule<V>>, user: nat, account: nat, rules: seq<Rule<V>>) {
    && (forall r :: r in rules <==> r in table && Wanted(r, user, account))
    && (forall i, j | 0 <= i < j < |rules| :: rules[i] != rules[j] && !Before(rules[j], rules[i]))
  }

  ghost predicate DistinctKeys<V>(table: seq<Rule<V>>, user: nat, account: nat) {
    forall a, b | a in table && b in table && Wanted(a, user, account) && Wanted(b, user, account) && a != b ::
      Before(a, b) || Before(b, a)
  }

  ghost predicate Sorted<V>(rules: seq<Rule<V>>) {
    forall i, j | 0 <= i < j < |rules| :: Before(rules[i], rules[j])
  }

  lemma StrictlySorted<V(!new)>(table: seq<Rule<V>>, user: nat, account: nat, rules: seq<Rule<V>>)
    requires DistinctKeys(table, user, account) && IsFetch(table, user, account, rules)
    ensures Sorted(rules)
  {
    forall i, j | 0 <= i < j < |rules| ensures Before(rules[i], rules[j]) {
      assert rules[i] in rules && rules[j] in rules;
    }
  }

  lemma TailOf<V>(x: seq<Rule<V>>, y: seq<Rule<V>>, r: Rule<V>)
    requires Sorted(x) && x != [] && y != [] && x[0] == y[0] && r in x[1..] && r in y
    ensures r in y[1..]
  {
    var i :| 0 <= i < |x[1..]| && x[1..][i] == r;
    assert Before(x[0], x[i + 1]);
    var j :| 0 <= j < |y| && y[j] == r;
    assert j > 0 && y[1..][j - 1] == r;
  }

  lemma SomeMember<T>(xs: seq<T>)
    ensures xs != [] ==> exists x :: x in xs
  {
    if xs != [] { assert xs[0] in xs; }
  }

  lemma {:induction false} SortedIsUnique<V(!new)>(x: seq<Rule<V>>, y: seq<Rule<V>>)
    requires Sorted(x) && Sorted(y) && forall r :: r in x <==> r in y
    ensures x == y
    decreases |x|
  {
    if x == [] {
      SomeMember(y);
    } else {
      assert x[0] in y;
      assert y[0] in x;
      assert x[0] == y[0];
      forall r ensures r in x[1..] <==> r in y[1..] {
        if r in x[1..] { TailOf(x, y, r); }
        if r in y[1..] { TailOf(y, x, r); }
      }
      SortedIsUnique(x[1..], y[1..]);
      assert x == [x[0]] + x[1..] && y == [y[0]] + y[1..];
    }
  }

  /** When no two wanted rules share priority and creation time, the run is determined by the table alone. */
  lemma RunIsDetermined<V(!new)>(
      lib: Library<V>, c: MailContext, table: seq<Rule<V>>, user: nat, account: nat, x: seq<Rule<V>>, y: seq<Rule<V>>)
    requires DistinctKeys(table, user, account)
    requires IsFetch(table, user, account, x) && IsFetch(table, user, account, y)
    ensures Result(lib, c, x) == Result(lib, c, y)
  {
    assert forall r :: r in x <==> r in y;
    StrictlySorted(table, user, account, x);
    StrictlySorted(table, user, account, y);
    SortedIsUnique(x, y);
  }

  // ---- what the rules do -----------------------------------------------------------------------

  /** Action k of the rule is accepted and prints this string. */
  predicate Prints<V>(r: Rule<V>, k: nat, s: string) {
    k < |r.actions| && r.actions[k].Some? && ValidParams(r.actions[k].value) && ToImap(r.actions[k].value) == Some(s)
  }

  ghost predicate RulePrints<V>(r: Rule<V>, s: string) {
    exists k: nat :: Prints(r, k, s)
  }

  lemma {:induction false} PrintedByActions(raw: seq<Option<RuleAction>>, s: string)
    ensures s in Imap(ValidActions(raw))
      <==> exists k: nat | k < |raw| :: raw[k].Some? && ValidParams(raw[k].value) && ToImap(raw[k].value) == Some(s)
    decreases |raw|
  {
    if raw != [] {
      PrintedByActions(raw[1..], s);
      ValidStep(raw, 0);
      assert raw[0..] == raw;
      var rest := ValidActions(raw[1..]);
      if raw[0].Some? && ValidParams(raw[0].value) {
        assert ([raw[0].value] + rest)[0] == raw[0].value && ([raw[0].value] + rest)[1..] == rest;
      }
      if k: nat :| k < |raw[1..]| && raw[1..][k].Some? && ValidParams(raw[1..][k].value) && ToImap(raw[1..][k].value) == Some(s) {
        assert raw[k + 1] == raw[1..][k];
      }
      if k: nat :| 0 < k < |raw| && raw[k].Some? && ValidParams(raw[k].value) && ToImap(raw[k].value) == Some(s) {
        assert raw[1..][k - 1] == raw[k];
      }
    }
  }

  lemma ActedBehind<V>(lib: Library<V>, c: MailContext, rules: seq<Rule<V>>, s: string)
    requires rules != []
    ensures (exists i: nat | i < |rules| :: Reached(lib, c, rules, i) && RulePrints(rules[i], s))
      <==> || (Matches(lib, c, rules[0]) && RulePrints(rules[0], s))
           || (!Stops(lib, c, rules[0])
               && exists i: nat | i < |rules[1..]| :: Reached(lib, c, rules[1..], i) && RulePrints(rules[1..][i], s))
  {
    forall i: nat | 0 < i < |rules|
      ensures Reached(lib, c, rules, i) <==> !Stops(lib, c, rules[0]) && Reached(lib, c, rules[1..], i - 1)
      ensures rules[1..][i - 1] == rules[i]
    {
      ReachedBehind(lib, c, rules, i);
    }
    if i: nat :| i < |rules[1..]| && Reached(lib, c, rules[1..], i) && RulePrints(rules[1..][i], s) {
      assert rules[i + 1] == rules[1..][i] && (!Stops(lib, c, rules[0]) ==> Reached(lib, c, rules, i + 1));
    }
  }

  /** Exactly the accepted actions of the reported rules are carried out. */
  lemma {:induction false} ActedIff<V>(lib: Library<V>, c: MailContext, rules: seq<Rule<V>>, s: string)
    ensures s in Result(lib, c, rules).imapActions
      <==> exists i: nat | i < |rules| :: Reached(lib, c, rules, i) && RulePrints(rules[i], s)
    decreases |rules|
  {
    if rules != [] {
      ActedIff(lib, c, rules[1..], s);
      ResultStep(lib, c, rules);
      PrintedByActions(rules[0].actions, s);
      assert RulePrints(rules[0], s) <==> s in Contribution(rules[0]).imapActions by {
        if k: nat :| k < |rules[0].actions| && rules[0].actions[k].Some? && ValidParams(rules[0].actions[k].value)
                     && ToImap(rules[0].actions[k].value) == Some(s) { assert Prints(rules[0], k, s); }
      }
      ActedBehind(lib, c, rules, s);
    }
  }

  /** More rules at the end only add to what is done, behind it. */
  lemma {:induction false} RulesActInOrder<V>(lib: Library<V>, c: MailContext, rules: seq<Rule<V>>, later: seq<Rule<V>>)
    ensures var a, b := Result(lib, c, rules), Result(lib, c, rules + later);
      a.taken <= b.taken && a.imapActions <= b.imapActions && a.matched <= b.matched
    decreases |rules|
  {
    if rules == [] {
      assert rules + later == later;
    } else {
      ResultStep(lib, c, rules);
      Uncons(rules, later);
      ResultOfCons(lib, c, rules[0], rules[1..] + later);
      RulesActInOrder(lib, c, rules[1..], later);
    }
  }
}
