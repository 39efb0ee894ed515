/** Condition trees of mail rules: validation, evaluation, negation
    (backend/app/schemas/rules.py, backend/app/services/rules.py). */
module Conditions {
  import opened Prelude
  import opened Text

  datatype FieldOp =
    | EQUALS | NOT_EQUALS | CONTAINS | NOT_CONTAINS | STARTS_WITH | ENDS_WITH | MATCHES_REGEX
    | GREATER_THAN | LESS_THAN | IS_EMPTY | IS_NOT_EMPTY

  datatype Scalar = Nothing | Str(s: string) | Num(n: real) | Flag(b: bool)

  datatype Field = One(v: Scalar) | Many(vs: seq<string>)

  /** A condition; `V` is the type of the JSON values a rule may carry. */
  datatype Item<V> = Leaf(field: string, op: FieldOp, value: V) | Group(conj: bool, rules: seq<Item<V>>)

  /** What Python's conversions and its regex engine do with a value: str(x).lower(), str(x), truth, float(x) and
      re.search, which fails on a pattern that does not compile. */
  datatype Library<!V> = Library(
    lower: Scalar -> string,
    lowerValue: V -> string,
    pattern: V -> string,
    truth: V -> bool,
    float: Scalar -> Option<real>,
    floatValue: V -> Option<real>,
    search: (string, string) -> Option<bool>
  )

  datatype Contact = Contact(entries: map<string, Option<string>>)

  datatype MailContext = MailContext(
    sender: string, recipient: string, subject: string, body: string, headers: map<string, string>, date: string,
    hasAttachments: bool, attachmentNames: seq<string>, mailSize: int, isReply: bool, isForwarded: bool,
    contact: Option<Contact>
  )

  const MAX_NESTING_DEPTH := 5
  const MAX_RULES_PER_GROUP := 20
  const MAX_PATTERN_LENGTH := 500
  const MAX_TEXT_LENGTH := 51200

  // ---- fields ------------------------------------------------------------------------------

  function Header(c: MailContext, name: string, absent: string): string {
    if name in c.headers then c.headers[name] else absent
  }

  function ContactEntry(c: MailContext, key: string): Scalar {
    if c.contact == None || key !in c.contact.value.entries then Str("")
    else
      match c.contact.value.entries[key]
      case None => Nothing
      case Some(t) => Str(t)
  }

  function ResolveField(name: string, c: MailContext): Field {
    if "header:" <= name then One(Str(Header(c, name[7..], "")))
    else if name == "contact_name" then One(ContactEntry(c, "display_name"))
    else if name == "contact_org" then One(ContactEntry(c, "organization"))
    else if name == "from" then One(Str(c.sender))
    else if name == "to" then One(Str(c.recipient))
    else if name == "cc" then One(Str(Header(c, "Cc", Header(c, "cc", ""))))
    else if name == "subject" then One(Str(c.subject))
    else if name == "body" then One(Str(c.body))
    else if name == "has_attachment" then One(Flag(c.hasAttachments))
    else if name == "attachment_name" then Many(c.attachmentNames)
    else if name == "date" then One(Str(c.date))
    else if name == "size" then One(Num(c.mailSize as real))
    else if name == "is_reply" then One(Flag(c.isReply))
    else if name == "is_forwarded" then One(Flag(c.isForwarded))
    else One(Str(""))
  }

  // ---- one comparison ----------------------------------------------------------------------

  predicate StandsAt(v: string, t: string, k: nat)
    requires k <= |t| - |v|
  {
    t[k..k + |v|] == v
  }

  predicate IsSubstring(v: string, t: string) {
    exists k | 0 <= k <= |t| - |v| :: StandsAt(v, t, k)
  }

  predicate MatchRegex<V>(lib: Library<V>, text: string, value: V) {
    var p := lib.pattern(value);
    && p != "" && |p| <= MAX_PATTERN_LENGTH
    && lib.search(p, if |text| <= MAX_TEXT_LENGTH then text else text[..MAX_TEXT_LENGTH]) == Some(true)
  }

  predicate CompareNumeric<V>(lib: Library<V>, v: Scalar, op: FieldOp, value: V) {
    var fv := if v.Num? then Some(v.n) else lib.float(v);
    var rv := lib.floatValue(value);
    && fv.Some? && rv.Some?
    && ((op == GREATER_THAN && fv.value > rv.value) || (op == LESS_THAN && fv.value < rv.value))
  }

  predicate CompareText<V>(lib: Library<V>, v: Scalar, op: FieldOp, value: V) {
    var fv := if v.Nothing? then "" else lib.lower(v);
    var rv := lib.lowerValue(value);
    match op
    case EQUALS => fv == rv
    case NOT_EQUALS => fv != rv
    case CONTAINS => IsSubstring(rv, fv)
    case NOT_CONTAINS => !IsSubstring(rv, fv)
    case STARTS_WITH => rv <= fv
    case ENDS_WITH => EndsWith(fv, rv)
    case MATCHES_REGEX => MatchRegex(lib, fv, value)
    case _ => false
  }

  predicate CompareScalar<V>(lib: Library<V>, v: Scalar, op: FieldOp, value: V) {
    if v.Flag? then (op == EQUALS && v.b == lib.truth(value)) || (op == NOT_EQUALS && v.b != lib.truth(value))
    else if op == GREATER_THAN || op == LESS_THAN then CompareNumeric(lib, v, op, value)
    else CompareText(lib, v, op, value)
  }

  predicate IsEmpty(f: Field) {
    match f
    case Many(vs) => vs == []
    case One(Nothing) => true
    case One(Str(s)) => Strip(s) == ""
    case One(Flag(b)) => !b
    case One(Num(_)) => false
  }

  /** A list field compares if any of its items does. */
  predicate Compare<V>(lib: Library<V>, f: Field, op: FieldOp, value: V) {
    if op == IS_EMPTY then IsEmpty(f)
    else if op == IS_NOT_EMPTY then !IsEmpty(f)
    else
      match f
      case Many(vs) => exists i | 0 <= i < |vs| :: CompareScalar(lib, Str(vs[i]), op, value)
      case One(v) => CompareScalar(lib, v, op, value)
  }

  // ---- evaluation --------------------------------------------------------------------------

  predicate CompareLeaf<V>(lib: Library<V>, c: MailContext, item: Item<V>)
    requires item.Leaf?
  {
    Compare(lib, ResolveField(item.field, c), item.op, item.value)
  }

  /** What a condition means: AND holds if all of its rules hold, OR if one does. */
  predicate Holds<V>(lib: Library<V>, c: MailContext, item: Item<V>) {
    match item
    case Leaf(_, _, _) => CompareLeaf(lib, c, item)
    case Group(true, rules) => forall i | 0 <= i < |rules| :: Holds(lib, c, rules[i])
    case Group(false, rules) => exists i | 0 <= i < |rules| :: Holds(lib, c, rules[i])
  }

  /** The evaluator: all(...) and any(...) stop at the first rule that decides.  The second component counts the
      comparisons that were made. */
  function EvaluateItem<V>(lib: Library<V>, c: MailContext, item: Item<V>): (bool, nat)
    decreases item
  {
    match item
    case Leaf(_, _, _) => (CompareLeaf(lib, c, item), 1)
    case Group(conj, rules) => EvaluateRules(lib, c, conj, rules)
  }

  function EvaluateRules<V>(lib: Library<V>, c: MailContext, conj: bool, rules: seq<Item<V>>): (bool, nat)
    decreases rules
  {
    if rules == [] then (conj, 0)
    else
      var (first, n) := EvaluateItem(lib, c, rules[0]);
      if first != conj then (first, n)
      else
        var (rest, m) := EvaluateRules(lib, c, conj, rules[1..]);
        (rest, n + m)
  }

  /** Stopping early does not change the result. */
  lemma {:induction false} EvaluatorIsExact<V>(lib: Library<V>, c: MailContext, item: Item<V>)
    ensures EvaluateItem(lib, c, item).0 == Holds(lib, c, item)
    decreases item
  {
    match item
    case Leaf(_, _, _) =>
    case Group(conj, rules) => RulesAreExact(lib, c, conj, rules);
  }

  lemma {:induction false} RulesAreExact<V>(lib: Library<V>, c: MailContext, conj: bool, rules: seq<Item<V>>)
    ensures EvaluateRules(lib, c, conj, rules).0 == Holds(lib, c, Group(conj, rules))
    decreases rules
  {
    if rules != [] {
      EvaluatorIsExact(lib, c, rules[0]);
      RulesAreExact(lib, c, conj, rules[1..]);
      assert forall i | 0 <= i < |rules| - 1 :: rules[1..][i] == rules[i + 1];
      assert forall i | 0 < i < |rules| :: rules[i] == rules[1..][i - 1];
    }
  }

  // ---- validation --------------------------------------------------------------------------

  /** Group sizes accepted by the schema. */
  predicate WidthOk<V>(item: Item<V>) {
    item.Group? ==>
      && 1 <= |item.rules| <= MAX_RULES_PER_GROUP
      && forall i | 0 <= i < |item.rules| :: WidthOk(item.rules[i])
  }

  predicate CheckDepth<V>(group: Item<V>, depth: nat)
    requires group.Group?
    decreases group
  {
    && depth <= MAX_NESTING_DEPTH
    && forall i | 0 <= i < |group.rules| :: group.rules[i].Group? ==> CheckDepth(group.rules[i], depth + 1)
  }

  predicate Accepted<V>(group: Item<V>) {
    group.Group? && WidthOk(group) && CheckDepth(group, 1)
  }

  /** Levels of groups. */
  function Height<V>(item: Item<V>): nat {
    match item
    case Leaf(_, _, _) => 0
    case Group(_, rules) => 1 + MaxHeight(rules)
  }

  function MaxHeight<V>(rules: seq<Item<V>>): (h: nat)
    ensures forall i | 0 <= i < |rules| :: Height(rules[i]) <= h
    ensures h > 0 ==> exists i :: 0 <= i < |rules| && Height(rules[i]) == h
    decreases rules
  {
    if rules == [] then 0
    else
      var first, rest := Height(rules[0]), MaxHeight(rules[1..]);
      assert forall i | 0 < i < |rules| :: rules[i] == rules[1..][i - 1];
      if first >= rest then first else rest
  }

  lemma HeightAtMost<V>(rules: seq<Item<V>>, h: int)
    requires h >= 0
    ensures MaxHeight(rules) <= h <==> forall i | 0 <= i < |rules| && rules[i].Group? :: Height(rules[i]) <= h
  {
    var m := MaxHeight(rules);
    if m > 0 {
      var i :| 0 <= i < |rules| && Height(rules[i]) == m;
      assert rules[i].Group?;
    }
  }

  /** The depth check accepts exactly the trees of at most five levels of groups. */
  lemma {:induction false} DepthCheckIsHeight<V>(group: Item<V>, depth: nat)
    requires group.Group?
    ensures CheckDepth(group, depth) <==> depth + Height(group) <= MAX_NESTING_DEPTH + 1
    decreases group
  {
    forall i | 0 <= i < |group.rules| && group.rules[i].Group?
      ensures CheckDepth(group.rules[i], depth + 1) <==> depth + 1 + Height(group.rules[i]) <= MAX_NESTING_DEPTH + 1
    {
      DepthCheckIsHeight(group.rules[i], depth + 1);
    }
    if depth <= MAX_NESTING_DEPTH { HeightAtMost(group.rules, MAX_NESTING_DEPTH - depth); }
  }

  predicate GroupsHold<V>(item: Item<V>, least: nat, most: nat) {
    item.Group? ==>
      && least <= |item.rules| <= most
      && forall i | 0 <= i < |item.rules| :: GroupsHold(item.rules[i], least, most)
  }

  lemma {:induction false} WidthIff<V>(item: Item<V>)
    ensures WidthOk(item) <==> GroupsHold(item, 1, 20)
    decreases item
  {
    if item.Group? {
      forall i | 0 <= i < |item.rules| ensures WidthOk(item.rules[i]) <==> GroupsHold(item.rules[i], 1, 20) {
        WidthIff(item.rules[i]);
      }
    }
  }

  /** The schema accepts exactly the groups with one to twenty rules in every group and at most five levels. */
  lemma AcceptedIff<V>(group: Item<V>)
    ensures Accepted(group) <==> group.Group? && GroupsHold(group, 1, 20) && Height(group) <= 5
  {
    WidthIff(group);
    if group.Group? { DepthCheckIsHeight(group, 1); }
  }

  function Power(base: nat, e: nat): (p: nat)
    ensures base > 0 ==> p > 0
  {
    if e == 0 then 1 else base * Power(base, e - 1)
  }

  lemma {:induction false} PowerGrows(base: nat, e: nat, f: nat)
    requires base > 0 && e <= f
    ensures Power(base, e) <= Power(base, f)
    decreases f
  {
    if e < f {
      PowerGrows(base, e, f - 1);
      assert Power(base, f - 1) <= base * Power(base, f - 1);
    }
  }

  lemma ProductGrows(n: nat, m: nat, b: nat)
    requires n <= m
    ensures n * b <= m * b
  {
  }

  lemma {:induction false} RulesCost<V>(lib: Library<V>, c: MailContext, conj: bool, rules: seq<Item<V>>, bound: nat)
    requires forall i | 0 <= i < |rules| :: EvaluateItem(lib, c, rules[i]).1 <= bound
    ensures EvaluateRules(lib, c, conj, rules).1 <= |rules| * bound
    decreases |rules|
  {
    if rules != [] {
      assert forall i | 0 <= i < |rules| - 1 :: rules[1..][i] == rules[i + 1];
      RulesCost(lib, c, conj, rules[1..], bound);
      assert |rules| * bound == bound + |rules[1..]| * bound;
    }
  }

  lemma {:induction false} ItemCost<V>(lib: Library<V>, c: MailContext, item: Item<V>)
    requires WidthOk(item)
    ensures EvaluateItem(lib, c, item).1 <= Power(MAX_RULES_PER_GROUP, Height(item))
    decreases item
  {
    if item.Group? {
      var bound := Power(MAX_RULES_PER_GROUP, MaxHeight(item.rules));
      forall i | 0 <= i < |item.rules| ensures EvaluateItem(lib, c, item.rules[i]).1 <= bound {
        ItemCost(lib, c, item.rules[i]);
        PowerGrows(MAX_RULES_PER_GROUP, Height(item.rules[i]), MaxHeight(item.rules));
      }
      RulesCost(lib, c, item.conj, item.rules, bound);
      ProductGrows(|item.rules|, MAX_RULES_PER_GROUP, bound);
    }
  }

  /** Every accepted tree is decided by at most 20^5 comparisons, whatever the mail. */
  lemma AcceptedTreesAreCheap<V>(lib: Library<V>, c: MailContext, group: Item<V>)
    requires Accepted(group)
    ensures EvaluateItem(lib, c, group).1 <= Power(20, 5) == 3200000
  {
    DepthCheckIsHeight(group, 1);
    ItemCost(lib, c, group);
    PowerGrows(MAX_RULES_PER_GROUP, Height(group), MAX_NESTING_DEPTH);
    assert Power(20, 1) == 20 && Power(20, 2) == 400 && Power(20, 3) == 8000 && Power(20, 4) == 160000;
  }

  /** A full tree of the given height over one leaf. */
  function FullTree<V>(leaf: Item<V>, height: nat): Item<V> {
    if height == 0 then leaf else Group(true, seq(MAX_RULES_PER_GROUP, _ => FullTree(leaf, height - 1)))
  }

  lemma {:induction false} EqualRulesCost<V>(lib: Library<V>, c: MailContext, item: Item<V>, rules: seq<Item<V>>, cost: nat)
    requires EvaluateItem(lib, c, item) == (true, cost)
    requires forall i | 0 <= i < |rules| :: rules[i] == item
    ensures EvaluateRules(lib, c, true, rules) == (true, |rules| * cost)
    decreases |rules|
  {
    if rules != [] {
      EqualRulesCost(lib, c, item, rules[1..], cost);
      assert |rules| * cost == cost + |rules[1..]| * cost;
    }
  }

  lemma EqualRulesHeight<V>(item: Item<V>, rules: seq<Item<V>>)
    requires rules != [] && forall i | 0 <= i < |rules| :: rules[i] == item
    ensures MaxHeight(rules) == Height(item)
  {
    assert Height(rules[0]) <= MaxHeight(rules);
  }

  lemma {:induction false} FullTreeCosts<V>(lib: Library<V>, c: MailContext, leaf: Item<V>, height: nat)
    requires leaf.Leaf? && CompareLeaf(lib, c, leaf)
    ensures WidthOk(FullTree(leaf, height)) && Height(FullTree(leaf, height)) == height
    ensures EvaluateItem(lib, c, FullTree(leaf, height)) == (true, Power(MAX_RULES_PER_GROUP, height))
  {
    if height > 0 {
      var below := FullTree(leaf, height - 1);
      FullTreeCosts(lib, c, leaf, height - 1);
      var rules := FullTree(leaf, height).rules;
      assert rules == seq(MAX_RULES_PER_GROUP, _ => below);
      EqualRulesCost(lib, c, below, rules, Power(MAX_RULES_PER_GROUP, height - 1));
      EqualRulesHeight(below, rules);
    }
  }

  /** The bound is reached: an accepted tree over any leaf that holds needs all 20^5 comparisons. */
  lemma CheapBoundIsReached<V>(lib: Library<V>, c: MailContext, leaf: Item<V>)
    requires leaf.Leaf? && CompareLeaf(lib, c, leaf)
    ensures Accepted(FullTree(leaf, MAX_NESTING_DEPTH))
    ensures EvaluateItem(lib, c, FullTree(leaf, MAX_NESTING_DEPTH)).1 == Power(20, 5)
  {
    FullTreeCosts(lib, c, leaf, MAX_NESTING_DEPTH);
    DepthCheckIsHeight(FullTree(leaf, MAX_NESTING_DEPTH), 1);
  }
}
