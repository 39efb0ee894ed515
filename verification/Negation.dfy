/** Negating a condition tree by swapping AND with OR and every operator with its opposite: when that is the
    negation, and when it is not. */
module Negation {
  import opened Prelude
  import opened Conditions

  predicate IsEmptiness(op: FieldOp) {
    op == IS_EMPTY || op == IS_NOT_EMPTY
  }

  predicate IsEquality(op: FieldOp) {
    op == EQUALS || op == NOT_EQUALS
  }

  predicate HasOpposite(op: FieldOp) {
    IsEmptiness(op) || IsEquality(op) || op == CONTAINS || op == NOT_CONTAINS
  }

  function Opposite(op: FieldOp): FieldOp {
    match op
    case EQUALS => NOT_EQUALS
    case NOT_EQUALS => EQUALS
    case CONTAINS => NOT_CONTAINS
    case NOT_CONTAINS => CONTAINS
    case IS_EMPTY => IS_NOT_EMPTY
    case IS_NOT_EMPTY => IS_EMPTY
    case _ => op
  }

  function Negate<V>(item: Item<V>): Item<V>
    decreases item
  {
    match item
    case Leaf(field, op, value) => Leaf(field, Opposite(op), value)
    case Group(conj, rules) => Group(!conj, NegateAll(rules))
  }

  function NegateAll<V>(rules: seq<Item<V>>): (r: seq<Item<V>>)
    ensures |r| == |rules| && forall i | 0 <= i < |rules| :: r[i] == Negate(rules[i])
    decreases rules
  {
    if rules == [] then [] else [Negate(rules[0])] + NegateAll(rules[1..])
  }

  // ---- one comparison ----------------------------------------------------------------------

  predicate Complementary<V>(lib: Library<V>, f: Field, op: FieldOp, value: V) {
    Compare(lib, f, Opposite(op), value) != Compare(lib, f, op, value)
  }

  /** All items of a list field give the same answer. */
  predicate Unanimous<V>(lib: Library<V>, vs: seq<string>, op: FieldOp, value: V) {
    forall i | 0 <= i < |vs| :: CompareScalar(lib, Str(vs[i]), op, value) == CompareScalar(lib, Str(vs[0]), op, value)
  }

  lemma TextNegates<V>(lib: Library<V>, v: Scalar, op: FieldOp, value: V)
    requires HasOpposite(op) && !IsEmptiness(op)
    ensures CompareScalar(lib, v, Opposite(op), value) != CompareScalar(lib, v, op, value) <==> !v.Flag? || IsEquality(op)
  {
  }

  lemma ListDisagreesIff<V>(lib: Library<V>, vs: seq<string>, op: FieldOp, value: V)
    requires HasOpposite(op) && !IsEmptiness(op)
    ensures Complementary(lib, Many(vs), op, value) <==> vs != [] && Unanimous(lib, vs, op, value)
  {
    forall i | 0 <= i < |vs|
      ensures CompareScalar(lib, Str(vs[i]), Opposite(op), value) != CompareScalar(lib, Str(vs[i]), op, value)
    {
      TextNegates(lib, Str(vs[i]), op, value);
    }
    var holds, fails := Compare(lib, Many(vs), op, value), Compare(lib, Many(vs), Opposite(op), value);
    if vs != [] {
      if CompareScalar(lib, Str(vs[0]), op, value) { assert holds; } else { assert fails; }
      if !Unanimous(lib, vs, op, value) {
        var i :| 0 <= i < |vs| && CompareScalar(lib, Str(vs[i]), op, value) != CompareScalar(lib, Str(vs[0]), op, value);
        assert holds && fails;
      }
    }
  }

  /** Two opposite comparisons disagree exactly when: the operator asks for emptiness; or a list field is not empty
      and unanimous; or a boolean is compared for equality; or the field is any other single value. */
  lemma OppositeDisagreesIff<V>(lib: Library<V>, f: Field, op: FieldOp, value: V)
    requires HasOpposite(op)
    ensures Complementary(lib, f, op, value) <==>
      || IsEmptiness(op)
      || (match f
          case Many(vs) => vs != [] && Unanimous(lib, vs, op, value)
          case One(v) => !v.Flag? || IsEquality(op))
  {
    if !IsEmptiness(op) {
      match f
      case One(v) => TextNegates(lib, v, op, value);
      case Many(vs) => ListDisagreesIff(lib, vs, op, value);
    }
  }

  // ---- one leaf, all mails -------------------------------------------------------------------

  predicate IsBoolField(field: string) {
    field == "has_attachment" || field == "is_reply" || field == "is_forwarded"
  }

  /** What can be read off a leaf, without a mail. */
  predicate Negatable<V>(leaf: Item<V>)
    requires leaf.Leaf?
  {
    && HasOpposite(leaf.op)
    && (IsEmptiness(leaf.op) || (leaf.field != "attachment_name" && (IsBoolField(leaf.field) ==> IsEquality(leaf.op))))
  }

  ghost predicate NegatesOn<V>(lib: Library<V>, c: MailContext, item: Item<V>) {
    Holds(lib, c, Negate(item)) != Holds(lib, c, item)
  }

  lemma FieldKinds(field: string, c: MailContext)
    ensures ResolveField(field, c).Many? <==> field == "attachment_name"
    ensures ResolveField(field, c).One? && ResolveField(field, c).v.Flag? <==> IsBoolField(field)
  {
    assert "header:"[0] == 'h' && "header:"[1] == 'e';
    assert "attachment_name"[0] == 'a' && "has_attachment"[1] == 'a' && "is_reply"[0] == 'i' && "is_forwarded"[0] == 'i';
  }

  /** A mail without attachments. */
  const BARE := MailContext("", "", "", "", map[], "", false, [], 0, false, false, None)

  /** A leaf is negated on every mail exactly when it is negatable. */
  lemma LeafNegatesIff<V>(lib: Library<V>, leaf: Item<V>)
    requires leaf.Leaf?
    ensures (forall c :: NegatesOn(lib, c, leaf)) <==> Negatable(leaf)
  {
    forall c: MailContext
      ensures Negatable(leaf) ==> NegatesOn(lib, c, leaf)
      ensures c == BARE && !Negatable(leaf) ==> !NegatesOn(lib, c, leaf)
    {
      FieldKinds(leaf.field, c);
      if HasOpposite(leaf.op) {
        OppositeDisagreesIff(lib, ResolveField(leaf.field, c), leaf.op, leaf.value);
        assert NegatesOn(lib, c, leaf) <==> Complementary(lib, ResolveField(leaf.field, c), leaf.op, leaf.value);
      }
      if c == BARE && leaf.field == "attachment_name" {
        assert ResolveField(leaf.field, c) == Many([]);
      }
    }
    assert !Negatable(leaf) ==> !NegatesOn(lib, BARE, leaf);
  }

  // ---- whole trees -------------------------------------------------------------------------

  predicate AllNegatable<V>(item: Item<V>) {
    match item
    case Leaf(_, _, _) => Negatable(item)
    case Group(_, rules) => forall i | 0 <= i < |rules| :: AllNegatable(rules[i])
  }

  lemma GroupNegates<V>(lib: Library<V>, c: MailContext, conj: bool, rules: seq<Item<V>>, negated: seq<Item<V>>)
    requires |negated| == |rules| && forall i | 0 <= i < |rules| :: Holds(lib, c, negated[i]) == !Holds(lib, c, rules[i])
    ensures Holds(lib, c, Group(!conj, negated)) == !Holds(lib, c, Group(conj, rules))
  {
    if conj {
      if !Holds(lib, c, Group(true, rules)) {
        var i :| 0 <= i < |rules| && !Holds(lib, c, rules[i]);
        assert Holds(lib, c, negated[i]);
      }
    } else {
      if Holds(lib, c, Group(false, rules)) {
        var i :| 0 <= i < |rules| && Holds(lib, c, rules[i]);
        assert !Holds(lib, c, negated[i]);
      }
    }
  }

  /** A tree of negatable leaves is negated, on every mail and with every library. */
  lemma {:induction false} TreeNegates<V>(lib: Library<V>, c: MailContext, item: Item<V>)
    requires AllNegatable(item)
    ensures Holds(lib, c, Negate(item)) == !Holds(lib, c, item)
    decreases item
  {
    match item
    case Leaf(_, _, _) =>
      LeafNegatesIff(lib, item);
      assert NegatesOn(lib, c, item);
    case Group(conj, rules) =>
      forall i | 0 <= i < |rules| ensures Holds(lib, c, NegateAll(rules)[i]) == !Holds(lib, c, rules[i]) {
        TreeNegates(lib, c, rules[i]);
      }
      GroupNegates(lib, c, conj, rules, NegateAll(rules));
  }

  /** Negating twice gives the tree back. */
  lemma {:induction false} NegateIsAnInvolution<V>(item: Item<V>)
    ensures Negate(Negate(item)) == item
    decreases item
  {
    if item.Group? {
      forall i | 0 <= i < |item.rules| ensures NegateAll(NegateAll(item.rules))[i] == item.rules[i] {
        NegateIsAnInvolution(item.rules[i]);
      }
    }
  }

  lemma {:induction false} NegatedShape<V>(item: Item<V>)
    ensures WidthOk(Negate(item)) <==> WidthOk(item)
    ensures Height(Negate(item)) == Height(item)
    decreases item
  {
    if item.Group? { NegatedShapes(item.rules); }
  }

  lemma {:induction false} NegatedShapes<V>(rules: seq<Item<V>>)
    ensures MaxHeight(NegateAll(rules)) == MaxHeight(rules)
    ensures forall i | 0 <= i < |rules| :: WidthOk(NegateAll(rules)[i]) <==> WidthOk(rules[i])
    decreases rules
  {
    if rules != [] {
      NegatedShape(rules[0]);
      NegatedShapes(rules[1..]);
      assert NegateAll(rules)[1..] == NegateAll(rules[1..]);
      assert forall i | 0 < i < |rules| ::
        rules[i] == rules[1..][i - 1] && NegateAll(rules)[i] == NegateAll(rules[1..])[i - 1];
    }
  }

  /** The schema accepts the negation of a tree exactly when it accepts the tree. */
  lemma NegationIsAccepted<V>(group: Item<V>)
    ensures Accepted(Negate(group)) <==> Accepted(group)
  {
    NegatedShape(group);
    if group.Group? {
      DepthCheckIsHeight(group, 1);
      DepthCheckIsHeight(Negate(group), 1);
    }
  }

  /** The attachment field breaks it both ways: without attachments a condition and its negation both fail, and with
      two attachments of which one fits, both hold. */
  lemma AttachmentsBreakNegation<V>(lib: Library<V>, value: V, fits: string, other: string)
    requires CompareScalar(lib, Str(fits), CONTAINS, value) && !CompareScalar(lib, Str(other), CONTAINS, value)
    ensures var leaf := Leaf("attachment_name", CONTAINS, value);
      && !Holds(lib, BARE, leaf) && !Holds(lib, BARE, Negate(leaf))
      && Holds(lib, BARE.(attachmentNames := [fits, other]), leaf)
      && Holds(lib, BARE.(attachmentNames := [fits, other]), Negate(leaf))
  {
    var both := BARE.(attachmentNames := [fits, other]);
    FieldKinds("attachment_name", BARE);
    FieldKinds("attachment_name", both);
    assert [fits, other][0] == fits && [fits, other][1] == other;
  }
}
