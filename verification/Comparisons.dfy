/** What one condition of a rule asks of a mail (backend/app/services/rules.py). */
module Comparisons {
  import opened Prelude
  import opened Text
  import opened Conditions

  // ---- what a field reads --------------------------------------------------------------------

  const KNOWN := {"from", "to", "cc", "subject", "body", "has_attachment", "attachment_name", "date", "size", "is_reply",
                  "is_forwarded", "contact_name", "contact_org"}

  /** The entry of the mail's contact; a mail without one has none. */
  predicate EntryIs(c: MailContext, key: string, t: string) {
    if c.contact.Some? && key in c.contact.value.entries then c.contact.value.entries[key] == Some(t) else t == ""
  }

  /** The field is this text of the mail. */
  predicate ReadsText(c: MailContext, field: string, t: string) {
    || (field == "from" && t == c.sender)
    || (field == "to" && t == c.recipient)
    || (field == "subject" && t == c.subject)
    || (field == "body" && t == c.body)
    || (field == "date" && t == c.date)
    || (field == "cc" && t == if "Cc" in c.headers then c.headers["Cc"] else if "cc" in c.headers then c.headers["cc"] else "")
    || ("header:" <= field && t == if field[7..] in c.headers then c.headers[field[7..]] else "")
    || (field == "contact_name" && EntryIs(c, "display_name", t))
    || (field == "contact_org" && EntryIs(c, "organization", t))
    || (field !in KNOWN && !("header:" <= field) && t == "")
  }

  predicate ReadsFlag(c: MailContext, field: string, b: bool) {
    || (field == "has_attachment" && b == c.hasAttachments)
    || (field == "is_reply" && b == c.isReply)
    || (field == "is_forwarded" && b == c.isForwarded)
  }

  lemma TextIsRead(c: MailContext, field: string, t: string)
    requires ReadsText(c, field, t)
    ensures ResolveField(field, c) == One(Str(t))
  {
    assert "header:"[0] == 'h' && "header:"[1] == 'e' && "has_attachment"[1] == 'a';
    assert forall k | k in KNOWN :: k[0] != 'h' || k[1] != 'e';
  }

  lemma FlagIsRead(c: MailContext, field: string, b: bool)
    requires ReadsFlag(c, field, b)
    ensures ResolveField(field, c) == One(Flag(b))
  {
    assert "header:"[0] == 'h' && "header:"[1] == 'e' && "has_attachment"[1] == 'a';
    assert "is_reply"[0] == 'i' && "is_forwarded"[0] == 'i';
  }

  lemma SizeIsRead(c: MailContext)
    ensures ResolveField("size", c) == One(Num(c.mailSize as real))
  {
    assert "header:"[0] == 'h' && "size"[0] == 's';
  }

  lemma NullIsRead(c: MailContext, field: string, key: string)
    requires (field == "contact_name" && key == "display_name") || (field == "contact_org" && key == "organization")
    requires c.contact.Some? && key in c.contact.value.entries && c.contact.value.entries[key] == None
    ensures ResolveField(field, c) == One(Nothing)
  {
    assert "header:"[0] == 'h' && field[0] == 'c';
  }

  // ---- texts -------------------------------------------------------------------------------

  predicate Spells(t: string, a: string, v: string, b: string) {
    t == a + v + b
  }

  /** v occurs in t. */
  ghost predicate Occurs(v: string, t: string) {
    exists a, b :: Spells(t, a, v, b)
  }

  lemma OccursIff(v: string, t: string)
    ensures IsSubstring(v, t) <==> Occurs(v, t)
  {
    if k :| 0 <= k <= |t| - |v| && StandsAt(v, t, k) { assert Spells(t, t[..k], v, t[k + |v|..]); }
    if a, b :| Spells(t, a, v, b) { assert StandsAt(v, t, |a|); }
  }

  /** t begins with v. */
  ghost predicate Begins(v: string, t: string) {
    exists b :: Spells(t, "", v, b)
  }

  ghost predicate Ends(v: string, t: string) {
    exists a :: Spells(t, a, v, "")
  }

  lemma BeginsIff(v: string, t: string)
    ensures v <= t <==> Begins(v, t)
  {
    if v <= t {
      var b := t[|v|..];
      assert "" + v + b == v + b == t;
      assert Spells(t, "", v, b);
    }
    if b :| Spells(t, "", v, b) { assert t == v + b; }
  }

  lemma EndsIff(v: string, t: string)
    ensures EndsWith(t, v) <==> Ends(v, t)
  {
    if EndsWith(t, v) {
      var a := t[..|t| - |v|];
      assert a + v + "" == a + v == t;
      assert Spells(t, a, v, "");
    }
    if a :| Spells(t, a, v, "") { assert t == a + v; }
  }

  /** The pattern is there, not too long, and found in the beginning of the text. */
  predicate Finds<V>(lib: Library<V>, t: string, value: V) {
    && 0 < |lib.pattern(value)| <= 500
    && lib.search(lib.pattern(value), if |t| <= 51200 then t else t[..51200]) == Some(true)
  }

  /** What each operator asks of a scalar that is compared as the text t. */
  ghost predicate ComparesText<V>(lib: Library<V>, c: MailContext, field: string, t: string, value: V) {
    var v := lib.lowerValue(value);
    && (Holds(lib, c, Leaf(field, EQUALS, value)) <==> Spells(t, "", v, ""))
    && (Holds(lib, c, Leaf(field, NOT_EQUALS, value)) <==> !Spells(t, "", v, ""))
    && (Holds(lib, c, Leaf(field, CONTAINS, value)) <==> Occurs(v, t))
    && (Holds(lib, c, Leaf(field, NOT_CONTAINS, value)) <==> !Occurs(v, t))
    && (Holds(lib, c, Leaf(field, STARTS_WITH, value)) <==> Begins(v, t))
    && (Holds(lib, c, Leaf(field, ENDS_WITH, value)) <==> Ends(v, t))
    && (Holds(lib, c, Leaf(field, MATCHES_REGEX, value)) <==> Finds(lib, t, value))
  }

  /** ... and of its number, if it has one. */
  ghost predicate ComparesNumber<V>(lib: Library<V>, c: MailContext, field: string, n: Option<real>, value: V) {
    var v := lib.floatValue(value);
    && (Holds(lib, c, Leaf(field, GREATER_THAN, value)) <==> n.Some? && v.Some? && n.value > v.value)
    && (Holds(lib, c, Leaf(field, LESS_THAN, value)) <==> n.Some? && v.Some? && n.value < v.value)
  }

  ghost predicate EmptyIff<V>(lib: Library<V>, c: MailContext, field: string, empty: bool, value: V) {
    && (Holds(lib, c, Leaf(field, IS_EMPTY, value)) <==> empty)
    && (Holds(lib, c, Leaf(field, IS_NOT_EMPTY, value)) <==> !empty)
  }

  lemma LeafIsText<V>(lib: Library<V>, c: MailContext, field: string, x: Scalar, op: FieldOp, value: V)
    requires ResolveField(field, c) == One(x) && !x.Flag?
    requires op !in {GREATER_THAN, LESS_THAN, IS_EMPTY, IS_NOT_EMPTY}
    ensures Holds(lib, c, Leaf(field, op, value)) <==> CompareText(lib, x, op, value)
  {
  }

  lemma TextScalar<V>(lib: Library<V>, c: MailContext, field: string, x: Scalar, t: string, value: V)
    requires ResolveField(field, c) == One(x) && !x.Flag?
    requires t == if x.Nothing? then "" else lib.lower(x)
    ensures ComparesText(lib, c, field, t, value)
  {
    var v := lib.lowerValue(value);
    OccursIff(v, t);
    BeginsIff(v, t);
    EndsIff(v, t);
    assert "" + v + "" == v;
    LeafIsText(lib, c, field, x, EQUALS, value);
    LeafIsText(lib, c, field, x, NOT_EQUALS, value);
    LeafIsText(lib, c, field, x, CONTAINS, value);
    LeafIsText(lib, c, field, x, NOT_CONTAINS, value);
    LeafIsText(lib, c, field, x, STARTS_WITH, value);
    LeafIsText(lib, c, field, x, ENDS_WITH, value);
    LeafIsText(lib, c, field, x, MATCHES_REGEX, value);
  }

  lemma NumberScalar<V>(lib: Library<V>, c: MailContext, field: string, x: Scalar, value: V)
    requires ResolveField(field, c) == One(x) && !x.Flag?
    ensures ComparesNumber(lib, c, field, if x.Num? then Some(x.n) else lib.float(x), value)
  {
  }

  lemma EmptyScalar<V>(lib: Library<V>, c: MailContext, field: string, x: Scalar, value: V)
    requires ResolveField(field, c) == One(x)
    ensures EmptyIff(lib, c, field, IsEmpty(One(x)), value)
  {
  }

  lemma {:induction false} LStripEmpty(s: string)
    ensures LStrip(s) == "" <==> forall i | 0 <= i < |s| :: IsSpace(s[i])
  {
    if s != "" && IsSpace(s[0]) { LStripEmpty(s[1..]); }
  }

  lemma BlankIff(t: string)
    ensures Strip(t) == "" <==> forall i | 0 <= i < |t| :: IsSpace(t[i])
  {
    RStripMeans(t);
    LStripEmpty(RStrip(t));
    var k := |RStrip(t)|;
    assert forall i | 0 <= i < k :: RStrip(t)[i] == t[i];
    assert forall i | k <= i < |t| :: t[i] == t[k..][i - k];
  }

  /** A text field compares as the lower-cased text it reads, and is empty if that is blank. */
  lemma TextLeaf<V>(lib: Library<V>, c: MailContext, field: string, t: string, value: V)
    requires ReadsText(c, field, t)
    ensures ComparesText(lib, c, field, lib.lower(Str(t)), value)
    ensures ComparesNumber(lib, c, field, lib.float(Str(t)), value)
    ensures EmptyIff(lib, c, field, forall i | 0 <= i < |t| :: IsSpace(t[i]), value)
  {
    TextIsRead(c, field, t);
    TextScalar(lib, c, field, Str(t), lib.lower(Str(t)), value);
    NumberScalar(lib, c, field, Str(t), value);
    EmptyScalar(lib, c, field, Str(t), value);
    BlankIff(t);
  }

  /** An entry of the contact that is null compares as the empty text and is empty. */
  lemma NullLeaf<V>(lib: Library<V>, c: MailContext, field: string, key: string, value: V)
    requires (field == "contact_name" && key == "display_name") || (field == "contact_org" && key == "organization")
    requires c.contact.Some? && key in c.contact.value.entries && c.contact.value.entries[key] == None
    ensures ComparesText(lib, c, field, "", value) && EmptyIff(lib, c, field, true, value)
  {
    NullIsRead(c, field, key);
    TextScalar(lib, c, field, Nothing, "", value);
    EmptyScalar(lib, c, field, Nothing, value);
  }

  /** The size compares as the number it is, and is never empty. */
  lemma SizeLeaf<V>(lib: Library<V>, c: MailContext, value: V)
    ensures ComparesText(lib, c, "size", lib.lower(Num(c.mailSize as real)), value)
    ensures ComparesNumber(lib, c, "size", Some(c.mailSize as real), value)
    ensures EmptyIff(lib, c, "size", false, value)
  {
    SizeIsRead(c);
    EmptyScalar(lib, c, "size", Num(c.mailSize as real), value);
    TextScalar(lib, c, "size", Num(c.mailSize as real), lib.lower(Num(c.mailSize as real)), value);
    NumberScalar(lib, c, "size", Num(c.mailSize as real), value);
  }

  /** A boolean field can only be compared for equality with the truth of the value, and is empty if it is false. */
  lemma FlagLeaf<V>(lib: Library<V>, c: MailContext, field: string, b: bool, op: FieldOp, value: V)
    requires ReadsFlag(c, field, b)
    ensures Holds(lib, c, Leaf(field, op, value)) <==>
      match op
      case EQUALS => b == lib.truth(value)
      case NOT_EQUALS => b != lib.truth(value)
      case IS_EMPTY => !b
      case IS_NOT_EMPTY => b
      case _ => false
  {
    FlagIsRead(c, field, b);
  }

  /** The attachment names compare if one of them does, as a subject of that name would, and are empty if there are none. */
  lemma AttachmentLeaf<V>(lib: Library<V>, c: MailContext, op: FieldOp, value: V)
    ensures Holds(lib, c, Leaf("attachment_name", op, value)) <==>
      match op
      case IS_EMPTY => c.attachmentNames == []
      case IS_NOT_EMPTY => c.attachmentNames != []
      case _ => exists i | 0 <= i < |c.attachmentNames| ::
        Holds(lib, c.(subject := c.attachmentNames[i]), Leaf("subject", op, value))
  {
    assert "header:"[0] == 'h' && "attachment_name"[0] == 'a';
    forall i | 0 <= i < |c.attachmentNames|
      ensures ResolveField("subject", c.(subject := c.attachmentNames[i])) == One(Str(c.attachmentNames[i]))
    {
      TextIsRead(c.(subject := c.attachmentNames[i]), "subject", c.attachmentNames[i]);
    }
  }

  /** But for attachment names, nothing is both greater and less. */
  lemma GreaterExcludesLess<V>(lib: Library<V>, c: MailContext, field: string, value: V)
    requires field != "attachment_name"
    ensures !(Holds(lib, c, Leaf(field, GREATER_THAN, value)) && Holds(lib, c, Leaf(field, LESS_THAN, value)))
  {
    assert "header:"[0] == 'h';
  }

  // ---- what a condition does not look at -----------------------------------------------------------

  datatype Attribute =
    | Sender | Recipient | Subject | Body | Headers | Date | HasAttachments | AttachmentNames | MailSize | IsReply
    | IsForwarded | ContactEntries

  /** The mails differ at most in this attribute. */
  predicate AgreeBut(c: MailContext, d: MailContext, a: Attribute) {
    && (a.Sender? || c.sender == d.sender)
    && (a.Recipient? || c.recipient == d.recipient)
    && (a.Subject? || c.subject == d.subject)
    && (a.Body? || c.body == d.body)
    && (a.Headers? || c.headers == d.headers)
    && (a.Date? || c.date == d.date)
    && (a.HasAttachments? || c.hasAttachments == d.hasAttachments)
    && (a.AttachmentNames? || c.attachmentNames == d.attachmentNames)
    && (a.MailSize? || c.mailSize == d.mailSize)
    && (a.IsReply? || c.isReply == d.isReply)
    && (a.IsForwarded? || c.isForwarded == d.isForwarded)
    && (a.ContactEntries? || c.contact == d.contact)
  }

  predicate Names(field: string, a: Attribute) {
    match a
    case Sender => field == "from"
    case Recipient => field == "to"
    case Subject => field == "subject"
    case Body => field == "body"
    case Headers => "header:" <= field || field == "cc"
    case Date => field == "date"
    case HasAttachments => field == "has_attachment"
    case AttachmentNames => field == "attachment_name"
    case MailSize => field == "size"
    case IsReply => field == "is_reply"
    case IsForwarded => field == "is_forwarded"
    case ContactEntries => field == "contact_name" || field == "contact_org"
  }

  predicate Avoids<V>(item: Item<V>, a: Attribute) {
    match item
    case Leaf(field, _, _) => !Names(field, a)
    case Group(_, rules) => forall i | 0 <= i < |rules| :: Avoids(rules[i], a)
  }

  lemma OtherFieldsRead(c: MailContext, d: MailContext, a: Attribute, field: string)
    requires AgreeBut(c, d, a) && !Names(field, a)
    ensures ResolveField(field, c) == ResolveField(field, d)
  {
  }

  /** Two mails that differ in one attribute only are alike to every tree that does not name it. */
  lemma {:induction false} UnnamedIsUnread<V>(lib: Library<V>, c: MailContext, d: MailContext, a: Attribute, item: Item<V>)
    requires AgreeBut(c, d, a) && Avoids(item, a)
    ensures Holds(lib, c, item) <==> Holds(lib, d, item)
    decreases item
  {
    match item
    case Leaf(field, op, value) => OtherFieldsRead(c, d, a, field);
    case Group(conj, rules) =>
      forall i | 0 <= i < |rules| ensures Holds(lib, c, rules[i]) <==> Holds(lib, d, rules[i]) {
        UnnamedIsUnread(lib, c, d, a, rules[i]);
      }
  }
}
