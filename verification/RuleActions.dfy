/** Rule actions and the action strings they are printed to
    (backend/app/schemas/rules.py, backend/app/services/rules.py). */
module RuleActions {
  import opened Prelude
  import opened Text
  import opened ActionStrings

  datatype ActionType =
    | MOVE | COPY | LABEL | REMOVE_LABEL | MARK_READ | MARK_UNREAD | FLAG | DELETE | NOTIFY | CREATE_DRAFT | CREATE_EVENT

  datatype RuleAction = RuleAction(kind: ActionType, target: Option<string>, value: Option<string>)

  /** A parameter that is present and not empty. */
  predicate Given(s: Option<string>) {
    s.Some? && s.value != ""
  }

  /** The parameters an action must carry to be accepted. */
  predicate ValidParams(a: RuleAction) {
    && (a.kind in {MOVE, COPY, NOTIFY} ==> Given(a.target))
    && (a.kind in {LABEL, REMOVE_LABEL} ==> Given(a.value))
  }

  function Mapping(k: ActionType): Option<string> {
    match k
    case MOVE => Some("move_to:")
    case LABEL => Some("label:")
    case MARK_READ => Some("mark_as_read")
    case DELETE => Some("move_to_spam")
    case _ => None
  }

  /** The action string, if the action has one; the parameter is the target or else the value. */
  function ToImap(a: RuleAction): Option<string> {
    match Mapping(a.kind)
    case None => None
    case Some(m) =>
      if !EndsWith(m, ":") then Some(m)
      else if Given(a.target) then Some(m + a.target.value)
      else if Given(a.value) then Some(m + a.value.value)
      else None
  }

  lemma Printed(a: RuleAction, p: string, t: string)
    requires (a.kind == MOVE && p == "move_to:") || (a.kind == LABEL && p == "label:")
    requires t != "" && ValidParams(a) && t == if Given(a.target) then a.target.value else a.value.value
    ensures ToImap(a) == Some(p + t)
  {
    assert p[|p| - 1..] == ":";
  }

  /** A move comes back from the parser with its own target exactly when the target has no trailing space and
      no trailing confidence annotation. */
  lemma MoveSurvivesIff(a: RuleAction)
    requires a.kind == MOVE && ValidParams(a)
    ensures ToImap(a).Some?
    ensures ParseAction(ToImap(a).value).kind == MOVE_TO
    ensures ParseAction(ToImap(a).value).value == a.target
      <==> !EndsInSpace(a.target.value) && !EndsAnnotated(a.target.value)
  {
    Printed(a, "move_to:", a.target.value);
    PrefixedActionParses(2, "move_to:", a.target.value);
    TrimmedIff(a.target.value);
  }

  /** Marking as read and deleting come back as such; deleting means moving to spam. */
  lemma BareActionsSurvive()
    ensures ParseAction("mark_as_read") == ParsedAction(MARK_AS_READ, None, "mark_as_read")
    ensures ParseAction("move_to_spam") == ParsedAction(MOVE_TO_SPAM, None, "move_to_spam")
  {
    NoParenthesisNoAnnotation("mark_as_read");
    NoParenthesisNoAnnotation("move_to_spam");
    StripIdentity("mark_as_read");
    StripIdentity("move_to_spam");
  }

  lemma NoPrefixStartsLikeLabel(p: string, s: string)
    requires p == "label:" && p <= s
    ensures Lookup(PREFIX_MAP, s) == None && !("create_draft_reply" <= s) && !("store_summary" <= s)
  {
    assert s[0] == p[0] && s[1] == p[1];
    forall e | e in PREFIX_MAP ensures !(e.0 <= s) {
      assert e.0[0] != 'l' || e.0[1] != 'a';
    }
    LookupNoneMeansNoMatch(PREFIX_MAP, s);
    assert "create_draft_reply"[0] == 'c' && "store_summary"[0] == 's';
  }

  lemma LabelPrefixIsUnknown(p: string, t: string)
    requires p == "label:"
    ensures ParseAction(p + t).kind == UNKNOWN
  {
    NormalisedBehindColon(p, t);
    ColonIsNotExact(p, RStrip(Unannotated(t)));
    NoPrefixStartsLikeLabel(p, p + RStrip(Unannotated(t)));
  }

  /** "label:" is not a prefix the parser knows: a label action is always dropped. */
  lemma LabelIsLost(a: RuleAction)
    requires a.kind == LABEL && ValidParams(a)
    ensures ToImap(a).Some?
    ensures ParseAction(ToImap(a).value).kind == UNKNOWN
    ensures FilterImapActions([ToImap(a).value]) == []
  {
    var t := if Given(a.target) then a.target.value else a.value.value;
    Printed(a, "label:", t);
    LabelPrefixIsUnknown("label:", t);
    FilterDropsUnknown("label:" + t);
  }

  lemma PrintedBare(a: RuleAction)
    ensures a.kind == MARK_READ ==> ToImap(a) == Some("mark_as_read")
    ensures a.kind == DELETE ==> ToImap(a) == Some("move_to_spam")
  {
    assert "mark_as_read"[|"mark_as_read"| - 1] == 'd' && "move_to_spam"[|"move_to_spam"| - 1] == 'm';
  }

  /** The actions of a rule that do anything to a mail are its moves, mark-reads and deletes. */
  lemma OnlyMoveReadDeleteReachTheServer(a: RuleAction)
    requires ValidParams(a)
    ensures (ToImap(a).Some? && IsImap(ParseAction(ToImap(a).value).kind)) <==> a.kind in {MOVE, MARK_READ, DELETE}
  {
    match a.kind
    case MOVE => MoveSurvivesIff(a);
    case LABEL => LabelIsLost(a);
    case MARK_READ => PrintedBare(a); BareActionsSurvive();
    case DELETE => PrintedBare(a); BareActionsSurvive();
    case _ =>
  }
}
