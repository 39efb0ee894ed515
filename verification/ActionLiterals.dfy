/** The parser of action strings, in the strings that plugins and rules print (backend/app/services/imap_actions.py). */
module ActionLiterals {
  import opened Prelude
  import opened Text
  import opened ActionStrings

  /** What stands before a parameter, and the action it names. */
  predicate IsPrefixOf(p: string, kind: ActionKind) {
    || (p == "create_and_apply_label:" && kind == CREATE_AND_APPLY_LABEL)
    || (p == "apply_label:" && kind == APPLY_LABEL)
    || (p == "move_to:" && kind == MOVE_TO)
    || (p == "create_folder:" && kind == CREATE_FOLDER)
    || (p == "log_new_labels:" && kind == LOG_NEW_LABELS)
    || (p == "log_new_folder:" && kind == LOG_NEW_FOLDER)
    || (p == "create_calendar_event:" && kind == CREATE_CALENDAR_EVENT)
    || (p == "store_coupon:" && kind == STORE_COUPON)
    || (p == "store_otp:" && kind == STORE_OTP)
    || (p == "store_unsubscribe_url:" && kind == STORE_UNSUBSCRIBE_URL)
  }

  lemma PrefixIsListed(p: string, kind: ActionKind) returns (i: nat)
    requires IsPrefixOf(p, kind)
    ensures i < |PREFIX_MAP| && PREFIX_MAP[i] == (p, kind)
  {
    if kind == CREATE_AND_APPLY_LABEL { i := 0; }
    else if kind == APPLY_LABEL { i := 1; }
    else if kind == MOVE_TO { i := 2; }
    else if kind == CREATE_FOLDER { i := 3; }
    else if kind == LOG_NEW_LABELS { i := 4; }
    else if kind == LOG_NEW_FOLDER { i := 5; }
    else if kind == CREATE_CALENDAR_EVENT { i := 6; }
    else if kind == STORE_COUPON { i := 7; }
    else if kind == STORE_OTP { i := 8; }
    else { i := 9; }
  }

  /** A string with one of these prefixes parses to its action, with what follows as the parameter if it ends neither in
      a space nor in a parenthesis. */
  lemma PrefixedLiteral(p: string, kind: ActionKind, x: string)
    requires IsPrefixOf(p, kind) && !EndsInSpace(x) && '(' !in x
    ensures ParseAction(p + x) == ParsedAction(kind, Some(x), p + x)
  {
    var i := PrefixIsListed(p, kind);
    PrefixedActionParses(i, p, x);
    NoParenthesisNoAnnotation(x);
  }

  /** Any confidence, in any spacing, behind an action is ignored. */
  lemma ConfidenceIsIgnored(p: string, kind: ActionKind, x: string, a: string, b: string, d: string, c: string)
    requires IsPrefixOf(p, kind) && !EndsInSpace(x)
    requires AllSpace(a) && AllSpace(b) && AllSpace(c) && d != "" && forall i | 0 <= i < |d| :: '0' <= d[i] <= '9'
    ensures ParseAction(p + (x + (a + "(confidence:" + b + d + "%)" + c))).kind == kind
    ensures ParseAction(p + (x + (a + "(confidence:" + b + d + "%)" + c))).value == Some(x)
  {
    var note := a + "(confidence:" + b + d + "%)" + c;
    var i := PrefixIsListed(p, kind);
    PrefixedActionParses(i, p, x + note);
    assert Spells(note, a, OPEN, b, d, CLOSE, c);
    AnnotationIsRemoved(x, note);
  }

  /** The server is asked for six kinds of actions, in order, and for no others. */
  lemma {:induction false} ServerActions(actions: seq<string>)
    ensures FilterImapActions(actions) == if actions == [] then [] else
      (if ParseAction(actions[0]).kind in
          {APPLY_LABEL, CREATE_AND_APPLY_LABEL, MOVE_TO, MOVE_TO_SPAM, CREATE_FOLDER, MARK_AS_READ}
       then [ParseAction(actions[0])] else []) + FilterImapActions(actions[1..])
  {
    if actions != [] {
      assert ParseAll(actions)[0] == ParseAction(actions[0]) && ParseAll(actions)[1..] == ParseAll(actions[1..]);
    }
  }
}
