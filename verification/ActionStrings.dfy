/** Action strings and the one parser that reads them back (backend/app/services/imap_actions.py). */
module ActionStrings {
  import opened Prelude
  import opened Text

  datatype ActionKind =
    | APPLY_LABEL | CREATE_AND_APPLY_LABEL | MOVE_TO | MOVE_TO_SPAM | CREATE_FOLDER | MARK_AS_READ
    | LOG_NEW_LABELS | LOG_NEW_FOLDER | CREATE_DRAFT_REPLY | SAVE_TO_DRAFTS | CREATE_CALENDAR_EVENT
    | STORE_COUPON | STORE_OTP | STORE_SUMMARY | STORE_UNSUBSCRIBE_URL | UNKNOWN

  datatype ParsedAction = ParsedAction(kind: ActionKind, value: Option<string>, raw: string)

  const LABEL_PREFIX := "apply_label:"
  const CREATE_LABEL_PREFIX := "create_and_apply_label:"
  const MOVE_TO_PREFIX := "move_to:"
  const CREATE_FOLDER_PREFIX := "create_folder:"
  const LOG_NEW_LABELS_PREFIX := "log_new_labels:"
  const LOG_NEW_FOLDER_PREFIX := "log_new_folder:"

  type PrefixTable = seq<(string, ActionKind)>

  const PREFIX_MAP: PrefixTable := [
    (CREATE_LABEL_PREFIX, CREATE_AND_APPLY_LABEL),
    (LABEL_PREFIX, APPLY_LABEL),
    (MOVE_TO_PREFIX, MOVE_TO),
    (CREATE_FOLDER_PREFIX, CREATE_FOLDER),
    (LOG_NEW_LABELS_PREFIX, LOG_NEW_LABELS),
    (LOG_NEW_FOLDER_PREFIX, LOG_NEW_FOLDER),
    ("create_calendar_event:", CREATE_CALENDAR_EVENT),
    ("store_coupon:", STORE_COUPON),
    ("store_otp:", STORE_OTP),
    ("store_unsubscribe_url:", STORE_UNSUBSCRIBE_URL)
  ]

  const EXACT_MAP: map<string, ActionKind> :=
    map["move_to_spam" := MOVE_TO_SPAM, "mark_as_read" := MARK_AS_READ, "save_to_drafts" := SAVE_TO_DRAFTS]

  // ---- the confidence annotation -----------------------------------------------------------

  predicate IsDigit(c: char) {
    '0' <= c <= '9'
  }

  predicate AllDigits(s: string) {
    forall i | 0 <= i < |s| :: IsDigit(s[i])
  }

  const OPEN := "(confidence:"
  const CLOSE := "%)"

  ghost predicate Spells(x: string, a: string, open: string, b: string, d: string, close: string, c: string) {
    && AllSpace(a) && AllSpace(b) && AllDigits(d) && d != "" && AllSpace(c)
    && x == a + open + b + d + close + c
  }

  /** The language of the annotation pattern: spaces, "(confidence:", spaces, digits, "%)", spaces. */
  ghost predicate IsAnnotation(x: string) {
    exists a, b, d, c :: Spells(x, a, OPEN, b, d, CLOSE, c)
  }

  function TrimDigits(s: string): (r: string)
    ensures |r| <= |s|
  {
    if s != "" && IsDigit(s[|s| - 1]) then TrimDigits(s[..|s| - 1]) else s
  }

  lemma {:induction false} TrimDigitsMeans(s: string)
    ensures TrimDigits(s) == s[..|TrimDigits(s)|]
    ensures AllDigits(s[|TrimDigits(s)|..])
    decreases |s|
  {
    if s != "" && IsDigit(s[|s| - 1]) {
      TrimDigitsMeans(s[..|s| - 1]);
      var k := |TrimDigits(s)|;
      assert s[..|s| - 1][..k] == s[..k];
      assert s[k..] == s[..|s| - 1][k..] + [s[|s| - 1]];
    }
  }

  /** What precedes "(confidence:" in a text that ends in that mark, spaces and a number. */
  function BeforeNumber(s: string): Option<string> {
    var e := TrimDigits(s);
    var g := RStrip(e);
    if |e| < |s| && EndsWith(g, OPEN) then Some(g[..|g| - |OPEN|]) else None
  }

  /** The text with a final annotation, and the spaces around it, removed. */
  function Unannotated(s: string): string {
    var t := RStrip(s);
    if EndsWith(t, CLOSE) then
      match BeforeNumber(t[..|t| - |CLOSE|])
      case Some(h) => RStrip(h)
      case None => s
    else s
  }

  function Normalised(raw: string): string {
    Strip(Unannotated(raw))
  }

  // ---- the parser --------------------------------------------------------------------------

  function Lookup(table: PrefixTable, s: string): Option<(ActionKind, string)> {
    if table == [] then None
    else if table[0].0 <= s then Some((table[0].1, s[|table[0].0|..]))
    else Lookup(table[1..], s)
  }

  function ParseAction(raw: string): (r: ParsedAction)
    ensures r.raw == raw
  {
    var s := Normalised(raw);
    if s in EXACT_MAP then ParsedAction(EXACT_MAP[s], None, raw)
    else
      match Lookup(PREFIX_MAP, s)
      case Some((kind, value)) => ParsedAction(kind, Some(value), raw)
      case None =>
        if "create_draft_reply" <= s then ParsedAction(CREATE_DRAFT_REPLY, None, raw)
        else if "store_summary" <= s then ParsedAction(STORE_SUMMARY, None, raw)
        else ParsedAction(UNKNOWN, None, raw)
  }

  predicate IsImap(k: ActionKind) {
    k in {APPLY_LABEL, CREATE_AND_APPLY_LABEL, MOVE_TO, MOVE_TO_SPAM, CREATE_FOLDER, MARK_AS_READ}
  }

  function ParseAll(actions: seq<string>): (r: seq<ParsedAction>)
    ensures |r| == |actions|
  {
    if actions == [] then [] else [ParseAction(actions[0])] + ParseAll(actions[1..])
  }

  function OnlyImap(parsed: seq<ParsedAction>): (r: seq<ParsedAction>)
    ensures forall pa | pa in r :: pa in parsed && IsImap(pa.kind)
  {
    if parsed == [] then [] else (if IsImap(parsed[0].kind) then [parsed[0]] else []) + OnlyImap(parsed[1..])
  }

  function FilterImapActions(actions: seq<string>): seq<ParsedAction> {
    OnlyImap(ParseAll(actions))
  }

  // ---- the prefix table --------------------------------------------------------------------

  ghost predicate PrefixFree(table: PrefixTable) {
    forall i, j | 0 <= i < |table| && 0 <= j < |table| && i != j :: !(table[i].0 <= table[j].0)
  }

  lemma PrefixMapIsPrefixFree()
    ensures PrefixFree(PREFIX_MAP)
  {
    forall i, j | 0 <= i < |PREFIX_MAP| && 0 <= j < |PREFIX_MAP| && i != j ensures !(PREFIX_MAP[i].0 <= PREFIX_MAP[j].0) {
      var p, q := PREFIX_MAP[i].0, PREFIX_MAP[j].0;
      // Each prefix is told apart from the others by one of four characters.
      assert p[0] != q[0] || p[6] != q[6] || p[7] != q[7] || (|p| > 8 && |q| > 8 && p[8] != q[8]);
    }
  }

  /** In a prefix-free table the entry that matches is the only one, wherever it stands. */
  lemma {:induction false} LookupFindsTheMatch(table: PrefixTable, i: nat, s: string)
    requires PrefixFree(table) && i < |table| && table[i].0 <= s
    ensures Lookup(table, s) == Some((table[i].1, s[|table[i].0|..]))
  {
    if i > 0 {
      var p, q := table[0].0, table[i].0;
      assert p <= s ==> p <= q || q <= p;
      assert table[1..][i - 1] == table[i];
      LookupFindsTheMatch(table[1..], i - 1, s);
    }
  }

  lemma {:induction false} LookupNoneMeansNoMatch(table: PrefixTable, s: string)
    requires forall e | e in table :: !(e.0 <= s)
    ensures Lookup(table, s) == None
  {
    if table != [] {
      assert table[0] in table;
      assert forall e | e in table[1..] :: e in table;
      LookupNoneMeansNoMatch(table[1..], s);
    }
  }

  /** The order of the prefix table is irrelevant: any table with the same entries finds the same. */
  lemma TableOrderIsIrrelevant(table: PrefixTable, s: string)
    requires PrefixFree(table) && forall e :: e in table <==> e in PREFIX_MAP
    ensures Lookup(table, s) == Lookup(PREFIX_MAP, s)
  {
    PrefixMapIsPrefixFree();
    if i :| 0 <= i < |PREFIX_MAP| && PREFIX_MAP[i].0 <= s {
      assert PREFIX_MAP[i] in table;
      var j :| 0 <= j < |table| && table[j] == PREFIX_MAP[i];
      LookupFindsTheMatch(PREFIX_MAP, i, s);
      LookupFindsTheMatch(table, j, s);
    } else {
      LookupNoneMeansNoMatch(PREFIX_MAP, s);
      LookupNoneMeansNoMatch(table, s);
    }
  }

  // ---- the annotation is removed exactly ----------------------------------------------------

  lemma {:induction false} TrimDigitsStops(p: string, d: string)
    requires AllDigits(d) && (p == "" || !IsDigit(p[|p| - 1]))
    ensures TrimDigits(p + d) == p
    decreases |d|
  {
    if d == "" {
      assert p + d == p;
    } else {
      assert (p + d)[..|p + d| - 1] == p + d[..|d| - 1];
      TrimDigitsStops(p, d[..|d| - 1]);
    }
  }

  lemma NumberIsRemoved(h: string, open: string, b: string, d: string)
    requires open == OPEN && AllSpace(b) && AllDigits(d) && d != ""
    ensures BeforeNumber(h + open + b + d) == Some(h)
  {
    var head := h + open;
    assert head[|head| - 1] == ':';
    TrimDigitsStops(head + b, d);
    RStripSpaces(head, b);
    assert RStrip(head) == head;
    assert head[|head| - |open|..] == open && head[..|head| - |open|] == h;
  }

  lemma CloseIsRemoved(number: string, close: string, c: string)
    requires close == CLOSE && AllSpace(c)
    ensures var s := number + close + c;
      Unannotated(s) == match BeforeNumber(number) case Some(h) => RStrip(h) case None => s
  {
    var t := number + close;
    RStripSpaces(t, c);
    assert t[|t| - 1] == ')';
    assert RStrip(t) == t;
    assert t[|t| - |close|..] == close && t[..|t| - |close|] == number;
  }

  lemma SpelledBehind(p: string, x: string, a: string, open: string, b: string, d: string, close: string, c: string)
    requires x == a + open + b + d + close + c
    ensures p + x == ((p + a) + open + b + d) + close + c
  {
  }

  lemma SpelledIsRemoved(p: string, x: string, a: string, open: string, b: string, d: string, close: string, c: string)
    requires open == OPEN && close == CLOSE && Spells(x, a, open, b, d, close, c)
    ensures Unannotated(p + x) == RStrip(p)
  {
    SpelledBehind(p, x, a, open, b, d, close, c);
    NumberIsRemoved(p + a, open, b, d);
    CloseIsRemoved((p + a) + open + b + d, close, c);
    RStripSpaces(p, a);
  }

  /** A final annotation is cut off whole, with the spaces before it. */
  lemma AnnotationIsRemoved(p: string, x: string)
    requires IsAnnotation(x)
    ensures Unannotated(p + x) == RStrip(p)
  {
    var a, b, d, c :| Spells(x, a, OPEN, b, d, CLOSE, c);
    SpelledIsRemoved(p, x, a, OPEN, b, d, CLOSE, c);
  }

  ghost predicate EndsAnnotated(s: string) {
    exists k :: 0 <= k <= |s| && IsAnnotation(s[k..])
  }

  lemma Rejoin(s: string, t: nat, e: nat, g: nat, open: string, close: string)
    requires |open| <= g <= e <= t - |close| && |close| <= t <= |s|
    requires s[g - |open|..g] == open && s[t - |close|..t] == close
    ensures s == s[..g - |open|] + ("" + open + s[g..e] + s[e..t - |close|] + close + s[t..])
  {
  }

  lemma PrefixIsTake(p: string, s: string)
    requires p <= s
    ensures s[..|p|] == p
  {
  }

  lemma BeforeNumberMeans(n: string, open: string) returns (g: nat, e: nat)
    requires open == OPEN && BeforeNumber(n).Some?
    ensures |open| <= g <= e < |n| && n[g - |open|..g] == open && AllSpace(n[g..e]) && AllDigits(n[e..])
  {
    var digitless := TrimDigits(n);
    var spaceless := RStrip(digitless);
    g, e := |spaceless|, |digitless|;
    TrimDigitsMeans(n);
    RStripMeans(digitless);
    PrefixIsTake(digitless, n);
    PrefixIsTake(spaceless, digitless);
    assert n[g..e] == digitless[g..];
    assert n[g - |open|..g] == spaceless[g - |open|..];
  }

  lemma SliceOfTake(s: string, k: nat, i: nat, j: nat)
    requires i <= j <= k <= |s|
    ensures s[..k][i..j] == s[i..j]
  {
  }

  lemma AnnotationIsThere(s: string, t: nat, e: nat, g: nat, open: string, close: string)
    requires open == OPEN && close == CLOSE
    requires |open| <= g <= e < t - |close| && |close| <= t <= |s|
    requires s[g - |open|..g] == open && s[t - |close|..t] == close
    requires AllSpace(s[g..e]) && AllDigits(s[e..t - |close|]) && AllSpace(s[t..])
    ensures EndsAnnotated(s)
  {
    Rejoin(s, t, e, g, open, close);
    var x := "" + open + s[g..e] + s[e..t - |close|] + close + s[t..];
    assert Spells(x, "", open, s[g..e], s[e..t - |close|], close, s[t..]);
    assert s[g - |open|..] == x;
  }

  lemma CutMeansAnnotated(s: string, t: nat, open: string, close: string)
    requires open == OPEN && close == CLOSE && |close| <= t <= |s| && AllSpace(s[t..])
    requires s[..t][t - |close|..] == close && BeforeNumber(s[..t][..t - |close|]).Some?
    ensures EndsAnnotated(s)
  {
    var k := t - |close|;
    SliceOfTake(s, t, 0, k);
    SliceOfTake(s, t, k, t);
    var g, e := BeforeNumberMeans(s[..k], open);
    SliceOfTake(s, k, g - |open|, g);
    SliceOfTake(s, k, g, e);
    SliceOfTake(s, k, e, k);
    AnnotationIsThere(s, t, e, g, open, close);
  }

  /** Only a final annotation makes a difference. */
  lemma UnannotatedChangesOnlyAnnotations(s: string)
    requires Unannotated(s) != s
    ensures EndsAnnotated(s)
  {
    var r := RStrip(s);
    RStripMeans(s);
    assert EndsWith(r, CLOSE);
    CutMeansAnnotated(s, |r|, OPEN, CLOSE);
  }

  lemma AnnotationStart(x: string) returns (i: nat)
    requires IsAnnotation(x)
    ensures i < |x| && x[i] == '(' && AllSpace(x[..i])
  {
    var a, b, d, c :| Spells(x, a, OPEN, b, d, CLOSE, c);
    i := |a|;
    assert x[i] == OPEN[0];
    assert x[..i] == a;
  }

  /** An annotation begins with spaces and a parenthesis, so it cannot begin before a colon. */
  lemma AnnotationIsBehindColon(p: string, t: string, k: nat)
    requires p != "" && p[|p| - 1] == ':' && '(' !in p
    requires k <= |p + t| && IsAnnotation((p + t)[k..])
    ensures k >= |p|
  {
    var i := AnnotationStart((p + t)[k..]);
    assert (p + t)[k + i] == '(';
    assert forall j | k <= j < k + i :: (p + t)[j] == (p + t)[k..][..i][j - k];
    assert forall j | 0 <= j < |p| :: (p + t)[j] == p[j] && p[j] in p;
    assert (p + t)[|p| - 1] == ':';
  }

  lemma AnnotatedBehind(p: string, t: string, k: nat)
    requires !EndsInSpace(p) && k <= |t| && IsAnnotation(t[k..])
    ensures Unannotated(t) == RStrip(t[..k]) && Unannotated(p + t) == p + RStrip(t[..k])
  {
    assert t == t[..k] + t[k..] && p + t == (p + t[..k]) + t[k..];
    AnnotationIsRemoved(t[..k], t[k..]);
    AnnotationIsRemoved(p + t[..k], t[k..]);
    RStripAppend(p, t[..k]);
  }

  lemma AnnotatedInRest(p: string, t: string)
    requires p != "" && p[|p| - 1] == ':' && '(' !in p && EndsAnnotated(p + t)
    ensures EndsAnnotated(t)
  {
    var k :| 0 <= k <= |p + t| && IsAnnotation((p + t)[k..]);
    AnnotationIsBehindColon(p, t, k);
    assert (p + t)[k..] == t[k - |p|..];
  }

  lemma UnannotatedIfPlain(s: string)
    requires !EndsAnnotated(s)
    ensures Unannotated(s) == s
  {
    if Unannotated(s) != s {
      UnannotatedChangesOnlyAnnotations(s);
    }
  }

  /** Behind a prefix that ends in a colon, the annotation of the rest is cut off and nothing else. */
  lemma UnannotatedBehindColon(p: string, t: string)
    requires p != "" && p[|p| - 1] == ':' && '(' !in p
    ensures Unannotated(p + t) == p + Unannotated(t)
  {
    if EndsAnnotated(t) {
      var k :| 0 <= k <= |t| && IsAnnotation(t[k..]);
      AnnotatedBehind(p, t, k);
    } else {
      if EndsAnnotated(p + t) { AnnotatedInRest(p, t); }
      UnannotatedIfPlain(t);
      UnannotatedIfPlain(p + t);
    }
  }

  lemma AnnotatedOpens(s: string)
    requires EndsAnnotated(s)
    ensures '(' in s
  {
    var k :| 0 <= k <= |s| && IsAnnotation(s[k..]);
    var i := AnnotationStart(s[k..]);
    assert s[k + i] == '(';
  }

  /** A text without parentheses has no annotation. */
  lemma NoParenthesisNoAnnotation(s: string)
    requires '(' !in s
    ensures Unannotated(s) == s
  {
    if Unannotated(s) != s {
      UnannotatedChangesOnlyAnnotations(s);
      AnnotatedOpens(s);
    }
  }

  // ---- what printed actions parse to ---------------------------------------------------------

  lemma PrefixShape(p: string)
    requires exists i :: 0 <= i < |PREFIX_MAP| && PREFIX_MAP[i].0 == p
    ensures p != "" && !IsSpace(p[0]) && p[|p| - 1] == ':' && '(' !in p
  {
  }

  lemma NormalisedBehindColon(p: string, t: string)
    requires p != "" && !IsSpace(p[0]) && p[|p| - 1] == ':' && '(' !in p
    ensures Normalised(p + t) == p + RStrip(Unannotated(t))
  {
    UnannotatedBehindColon(p, t);
    RStripAppend(p, Unannotated(t));
  }

  lemma ColonIsNotExact(p: string, t: string)
    requires p != "" && p[|p| - 1] == ':'
    ensures p + t !in EXACT_MAP
  {
    assert (p + t)[|p| - 1] == ':';
    assert forall e | e in EXACT_MAP :: ':' !in e;
  }

  /** Every prefixed action string parses to its own kind; the parameter comes back without a final annotation
      and without trailing spaces. */
  lemma PrefixedActionParses(i: nat, p: string, t: string)
    requires i < |PREFIX_MAP| && p == PREFIX_MAP[i].0
    ensures ParseAction(p + t) == ParsedAction(PREFIX_MAP[i].1, Some(RStrip(Unannotated(t))), p + t)
  {
    assert PREFIX_MAP[i] in PREFIX_MAP;
    PrefixShape(p);
    NormalisedBehindColon(p, t);
    ColonIsNotExact(p, RStrip(Unannotated(t)));
    PrefixMapIsPrefixFree();
    LookupFindsTheMatch(PREFIX_MAP, i, p + RStrip(Unannotated(t)));
  }

  /** The trimming leaves a parameter alone exactly when it ends neither in a space nor in an annotation. */
  lemma TrimmedIff(t: string)
    ensures RStrip(Unannotated(t)) == t <==> !EndsInSpace(t) && !EndsAnnotated(t)
  {
    if EndsAnnotated(t) {
      var k :| 0 <= k <= |t| && IsAnnotation(t[k..]);
      assert t == t[..k] + t[k..];
      AnnotationIsRemoved(t[..k], t[k..]);
      var i := AnnotationStart(t[k..]);
      assert |RStrip(t[..k])| < |t|;
    } else {
      UnannotatedIfPlain(t);
    }
  }

  lemma OnlyImapOne(pa: ParsedAction)
    ensures OnlyImap([pa]) == if IsImap(pa.kind) then [pa] else []
  {
    assert [pa][0] == pa && [pa][1..] == [];
    assert OnlyImap([]) == [];
  }

  lemma ParseOne(raw: string, parsed: ParsedAction)
    requires ParseAction(raw) == parsed
    ensures ParseAll([raw]) == [parsed]
  {
    assert [raw][0] == raw && [raw][1..] == [];
    assert ParseAll([]) == [];
  }

  lemma FilterDropsUnknown(raw: string)
    requires !IsImap(ParseAction(raw).kind)
    ensures FilterImapActions([raw]) == []
  {
    ParseOne(raw, ParseAction(raw));
    OnlyImapOne(ParseAction(raw));
  }

  lemma {:induction false} ParseAllAppend(a: seq<string>, b: seq<string>)
    ensures ParseAll(a + b) == ParseAll(a) + ParseAll(b)
  {
    if a == [] {
      assert a + b == b;
    } else {
      assert (a + b)[0] == a[0] && (a + b)[1..] == a[1..] + b;
      ParseAllAppend(a[1..], b);
    }
  }
}
