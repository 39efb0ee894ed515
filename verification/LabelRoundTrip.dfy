/** Labels survive the way through printed action strings: the server gets exactly the labels the plugin chose, and
    the change log exactly the new ones. */
module LabelRoundTrip {
  import opened Prelude
  import opened Text
  import opened ActionStrings
  import opened Labeling

  // ---- one label ---------------------------------------------------------------------------

  /** Text without parentheses and without a space at the end comes back as it is. */
  lemma PlainText(s: string)
    requires '(' !in s && !EndsInSpace(s)
    ensures RStrip(Unannotated(s)) == s
  {
    NoParenthesisNoAnnotation(s);
  }

  ghost predicate Plain(labels: seq<string>) {
    forall i | 0 <= i < |labels| :: IsLabel(labels[i]) && labels[i] != ""
  }

  lemma NotALabelChar(l: string, c: char)
    requires LabelText(l) && !IsLabelChar(c)
    ensures c !in l
  {
    assert forall i | 0 <= i < |l| :: l[i] != c;
  }

  lemma LabelCharIsPlain(c: char)
    requires IsLabelChar(c)
    ensures !IsSpace(c)
  {
  }

  lemma LabelIsPlainText(l: string)
    requires IsLabel(l) && l != ""
    ensures '(' !in l && ',' !in l && !EndsInSpace(l) && Strip(l) == l
  {
    NotALabelChar(l, '(');
    NotALabelChar(l, ',');
    LabelCharIsPlain(l[0]);
    LabelCharIsPlain(l[|l| - 1]);
    StripIdentity(l);
  }

  // ---- parsing what was printed --------------------------------------------------------------

  function Expected(kind: ActionKind, p: string, labels: seq<string>): seq<ParsedAction> {
    if labels == [] then [] else [ParsedAction(kind, Some(labels[0]), p + labels[0])] + Expected(kind, p, labels[1..])
  }

  lemma PrefixedLabelParses(i: nat, p: string, l: string)
    requires i < |PREFIX_MAP| && p == PREFIX_MAP[i].0 && IsLabel(l) && l != ""
    ensures ParseAll([p + l]) == [ParsedAction(PREFIX_MAP[i].1, Some(l), p + l)]
  {
    LabelIsPlainText(l);
    PlainText(l);
    PrefixedActionParses(i, p, l);
    ParseOne(p + l, ParsedAction(PREFIX_MAP[i].1, Some(l), p + l));
  }

  lemma {:induction false} PrefixedLabelsParse(i: nat, p: string, labels: seq<string>)
    requires i < |PREFIX_MAP| && p == PREFIX_MAP[i].0 && Plain(labels)
    ensures ParseAll(Prefixed(p, labels)) == Expected(PREFIX_MAP[i].1, p, labels)
    decreases |labels|
  {
    if labels != [] {
      PrefixedLabelParses(i, p, labels[0]);
      assert Plain(labels[1..]);
      PrefixedLabelsParse(i, p, labels[1..]);
      ParseAllAppend([p + labels[0]], Prefixed(p, labels[1..]));
    }
  }

  lemma LogParses(p: string, t: string)
    requires p == LOG_NEW_LABELS_PREFIX && '(' !in t && !EndsInSpace(t)
    ensures ParseAll([p + t]) == [ParsedAction(LOG_NEW_LABELS, Some(t), p + t)]
  {
    PlainText(t);
    PrefixedActionParses(4, p, t);
    ParseOne(p + t, ParsedAction(LOG_NEW_LABELS, Some(t), p + t));
  }

  lemma StartsOtherwise(p: string, raw: string)
    requires |p| > 1 && |raw| > 1 && (p[0] != raw[0] || p[1] != raw[1])
    ensures !(p <= raw)
  {
  }

  lemma ExactStarts()
    ensures forall e | e in EXACT_MAP :: e != "" && e[0] != 'a'
  {
  }

  lemma NotExact(raw: string)
    requires raw != "" && raw[0] == 'a'
    ensures raw !in EXACT_MAP
  {
    ExactStarts();
  }

  lemma PrefixStarts(e: (string, ActionKind))
    requires e in PREFIX_MAP
    ensures |e.0| > 1 && (e.0[0] != 'a' || e.0[1] != 'l')
  {
  }

  lemma NoPrefixFits(table: PrefixTable, raw: string)
    requires table == PREFIX_MAP && |raw| > 1 && raw[0] == 'a' && raw[1] == 'l'
    ensures Lookup(table, raw) == None
  {
    forall e | e in table ensures !(e.0 <= raw) {
      PrefixStarts(e);
      StartsOtherwise(e.0, raw);
    }
    LookupNoneMeansNoMatch(table, raw);
  }

  lemma UnmatchedParses(raw: string)
    requires |raw| > 1 && raw[0] == 'a' && raw[1] == 'l' && '(' !in raw && !EndsInSpace(raw)
    ensures ParseAll([raw]) == [ParsedAction(UNKNOWN, None, raw)]
  {
    NoParenthesisNoAnnotation(raw);
    StripIdentity(raw);
    NoPrefixFits(PREFIX_MAP, raw);
    StartsOtherwise("create_draft_reply", raw);
    StartsOtherwise("store_summary", raw);
    NotExact(raw);
    ParseOne(raw, ParsedAction(UNKNOWN, None, raw));
  }

  lemma NothingParses(raw: string)
    requires raw == NOTHING
    ensures ParseAll([raw]) == [ParsedAction(UNKNOWN, None, raw)]
  {
    assert raw[0] == 'a' && raw[1] == 'l';
    UnmatchedParses(raw);
  }

  /** Everything that was printed, parsed. */
  function ParsedPrinted(reused: seq<string>, created: seq<string>): seq<ParsedAction> {
    if reused == [] && created == [] then [ParsedAction(UNKNOWN, None, NOTHING)]
    else
      Expected(APPLY_LABEL, LABEL_PREFIX, reused) + Expected(CREATE_AND_APPLY_LABEL, CREATE_LABEL_PREFIX, created)
      + if created == [] then []
        else [ParsedAction(LOG_NEW_LABELS, Some(Join(created)), LOG_NEW_LABELS_PREFIX + Join(created))]
  }

  lemma {:induction false} JoinPlain(labels: seq<string>)
    requires Plain(labels) && labels != []
    ensures Join(labels) != "" && '(' !in Join(labels) && !EndsInSpace(Join(labels))
  {
    LabelIsPlainText(labels[0]);
    if |labels| > 1 {
      assert Plain(labels[1..]);
      JoinPlain(labels[1..]);
      var j := labels[0] + "," + Join(labels[1..]);
      assert j[|j| - 1] == Join(labels[1..])[|Join(labels[1..])| - 1];
    }
  }

  lemma PrintedListParses(reused: seq<string>, created: seq<string>, p: string, q: string, r: string)
    requires Plain(reused) && Plain(created)
    requires p == LABEL_PREFIX && q == CREATE_LABEL_PREFIX && r == LOG_NEW_LABELS_PREFIX
    ensures ParseAll(Prefixed(p, reused) + Prefixed(q, created) + if created == [] then [] else [r + Join(created)])
      == Expected(APPLY_LABEL, p, reused) + Expected(CREATE_AND_APPLY_LABEL, q, created)
         + if created == [] then [] else [ParsedAction(LOG_NEW_LABELS, Some(Join(created)), r + Join(created))]
  {
    PrefixedLabelsParse(1, p, reused);
    PrefixedLabelsParse(0, q, created);
    ParseAllAppend(Prefixed(p, reused), Prefixed(q, created));
    if created == [] {
      ParseAllAppend(Prefixed(p, reused) + Prefixed(q, created), []);
    } else {
      JoinPlain(created);
      LogParses(r, Join(created));
      ParseAllAppend(Prefixed(p, reused) + Prefixed(q, created), [r + Join(created)]);
    }
  }

  lemma PrintedParses(reused: seq<string>, created: seq<string>)
    requires Plain(reused) && Plain(created)
    ensures ParseAll(Printed(reused, created)) == ParsedPrinted(reused, created)
  {
    if reused == [] && created == [] {
      NothingParses(NOTHING);
    } else {
      PrintedListParses(reused, created, LABEL_PREFIX, CREATE_LABEL_PREFIX, LOG_NEW_LABELS_PREFIX);
    }
  }

  // ---- what the server gets ----------------------------------------------------------------

  lemma {:induction false} OnlyImapAppend(a: seq<ParsedAction>, b: seq<ParsedAction>)
    ensures OnlyImap(a + b) == OnlyImap(a) + OnlyImap(b)
  {
    if a == [] {
      assert a + b == b;
    } else {
      assert (a + b)[0] == a[0] && (a + b)[1..] == a[1..] + b;
      OnlyImapAppend(a[1..], b);
    }
  }

  lemma {:induction false} ExpectedIsImap(kind: ActionKind, p: string, labels: seq<string>)
    requires IsImap(kind)
    ensures OnlyImap(Expected(kind, p, labels)) == Expected(kind, p, labels)
    decreases |labels|
  {
    if labels != [] {
      ExpectedIsImap(kind, p, labels[1..]);
      assert Expected(kind, p, labels)[1..] == Expected(kind, p, labels[1..]);
    }
  }

  lemma ImapOfParsed(reused: seq<string>, created: seq<string>, p: string, q: string, r: string)
    ensures var a, b := Expected(APPLY_LABEL, p, reused), Expected(CREATE_AND_APPLY_LABEL, q, created);
      var c := if created == [] then [] else [ParsedAction(LOG_NEW_LABELS, Some(Join(created)), r + Join(created))];
      OnlyImap(a + b + c) == a + b
  {
    var a, b := Expected(APPLY_LABEL, p, reused), Expected(CREATE_AND_APPLY_LABEL, q, created);
    var c := if created == [] then [] else [ParsedAction(LOG_NEW_LABELS, Some(Join(created)), r + Join(created))];
    ExpectedIsImap(APPLY_LABEL, p, reused);
    ExpectedIsImap(CREATE_AND_APPLY_LABEL, q, created);
    OnlyImapAppend(a + b, c);
    OnlyImapAppend(a, b);
    assert created != [] ==> c[1..] == [];
  }

  /** The IMAP actions parsed back are exactly the reused labels, then the new ones, in order. */
  lemma ServerGetsEveryLabel(reused: seq<string>, created: seq<string>)
    requires Plain(reused) && Plain(created)
    ensures FilterImapActions(Printed(reused, created))
      == Expected(APPLY_LABEL, LABEL_PREFIX, reused) + Expected(CREATE_AND_APPLY_LABEL, CREATE_LABEL_PREFIX, created)
  {
    PrintedParses(reused, created);
    ImapOfParsed(reused, created, LABEL_PREFIX, CREATE_LABEL_PREFIX, LOG_NEW_LABELS_PREFIX);
    assert [ParsedAction(UNKNOWN, None, NOTHING)][1..] == [];
  }

  // ---- what the change log gets --------------------------------------------------------------

  lemma {:induction false} SplitPlain(l: string, rest: string)
    requires ',' !in l
    ensures Split(l, ',') == [l] && Split(l + "," + rest, ',') == [l] + Split(rest, ',')
  {
    if l == "" {
      assert "" + "," + rest == "," + rest && ("," + rest)[1..] == rest;
    } else {
      assert ',' !in l[1..];
      SplitPlain(l[1..], rest);
      assert (l + "," + rest)[1..] == l[1..] + "," + rest;
      assert [l[0]] + l[1..] == l;
    }
  }

  /** Splitting undoes joining. */
  lemma {:induction false} SplitJoin(labels: seq<string>)
    requires Plain(labels) && labels != []
    ensures Split(Join(labels), ',') == labels
  {
    LabelIsPlainText(labels[0]);
    if |labels| == 1 {
      SplitPlain(labels[0], "");
    } else {
      assert Plain(labels[1..]);
      SplitJoin(labels[1..]);
      SplitPlain(labels[0], Join(labels[1..]));
    }
  }

  lemma {:induction false} StrippedPlain(labels: seq<string>)
    requires Plain(labels)
    ensures Stripped(labels) == labels
  {
    if labels != [] {
      LabelIsPlainText(labels[0]);
      assert Plain(labels[1..]);
      StrippedPlain(labels[1..]);
    }
  }

  lemma {:induction false} CollectedAppend(a: seq<ParsedAction>, b: seq<ParsedAction>)
    ensures Collected(a + b) == Collected(a) + Collected(b)
  {
    if a == [] {
      assert a + b == b;
    } else {
      assert (a + b)[0] == a[0] && (a + b)[1..] == a[1..] + b;
      CollectedAppend(a[1..], b);
    }
  }

  lemma NewLabelIsCollected(l: string, p: string)
    requires IsLabel(l) && l != ""
    ensures NewLabelsOf(ParsedAction(CREATE_AND_APPLY_LABEL, Some(l), p + l)) == [l]
    ensures NewLabelsOf(ParsedAction(APPLY_LABEL, Some(l), p + l)) == []
  {
    LabelIsPlainText(l);
    assert [l][0] == l && [l][1..] == [] && Stripped([]) == [];
  }

  lemma {:induction false} CollectedExpected(kind: ActionKind, p: string, labels: seq<string>)
    requires Plain(labels) && (kind == CREATE_AND_APPLY_LABEL || kind == APPLY_LABEL)
    ensures Collected(Expected(kind, p, labels)) == if kind == CREATE_AND_APPLY_LABEL then labels else []
    decreases |labels|
  {
    if labels != [] {
      NewLabelIsCollected(labels[0], p);
      assert Plain(labels[1..]);
      CollectedExpected(kind, p, labels[1..]);
      CollectedFirst(ParsedAction(kind, Some(labels[0]), p + labels[0]), Expected(kind, p, labels[1..]));
    }
  }

  lemma LogIsCollected(labels: seq<string>, raw: string)
    requires Plain(labels) && labels != []
    ensures Collected([ParsedAction(LOG_NEW_LABELS, Some(Join(labels)), raw)]) == labels
  {
    JoinPlain(labels);
    SplitJoin(labels);
    StrippedPlain(labels);
    var pa := ParsedAction(LOG_NEW_LABELS, Some(Join(labels)), raw);
    CollectedFirst(pa, []);
    assert [pa] + [] == [pa];
  }

  lemma CollectedThree(a: seq<ParsedAction>, b: seq<ParsedAction>, c: seq<ParsedAction>, labels: seq<string>)
    requires Collected(a) == [] && Collected(b) == labels && Collected(c) == labels
    ensures Collected(a + b + c) == labels + labels
  {
    CollectedAppend(a, b);
    CollectedAppend(a + b, c);
    assert [] + labels == labels;
  }

  lemma CollectedOfParsed(reused: seq<string>, created: seq<string>, p: string, q: string, r: string)
    requires Plain(reused) && Plain(created)
    ensures Collected(Expected(APPLY_LABEL, p, reused) + Expected(CREATE_AND_APPLY_LABEL, q, created)
      + if created == [] then [] else [ParsedAction(LOG_NEW_LABELS, Some(Join(created)), r + Join(created))])
      == created + created
  {
    CollectedExpected(APPLY_LABEL, p, reused);
    CollectedExpected(CREATE_AND_APPLY_LABEL, q, created);
    var c := if created == [] then [] else [ParsedAction(LOG_NEW_LABELS, Some(Join(created)), r + Join(created))];
    assert Collected(c) == created by {
      if created != [] { LogIsCollected(created, r + Join(created)); }
    }
    CollectedThree(Expected(APPLY_LABEL, p, reused), Expected(CREATE_AND_APPLY_LABEL, q, created), c, created);
  }

  /** What is collected before deduplication: the new labels twice, from their own actions and from the log action. */
  lemma CollectedFromPrinted(reused: seq<string>, created: seq<string>)
    requires Plain(reused) && Plain(created)
    ensures Collected(ParseAll(Printed(reused, created))) == created + created
  {
    PrintedParses(reused, created);
    if reused == [] && created == [] {
      CollectedFirst(ParsedAction(UNKNOWN, None, NOTHING), []);
      assert [ParsedAction(UNKNOWN, None, NOTHING)] + [] == [ParsedAction(UNKNOWN, None, NOTHING)];
    } else {
      CollectedOfParsed(reused, created, LABEL_PREFIX, CREATE_LABEL_PREFIX, LOG_NEW_LABELS_PREFIX);
    }
  }

  // ---- deduplication -----------------------------------------------------------------------

  lemma OccursAppend(items: seq<string>, x: string, key: string, lower: string -> string)
    ensures Occurs(items + [x], |items| + 1, key, lower) <==> Occurs(items, |items|, key, lower) || lower(x) == key
  {
    assert (items + [x])[|items|] == x;
    if i :| 0 <= i < |items| && lower(items[i]) == key {
      assert (items + [x])[i] == items[i];
    }
  }

  /** A key survives exactly when it occurs, and it survives once. */
  lemma {:induction false} DedupKeepsKeys(items: seq<string>, key: string, lower: string -> string)
    ensures Occurs(Dedup(items, lower), |Dedup(items, lower)|, key, lower) <==> Occurs(items, |items|, key, lower)
    decreases |items|
  {
    if items != [] {
      var rest, x := items[..|items| - 1], items[|items| - 1];
      assert items == rest + [x];
      DedupKeepsKeys(rest, key, lower);
      DedupStep(rest, x, lower);
      OccursAppend(rest, x, key, lower);
      OccursAppend(Dedup(rest, lower), x, key, lower);
    }
  }

  ghost predicate Distinct(items: seq<string>, lower: string -> string) {
    forall i | 0 <= i < |items| :: !Occurs(items, i, lower(items[i]), lower)
  }

  lemma DistinctAppend(items: seq<string>, x: string, lower: string -> string)
    requires Distinct(items, lower) && !Occurs(items, |items|, lower(x), lower)
    ensures Distinct(items + [x], lower)
  {
    var all := items + [x];
    forall i | 0 <= i < |all| ensures !Occurs(all, i, lower(all[i]), lower) {
      if j :| 0 <= j < i && lower(all[j]) == lower(all[i]) {
        assert all[j] == items[j];
        assert Occurs(items, i, lower(all[i]), lower);
      }
    }
  }

  lemma {:induction false} DedupIsDistinct(items: seq<string>, lower: string -> string)
    ensures Distinct(Dedup(items, lower), lower)
    decreases |items|
  {
    if items != [] {
      var rest, x := items[..|items| - 1], items[|items| - 1];
      assert items == rest + [x];
      DedupIsDistinct(rest, lower);
      DedupStep(rest, x, lower);
      DedupKeepsKeys(rest, lower(x), lower);
      if !Occurs(rest, |rest|, lower(x), lower) { DistinctAppend(Dedup(rest, lower), x, lower); }
    }
  }

  /** What is known already adds nothing. */
  lemma {:induction false} DedupKnown(a: seq<string>, b: seq<string>, lower: string -> string)
    requires forall x | x in b :: x in a
    ensures Dedup(a + b, lower) == Dedup(a, lower)
    decreases |b|
  {
    if b == [] {
      assert a + b == a;
    } else {
      var n := |a + b| - 1;
      assert (a + b)[..n] == a + b[..|b| - 1];
      var x := b[|b| - 1];
      assert x in b;
      var i :| 0 <= i < |a| && a[i] == x;
      assert (a + b)[i] == x && (a + b)[n] == x;
      assert forall y | y in b[..|b| - 1] :: y in b;
      DedupKnown(a, b[..|b| - 1], lower);
      assert lower((a + b)[i]) == lower((a + b)[n]);
    }
  }

  // ---- end to end --------------------------------------------------------------------------

  lemma PickedArePlain(raws: seq<string>, existing: seq<string>, lower: string -> string)
    ensures Plain(Reused(raws, existing, lower)) && Plain(Created(raws, existing, lower))
  {
    var reused, created := Reused(raws, existing, lower), Created(raws, existing, lower);
    assert forall i | 0 <= i < |reused| :: reused[i] in reused;
    assert forall i | 0 <= i < |created| :: created[i] in created;
  }

  /** For all raw labels and all existing labels: the server is told the reused labels and then the new ones, in
      order, and the change log records each new label once, in the order of first occurrence. */
  lemma LabelsSurvive(raws: seq<string>, existing: seq<string>, lower: string -> string)
    ensures var reused, created := Reused(raws, existing, lower), Created(raws, existing, lower);
      && FilterImapActions(Printed(reused, created))
           == Expected(APPLY_LABEL, LABEL_PREFIX, reused) + Expected(CREATE_AND_APPLY_LABEL, CREATE_LABEL_PREFIX, created)
      && Dedup(Collected(ParseAll(Printed(reused, created))), lower) == Dedup(created, lower)
  {
    var reused, created := Reused(raws, existing, lower), Created(raws, existing, lower);
    PickedArePlain(raws, existing, lower);
    ServerGetsEveryLabel(reused, created);
    CollectedFromPrinted(reused, created);
    DedupKnown(created, created, lower);
  }

  /** No label the model proposes is lost or invented, and none is both reused and new. */
  lemma {:induction false} LabelsArePartitioned(labels: seq<string>, existing: set<string>, lower: string -> string)
    ensures multiset(Picked(labels, existing, true, lower)) + multiset(Picked(labels, existing, false, lower))
      == multiset(labels)
    decreases |labels|
  {
    if labels != [] {
      var n := |labels| - 1;
      LabelsArePartitioned(labels[..n], existing, lower);
      assert labels == labels[..n] + [labels[n]];
    }
  }
}
