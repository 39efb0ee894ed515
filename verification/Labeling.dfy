/** Labels from the model's answer to the mail server and the change log
    (backend/app/plugins/labeling.py, backend/app/services/change_logger.py). */
module Labeling {
  import opened Prelude
  import opened Text
  import opened ActionStrings

  // ---- the normaliser ----------------------------------------------------------------------

  predicate IsSeparator(c: char) {
    IsSpace(c) || c == '_'
  }

  predicate IsLabelChar(c: char) {
    'a' <= c <= 'z' || '0' <= c <= '9' || c == '-'
  }

  predicate LabelText(s: string) {
    forall i | 0 <= i < |s| :: IsLabelChar(s[i])
  }

  /** What the normaliser puts out: label characters, no hyphen at an edge. */
  predicate IsLabel(s: string) {
    LabelText(s) && (s == "" || (s[0] != '-' && s[|s| - 1] != '-'))
  }

  /** All that is asked of str.lower: it leaves text in [a-z0-9-] alone. */
  ghost predicate KeepsLabelText(lower: string -> string) {
    forall s :: LabelText(s) ==> lower(s) == s
  }

  /** Every run of separators becomes one hyphen. */
  function Hyphenate(s: string, inRun: bool): string {
    if s == "" then ""
    else if IsSeparator(s[0]) then (if inRun then "" else "-") + Hyphenate(s[1..], true)
    else [s[0]] + Hyphenate(s[1..], false)
  }

  /** Characters that are not allowed are dropped. */
  function Keep(s: string): (r: string)
    ensures LabelText(r)
  {
    if s == "" then "" else (if IsLabelChar(s[0]) then [s[0]] else "") + Keep(s[1..])
  }

  function StripHyphens(s: string): (r: string)
    ensures LabelText(s) ==> IsLabel(r)
    decreases |s|
  {
    if s != "" && s[0] == '-' then StripHyphens(s[1..])
    else if s != "" && s[|s| - 1] == '-' then StripHyphens(s[..|s| - 1])
    else s
  }

  function Normalise(raw: string, lower: string -> string): (r: string)
    ensures IsLabel(r)
  {
    StripHyphens(Keep(Hyphenate(lower(Strip(raw)), false)))
  }

  lemma {:induction false} HyphenateLabel(s: string, inRun: bool)
    requires LabelText(s)
    ensures Hyphenate(s, inRun) == s
    decreases |s|
  {
    if s != "" {
      assert IsLabelChar(s[0]);
      HyphenateLabel(s[1..], false);
    }
  }

  lemma {:induction false} KeepLabel(s: string)
    requires LabelText(s)
    ensures Keep(s) == s
  {
    if s != "" {
      assert IsLabelChar(s[0]);
      KeepLabel(s[1..]);
    }
  }

  lemma LabelIsFixed(s: string, lower: string -> string)
    requires KeepsLabelText(lower) && IsLabel(s)
    ensures Normalise(s, lower) == s
  {
    if s != "" { assert IsLabelChar(s[0]) && IsLabelChar(s[|s| - 1]); }
    StripIdentity(s);
    HyphenateLabel(s, false);
    KeepLabel(s);
  }

  /** Labels, and only they, come out of the normaliser unchanged; so normalising twice is normalising once. */
  lemma NormaliseFixpoints(s: string, lower: string -> string)
    requires KeepsLabelText(lower)
    ensures Normalise(s, lower) == s <==> IsLabel(s)
    ensures Normalise(Normalise(s, lower), lower) == Normalise(s, lower)
  {
    if IsLabel(s) { LabelIsFixed(s, lower); }
    LabelIsFixed(Normalise(s, lower), lower);
  }

  // ---- the plugin --------------------------------------------------------------------------

  /** The normalised labels that are not empty, in order. */
  function Labels(raws: seq<string>, lower: string -> string): (r: seq<string>)
    ensures forall l | l in r :: IsLabel(l) && l != ""
  {
    if raws == [] then []
    else
      var l := Normalise(raws[|raws| - 1], lower);
      Labels(raws[..|raws| - 1], lower) + if l == "" then [] else [l]
  }

  function Lowered(labels: seq<string>, lower: string -> string): set<string> {
    set l | l in labels :: lower(l)
  }

  /** The labels that are, or are not, in the set of existing ones. */
  function Picked(labels: seq<string>, existing: set<string>, wanted: bool, lower: string -> string): (r: seq<string>)
    ensures forall l | l in r :: l in labels && ((lower(l) in existing) == wanted)
  {
    if labels == [] then []
    else
      var l := labels[|labels| - 1];
      Picked(labels[..|labels| - 1], existing, wanted, lower) + if (lower(l) in existing) == wanted then [l] else []
  }

  function Prefixed(p: string, labels: seq<string>): (r: seq<string>)
    ensures |r| == |labels|
  {
    if labels == [] then [] else [p + labels[0]] + Prefixed(p, labels[1..])
  }

  /** ",".join */
  function Join(labels: seq<string>): string {
    if labels == [] then ""
    else if |labels| == 1 then labels[0]
    else labels[0] + "," + Join(labels[1..])
  }

  const NOTHING := "all_labels_empty_after_normalization"

  function Printed(reused: seq<string>, created: seq<string>): seq<string> {
    if reused == [] && created == [] then [NOTHING]
    else Prefixed(LABEL_PREFIX, reused) + Prefixed(CREATE_LABEL_PREFIX, created)
         + if created == [] then [] else [LOG_NEW_LABELS_PREFIX + Join(created)]
  }

  function Reused(raws: seq<string>, existing: seq<string>, lower: string -> string): seq<string> {
    Picked(Labels(raws, lower), Lowered(existing, lower), true, lower)
  }

  function Created(raws: seq<string>, existing: seq<string>, lower: string -> string): seq<string> {
    Picked(Labels(raws, lower), Lowered(existing, lower), false, lower)
  }

  lemma LabelsStep(raws: seq<string>, i: nat, lower: string -> string)
    requires i < |raws|
    ensures var l := Normalise(raws[i], lower);
      Labels(raws[..i + 1], lower) == if l == "" then Labels(raws[..i], lower) else Labels(raws[..i], lower) + [l]
  {
    assert raws[..i + 1][..i] == raws[..i];
  }

  lemma PickedStep(labels: seq<string>, l: string, existing: set<string>, wanted: bool, lower: string -> string)
    ensures Picked(labels + [l], existing, wanted, lower)
      == if (lower(l) in existing) == wanted then Picked(labels, existing, wanted, lower) + [l]
         else Picked(labels, existing, wanted, lower)
  {
    assert (labels + [l])[..|labels|] == labels;
  }

  /** First loop: normalise each label and sort it into reused and new ones. */
  method Classify(raws: seq<string>, existing: set<string>, lower: string -> string)
    returns (reused: seq<string>, created: seq<string>)
    ensures reused == Picked(Labels(raws, lower), existing, true, lower)
    ensures created == Picked(Labels(raws, lower), existing, false, lower)
  {
    reused, created := [], [];
    for i := 0 to |raws|
      invariant reused == Picked(Labels(raws[..i], lower), existing, true, lower)
      invariant created == Picked(Labels(raws[..i], lower), existing, false, lower)
    {
      var name := lower(Strip(raws[i]));
      name := Hyphenate(name, false);
      name := Keep(name);
      name := StripHyphens(name);
      LabelsStep(raws, i, lower);
      if name == "" { continue; }
      PickedStep(Labels(raws[..i], lower), name, existing, true, lower);
      PickedStep(Labels(raws[..i], lower), name, existing, false, lower);
      if lower(name) in existing {
        reused := reused + [name];
      } else {
        created := created + [name];
      }
    }
    assert raws[..|raws|] == raws;
  }

  /** The last two loops: one action per label. */
  method PrintEach(prefix: string, labels: seq<string>, before: seq<string>) returns (actions: seq<string>)
    ensures actions == before + Prefixed(prefix, labels)
  {
    actions := before;
    for i := 0 to |labels|
      invariant actions + Prefixed(prefix, labels[i..]) == before + Prefixed(prefix, labels)
    {
      assert labels[i..][0] == labels[i] && labels[i..][1..] == labels[i + 1..];
      actions := actions + [prefix + labels[i]];
    }
  }

  method Execute(raws: seq<string>, existingLabels: seq<string>, lower: string -> string) returns (actions: seq<string>)
    ensures actions == Printed(Reused(raws, existingLabels, lower), Created(raws, existingLabels, lower))
  {
    var reused, created := Classify(raws, Lowered(existingLabels, lower), lower);
    if reused == [] && created == [] { return [NOTHING]; }
    actions := PrintEach(LABEL_PREFIX, reused, []);
    assert [] + Prefixed(LABEL_PREFIX, reused) == Prefixed(LABEL_PREFIX, reused);
    actions := PrintEach(CREATE_LABEL_PREFIX, created, actions);
    if created != [] {
      var logged := LOG_NEW_LABELS_PREFIX + Join(created);
      actions := actions + [logged];
    } else {
      assert actions + [] == actions;
    }
  }

  // ---- the change log ----------------------------------------------------------------------

  /** One of the first n items has this key. */
  predicate Occurs(items: seq<string>, n: nat, key: string, lower: string -> string)
    requires n <= |items|
  {
    exists i | 0 <= i < n :: lower(items[i]) == key
  }

  /** The items whose key does not occur before them. */
  function Dedup(items: seq<string>, lower: string -> string): seq<string> {
    if items == [] then []
    else
      var n := |items| - 1;
      var kept := Dedup(items[..n], lower);
      if Occurs(items, n, lower(items[n]), lower) then kept else kept + [items[n]]
  }

  /** An item is kept exactly when its key does not occur before it. */
  lemma DedupStep(items: seq<string>, x: string, lower: string -> string)
    ensures Dedup(items + [x], lower)
      == if Occurs(items, |items|, lower(x), lower) then Dedup(items, lower) else Dedup(items, lower) + [x]
  {
    var all, n := items + [x], |items|;
    assert all[..n] == items && all[n] == x;
    assert Occurs(all, n, lower(x), lower) == Occurs(items, n, lower(x), lower) by {
      assert forall i | 0 <= i < n :: all[i] == items[i];
    }
  }

  method Deduplicate(items: seq<string>, lower: string -> string) returns (unique: seq<string>)
    ensures unique == Dedup(items, lower)
  {
    var seen: set<string> := {};
    unique := [];
    for n := 0 to |items|
      invariant unique == Dedup(items[..n], lower)
      invariant forall k :: k in seen <==> Occurs(items, n, k, lower)
    {
      DedupStep(items[..n], items[n], lower);
      assert items[..n + 1] == items[..n] + [items[n]];
      assert Occurs(items[..n], n, lower(items[n]), lower) <==> Occurs(items, n, lower(items[n]), lower);
      var key := lower(items[n]);
      if key !in seen {
        seen := seen + {key};
        unique := unique + [items[n]];
      }
    }
    assert items[..|items|] == items;
  }

  /** The parts that are not blank, stripped. */
  function Stripped(parts: seq<string>): seq<string> {
    if parts == [] then [] else (if Strip(parts[0]) == "" then [] else [Strip(parts[0])]) + Stripped(parts[1..])
  }

  /** What one action contributes to the change log. */
  function NewLabelsOf(pa: ParsedAction): seq<string> {
    if pa.value == None || pa.value.value == "" then []
    else if pa.kind == LOG_NEW_LABELS then Stripped(Split(pa.value.value, ','))
    else if pa.kind == CREATE_AND_APPLY_LABEL then Stripped([pa.value.value])
    else []
  }

  function Collected(parsed: seq<ParsedAction>): seq<string> {
    if parsed == [] then [] else NewLabelsOf(parsed[0]) + Collected(parsed[1..])
  }

  lemma First<T>(x: T, xs: seq<T>)
    ensures ([x] + xs)[0] == x
  {
  }

  lemma Tail<T>(xs: seq<T>, i: nat)
    requires 0 < i < |xs|
    ensures xs[1..][i - 1] == xs[i]
  {
  }

  lemma Behind<T>(x: T, xs: seq<T>, i: nat)
    requires 0 < i <= |xs|
    ensures ([x] + xs)[i] == xs[i - 1]
  {
  }

  lemma {:induction false} ParsedAt(actions: seq<string>, i: nat)
    requires i < |actions|
    ensures ParseAll(actions)[i] == ParseAction(actions[i])
  {
    if i == 0 {
      First(ParseAction(actions[0]), ParseAll(actions[1..]));
    } else {
      ParsedAt(actions[1..], i - 1);
      Tail(actions, i);
      Behind(ParseAction(actions[0]), ParseAll(actions[1..]), i);
    }
  }

  lemma Take<T>(xs: seq<T>, i: nat)
    requires i < |xs|
    ensures xs[..i + 1] == xs[..i] + [xs[i]]
  {
  }

  lemma CollectedFirst(pa: ParsedAction, rest: seq<ParsedAction>)
    ensures Collected([pa] + rest) == NewLabelsOf(pa) + Collected(rest)
  {
    assert ([pa] + rest)[0] == pa && ([pa] + rest)[1..] == rest;
  }

  lemma {:induction false} CollectedLast(parsed: seq<ParsedAction>, pa: ParsedAction)
    ensures Collected(parsed + [pa]) == Collected(parsed) + NewLabelsOf(pa)
    decreases |parsed|
  {
    if parsed == [] {
      CollectedFirst(pa, []);
      assert [] + [pa] == [pa] + [];
    } else {
      assert parsed + [pa] == [parsed[0]] + (parsed[1..] + [pa]);
      CollectedFirst(parsed[0], parsed[1..] + [pa]);
      CollectedLast(parsed[1..], pa);
    }
  }

  lemma CollectedUpTo(parsed: seq<ParsedAction>, i: nat, pa: ParsedAction)
    requires i < |parsed| && parsed[i] == pa
    ensures Collected(parsed[..i + 1]) == Collected(parsed[..i]) + NewLabelsOf(pa)
  {
    CollectedLast(parsed[..i], pa);
    Take(parsed, i);
  }

  method ExtractNewLabels(actions: seq<string>, lower: string -> string) returns (labels: seq<string>)
    ensures labels == Dedup(Collected(ParseAll(actions)), lower)
  {
    var newLabels: seq<string> := [];
    ghost var parsed := ParseAll(actions);
    for i := 0 to |actions|
      invariant newLabels == Collected(parsed[..i])
    {
      var pa := ParseAction(actions[i]);
      ParsedAt(actions, i);
      CollectedUpTo(parsed, i, pa);
      newLabels := newLabels + NewLabelsOf(pa);
    }
    assert parsed[..|actions|] == parsed;
    labels := Deduplicate(newLabels, lower);
  }
}
