/** The smart-folder plugin: one instance, and with it one retry flag, serves all mails
    (backend/app/plugins/smart_folder.py, backend/app/plugins/base.py, backend/app/workers/plugin_executor.py). */
module SmartFolder {
  import opened Prelude
  import opened Text
  import opened ActionStrings

  datatype Answer = Answer(folder: string, confidence: real)

  datatype MailContext = MailContext(existing: seq<string>, excluded: seq<string>)

  /** str.lower and str.upper */
  datatype Casing = Casing(lower: string -> string, upper: string -> string)

  datatype Result =
    | Reprompt
    | NeedsApproval
    | Act(actions: seq<string>)
    | Refused

  // ---- one call ----------------------------------------------------------------------------

  predicate In(folder: string, folders: seq<string>, k: Casing) {
    exists i | 0 <= i < |folders| :: k.lower(folders[i]) == k.lower(folder)
  }

  predicate IsExcluded(c: MailContext, a: Answer, k: Casing) {
    In(a.folder, c.excluded, k)
  }

  /** What an allowed suggestion leads to. */
  function Placement(c: MailContext, a: Answer, threshold: real, k: Casing): Result {
    if k.upper(a.folder) == INBOX then Act([MOVE_TO_PREFIX + INBOX])
    else if a.confidence < threshold then NeedsApproval
    else if In(a.folder, c.existing, k) then Act([MOVE_TO_PREFIX + a.folder])
    else Act([CREATE_FOLDER_PREFIX + a.folder, LOG_NEW_FOLDER_PREFIX + a.folder, MOVE_TO_PREFIX + a.folder])
  }

  function Outcome(flag: bool, c: MailContext, a: Answer, threshold: real, k: Casing): Result {
    if IsExcluded(c, a, k) then (if flag then Refused else Reprompt) else Placement(c, a, threshold, k)
  }

  /** A mail: its context, the model's first answer, and its answer to a reprompt, if that call succeeds. */
  datatype Mail = Mail(context: MailContext, first: Answer, second: Option<Answer>)

  /** Whether the last call made for a mail suggested an excluded folder. */
  predicate EndsExcluded(flag: bool, m: Mail, k: Casing) {
    && IsExcluded(m.context, m.first, k)
    && (flag || m.second == None || IsExcluded(m.context, m.second.value, k))
  }

  /** What becomes of a mail: the result of its last call, or a failure when the reprompt itself fails. */
  function Processed(flag: bool, m: Mail, threshold: real, k: Casing): Result {
    match Outcome(flag, m.context, m.first, threshold, k)
    case Reprompt => if m.second == None then Refused else Outcome(true, m.context, m.second.value, threshold, k)
    case r => r
  }

  class SmartFolderPlugin {
    var excludedRetryDone: bool
    const threshold: real
    const k: Casing

    constructor (threshold: real, k: Casing)
      ensures !excludedRetryDone && this.threshold == threshold && this.k == k
    {
      excludedRetryDone, this.threshold, this.k := false, threshold, k;
    }

    method Execute(c: MailContext, a: Answer) returns (r: Result)
      modifies this
      ensures r == Outcome(old(excludedRetryDone), c, a, threshold, k)
      ensures excludedRetryDone == IsExcluded(c, a, k)
    {
      var excludedSet := set f | f in c.excluded :: k.lower(f);
      assert k.lower(a.folder) in excludedSet <==> IsExcluded(c, a, k) by {
        if i :| 0 <= i < |c.excluded| && k.lower(c.excluded[i]) == k.lower(a.folder) { assert c.excluded[i] in c.excluded; }
      }
      if k.lower(a.folder) in excludedSet {
        if excludedRetryDone { return Refused; }
        excludedRetryDone := true;
        return Reprompt;
      }
      excludedRetryDone := false;
      if k.upper(a.folder) == INBOX { return Act([MOVE_TO_PREFIX + INBOX]); }
      var existingSet := set f | f in c.existing :: k.lower(f);
      assert k.lower(a.folder) in existingSet <==> In(a.folder, c.existing, k) by {
        if i :| 0 <= i < |c.existing| && k.lower(c.existing[i]) == k.lower(a.folder) { assert c.existing[i] in c.existing; }
      }
      var isNewFolder := k.lower(a.folder) !in existingSet;
      if !(a.confidence >= threshold) { return NeedsApproval; }
      var actions: seq<string> := [];
      if isNewFolder {
        actions := actions + [CREATE_FOLDER_PREFIX + a.folder];
        actions := actions + [LOG_NEW_FOLDER_PREFIX + a.folder];
      }
      actions := actions + [MOVE_TO_PREFIX + a.folder];
      r := Act(actions);
    }

    /** One mail: a call, and a second one after a reprompt. */
    method Process(m: Mail) returns (r: Result)
      modifies this
      ensures r == Processed(old(excludedRetryDone), m, threshold, k)
      ensures excludedRetryDone == EndsExcluded(old(excludedRetryDone), m, k)
    {
      r := Execute(m.context, m.first);
      if r.Reprompt? {
        if m.second == None { return Refused; }
        r := Execute(m.context, m.second.value);
      }
    }
  }

  /** The flag behind a run of mails, and what became of each of them. */
  function FlagAfter(flag: bool, mails: seq<Mail>, k: Casing): bool {
    if mails == [] then flag
    else EndsExcluded(FlagAfter(flag, mails[..|mails| - 1], k), mails[|mails| - 1], k)
  }

  function Results(flag: bool, mails: seq<Mail>, threshold: real, k: Casing): (r: seq<Result>)
    ensures |r| == |mails|
  {
    if mails == [] then []
    else
      var before, m := mails[..|mails| - 1], mails[|mails| - 1];
      Results(flag, before, threshold, k) + [Processed(FlagAfter(flag, before, k), m, threshold, k)]
  }

  lemma {:induction false} ResultAt(flag: bool, mails: seq<Mail>, i: nat, threshold: real, k: Casing)
    requires i < |mails|
    ensures Results(flag, mails, threshold, k)[i] == Processed(FlagAfter(flag, mails[..i], k), mails[i], threshold, k)
    decreases |mails|
  {
    var n := |mails| - 1;
    if i < n {
      ResultAt(flag, mails[..n], i, threshold, k);
      assert mails[..n][..i] == mails[..i];
    }
  }

  // ---- all mails together ----------------------------------------------------------------------

  /** A mail that is refused although it was never reprompted. */
  predicate RefusedAtOnce(flag: bool, m: Mail, k: Casing) {
    flag && IsExcluded(m.context, m.first, k)
  }

  /** A mail whose own two suggestions, or failed reprompt, earn the refusal. */
  predicate EarnsRefusal(m: Mail, k: Casing) {
    IsExcluded(m.context, m.first, k) && (m.second == None || IsExcluded(m.context, m.second.value, k))
  }

  /** The plugin's own rule, mail by mail: refuse exactly those that earn it. */
  lemma RefusedIff(flag: bool, m: Mail, threshold: real, k: Casing)
    ensures Processed(flag, m, threshold, k) == Refused <==> RefusedAtOnce(flag, m, k) || EarnsRefusal(m, k)
  {
  }

  ghost predicate LeakFrom(mails: seq<Mail>, j: nat, k: Casing)
    requires j < |mails|
  {
    EarnsRefusal(mails[j], k) && forall i | j < i < |mails| :: IsExcluded(mails[i].context, mails[i].first, k)
  }

  /** The flag leaks: it is set behind a run of mails exactly when some mail earned a refusal and every mail since then
      has begun with an excluded suggestion. */
  ghost predicate Leaks(mails: seq<Mail>, k: Casing) {
    exists j :: 0 <= j < |mails| && LeakFrom(mails, j, k)
  }

  lemma {:induction false} FlagIsALeak(mails: seq<Mail>, k: Casing)
    ensures FlagAfter(false, mails, k) <==> Leaks(mails, k)
    decreases |mails|
  {
    if mails != [] {
      var n := |mails| - 1;
      var before := mails[..n];
      FlagIsALeak(before, k);
      if FlagAfter(false, mails, k) {
        if FlagAfter(false, before, k) {
          var j :| 0 <= j < |before| && LeakFrom(before, j, k);
          assert LeakFrom(mails, j, k);
        } else {
          assert LeakFrom(mails, n, k);
        }
      }
      if Leaks(mails, k) {
        var j :| 0 <= j < |mails| && LeakFrom(mails, j, k);
        if j < n {
          assert before[j] == mails[j];
          assert LeakFrom(before, j, k);
        }
      }
    }
  }

  /** So, on one instance serving mails in order, a mail is refused without having earned it exactly when its first
      suggestion is excluded, its second would be allowed, and the flag leaked from earlier mails. */
  lemma UnearnedRefusalIff(mails: seq<Mail>, i: nat, threshold: real, k: Casing)
    requires i < |mails|
    ensures (Results(false, mails, threshold, k)[i] == Refused && !EarnsRefusal(mails[i], k))
      <==> Leaks(mails[..i], k) && IsExcluded(mails[i].context, mails[i].first, k) && !EarnsRefusal(mails[i], k)
  {
    ResultAt(false, mails, i, threshold, k);
    FlagIsALeak(mails[..i], k);
    RefusedIff(FlagAfter(false, mails[..i], k), mails[i], threshold, k);
  }

  /** Two mails are enough. */
  lemma SecondMailPaysForTheFirst(bad: Answer, good: Answer, threshold: real, k: Casing)
    requires k.lower(bad.folder) != k.lower(good.folder)
    ensures var c := MailContext([], [bad.folder]);
      var mails := [Mail(c, bad, Some(bad)), Mail(c, bad, Some(good))];
      && Processed(FlagAfter(false, mails[..1], k), mails[1], threshold, k) == Refused
      && Processed(false, mails[1], threshold, k) == Placement(c, good, threshold, k)
  {
    var c := MailContext([], [bad.folder]);
    var mails := [Mail(c, bad, Some(bad)), Mail(c, bad, Some(good))];
    assert c.excluded[0] == bad.folder;
    assert mails[..1] == [mails[0]] && [mails[0]][..0] == [];
    assert IsExcluded(c, bad, k) && !IsExcluded(c, good, k);
  }

  // ---- what the server gets ----------------------------------------------------------------

  lemma ThreeOnes<T>(x: T, y: T, z: T)
    ensures [x] + [y] + [z] == [x, y, z]
  {
  }

  lemma OnlyThree(a: ParsedAction, b: ParsedAction, c: ParsedAction)
    requires IsImap(a.kind) && !IsImap(b.kind) && IsImap(c.kind)
    ensures OnlyImap([a] + [b] + [c]) == [a, c]
  {
    assert ([a] + [b] + [c])[1..] == [b, c] && [b, c][1..] == [c] && [c][1..] == [];
    OnlyImapOne(c);
  }

  lemma FilterThree(x: string, y: string, z: string)
    ensures FilterImapActions([x, y, z]) == OnlyImap([ParseAction(x)] + [ParseAction(y)] + [ParseAction(z)])
  {
    ParseOne(x, ParseAction(x));
    ParseOne(y, ParseAction(y));
    ParseOne(z, ParseAction(z));
    ParseAllAppend([x], [y]);
    ParseAllAppend([x] + [y], [z]);
    ThreeOnes(x, y, z);
  }

  lemma PrintedParse(p: string, q: string, r: string, folder: string)
    requires p == CREATE_FOLDER_PREFIX && q == LOG_NEW_FOLDER_PREFIX && r == MOVE_TO_PREFIX
    ensures var name := RStrip(Unannotated(folder));
      && ParseAction(p + folder) == ParsedAction(CREATE_FOLDER, Some(name), p + folder)
      && ParseAction(q + folder) == ParsedAction(LOG_NEW_FOLDER, Some(name), q + folder)
      && ParseAction(r + folder) == ParsedAction(MOVE_TO, Some(name), r + folder)
  {
    PrefixedActionParses(3, p, folder);
    PrefixedActionParses(5, q, folder);
    PrefixedActionParses(2, r, folder);
  }

  lemma CreatedIsTarget(p: string, q: string, r: string, folder: string)
    requires p == CREATE_FOLDER_PREFIX && q == LOG_NEW_FOLDER_PREFIX && r == MOVE_TO_PREFIX
    ensures var name := RStrip(Unannotated(folder));
      FilterImapActions([p + folder, q + folder, r + folder])
        == [ParsedAction(CREATE_FOLDER, Some(name), p + folder), ParsedAction(MOVE_TO, Some(name), r + folder)]
  {
    PrintedParse(p, q, r, folder);
    FilterThree(p + folder, q + folder, r + folder);
    OnlyThree(ParseAction(p + folder), ParseAction(q + folder), ParseAction(r + folder));
  }

  /** For a new folder the server is told to create a folder and to move the mail, and it is the same folder: the
      suggested name without a trailing annotation and trailing spaces. */
  lemma CreatedFolderIsTheTarget(folder: string)
    ensures FilterImapActions([CREATE_FOLDER_PREFIX + folder, LOG_NEW_FOLDER_PREFIX + folder, MOVE_TO_PREFIX + folder])
      == [ParsedAction(CREATE_FOLDER, Some(RStrip(Unannotated(folder))), CREATE_FOLDER_PREFIX + folder),
          ParsedAction(MOVE_TO, Some(RStrip(Unannotated(folder))), MOVE_TO_PREFIX + folder)]
  {
    CreatedIsTarget(CREATE_FOLDER_PREFIX, LOG_NEW_FOLDER_PREFIX, MOVE_TO_PREFIX, folder);
  }

  /** Some folder of the list has this name, up to case. */
  predicate Listed(folder: string, folders: seq<string>, k: Casing) {
    exists i | 0 <= i < |folders| :: k.lower(folders[i]) == k.lower(folder)
  }

  /** What a call comes to: an excluded folder is asked about again or refused; INBOX is always moved to; a suggestion below
      the threshold goes to the user; anything else is moved to, behind the creation of a folder that is not there yet. */
  lemma CallMeans(flag: bool, c: MailContext, a: Answer, threshold: real, k: Casing)
    ensures var r, f := Outcome(flag, c, a, threshold, k), a.folder;
      && (r.Refused? <==> Listed(f, c.excluded, k) && flag)
      && (r.Reprompt? <==> Listed(f, c.excluded, k) && !flag)
      && (r.NeedsApproval? <==> !Listed(f, c.excluded, k) && k.upper(f) != "INBOX" && a.confidence < threshold)
      && (r == Act(["move_to:INBOX"]) <== !Listed(f, c.excluded, k) && k.upper(f) == "INBOX")
      && (r.Act? && k.upper(f) != "INBOX" ==>
            r.actions == if Listed(f, c.existing, k) then ["move_to:" + f]
                         else ["create_folder:" + f, "log_new_folder:" + f, "move_to:" + f])
  {
    assert "move_to:" + INBOX == "move_to:INBOX";
  }
}
