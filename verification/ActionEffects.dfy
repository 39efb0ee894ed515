/** What labels, flags and the choice of a spam folder come to, in the names the server sees
    (backend/app/services/imap_actions.py, backend/app/services/mail.py). */
module ActionEffects {
  import opened Prelude
  import opened Text
  import opened ImapServer
  import opened ImapMoves
  import opened ActionStrings
  import opened ImapActions

  // ---- flags -------------------------------------------------------------------------------

  /** The action asks for this flag on the message. */
  predicate AsksFor(a: ParsedAction, flag: string) {
    || (a.kind == MARK_AS_READ && flag == "\\Seen")
    || ((a.kind == APPLY_LABEL || a.kind == CREATE_AND_APPLY_LABEL) && a.value == Some(flag))
  }

  /** The server carries the store out. */
  predicate StoreTakes(sc: MoveScript) {
    sc.select.Ok? && (sc.store.Ok? || sc.store == Raise(true))
  }

  ghost predicate Carries(t: Server, f: string, u: nat, flag: string) {
    Has(t, f, u) && flag in t[f].messages[u].flags
  }

  lemma StepSetsFlags(s: Server, e: Setting, j: Job, f: string, u: nat, flag: string)
    requires Covers(e, j) && Has(s, f, u)
    ensures Carries(FlagStep(s, e, j), f, u, flag)
      <==> Carries(s, f, u, flag) || (f == e.src && u == e.uid && AsksFor(j.action, flag) && StoreTakes(j.script.mv))
    ensures Has(FlagStep(s, e, j), f, u)
  {
    if j.action.kind == CREATE_FOLDER && j.action.value.Some? {
      var path := j.action.value.value;
      PathCount(path, e.sep);
      CreateGrows(s, Paths(Split(path, e.sep), "", e.sep), j.script.creates);
    }
  }

  /** The first loop gives the message exactly the flags that its actions ask for and the server takes, and leaves the
      flags of all other messages alone. */
  lemma {:induction false} FlagsArriveIff(s: Server, e: Setting, jobs: seq<Job>, f: string, u: nat, flag: string)
    requires AllCovered(e, jobs) && Has(s, f, u)
    ensures Carries(FlagsRun(s, e, jobs), f, u, flag)
      <==> || Carries(s, f, u, flag)
           || (f == e.src && u == e.uid && exists j | j in jobs :: AsksFor(j.action, flag) && StoreTakes(j.script.mv))
    decreases |jobs|
  {
    if jobs != [] {
      assert jobs[0] in jobs;
      StepSetsFlags(s, e, jobs[0], f, u, flag);
      FlagsArriveIff(FlagStep(s, e, jobs[0]), e, jobs[1..], f, u, flag);
      assert forall j :: j in jobs <==> j == jobs[0] || j in jobs[1..];
    }
  }

  // ---- folders -----------------------------------------------------------------------------

  lemma FirstOf(s: Server, name: string, others: seq<string>)
    ensures FirstExisting(s, [name] + others) == if name in s then Some(name) else FirstExisting(s, others)
  {
    assert ([name] + others)[1..] == others;
  }

  /** A move to spam goes to the first of four names that exists, and to a new "Junk" if none does. */
  lemma SpamGoesTo(s: Server, sep: char, replies: seq<Reply>)
    requires 4 < |replies|
    ensures var (t, dst) := ResolveSpam(s, sep, replies);
      && dst == (if "Junk" in s then "Junk"
                 else if "Spam" in s then "Spam"
                 else if "INBOX.Junk" in s then "INBOX.Junk"
                 else if "INBOX.Spam" in s then "INBOX.Spam"
                 else "Junk")
      && (dst in s ==> t == s)
  {
    var last := ["INBOX.Spam"];
    assert SPAM_FOLDERS == ["Junk"] + (["Spam"] + (["INBOX.Junk"] + last)) && last == ["INBOX.Spam"] + [];
    FirstOf(s, "Junk", ["Spam"] + (["INBOX.Junk"] + last));
    FirstOf(s, "Spam", ["INBOX.Junk"] + last);
    FirstOf(s, "INBOX.Junk", last);
    FirstOf(s, "INBOX.Spam", []);
  }

  // ---- deletion ----------------------------------------------------------------------------

  /** EXPUNGE takes exactly the messages of the folder that carry \Deleted. */
  lemma ExpungeTakes(s: Server, f: string, u: nat)
    requires f in s
    ensures u in ExpungeEffect(s, f)[f].messages <==> u in s[f].messages && "\\Deleted" !in s[f].messages[u].flags
  {
  }

  /** A move by copy whose EXPUNGE is refused leaves the original in the source, carrying \Deleted. */
  lemma UnexpungedCarriesDeleted(s: Server, uid: nat, dst: string, src: string, sc: MoveScript)
    requires Valid(s) && Has(s, src, uid) && dst in s && sc.copy.Ok? && sc.store.Ok? && sc.expunge == No
    ensures Carries(Fallback(s, uid, dst, src, sc).0, src, uid, "\\Deleted")
  {
    CopyKeeps(s, src, {uid}, dst);
    assert Keeps(s, CopyEffect(s, src, {uid}, dst), src, uid);
  }
}
