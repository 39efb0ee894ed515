/** A mail server as IMAP clients see it: mailboxes that map UIDs to messages.
    The commands follow RFC 3501 (COPY 6.4.7, STORE 6.4.6, EXPUNGE 6.4.3, UID 6.4.8, DELETE 6.3.4),
    RFC 6851 (MOVE 3.3) and RFC 4315 (COPYUID 3). */
module ImapServer {
  import opened Prelude

  /** `id` stands for the content; a copy has the same content and, as RFC 3501 asks, the same flags. */
  datatype Message = Message(id: nat, flags: set<string>)

  datatype Mailbox = Mailbox(messages: map<nat, Message>, uidNext: nat)

  type Server = map<string, Mailbox>

  datatype Status = StatusOk | StatusNo | Raised

  const DELETED := "\\Deleted"

  /** UIDs are handed out in ascending order, so every UID in use is below the next one. */
  ghost predicate Valid(s: Server) {
    forall f, u :: f in s && u in s[f].messages ==> u < s[f].uidNext
  }

  predicate Has(s: Server, f: string, u: nat) {
    f in s && u in s[f].messages
  }

  /** The same message sits in the same place. */
  ghost predicate Keeps(s: Server, t: Server, f: string, u: nat) {
    Has(s, f, u) ==> Has(t, f, u) && t[f].messages[u] == s[f].messages[u]
  }

  /** The place (f, u) of `t` holds the content `id`. */
  ghost predicate Holds(t: Server, f: string, u: nat, id: nat) {
    Has(t, f, u) && t[f].messages[u].id == id
  }

  // ---- replies -----------------------------------------------------------------------------

  /** The status the client sees; a command that cannot be carried out is never answered OK. */
  function Answer(reply: Reply, possible: bool): Status {
    match reply
    case Ok => if possible then StatusOk else StatusNo
    case No => StatusNo
    case Raise(_) => Raised
  }

  predicate Takes(reply: Reply, possible: bool) {
    possible && (reply.Ok? || (reply.Raise? && reply.effective))
  }

  // ---- effects -----------------------------------------------------------------------------

  /** The UIDs of `uids` that exist in the mailbox, in ascending order: absent UIDs are ignored. */
  function Listing(box: Mailbox, uids: set<nat>, from: nat): (l: seq<nat>)
    ensures forall i :: 0 <= i < |l| ==> l[i] in uids && l[i] in box.messages && from <= l[i]
    ensures forall u :: u in uids && u in box.messages && from <= u < box.uidNext ==> u in l
    ensures forall i, j :: 0 <= i < j < |l| ==> l[i] < l[j]
    decreases box.uidNext - from
  {
    if from >= box.uidNext then []
    else if from in uids && from in box.messages then [from] + Listing(box, uids, from + 1)
    else Listing(box, uids, from + 1)
  }

  function Contents(box: Mailbox, uids: set<nat>): seq<Message> {
    var l := Listing(box, uids, 0);
    seq(|l|, i requires 0 <= i < |l| => box.messages[l[i]])
  }

  /** Append messages under consecutive fresh UIDs. */
  function Deliver(box: Mailbox, ms: seq<Message>): (r: Mailbox)
    ensures r.uidNext == box.uidNext + |ms|
    ensures forall u :: u in r.messages <==> u in box.messages || box.uidNext <= u < box.uidNext + |ms|
    ensures forall u :: u in box.messages && u < box.uidNext ==> r.messages[u] == box.messages[u]
    ensures forall i :: 0 <= i < |ms| ==> r.messages[box.uidNext + i] == ms[i]
    decreases |ms|
  {
    if ms == [] then box
    else
      var r := Deliver(Mailbox(box.messages[box.uidNext := ms[0]], box.uidNext + 1), ms[1..]);
      assert forall i :: 0 < i < |ms| ==> ms[i] == ms[1..][i - 1];
      r
  }

  function CopyEffect(s: Server, src: string, uids: set<nat>, dst: string): Server
    requires src in s && dst in s
  {
    s[dst := Deliver(s[dst], Contents(s[src], uids))]
  }

  function Without(box: Mailbox, uids: set<nat>): Mailbox {
    box.(messages := box.messages - uids)
  }

  function MoveEffect(s: Server, src: string, uids: set<nat>, dst: string): Server
    requires src in s && dst in s
  {
    var t := s[src := Without(s[src], uids)];
    t[dst := Deliver(t[dst], Contents(s[src], uids))]
  }

  function StoreEffect(s: Server, f: string, uids: set<nat>, flag: string): Server
    requires f in s
  {
    s[f := s[f].(messages := map u | u in s[f].messages ::
      if u in uids then s[f].messages[u].(flags := s[f].messages[u].flags + {flag}) else s[f].messages[u])]
  }

  /** Plain EXPUNGE: every message flagged \Deleted goes, whoever flagged it. */
  function ExpungeEffect(s: Server, f: string): Server
    requires f in s
  {
    s[f := s[f].(messages := map u | u in s[f].messages && DELETED !in s[f].messages[u].flags :: s[f].messages[u])]
  }

  // ---- facts -------------------------------------------------------------------------------

  /** One UID selects one message, or none when it is absent. */
  lemma {:induction false} ListingOne(box: Mailbox, uid: nat, from: nat)
    requires forall u :: u in box.messages ==> u < box.uidNext
    ensures Listing(box, {uid}, from) == if uid in box.messages && from <= uid then [uid] else []
    decreases box.uidNext - from
  {
    if from < box.uidNext {
      ListingOne(box, uid, from + 1);
    }
  }

  lemma {:induction false} ListingNone(box: Mailbox, uids: set<nat>, from: nat)
    requires box.messages.Keys !! uids
    ensures Listing(box, uids, from) == []
    decreases box.uidNext - from
  {
    assert !(from in uids && from in box.messages.Keys);
    if from < box.uidNext {
      ListingNone(box, uids, from + 1);
    }
  }

  lemma ContentsOne(s: Server, f: string, uid: nat)
    requires Valid(s) && f in s
    ensures Contents(s[f], {uid}) == if uid in s[f].messages then [s[f].messages[uid]] else []
  {
    ListingOne(s[f], uid, 0);
  }

  lemma DeliverOne(box: Mailbox, m: Message)
    ensures Deliver(box, [m]) == Mailbox(box.messages[box.uidNext := m], box.uidNext + 1)
  {
    var next := Mailbox(box.messages[box.uidNext := m], box.uidNext + 1);
    assert [m][1..] == [];
    assert Deliver(next, []) == next;
  }

  /** COPY leaves every existing place alone; the copies take the fresh UIDs behind the last one. */
  lemma CopyKeeps(s: Server, src: string, uids: set<nat>, dst: string)
    requires Valid(s) && src in s && dst in s
    ensures var t := CopyEffect(s, src, uids, dst);
      && Valid(t) && t.Keys == s.Keys
      && (forall f, u: nat :: Keeps(s, t, f, u))
      && (forall f, u: nat :: Has(t, f, u) && !Has(s, f, u) ==> f == dst && u >= s[dst].uidNext)
  {
  }

  /** Each selected message that exists has its copy. */
  lemma CopyHasAll(s: Server, src: string, uids: set<nat>, dst: string, u: nat) returns (n: nat)
    requires Valid(s) && src in s && dst in s && u in uids && u in s[src].messages
    ensures s[dst].uidNext <= n && Holds(CopyEffect(s, src, uids, dst), dst, n, s[src].messages[u].id)
  {
    var l := Listing(s[src], uids, 0);
    var i :| 0 <= i < |l| && l[i] == u;
    n := s[dst].uidNext + i;
    assert Contents(s[src], uids)[i] == s[src].messages[u];
  }
}
