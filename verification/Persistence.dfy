/** What the plugins' results look like in the database after any number of saves
    (backend/app/services/persistence.py). */
module Persistence {
  import opened Prelude

  const LEN_EMAIL_ADDRESS := 320
  const LEN_LABEL := 200
  const LEN_STORE := 200
  const LEN_CODE := 100
  const LEN_DESCRIPTION := 300

  /** A row of a table with one row per mail, or per user and mail. */
  datatype Row<P> = Row(id: nat, user: nat, mail: nat, payload: P, created: int, updated: int)

  /** A row of a table with any number of rows per mail. */
  datatype Record<P> = Record(user: nat, mail: nat, payload: P)

  datatype Summary = Summary(
    summary: string, keyPoints: seq<string>, urgency: string, actionRequired: bool, actionDescription: Option<string>)
  datatype Newsletter = Newsletter(name: string, sender: string, unsubscribe: Option<string>, hasUnsubscribe: bool)
  /** A coupon as the plugin extracted it, with dates as text, and as it is stored. */
  datatype RawCoupon = RawCoupon(
    code: Option<string>, description: Option<string>, store: Option<string>,
    expiresAt: Option<string>, validFrom: Option<string>)
  datatype Coupon = Coupon(
    code: Option<string>, description: Option<string>, store: Option<string>, expiresAt: Option<int>, validFrom: Option<int>)
  datatype AppliedLabel = AppliedLabel(text: string, isNew: bool)

  function Cut(s: string, n: nat): (r: string)
    ensures r <= s && |r| <= n && (|s| <= n ==> r == s)
  {
    if |s| <= n then s else s[..n]
  }

  function Trunc(s: Option<string>, n: nat): (r: Option<string>)
    ensures r.Some? <==> s.Some? && s.value != ""
    ensures r.Some? ==> r.value <= s.value && |r.value| <= n
  {
    if s == None || s.value == "" then None else Some(Cut(s.value, n))
  }

  // ---- the two kinds of statements ---------------------------------------------------------------

  /** The unique constraint: (user_id, mail_id), or mail_id alone. */
  function KeyOf(byUser: bool, user: nat, mail: nat): (nat, nat) {
    (if byUser then user else 0, mail)
  }

  function RowKey<P>(byUser: bool, r: Row<P>): (nat, nat) {
    KeyOf(byUser, r.user, r.mail)
  }

  /** INSERT ... ON CONFLICT DO UPDATE: a row with the same key keeps its id, its user and its creation time. */
  function Upsert<P>(rows: seq<Row<P>>, byUser: bool, r: Row<P>): seq<Row<P>> {
    if rows == [] then [r]
    else if RowKey(byUser, rows[0]) == RowKey(byUser, r) then
      [r.(id := rows[0].id, user := rows[0].user, created := rows[0].created)] + rows[1..]
    else [rows[0]] + Upsert(rows[1..], byUser, r)
  }

  /** DELETE ... WHERE mail_id = ... */
  function DeleteMail<P>(records: seq<Record<P>>, mail: nat): seq<Record<P>> {
    if records == [] then []
    else (if records[0].mail == mail then [] else [records[0]]) + DeleteMail(records[1..], mail)
  }

  function Records<P>(user: nat, mail: nat, payloads: seq<P>): seq<Record<P>> {
    seq(|payloads|, i requires 0 <= i < |payloads| => Record(user, mail, payloads[i]))
  }

  function Replaced<P>(records: seq<Record<P>>, user: nat, mail: nat, payloads: seq<P>): seq<Record<P>> {
    if payloads == [] then records else DeleteMail(records, mail) + Records(user, mail, payloads)
  }

  /** `date` is date.fromisoformat at midnight UTC; text that it refuses counts as no date. */
  function ParseExpiry(raw: Option<string>, date: string -> Option<int>): Option<int> {
    if raw == None || raw.value == "" then None else date(raw.value)
  }

  function CouponData(c: RawCoupon, date: string -> Option<int>): Coupon {
    Coupon(Trunc(c.code, LEN_CODE), Trunc(c.description, LEN_DESCRIPTION), Trunc(c.store, LEN_STORE),
      ParseExpiry(c.expiresAt, date), ParseExpiry(c.validFrom, date))
  }

  function CouponsData(cs: seq<RawCoupon>, date: string -> Option<int>): seq<Coupon> {
    seq(|cs|, i requires 0 <= i < |cs| => CouponData(cs[i], date))
  }

  function LabelsData(labels: seq<string>, existing: set<string>, lower: string -> string): seq<AppliedLabel> {
    seq(|labels|, i requires 0 <= i < |labels| => AppliedLabel(Cut(labels[i], LEN_LABEL), lower(labels[i]) !in existing))
  }

  function NewsletterData(name: string, sender: string, unsubscribe: Option<string>, hasUnsubscribe: bool): Newsletter {
    Newsletter(if name == "" then "Unknown" else name, if sender == "" then "unknown" else Cut(sender, LEN_EMAIL_ADDRESS),
      unsubscribe, hasUnsubscribe)
  }

  // ---- the savers --------------------------------------------------------------------------

  /** `effective` saves are those that are not no-ops and whose transaction commits. */
  datatype Save<P> = Save(user: nat, mail: nat, id: nat, payload: P, now: int, effective: bool)

  datatype Batch<P> = Batch(user: nat, mail: nat, payloads: seq<P>, effective: bool)

  function AfterSave<P>(rows: seq<Row<P>>, byUser: bool, s: Save<P>): seq<Row<P>> {
    if s.effective then Upsert(rows, byUser, Row(s.id, s.user, s.mail, s.payload, s.now, s.now)) else rows
  }

  function AfterBatch<P>(records: seq<Record<P>>, b: Batch<P>): seq<Record<P>> {
    if b.effective then Replaced(records, b.user, b.mail, b.payloads) else records
  }

  /** The tables; `commits` says whether the transaction of a save commits, otherwise it is rolled back. */
  class Store {
    var summaries: seq<Row<Summary>>
    var newsletters: seq<Row<Newsletter>>
    var coupons: seq<Record<Coupon>>
    var labels: seq<Record<AppliedLabel>>

    constructor ()
      ensures summaries == [] && newsletters == [] && coupons == [] && labels == []
    {
      summaries, newsletters, coupons, labels := [], [], [], [];
    }

    method SaveEmailSummary(user: nat, mail: nat, id: nat, s: Summary, now: int, commits: bool)
      modifies this`summaries
      ensures summaries == AfterSave(old(summaries), true, Save(user, mail, id, s, now, commits))
    {
      var values := Row(id, user, mail, s, now, now);
      if commits { summaries := Upsert(summaries, true, values); }
    }

    method SaveNewsletter(user: nat, mail: nat, id: nat, isNewsletter: bool, name: string, sender: string,
        unsubscribe: Option<string>, hasUnsubscribe: bool, now: int, commits: bool)
      modifies this`newsletters
      ensures newsletters == AfterSave(old(newsletters), false,
        Save(user, mail, id, NewsletterData(name, sender, unsubscribe, hasUnsubscribe), now, commits && isNewsletter))
    {
      if !isNewsletter { return; }
      var values := Row(id, user, mail, NewsletterData(name, sender, unsubscribe, hasUnsubscribe), now, now);
      if commits { newsletters := Upsert(newsletters, false, values); }
    }

    method SaveCoupons(user: nat, mail: nat, hasCoupons: bool, cs: seq<RawCoupon>, commits: bool,
        date: string -> Option<int>)
      modifies this`coupons
      ensures coupons == AfterBatch(old(coupons), Batch(user, mail, CouponsData(cs, date), commits && hasCoupons))
    {
      if !hasCoupons || cs == [] { return; }
      var records: seq<Record<Coupon>> := [];
      for i := 0 to |cs|
        invariant records == Records(user, mail, CouponsData(cs, date)[..i])
      {
        var code, description := Trunc(cs[i].code, LEN_CODE), Trunc(cs[i].description, LEN_DESCRIPTION);
        var expires, validFrom := ParseExpiry(cs[i].expiresAt, date), ParseExpiry(cs[i].validFrom, date);
        var c := Coupon(code, description, Trunc(cs[i].store, LEN_STORE), expires, validFrom);
        records := records + [Record(user, mail, c)];
      }
      assert CouponsData(cs, date)[..|cs|] == CouponsData(cs, date);
      var saved := DeleteMail(coupons, mail);
      for i := 0 to |records|
        invariant saved == DeleteMail(coupons, mail) + records[..i]
      {
        saved := saved + [records[i]];
      }
      assert records[..|records|] == records;
      if commits { coupons := saved; }
    }

    method SaveAppliedLabels(user: nat, mail: nat, names: seq<string>, existing: set<string>, commits: bool,
        lower: string -> string)
      modifies this`labels
      ensures labels == AfterBatch(old(labels),
        Batch(user, mail, LabelsData(names, set l | l in existing :: lower(l), lower), commits))
    {
      if names == [] { return; }
      var existingSet := set l | l in existing :: lower(l);
      var records: seq<Record<AppliedLabel>> := [];
      for i := 0 to |names|
        invariant records == Records(user, mail, LabelsData(names, existingSet, lower)[..i])
      {
        records := records + [Record(user, mail, AppliedLabel(Cut(names[i], LEN_LABEL), lower(names[i]) !in existingSet))];
      }
      assert LabelsData(names, existingSet, lower)[..|names|] == LabelsData(names, existingSet, lower);
      var saved := DeleteMail(labels, mail);
      for i := 0 to |records|
        invariant saved == DeleteMail(labels, mail) + records[..i]
      {
        saved := saved + [records[i]];
      }
      assert records[..|records|] == records;
      if commits { labels := saved; }
    }
  }

  // ---- runs of saves -----------------------------------------------------------------------

  function Saved<P>(byUser: bool, saves: seq<Save<P>>): seq<Row<P>> {
    if saves == [] then [] else AfterSave(Saved(byUser, saves[..|saves| - 1]), byUser, saves[|saves| - 1])
  }

  function Batched<P>(batches: seq<Batch<P>>): seq<Record<P>> {
    if batches == [] then [] else AfterBatch(Batched(batches[..|batches| - 1]), batches[|batches| - 1])
  }

  predicate Concerns<P>(byUser: bool, key: (nat, nat), s: Save<P>) {
    s.effective && KeyOf(byUser, s.user, s.mail) == key
  }

  /** The first and the last effective save for a key. */
  function FirstSave<P>(byUser: bool, key: (nat, nat), saves: seq<Save<P>>): Option<Save<P>> {
    if saves == [] then None
    else if Concerns(byUser, key, saves[0]) then Some(saves[0])
    else FirstSave(byUser, key, saves[1..])
  }

  function LastSave<P>(byUser: bool, key: (nat, nat), saves: seq<Save<P>>): Option<Save<P>> {
    if saves == [] then None
    else if Concerns(byUser, key, saves[|saves| - 1]) then Some(saves[|saves| - 1])
    else LastSave(byUser, key, saves[..|saves| - 1])
  }

  function Find<P>(byUser: bool, key: (nat, nat), rows: seq<Row<P>>): Option<Row<P>> {
    if rows == [] then None
    else if RowKey(byUser, rows[0]) == key then Some(rows[0])
    else Find(byUser, key, rows[1..])
  }

  ghost predicate UniqueKeys<P>(byUser: bool, rows: seq<Row<P>>) {
    forall i, j | 0 <= i < j < |rows| :: RowKey(byUser, rows[i]) != RowKey(byUser, rows[j])
  }

  lemma {:induction false} UpsertKeys<P>(rows: seq<Row<P>>, byUser: bool, r: Row<P>)
    requires UniqueKeys(byUser, rows)
    ensures UniqueKeys(byUser, Upsert(rows, byUser, r))
    ensures forall x | x in Upsert(rows, byUser, r) ::
      RowKey(byUser, x) == RowKey(byUser, r) || exists i :: 0 <= i < |rows| && RowKey(byUser, rows[i]) == RowKey(byUser, x)
    decreases |rows|
  {
    if rows != [] && RowKey(byUser, rows[0]) != RowKey(byUser, r) {
      var rest := rows[1..];
      assert forall i | 0 <= i < |rest| :: rest[i] == rows[i + 1];
      UpsertKeys(rest, byUser, r);
      var t := Upsert(rest, byUser, r);
      forall x | x in t
        ensures RowKey(byUser, x) != RowKey(byUser, rows[0])
        ensures RowKey(byUser, x) == RowKey(byUser, r)
          || exists i :: 0 <= i < |rows| && RowKey(byUser, rows[i]) == RowKey(byUser, x)
      {
        if RowKey(byUser, x) != RowKey(byUser, r) {
          var i :| 0 <= i < |rest| && RowKey(byUser, rest[i]) == RowKey(byUser, x);
          assert RowKey(byUser, rows[i + 1]) == RowKey(byUser, x);
        }
      }
      assert forall i | 0 <= i < |t| :: t[i] in t;
    }
  }

  /** An upsert changes what is found under its own key and nothing else. */
  lemma {:induction false} UpsertFinds<P>(rows: seq<Row<P>>, byUser: bool, r: Row<P>, key: (nat, nat))
    ensures Find(byUser, key, Upsert(rows, byUser, r))
      == if RowKey(byUser, r) != key then Find(byUser, key, rows)
         else
           match Find(byUser, key, rows)
           case None => Some(r)
           case Some(f) => Some(r.(id := f.id, user := f.user, created := f.created))
    decreases |rows|
  {
    if rows != [] {
      var merged := r.(id := rows[0].id, user := rows[0].user, created := rows[0].created);
      assert RowKey(byUser, rows[0]) == RowKey(byUser, r) ==> RowKey(byUser, merged) == RowKey(byUser, r);
      if RowKey(byUser, rows[0]) == RowKey(byUser, r) {
        assert ([merged] + rows[1..])[1..] == rows[1..];
      } else {
        UpsertFinds(rows[1..], byUser, r, key);
        assert ([rows[0]] + Upsert(rows[1..], byUser, r))[1..] == Upsert(rows[1..], byUser, r);
      }
    }
  }

  lemma {:induction false} FirstSaveAppend<P>(byUser: bool, key: (nat, nat), saves: seq<Save<P>>, s: Save<P>)
    ensures FirstSave(byUser, key, saves + [s])
      == if FirstSave(byUser, key, saves).Some? then FirstSave(byUser, key, saves)
         else if Concerns(byUser, key, s) then Some(s) else None
    decreases |saves|
  {
    if saves == [] {
      assert [] + [s] == [s] && [s][1..] == [];
      assert FirstSave(byUser, key, [s][1..]) == None;
    } else {
      assert (saves + [s])[1..] == saves[1..] + [s];
      FirstSaveAppend(byUser, key, saves[1..], s);
    }
  }

  /** After any run of saves the table is a map: at most one row per key, there exactly when the key was saved, with the
      id, user and creation time of the first save and the payload and update time of the last. */
  lemma {:induction false} SavesRefineAMap<P>(byUser: bool, saves: seq<Save<P>>, key: (nat, nat))
    ensures UniqueKeys(byUser, Saved(byUser, saves))
    ensures Find(byUser, key, Saved(byUser, saves)) ==
      match (FirstSave(byUser, key, saves), LastSave(byUser, key, saves))
      case (Some(f), Some(l)) => Some(Row(f.id, f.user, l.mail, l.payload, f.now, l.now))
      case _ => None
    ensures FirstSave(byUser, key, saves).Some? <==> LastSave(byUser, key, saves).Some?
    decreases |saves|
  {
    if saves != [] {
      var before, s := saves[..|saves| - 1], saves[|saves| - 1];
      assert saves == before + [s];
      SavesRefineAMap(byUser, before, key);
      FirstSaveAppend(byUser, key, before, s);
      if s.effective {
        var r := Row(s.id, s.user, s.mail, s.payload, s.now, s.now);
        UpsertKeys(Saved(byUser, before), byUser, r);
        UpsertFinds(Saved(byUser, before), byUser, r, key);
      }
    }
  }

  // ---- list tables -------------------------------------------------------------------------

  /** The records of one mail, in order. */
  function OfMail<P>(records: seq<Record<P>>, mail: nat): seq<Record<P>> {
    if records == [] then []
    else (if records[0].mail == mail then [records[0]] else []) + OfMail(records[1..], mail)
  }

  predicate Replaces<P>(mail: nat, b: Batch<P>) {
    b.effective && b.mail == mail && b.payloads != []
  }

  function LastBatch<P>(mail: nat, batches: seq<Batch<P>>): Option<Batch<P>> {
    if batches == [] then None
    else if Replaces(mail, batches[|batches| - 1]) then Some(batches[|batches| - 1])
    else LastBatch(mail, batches[..|batches| - 1])
  }

  lemma {:induction false} OfMailAppend<P>(a: seq<Record<P>>, b: seq<Record<P>>, mail: nat)
    ensures OfMail(a + b, mail) == OfMail(a, mail) + OfMail(b, mail)
    decreases |a|
  {
    if a == [] {
      assert a + b == b;
    } else {
      assert (a + b)[0] == a[0] && (a + b)[1..] == a[1..] + b;
      OfMailAppend(a[1..], b, mail);
    }
  }

  lemma {:induction false} OfMailDeleted<P>(records: seq<Record<P>>, mail: nat, other: nat)
    ensures OfMail(DeleteMail(records, other), mail) == if mail == other then [] else OfMail(records, mail)
    decreases |records|
  {
    if records != [] {
      var rest := DeleteMail(records[1..], other);
      OfMailDeleted(records[1..], mail, other);
      if records[0].mail != other {
        assert ([records[0]] + rest)[0] == records[0] && ([records[0]] + rest)[1..] == rest;
      } else {
        assert [] + rest == rest;
      }
    }
  }

  lemma {:induction false} OfMailUniform<P>(records: seq<Record<P>>, mail: nat, other: nat)
    requires forall i | 0 <= i < |records| :: records[i].mail == other
    ensures OfMail(records, mail) == if mail == other then records else []
    decreases |records|
  {
    if records != [] {
      OfMailUniform(records[1..], mail, other);
      assert mail == other ==> records == [records[0]] + records[1..];
    }
  }

  lemma BatchOfMail<P>(records: seq<Record<P>>, b: Batch<P>, mail: nat)
    ensures OfMail(AfterBatch(records, b), mail)
      == if Replaces(mail, b) then Records(b.user, mail, b.payloads) else OfMail(records, mail)
  {
    if b.effective && b.payloads != [] {
      var added := Records(b.user, b.mail, b.payloads);
      OfMailAppend(DeleteMail(records, b.mail), added, mail);
      OfMailDeleted(records, mail, b.mail);
      OfMailUniform(added, mail, b.mail);
      assert [] + added == added && OfMail(records, mail) + [] == OfMail(records, mail);
    }
  }

  /** After any run of batches a mail has exactly the records of its last effective, non-empty batch, in order. */
  lemma {:induction false} BatchesKeepTheLast<P>(batches: seq<Batch<P>>, mail: nat)
    ensures OfMail(Batched(batches), mail) ==
      match LastBatch(mail, batches)
      case Some(b) => Records(b.user, mail, b.payloads)
      case None => []
    decreases |batches|
  {
    if batches != [] {
      var before := batches[..|batches| - 1];
      BatchesKeepTheLast(before, mail);
      BatchOfMail(Batched(before), batches[|batches| - 1], mail);
    }
  }

  // ---- what is stored ------------------------------------------------------------------------

  /** Text that is stored in a column of n characters, or not at all if it is missing or empty. */
  predicate Stored(raw: Option<string>, n: nat, column: Option<string>) {
    if raw == None || raw == Some("") then column == None
    else column.Some? && column.value <= raw.value && |column.value| == if |raw.value| <= n then |raw.value| else n
  }

  predicate StoredDate(raw: Option<string>, date: string -> Option<int>, column: Option<int>) {
    column == if raw == None || raw == Some("") then None else date(raw.value)
  }

  /** Each coupon of the batch is stored in its own columns. */
  lemma CouponIsStored(cs: seq<RawCoupon>, date: string -> Option<int>, i: nat)
    requires i < |cs|
    ensures |CouponsData(cs, date)| == |cs|
    ensures var c := CouponsData(cs, date)[i];
      && Stored(cs[i].code, 100, c.code) && Stored(cs[i].description, 300, c.description) && Stored(cs[i].store, 200, c.store)
      && StoredDate(cs[i].expiresAt, date, c.expiresAt) && StoredDate(cs[i].validFrom, date, c.validFrom)
  {
  }

  /** A newsletter without a name or a sender gets a stand-in; the sender's address is cut to its column. */
  lemma NewsletterIsStored(name: string, sender: string, unsubscribe: Option<string>, hasUnsubscribe: bool)
    ensures var n := NewsletterData(name, sender, unsubscribe, hasUnsubscribe);
      && n.name == (if name == "" then "Unknown" else name)
      && (sender == "" ==> n.sender == "unknown")
      && (sender != "" ==> n.sender <= sender && |n.sender| == if |sender| <= 320 then |sender| else 320)
      && n.unsubscribe == unsubscribe && n.hasUnsubscribe == hasUnsubscribe
  {
  }

  /** A label is stored as new exactly if no existing label has its name, up to case. */
  lemma LabelIsStored(names: seq<string>, existing: set<string>, lower: string -> string, i: nat)
    requires i < |names|
    ensures var rows := LabelsData(names, set l | l in existing :: lower(l), lower);
      && |rows| == |names|
      && rows[i].text <= names[i] && |rows[i].text| == (if |names[i]| <= 200 then |names[i]| else 200)
      && (rows[i].isNew <==> forall l | l in existing :: lower(l) != lower(names[i]))
  {
  }
}
