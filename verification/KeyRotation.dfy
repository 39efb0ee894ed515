/** Envelope encryption of credentials and the rotation of the application secret
    (backend/app/core/security.py).  Encryption is symbolic: a token opens under the key it was sealed with and
    under no other. */
module KeyRotation {
  import opened Prelude

  /** Decoded token: a data key sealed under the secret of a key-encryption key, or text sealed under a data key. */
  datatype WrappedKey = Wrapped(secret: string, dek: nat) | NoKeyToken
  datatype SealedText = Sealed(dek: nat, text: string) | NoDataToken

  /** An entry of a JSON object. */
  datatype Entry<T> = Absent | NotAString | Str(value: T)

  datatype Blob =
    | NotJson
    | NotAnObject
    | Envelope(version: Option<int>, kekId: Option<string>, wrapper: Entry<WrappedKey>, data: Entry<SealedText>)

  datatype Error = BadJson | MalformedEnvelope | InvalidKey | InvalidToken

  datatype Result<T> = Success(value: T) | Failure(error: Error)

  // ---- specification -----------------------------------------------------------------------

  predicate WellShaped(b: Blob) {
    b.Envelope? && b.version.Some? && b.wrapper.Str? && b.data.Str?
  }

  /** The secret opens a wrapper that was sealed with it. */
  predicate Opens(secret: string, w: WrappedKey) {
    w.Wrapped? && w.secret == secret
  }

  predicate Openable(secret: string, previous: Option<string>, w: WrappedKey) {
    Opens(secret, w) || (previous.Some? && Opens(previous.value, w))
  }

  function Opened(secret: string, previous: Option<string>, b: Blob): Result<string> {
    if b.NotJson? then Failure(BadJson)
    else if !WellShaped(b) || b.version != Some(1) then Failure(MalformedEnvelope)
    else if !Openable(secret, previous, b.wrapper.value) then Failure(InvalidKey)
    else if b.data.value.Sealed? && b.data.value.dek == b.wrapper.value.dek then Success(b.data.value.text)
    else Failure(InvalidToken)
  }

  function Rotated(secret: string, previous: Option<string>, kekId: string, b: Blob): Result<Blob> {
    if b.NotJson? then Failure(BadJson)
    else if !WellShaped(b) then Failure(MalformedEnvelope)
    else if !Openable(secret, previous, b.wrapper.value) then Failure(InvalidKey)
    else Success(b.(wrapper := Str(Wrapped(secret, b.wrapper.value.dek)), kekId := Some(kekId)))
  }

  function Fresh(secret: string, kekId: string, text: string, dek: nat): Blob {
    Envelope(Some(1), Some(kekId), Str(Wrapped(secret, dek)), Str(Sealed(dek, text)))
  }

  // ---- the service -------------------------------------------------------------------------

  class EnvelopeEncryption {
    var kek: string
    var oldKek: Option<string>
    var kekId: string

    /** An empty old secret counts as none. */
    constructor (secretKey: string, oldSecretKey: Option<string>, today: string)
      ensures kek == secretKey && kekId == today
      ensures oldKek == if oldSecretKey == Some("") then None else oldSecretKey
    {
      kek, kekId := secretKey, today;
      oldKek := if oldSecretKey.Some? && oldSecretKey.value != "" then oldSecretKey else None;
    }

    method Encrypt(plaintext: string, dek: nat) returns (b: Blob)
      ensures b == Fresh(kek, kekId, plaintext, dek)
      ensures Opened(kek, oldKek, b) == Success(plaintext)
    {
      b := Envelope(Some(1), Some(kekId), Str(Wrapped(kek, dek)), Str(Sealed(dek, plaintext)));
    }

    method TryDecryptDek(w: WrappedKey) returns (r: Result<(nat, bool)>)
      ensures r.Success? <==> Openable(kek, oldKek, w)
      ensures r.Success? ==> r.value == (w.dek, !Opens(kek, w))
      ensures r.Failure? ==> r.error == InvalidKey
    {
      if w.Wrapped? && w.secret == kek { return Success((w.dek, false)); }
      if oldKek.Some? {
        if w.Wrapped? && w.secret == oldKek.value { return Success((w.dek, true)); }
      }
      r := Failure(InvalidKey);
    }

    method Decrypt(b: Blob) returns (r: Result<string>)
      ensures r == Opened(kek, oldKek, b)
    {
      if b.NotJson? { return Failure(BadJson); }
      if !WellShaped(b) { return Failure(MalformedEnvelope); }
      if b.version != Some(1) { return Failure(MalformedEnvelope); }
      var dek := TryDecryptDek(b.wrapper.value);
      if dek.Failure? { return Failure(dek.error); }
      if b.data.value.Sealed? && b.data.value.dek == dek.value.0 {
        r := Success(b.data.value.text);
      } else {
        r := Failure(InvalidToken);
      }
    }

    method RotateEnvelope(b: Blob) returns (r: Result<Blob>)
      ensures r == Rotated(kek, oldKek, kekId, b)
    {
      if b.NotJson? { return Failure(BadJson); }
      if !WellShaped(b) { return Failure(MalformedEnvelope); }
      var dek := TryDecryptDek(b.wrapper.value);
      if dek.Failure? { return Failure(dek.error); }
      var envelope := b;
      envelope := envelope.(wrapper := Str(Wrapped(kek, dek.value.0)));
      envelope := envelope.(kekId := Some(kekId));
      r := Success(envelope);
    }
  }

  // ---- one envelope ------------------------------------------------------------------------

  /** Rotating changes neither what an envelope decrypts to nor its encrypted data and version; afterwards the current
      secret alone is enough, and the envelope names its key. */
  lemma RotationKeepsMeaning(secret: string, previous: Option<string>, kekId: string, b: Blob)
    requires Rotated(secret, previous, kekId, b).Success?
    ensures var r := Rotated(secret, previous, kekId, b).value;
      && Opened(secret, previous, r) == Opened(secret, previous, b) == Opened(secret, None, r)
      && r.data == b.data && r.version == b.version && r.kekId == Some(kekId)
  {
  }

  /** What can be decrypted can be rotated; the other way round it takes version 1 and data under the same data key. */
  lemma RotatableIff(secret: string, previous: Option<string>, kekId: string, b: Blob)
    ensures Opened(secret, previous, b).Success? <==>
      && Rotated(secret, previous, kekId, b).Success?
      && b.version == Some(1)
      && b.data.value.Sealed? && b.data.value.dek == b.wrapper.value.dek
  {
  }

  // ---- runs --------------------------------------------------------------------------------

  /** The configured secrets and the stored credentials; `texts` are the plaintexts they were created from. */
  datatype State = State(secret: string, previous: Option<string>, blobs: seq<Blob>, texts: seq<string>)

  datatype Step = Save(text: string, dek: nat, today: string) | Rotate(i: nat, today: string)

  /** A period between two changes of the secret: the new secret, then anything that happens while it is current. */
  datatype Period = Period(secret: string, steps: seq<Step>)

  function Apply(s: State, step: Step): State {
    match step
    case Save(text, dek, today) => s.(blobs := s.blobs + [Fresh(s.secret, today, text, dek)], texts := s.texts + [text])
    case Rotate(i, today) =>
      if i < |s.blobs| && Rotated(s.secret, s.previous, today, s.blobs[i]).Success? then
        s.(blobs := s.blobs[i := Rotated(s.secret, s.previous, today, s.blobs[i]).value])
      else s
  }

  function ApplyAll(s: State, steps: seq<Step>): State
    decreases |steps|
  {
    if steps == [] then s else ApplyAll(Apply(s, steps[0]), steps[1..])
  }

  /** The old secret is the one that was current so far. */
  function ChangeKey(s: State, secret: string): State {
    s.(secret := secret, previous := if s.secret == "" then None else Some(s.secret))
  }

  function Live(s: State, p: Period): State {
    ApplyAll(ChangeKey(s, p.secret), p.steps)
  }

  function LiveAll(s: State, ps: seq<Period>): State
    decreases |ps|
  {
    if ps == [] then s else LiveAll(Live(s, ps[0]), ps[1..])
  }

  predicate Consistent(s: State) {
    && |s.texts| == |s.blobs|
    && forall i | 0 <= i < |s.blobs| ::
         && WellShaped(s.blobs[i]) && s.blobs[i].version == Some(1) && s.blobs[i].wrapper.value.Wrapped?
         && s.blobs[i].data.value == Sealed(s.blobs[i].wrapper.value.dek, s.texts[i])
  }

  /** Credential i decrypts to what was stored. */
  predicate Readable(s: State, i: nat)
    requires i < |s.blobs| == |s.texts|
  {
    Opened(s.secret, s.previous, s.blobs[i]) == Success(s.texts[i])
  }

  predicate Wraps(s: State, i: nat, secret: string)
    requires i < |s.blobs|
  {
    s.blobs[i].Envelope? && s.blobs[i].wrapper.Str? && Opens(secret, s.blobs[i].wrapper.value)
  }

  /** A credential is readable exactly when its wrapper is sealed with one of the two configured secrets. */
  lemma ReadableIff(s: State, i: nat)
    requires Consistent(s) && i < |s.blobs|
    ensures Readable(s, i) <==> Wraps(s, i, s.secret) || (s.previous.Some? && Wraps(s, i, s.previous.value))
  {
  }

  /** Nothing that is done to the store changes a plaintext, the encrypted data or the number of credentials that were
      there before, whether or not anything is rotated. */
  ghost predicate Extends(s: State, t: State) {
    && |s.blobs| <= |t.blobs| && |s.texts| <= |t.texts|
    && (forall i | 0 <= i < |s.texts| :: t.texts[i] == s.texts[i])
    && (forall i | 0 <= i < |s.blobs| ::
          s.blobs[i].Envelope? ==> t.blobs[i].Envelope? && t.blobs[i].data == s.blobs[i].data)
  }

  lemma {:induction false} StepsExtend(s: State, steps: seq<Step>)
    requires Consistent(s)
    ensures Consistent(ApplyAll(s, steps)) && Extends(s, ApplyAll(s, steps))
    ensures ApplyAll(s, steps).secret == s.secret && ApplyAll(s, steps).previous == s.previous
    decreases |steps|
  {
    if steps != [] {
      StepsExtend(Apply(s, steps[0]), steps[1..]);
    }
  }

  lemma {:induction false} DataNeverChanges(s: State, ps: seq<Period>)
    requires Consistent(s)
    ensures Consistent(LiveAll(s, ps)) && Extends(s, LiveAll(s, ps))
    decreases |ps|
  {
    if ps != [] {
      StepsExtend(ChangeKey(s, ps[0].secret), ps[0].steps);
      DataNeverChanges(Live(s, ps[0]), ps[1..]);
    }
  }

  // ---- when everything stays readable ----------------------------------------------------------

  ghost predicate AllReadable(s: State)
    requires Consistent(s)
  {
    forall i | 0 <= i < |s.blobs| :: Readable(s, i)
  }

  ghost predicate AllCurrent(s: State)
    requires Consistent(s)
  {
    forall i | 0 <= i < |s.blobs| :: Wraps(s, i, s.secret)
  }

  predicate IsRotationOf(step: Step, i: nat) {
    step.Rotate? && step.i == i
  }

  /** Steps that rotate credential i. */
  predicate RotatesIt(steps: seq<Step>, i: nat) {
    exists k | 0 <= k < |steps| :: IsRotationOf(steps[k], i)
  }

  lemma {:induction false} StepsKeepReadable(s: State, steps: seq<Step>, i: nat)
    requires Consistent(s) && i < |s.blobs|
    ensures var t := ApplyAll(s, steps);
      && i < |t.blobs| == |t.texts|
      && (Readable(s, i) ==> Readable(t, i))
      && (Wraps(s, i, s.secret) || (Readable(s, i) && RotatesIt(steps, i)) ==> Wraps(t, i, s.secret))
    decreases |steps|
  {
    if steps != [] {
      var n := Apply(s, steps[0]);
      StepsExtend(s, [steps[0]]);
      assert ApplyAll(s, [steps[0]]) == n;
      StepsKeepReadable(n, steps[1..], i);
      if RotatesIt(steps, i) && !IsRotationOf(steps[0], i) {
        var k :| 0 <= k < |steps| && IsRotationOf(steps[k], i);
        assert IsRotationOf(steps[1..][k - 1], i);
      }
    }
  }

  /** A change of the secret leaves a credential readable exactly when its wrapper is sealed with the secret that was
      current, or happens to be sealed with the new one. */
  lemma ChangeKeepsReadableIff(s: State, secret: string, i: nat)
    requires Consistent(s) && i < |s.blobs| && s.secret != ""
    ensures Readable(ChangeKey(s, secret), i) <==> Wraps(s, i, s.secret) || Wraps(s, i, secret)
  {
  }

  /** Every period but the last rotates all credentials that were there when it began. */
  ghost predicate Disciplined(s: State, ps: seq<Period>)
    decreases |ps|
  {
    |ps| > 1 ==>
      && (forall i | 0 <= i < |s.blobs| :: RotatesIt(ps[0].steps, i))
      && Disciplined(Live(s, ps[0]), ps[1..])
  }

  lemma {:induction false} SavedAreCurrent(s: State, steps: seq<Step>, i: nat)
    requires Consistent(s) && |s.blobs| <= i < |ApplyAll(s, steps).blobs|
    ensures Wraps(ApplyAll(s, steps), i, s.secret)
    decreases |steps|
  {
    var n := Apply(s, steps[0]);
    StepsExtend(s, [steps[0]]);
    assert ApplyAll(s, [steps[0]]) == n;
    if i < |n.blobs| {
      assert Wraps(n, i, s.secret);
      StepsKeepReadable(n, steps[1..], i);
    } else {
      SavedAreCurrent(n, steps[1..], i);
    }
  }

  lemma PeriodKeepsReadable(s: State, p: Period)
    requires Consistent(s) && AllCurrent(s) && s.secret != ""
    ensures Consistent(Live(s, p)) && AllReadable(Live(s, p))
    ensures (forall i | 0 <= i < |s.blobs| :: RotatesIt(p.steps, i)) ==> AllCurrent(Live(s, p))
  {
    var c := ChangeKey(s, p.secret);
    StepsExtend(c, p.steps);
    forall i | 0 <= i < |Live(s, p).blobs|
      ensures Readable(Live(s, p), i)
      ensures i >= |s.blobs| || RotatesIt(p.steps, i) ==> Wraps(Live(s, p), i, p.secret)
    {
      if i < |s.blobs| {
        ChangeKeepsReadableIff(s, p.secret, i);
        StepsKeepReadable(c, p.steps, i);
      } else {
        SavedAreCurrent(c, p.steps, i);
        ReadableIff(Live(s, p), i);
      }
    }
  }

  /** Rotate everything between any two changes of the secret, and every credential stays readable as what was stored,
      through any number of changes and at any point of the last period. */
  lemma {:induction false} DisciplinedRunsStayReadable(s: State, ps: seq<Period>)
    requires Consistent(s) && AllCurrent(s) && s.secret != "" && ps != []
    requires Disciplined(s, ps) && forall k | 0 <= k < |ps| :: ps[k].secret != ""
    ensures Consistent(LiveAll(s, ps)) && AllReadable(LiveAll(s, ps)) && Extends(s, LiveAll(s, ps))
    decreases |ps|
  {
    DataNeverChanges(s, ps);
    PeriodKeepsReadable(s, ps[0]);
    if |ps| > 1 {
      StepsExtend(ChangeKey(s, ps[0].secret), ps[0].steps);
      DisciplinedRunsStayReadable(Live(s, ps[0]), ps[1..]);
    } else {
      assert ps[1..] == [];
    }
  }

  // ---- when a credential is lost -----------------------------------------------------------------

  lemma {:induction false} UnreadableStaysAsItIs(s: State, steps: seq<Step>, i: nat)
    requires Consistent(s) && i < |s.blobs| && (!Readable(s, i) || !RotatesIt(steps, i))
    ensures i < |ApplyAll(s, steps).blobs| && ApplyAll(s, steps).blobs[i] == s.blobs[i]
    decreases |steps|
  {
    if steps != [] {
      var n := Apply(s, steps[0]);
      StepsExtend(s, [steps[0]]);
      assert ApplyAll(s, [steps[0]]) == n;
      assert RotatesIt(steps[1..], i) ==> RotatesIt(steps, i) by {
        if k :| 0 <= k < |steps[1..]| && IsRotationOf(steps[1..][k], i) {
          assert IsRotationOf(steps[k + 1], i);
        }
      }
      assert IsRotationOf(steps[0], i) ==> RotatesIt(steps, i);
      assert n.blobs[i] == s.blobs[i];
      UnreadableStaysAsItIs(n, steps[1..], i);
    }
  }

  // ---- exactly when -----------------------------------------------------------------------------

  /** The secret a credential is sealed with after some periods, if it was sealed with w when `current` was the secret: a
      rotation reseals it while w is one of the two configured secrets, and does nothing otherwise. */
  function SealAfter(w: string, current: string, ps: seq<Period>, i: nat): string
    decreases |ps|
  {
    if ps == [] then w
    else
      var p := ps[0];
      var resealed := RotatesIt(p.steps, i) && (w == p.secret || (current != "" && w == current));
      SealAfter(if resealed then p.secret else w, p.secret, ps[1..], i)
  }

  /** The secrets that are configured in the last period. */
  function LastTwo(current: string, ps: seq<Period>): set<string>
    requires ps != []
  {
    var before := if |ps| == 1 then current else ps[|ps| - 2].secret;
    {ps[|ps| - 1].secret} + if before == "" then {} else {before}
  }

  lemma PeriodSeals(s: State, p: Period, i: nat, w: string)
    requires Consistent(s) && i < |s.blobs| && Wraps(s, i, w)
    ensures var t := Live(s, p);
      var resealed := RotatesIt(p.steps, i) && (w == p.secret || (s.secret != "" && w == s.secret));
      && Consistent(t) && i < |t.blobs| && t.secret == p.secret
      && t.previous == (if s.secret == "" then None else Some(s.secret))
      && Wraps(t, i, if resealed then p.secret else w)
  {
    var c := ChangeKey(s, p.secret);
    StepsExtend(c, p.steps);
    ReadableIff(c, i);
    if Readable(c, i) && RotatesIt(p.steps, i) {
      StepsKeepReadable(c, p.steps, i);
    } else {
      UnreadableStaysAsItIs(c, p.steps, i);
    }
  }

  lemma {:induction false} SealFollows(s: State, ps: seq<Period>, i: nat, w: string)
    requires Consistent(s) && i < |s.blobs| && Wraps(s, i, w) && ps != []
    ensures var t := LiveAll(s, ps);
      && Consistent(t) && i < |t.blobs| && Wraps(t, i, SealAfter(w, s.secret, ps, i))
      && LastTwo(s.secret, ps) == {t.secret} + if t.previous.Some? then {t.previous.value} else {}
    decreases |ps|
  {
    PeriodSeals(s, ps[0], i, w);
    var t, rest := Live(s, ps[0]), ps[1..];
    if rest != [] {
      var resealed := RotatesIt(ps[0].steps, i) && (w == ps[0].secret || (s.secret != "" && w == s.secret));
      SealFollows(t, rest, i, if resealed then ps[0].secret else w);
      assert LastTwo(t.secret, rest) == LastTwo(s.secret, ps);
    }
  }

  /** For every run through any number of changes of the secret, also back to an old one: a credential is readable at the
      end exactly when the secret it is sealed with by then is one of the last two. */
  lemma ReadableAfterIff(s: State, ps: seq<Period>, i: nat, w: string)
    requires Consistent(s) && i < |s.blobs| && Wraps(s, i, w) && ps != []
    ensures var t := LiveAll(s, ps);
      && Consistent(t) && i < |t.blobs|
      && (Readable(t, i) <==> SealAfter(w, s.secret, ps, i) in LastTwo(s.secret, ps))
      && (!Readable(t, i) ==> Opened(t.secret, t.previous, t.blobs[i]) == Failure(InvalidKey))
  {
    SealFollows(s, ps, i, w);
    ReadableIff(LiveAll(s, ps), i);
  }

  /** Every secret is new. */
  predicate AllNew(current: string, ps: seq<Period>) {
    && current != "" && (forall k | 0 <= k < |ps| :: ps[k].secret != "" && ps[k].secret != current)
    && forall j, k | 0 <= j < k < |ps| :: ps[j].secret != ps[k].secret
  }

  predicate RotatedBetween(ps: seq<Period>, i: nat) {
    forall k | 0 <= k < |ps| - 1 :: RotatesIt(ps[k].steps, i)
  }

  lemma {:induction false} StaleSealStays(w: string, current: string, ps: seq<Period>, i: nat)
    requires w != current && forall k | 0 <= k < |ps| :: ps[k].secret != w
    ensures SealAfter(w, current, ps, i) == w
    decreases |ps|
  {
    if ps != [] { StaleSealStays(w, ps[0].secret, ps[1..], i); }
  }

  lemma {:induction false} SealIsFreshIff(current: string, ps: seq<Period>, i: nat)
    requires AllNew(current, ps) && ps != []
    ensures SealAfter(current, current, ps, i) in LastTwo(current, ps) <==> RotatedBetween(ps, i)
    decreases |ps|
  {
    if |ps| > 1 {
      var p, rest := ps[0], ps[1..];
      assert LastTwo(p.secret, rest) == LastTwo(current, ps);
      if RotatesIt(p.steps, i) {
        SealIsFreshIff(p.secret, rest, i);
        assert RotatedBetween(rest, i) <==> RotatedBetween(ps, i) by {
          assert forall k | 0 < k < |ps| :: ps[k] == rest[k - 1];
        }
      } else {
        StaleSealStays(current, p.secret, rest, i);
      }
    } else {
      assert ps[1..] == [];
    }
  }

  /** Through any number of changes to new secrets a credential that was sealed with the current one stays readable exactly
      when every period but the last rotates it. */
  lemma StaysReadableIff(s: State, ps: seq<Period>, i: nat)
    requires Consistent(s) && i < |s.blobs| && Wraps(s, i, s.secret) && ps != [] && AllNew(s.secret, ps)
    ensures var t := LiveAll(s, ps);
      && Consistent(t) && i < |t.blobs|
      && (Readable(t, i) <==> RotatedBetween(ps, i))
  {
    ReadableAfterIff(s, ps, i, s.secret);
    SealIsFreshIff(s.secret, ps, i);
  }

  /** Two changes to other secrets without rotating a credential in between make it unreadable, and no later step
      under that configuration brings it back. */
  lemma SkippingRotationLoses(s: State, p: Period, q: Period, i: nat)
    requires Consistent(s) && i < |s.blobs|
    requires !Wraps(s, i, p.secret) && !Wraps(s, i, q.secret) && !RotatesIt(p.steps, i)
    ensures var t := LiveAll(s, [p, q]);
      && Consistent(t) && i < |t.blobs| && !Readable(t, i)
      && Opened(t.secret, t.previous, t.blobs[i]) == Failure(InvalidKey)
  {
    var w := s.blobs[i].wrapper.value.secret;
    ReadableAfterIff(s, [p, q], i, w);
    assert [p, q][1..] == [q] && [q][1..] == [];
    assert SealAfter(w, s.secret, [p, q], i) == SealAfter(w, p.secret, [q], i) == w;
  }
}
