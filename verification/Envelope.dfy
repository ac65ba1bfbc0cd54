/** Envelope encryption of one credential record: a data key seals the record, a managed
    key wraps the data key, and both are bound to the record's coordinates.

    The ciphers are symbolic: a sealed text opens under exactly the key, nonce and
    authenticated data it was sealed with. */
module Envelope {
  import opened Wrappers

  // ----- Authenticated coordinates -----

  /** Identities are in their canonical text form of 36 characters. */
  datatype Context = Context(workspace: string, connection: string, recordType: string, record: string, format: int)

  const FORMAT := 1

  predicate Valid(c: Context) {
    |c.workspace| == 36 && |c.connection| == 36 && |c.record| == 36 && c.format == FORMAT
  }

  function AuthenticatedData(c: Context): string
    requires Valid(c)
  {
    c.workspace + "|" + c.connection + "|" + c.recordType + "|" + c.record + "|" + "1"
  }

  /** Different coordinates never authenticate as the same data, even though a record type
      may itself contain the separator. */
  lemma AuthenticatedDataIsInjective(a: Context, b: Context)
    requires Valid(a) && Valid(b) && AuthenticatedData(a) == AuthenticatedData(b)
    ensures a == b
  {
    Parts(a, AuthenticatedData(a));
    Parts(b, AuthenticatedData(b));
  }

  lemma Parts(c: Context, s: string)
    requires Valid(c) && s == AuthenticatedData(c)
    ensures |s| >= 113 && c.workspace == s[..36] && c.connection == s[37..73]
    ensures c.recordType == s[74..|s| - 39] && c.record == s[|s| - 38..|s| - 2]
    ensures s[|s| - 2..] == "|1" && c.format == 1
  {
  }

  // ----- Symbolic cryptography -----

  datatype KeyReference = KeyReference(resource: string, version: string)
  datatype Cipher = Sealed(key: nat, nonce: nat, plaintext: string, data: string) | Junk(bytes: string)
  datatype Wrapped = WrappedKey(key: nat, kek: KeyReference, data: string) | JunkKey(bytes: string)

  function Open(key: nat, nonce: nat, c: Cipher, data: string): Option<string> {
    if c.Sealed? && c.key == key && c.nonce == nonce && c.data == data then Some(c.plaintext) else None
  }

  /** The managed key service during one call: the keys it will unwrap with, and those it
      will wrap with a moment later. */
  datatype Usable = Usable(unwraps: KeyReference -> bool, wraps: KeyReference -> bool)

  function Wrap(usable: Usable, key: nat, kek: KeyReference, data: string): Option<Wrapped> {
    if usable.wraps(kek) then Some(WrappedKey(key, kek, data)) else None
  }

  function Unwrap(usable: Usable, w: Wrapped, kek: KeyReference, data: string): Option<nat> {
    if usable.unwraps(kek) && w.WrappedKey? && w.kek == kek && w.data == data then Some(w.key) else None
  }

  // ----- The envelope -----

  datatype Status = Active | Rotating | Quarantined | Disabled
  datatype Envelope = Envelope(
    context: Context, knownAlgorithm: bool, cipher: Cipher, nonce: nat, wrapped: Wrapped, key: KeyReference,
    checksum: string, status: Status, generation: int, request: Option<nat>, legacyChecksum: Option<string>,
    shadowVerified: bool)

  datatype Error = Unavailable | Unsupported | AuthenticationFailed | ChecksumFailed | RotationFailed | ShadowMismatch
                 | ProviderUnavailable | IncidentRequired

  datatype Outcome = Outcome(envelope: Envelope, error: Option<Error>)

  datatype Op =
    | Rewrap(to: KeyReference, request: nat)
    | ReplaceDataKey(request: nat, key: nat, nonce: nat)
    | EmergencyDisable(incident: string)
    | VerifyLegacyShadow(plaintext: string, ciphertext: string)

  /** SHA-256 of a ciphertext and of legacy bytes, and whether a text is blank. */
  datatype Hashes = Hashes(cipher: Cipher -> string, bytes: string -> string, blank: string -> bool)

  predicate Supported(e: Envelope) {
    Valid(e.context) && e.knownAlgorithm
  }

  function Encrypt(h: Hashes, usable: Usable, plaintext: string, c: Context, kek: KeyReference, key: nat,
                   nonce: nat): Result<Envelope, Error>
    requires Valid(c)
  {
    var data := AuthenticatedData(c);
    var cipher := Sealed(key, nonce, plaintext, data);
    match Wrap(usable, key, kek, data)
    case None => Err(ProviderUnavailable)
    case Some(w) => Ok(Envelope(c, true, cipher, nonce, w, kek, h.cipher(cipher), Active, 1, None, None, false))
  }

  function Decrypt(h: Hashes, usable: Usable, e: Envelope): Result<string, Error> {
    if !e.status.Active? then Err(Unavailable)
    else if !Supported(e) then Err(Unsupported)
    else
      var data := AuthenticatedData(e.context);
      match Unwrap(usable, e.wrapped, e.key, data)
      case None => Err(AuthenticationFailed)
      case Some(key) =>
        match Open(key, e.nonce, e.cipher, data)
        case None => Err(AuthenticationFailed)
        case Some(plaintext) => if h.cipher(e.cipher) != e.checksum then Err(ChecksumFailed) else Ok(plaintext)
  }

  predicate Locked(e: Envelope) {
    e.status.Disabled? || e.status.Quarantined?
  }

  function Quarantine(e: Envelope): Envelope {
    e.(status := Quarantined, generation := e.generation + 1)
  }

  function DoRewrap(usable: Usable, e: Envelope, to: KeyReference, request: nat): Outcome {
    if Locked(e) then Outcome(e, Some(Unavailable))
    else if e.request == Some(request) && e.key == to && e.status.Active? then Outcome(e, None)
    else if !Supported(e) then Outcome(e, Some(Unsupported))
    else
      var data := AuthenticatedData(e.context);
      match Unwrap(usable, e.wrapped, e.key, data)
      case None => Outcome(Quarantine(e), Some(RotationFailed))
      case Some(key) =>
        match Wrap(usable, key, to, data)
        case None => Outcome(Quarantine(e), Some(RotationFailed))
        case Some(w) =>
          Outcome(e.(wrapped := w, key := to, request := Some(request), generation := e.generation + 1,
                     status := Active), None)
  }

  function DoReplace(h: Hashes, usable: Usable, e: Envelope, request: nat, key: nat, nonce: nat): Outcome {
    if Locked(e) then Outcome(e, Some(Unavailable))
    else if e.request == Some(request) && e.status.Active? then Outcome(e, None)
    else
      match Decrypt(h, usable, e)
      case Err(error) => Outcome(e, Some(error))
      case Ok(plaintext) =>
        match Encrypt(h, usable, plaintext, e.context, e.key, key, nonce)
        case Err(error) => Outcome(e, Some(error))
        case Ok(renewed) =>
          Outcome(e.(cipher := renewed.cipher, nonce := renewed.nonce, wrapped := renewed.wrapped,
                     checksum := renewed.checksum, request := Some(request), generation := e.generation + 1), None)
  }

  function DoShadow(h: Hashes, usable: Usable, e: Envelope, plaintext: string, ciphertext: string): Outcome {
    if Locked(e) then Outcome(e, Some(Unavailable))
    else
      match Decrypt(h, usable, e)
      case Err(error) => Outcome(e, Some(error))
      case Ok(own) =>
        if own != plaintext then Outcome(Quarantine(e), Some(ShadowMismatch))
        else Outcome(e.(legacyChecksum := Some(h.bytes(ciphertext)), shadowVerified := true,
                        generation := e.generation + 1), None)
  }

  function DoDisable(h: Hashes, e: Envelope, incident: string): Outcome {
    if h.blank(incident) then Outcome(e, Some(IncidentRequired))
    else if Locked(e) then Outcome(e, Some(Unavailable))
    else Outcome(e.(status := Disabled, generation := e.generation + 1), None)
  }

  function Apply(h: Hashes, usable: Usable, e: Envelope, op: Op): Outcome {
    match op
    case Rewrap(to, request) => DoRewrap(usable, e, to, request)
    case ReplaceDataKey(request, key, nonce) => DoReplace(h, usable, e, request, key, nonce)
    case EmergencyDisable(incident) => DoDisable(h, e, incident)
    case VerifyLegacyShadow(plaintext, ciphertext) => DoShadow(h, usable, e, plaintext, ciphertext)
  }

  /** A run: each call meets the key service in a state of its own. */
  function Run(h: Hashes, e: Envelope, calls: seq<(Usable, Op)>): Envelope
    decreases |calls|
  {
    if calls == [] then e else Run(h, Apply(h, calls[0].0, e, calls[0].1).envelope, calls[1..])
  }

  // ----- What every run keeps -----

  /** The envelope holds `plaintext`, sealed and wrapped for its own coordinates. */
  predicate Holds(h: Hashes, e: Envelope, plaintext: string) {
    && Supported(e)
    && e.wrapped.WrappedKey?
    && e.wrapped == WrappedKey(e.wrapped.key, e.key, AuthenticatedData(e.context))
    && e.cipher == Sealed(e.wrapped.key, e.nonce, plaintext, AuthenticatedData(e.context))
    && e.checksum == h.cipher(e.cipher)
  }

  lemma ApplyHolds(h: Hashes, usable: Usable, e: Envelope, op: Op, plaintext: string)
    requires Holds(h, e, plaintext)
    ensures Holds(h, Apply(h, usable, e, op).envelope, plaintext)
    ensures Apply(h, usable, e, op).envelope.context == e.context
  {
  }

  lemma {:induction false} RunHolds(h: Hashes, e: Envelope, calls: seq<(Usable, Op)>, plaintext: string)
    requires Holds(h, e, plaintext)
    ensures Holds(h, Run(h, e, calls), plaintext) && Run(h, e, calls).context == e.context
    decreases |calls|
  {
    if calls != [] {
      ApplyHolds(h, calls[0].0, e, calls[0].1, plaintext);
      RunHolds(h, Apply(h, calls[0].0, e, calls[0].1).envelope, calls[1..], plaintext);
    }
  }

  /** Whatever is rotated, replaced, verified, failed or disabled after encryption: what
      decrypts at all is the original plaintext, and it does decrypt exactly while the
      envelope is active and its managed key usable. */
  lemma DecryptsToTheOriginal(h: Hashes, first: Usable, plaintext: string, c: Context, kek: KeyReference, key: nat,
                              nonce: nat,
                              calls: seq<(Usable, Op)>, usable: Usable)
    requires Valid(c) && Encrypt(h, first, plaintext, c, kek, key, nonce).Ok?
    ensures var e := Run(h, Encrypt(h, first, plaintext, c, kek, key, nonce).value, calls);
            if e.status.Active? && usable.unwraps(e.key) then Decrypt(h, usable, e) == Ok(plaintext)
            else Decrypt(h, usable, e).Err?
  {
    RunHolds(h, Encrypt(h, first, plaintext, c, kek, key, nonce).value, calls, plaintext);
  }

  /** An envelope moved to other coordinates never opens, whatever keys are usable. */
  lemma MovedNeverOpens(h: Hashes, usable: Usable, e: Envelope, plaintext: string, elsewhere: Context)
    requires Holds(h, e, plaintext) && elsewhere != e.context
    ensures Decrypt(h, usable, e.(context := elsewhere)).Err?
  {
    if Valid(elsewhere) && AuthenticatedData(elsewhere) == AuthenticatedData(e.context) {
      AuthenticatedDataIsInjective(elsewhere, e.context);
    }
  }

  /** Once disabled or quarantined, an envelope never changes again and never decrypts. */
  lemma {:induction false} LockedForGood(h: Hashes, e: Envelope, calls: seq<(Usable, Op)>, usable: Usable)
    requires Locked(e)
    ensures Run(h, e, calls) == e && Decrypt(h, usable, Run(h, e, calls)) == Err(Unavailable)
    decreases |calls|
  {
    if calls != [] {
      LockedForGood(h, e, calls[1..], usable);
    }
  }

  /** A call either changes nothing or advances the generation by one; over a run the
      generation never falls and stays only if nothing changed. */
  lemma {:induction false} GenerationCountsChanges(h: Hashes, e: Envelope, calls: seq<(Usable, Op)>)
    ensures Run(h, e, calls).generation >= e.generation
    ensures Run(h, e, calls).generation == e.generation ==> Run(h, e, calls) == e
    decreases |calls|
  {
    if calls != [] {
      var next := Apply(h, calls[0].0, e, calls[0].1).envelope;
      assert next == e || next.generation == e.generation + 1;
      GenerationCountsChanges(h, next, calls[1..]);
    }
  }

  /** A rotation that fails leaves the sealed record and its wrapped key as they were. */
  lemma FailedRewrapKeepsMaterial(h: Hashes, usable: Usable, e: Envelope, to: KeyReference, request: nat)
    requires Apply(h, usable, e, Rewrap(to, request)).error.Some?
    ensures var t := Apply(h, usable, e, Rewrap(to, request)).envelope;
            && t == e.(status := t.status, generation := t.generation)
            && (t.status == e.status || t.status == Quarantined)
            && (!Locked(e) && Supported(e) ==> t.status == Quarantined)
            && (!Locked(e) && !Supported(e) ==>
                Apply(h, usable, e, Rewrap(to, request)).error == Some(Unsupported) && t == e)
  {
  }

  predicate Rotates(op: Op) {
    op.Rewrap? || op.ReplaceDataKey?
  }

  /** The last rotation to go through is the one `op` asked for. */
  predicate Rotated(e: Envelope, op: Op)
    requires Rotates(op)
  {
    e.request == Some(op.request) && (op.Rewrap? ==> e.key == op.to) && (e.status.Active? || Locked(e))
  }

  /** A rotation request that went through is a no-op when repeated later, whatever keys
      are usable by then, as long as no other rotation was asked for in between. */
  lemma RepeatedRotationIsNoOp(h: Hashes, usable: Usable, e: Envelope, op: Op, between: seq<(Usable, Op)>,
                               later: Usable)
    requires Rotates(op) && Apply(h, usable, e, op).error == None
    requires forall i :: 0 <= i < |between| ==> !Rotates(between[i].1)
    ensures var t := Run(h, Apply(h, usable, e, op).envelope, between);
            Apply(h, later, t, op).envelope == t
  {
    StaysRotated(h, Apply(h, usable, e, op).envelope, op, between);
  }

  lemma {:induction false} StaysRotated(h: Hashes, e: Envelope, op: Op, calls: seq<(Usable, Op)>)
    requires Rotates(op) && Rotated(e, op) && forall i :: 0 <= i < |calls| ==> !Rotates(calls[i].1)
    ensures Rotated(Run(h, e, calls), op)
    decreases |calls|
  {
    if calls != [] {
      StaysRotated(h, Apply(h, calls[0].0, e, calls[0].1).envelope, op, calls[1..]);
    }
  }

  /** A readable envelope is rewrapped exactly when the request or the key is new compared
      with the last rotation: an older request id is not remembered. */
  lemma RewrappedIffNewRequest(h: Hashes, usable: Usable, e: Envelope, plaintext: string, to: KeyReference,
                               request: nat)
    requires Holds(h, e, plaintext) && e.status.Active? && usable.unwraps(e.key) && usable.wraps(to)
    ensures var o := Apply(h, usable, e, Rewrap(to, request));
            && o.error == None && o.envelope.key == to
            && (e.request != Some(request) || e.key != to <==> o.envelope.generation == e.generation + 1)
            && (e.request != Some(request) || e.key != to <==> o.envelope != e)
  {
  }

  /** The data key of a readable envelope is replaced exactly when the request differs from
      the last rotation's: a request id already used to rewrap is silently skipped. */
  lemma ReplacedIffNewRequest(h: Hashes, usable: Usable, e: Envelope, plaintext: string, request: nat, key: nat,
                              nonce: nat)
    requires Holds(h, e, plaintext) && e.status.Active? && usable.unwraps(e.key) && usable.wraps(e.key)
    ensures var o := Apply(h, usable, e, ReplaceDataKey(request, key, nonce));
            && o.error == None
            && (e.request != Some(request) <==> o.envelope.generation == e.generation + 1)
            && (e.request != Some(request) <==> o.envelope != e)
            && (e.request != Some(request) ==> o.envelope.wrapped.key == key && o.envelope.nonce == nonce)
  {
    assert Decrypt(h, usable, e) == Ok(plaintext);
  }

  lemma RewrapThenReplaceIsSkipped(h: Hashes, usable: Usable, e: Envelope, to: KeyReference, request: nat, key: nat,
                                   nonce: nat)
    requires Apply(h, usable, e, Rewrap(to, request)).error == None
    ensures var rewrapped := Apply(h, usable, e, Rewrap(to, request)).envelope;
            Apply(h, usable, rewrapped, ReplaceDataKey(request, key, nonce)) == Outcome(rewrapped, None)
  {
  }

  // ----- What each call achieves -----

  /** An envelope decrypts exactly while it is active and its key usable, to what it holds:
      data key, nonce, coordinates, key reference and checksum must all fit together. */
  lemma DecryptsIff(h: Hashes, usable: Usable, e: Envelope, plaintext: string)
    ensures Decrypt(h, usable, e) == Ok(plaintext) <==>
              e.status.Active? && usable.unwraps(e.key) && Holds(h, e, plaintext)
  {
  }

  /** The sealed parts fit together, whatever the checksum says. */
  predicate Genuine(e: Envelope)
    requires Valid(e.context)
  {
    var data := AuthenticatedData(e.context);
    && e.wrapped.WrappedKey? && e.wrapped.kek == e.key && e.wrapped.data == data
    && e.cipher.Sealed? && e.cipher.key == e.wrapped.key && e.cipher.nonce == e.nonce && e.cipher.data == data
  }

  /** Why an envelope does not decrypt: its status is looked at first, its checksum last. */
  lemma RefusesInOrder(h: Hashes, usable: Usable, e: Envelope)
    ensures var r := Decrypt(h, usable, e);
            && (r == Err(Unavailable) <==> !e.status.Active?)
            && (r == Err(Unsupported) <==> e.status.Active? && !(Valid(e.context) && e.knownAlgorithm))
            && (e.status.Active? && Valid(e.context) && e.knownAlgorithm ==>
                && (r == Err(AuthenticationFailed) <==> !(usable.unwraps(e.key) && Genuine(e)))
                && (r == Err(ChecksumFailed) <==>
                    usable.unwraps(e.key) && Genuine(e) && e.checksum != h.cipher(e.cipher)))
  {
  }

  /** Encryption goes through exactly when the key may wrap; its result is active, holds the
      plaintext and has seen no rotation and no shadow verification. */
  lemma EncryptedHolds(h: Hashes, usable: Usable, plaintext: string, c: Context, kek: KeyReference, key: nat,
                       nonce: nat)
    requires Valid(c)
    ensures var r := Encrypt(h, usable, plaintext, c, kek, key, nonce);
            && (r.Ok? <==> usable.wraps(kek))
            && (r.Err? ==> r.error == ProviderUnavailable)
            && (r.Ok? ==>
                var e := r.value;
                && Holds(h, e, plaintext) && e.context == c && e.key == kek && e.nonce == nonce && e.wrapped.key == key
                && e.status == Active && e.generation == 1 && e.request == None && e.legacyChecksum == None
                && !e.shadowVerified)
  {
  }

  /** A rewrap goes through exactly if the envelope is not locked and the request repeated
      or both keys usable; otherwise it quarantines. What it rewrapped decrypts from then on
      under the new key alone. */
  lemma RewrapOutcome(h: Hashes, usable: Usable, e: Envelope, plaintext: string, to: KeyReference, request: nat,
                      later: Usable)
    requires Holds(h, e, plaintext)
    ensures var o := Apply(h, usable, e, Rewrap(to, request));
            var repeated := e.status.Active? && e.request == Some(request) && e.key == to;
            && (o.error == Some(Unavailable) <==> Locked(e))
            && (o.error == None <==> !Locked(e) && (repeated || (usable.unwraps(e.key) && usable.wraps(to))))
            && (o.error == Some(RotationFailed) <==> o.error.Some? && !Locked(e))
            && (o.error == Some(RotationFailed) ==> o.envelope.status == Quarantined)
            && (o.error == None ==>
                && o.envelope.key == to && o.envelope.request == Some(request)
                && (Decrypt(h, later, o.envelope) == Ok(plaintext) <==> later.unwraps(to)))
  {
    DecryptsIff(h, later, Apply(h, usable, e, Rewrap(to, request)).envelope, plaintext);
  }

  /** A replacement goes through exactly if the envelope is active and the request repeated
      or its key usable; one that fails changes nothing. */
  lemma ReplaceOutcome(h: Hashes, usable: Usable, e: Envelope, plaintext: string, request: nat, key: nat, nonce: nat)
    requires Holds(h, e, plaintext)
    ensures var o := Apply(h, usable, e, ReplaceDataKey(request, key, nonce));
            && (o.error == None <==>
                e.status.Active? && (e.request == Some(request) || (usable.unwraps(e.key) && usable.wraps(e.key))))
            && (o.error == Some(Unavailable) <==> !e.status.Active?)
            && (o.error.Some? ==> o.envelope == e)
            && (o.error == None ==> o.envelope.request == Some(request) && o.envelope.key == e.key)
  {
    DecryptsIff(h, usable, e, plaintext);
  }

  /** A shadow verification of a readable envelope records the legacy checksum exactly when
      the plaintexts agree, and quarantines exactly when they do not. */
  lemma ShadowOutcome(h: Hashes, usable: Usable, e: Envelope, plaintext: string, legacy: string, ciphertext: string)
    requires Holds(h, e, plaintext)
    ensures var o := Apply(h, usable, e, VerifyLegacyShadow(legacy, ciphertext));
            var readable := e.status.Active? && usable.unwraps(e.key);
            && (o.error == None <==> readable && legacy == plaintext)
            && (o.error == Some(ShadowMismatch) <==> readable && legacy != plaintext)
            && (o.error == Some(Unavailable) <==> !e.status.Active?)
            && (o.error == None ==>
                o.envelope.legacyChecksum == Some(h.bytes(ciphertext)) && o.envelope.shadowVerified
                && o.envelope.status == Active)
            && (o.error == Some(ShadowMismatch) ==> o.envelope.status == Quarantined)
            && (!readable ==> o.envelope == e)
  {
    DecryptsIff(h, usable, e, plaintext);
  }

  /** Disabling takes a named incident and an envelope not yet locked, and it is for good:
      the envelope never decrypts again, whatever is called and whatever keys are usable. */
  lemma DisabledForGood(h: Hashes, usable: Usable, e: Envelope, incident: string, calls: seq<(Usable, Op)>,
                        later: Usable)
    ensures var o := Apply(h, usable, e, EmergencyDisable(incident));
            && (o.error == None <==> !h.blank(incident) && !e.status.Disabled? && !e.status.Quarantined?)
            && (o.error == Some(IncidentRequired) <==> h.blank(incident))
            && (o.error == None ==>
                o.envelope.status == Disabled && Decrypt(h, later, Run(h, o.envelope, calls)) == Err(Unavailable))
  {
    var o := Apply(h, usable, e, EmergencyDisable(incident));
    if o.error == None {
      LockedForGood(h, o.envelope, calls, later);
    }
  }

  /** The three ways an active envelope is locked: an incident, a rotation the key service
      refuses, and a legacy plaintext that differs. */
  predicate Locks(h: Hashes, usable: Usable, e: Envelope, plaintext: string, op: Op) {
    match op
    case EmergencyDisable(incident) => !h.blank(incident)
    case Rewrap(to, request) =>
      !(e.request == Some(request) && e.key == to) && !(usable.unwraps(e.key) && usable.wraps(to))
    case VerifyLegacyShadow(legacy, _) => usable.unwraps(e.key) && legacy != plaintext
    case ReplaceDataKey(_, _, _) => false
  }

  predicate EverLocks(h: Hashes, e: Envelope, plaintext: string, calls: seq<(Usable, Op)>)
    decreases |calls|
  {
    calls != [] &&
    (Locks(h, calls[0].0, e, plaintext, calls[0].1)
     || EverLocks(h, Apply(h, calls[0].0, e, calls[0].1).envelope, plaintext, calls[1..]))
  }

  /** An active envelope is still active, and so still readable with its key, after exactly
      the runs in which none of the three happens. */
  lemma {:induction false} ActiveUntilLocked(h: Hashes, e: Envelope, plaintext: string, calls: seq<(Usable, Op)>)
    requires Holds(h, e, plaintext) && e.status.Active?
    ensures Run(h, e, calls).status.Active? <==> !EverLocks(h, e, plaintext, calls)
    decreases |calls|
  {
    if calls != [] {
      var next := Apply(h, calls[0].0, e, calls[0].1).envelope;
      ApplyHolds(h, calls[0].0, e, calls[0].1, plaintext);
      LockedIff(h, calls[0].0, e, plaintext, calls[0].1);
      if next.status.Active? {
        ActiveUntilLocked(h, next, plaintext, calls[1..]);
      } else {
        LockedForGood(h, next, calls[1..], calls[0].0);
      }
    }
  }

  lemma LockedIff(h: Hashes, usable: Usable, e: Envelope, plaintext: string, op: Op)
    requires Holds(h, e, plaintext) && e.status.Active?
    ensures var next := Apply(h, usable, e, op).envelope;
            if Locks(h, usable, e, plaintext, op) then Locked(next) else next.status.Active?
  {
    DecryptsIff(h, usable, e, plaintext);
  }

  /** A run is the calls one after another. */
  lemma {:induction false} RunsCompose(h: Hashes, e: Envelope, a: seq<(Usable, Op)>, b: seq<(Usable, Op)>,
                                       usable: Usable, op: Op)
    ensures Run(h, e, a + b) == Run(h, Run(h, e, a), b)
    ensures Run(h, e, [(usable, op)]) == Apply(h, usable, e, op).envelope
    decreases |a|
  {
    if a == [] {
      assert a + b == b;
    } else {
      assert (a + b)[1..] == a[1..] + b;
      RunsCompose(h, Apply(h, a[0].0, e, a[0].1).envelope, a[1..], b, usable, op);
    }
  }

  // ----- The row the service updates -----

  /** A row that held a plaintext still holds it, for the same coordinates; it changed, if
      at all, with its generation. */
  ghost predicate Preserves(h: Hashes, before: Envelope, after: Envelope) {
    && (forall plaintext :: Holds(h, before, plaintext) ==> Holds(h, after, plaintext))
    && after.context == before.context
    && (after == before || after.generation == before.generation + 1)
    && (Locked(before) ==> after == before)
  }

  lemma CallPreserves(h: Hashes, usable: Usable, e: Envelope, op: Op)
    ensures Preserves(h, e, Apply(h, usable, e, op).envelope)
  {
    forall plaintext | Holds(h, e, plaintext) ensures Holds(h, Apply(h, usable, e, op).envelope, plaintext) {
      ApplyHolds(h, usable, e, op, plaintext);
    }
  }

  class EncryptedEnvelope {
    const h: Hashes
    var context: Context
    var knownAlgorithm: bool
    var cipher: Cipher
    var nonce: nat
    var wrapped: Wrapped
    var key: KeyReference
    var checksum: string
    var status: Status
    var generation: int
    var request: Option<nat>
    var legacyChecksum: Option<string>
    var shadowVerified: bool

    function View(): Envelope
      reads this
    {
      Envelope(context, knownAlgorithm, cipher, nonce, wrapped, key, checksum, status, generation, request,
               legacyChecksum, shadowVerified)
    }

    constructor (h: Hashes, e: Envelope)
      ensures this.h == h && View() == e
    {
      this.h := h;
      context, knownAlgorithm, cipher, nonce, wrapped := e.context, e.knownAlgorithm, e.cipher, e.nonce, e.wrapped;
      key, checksum, status, generation := e.key, e.checksum, e.status, e.generation;
      request, legacyChecksum, shadowVerified := e.request, e.legacyChecksum, e.shadowVerified;
    }

    method RewrapKey(usable: Usable, to: KeyReference, id: nat) returns (error: Option<Error>)
      modifies this
      ensures Outcome(View(), error) == Apply(h, usable, old(View()), Rewrap(to, id))
      ensures Preserves(h, old(View()), View())
    {
      CallPreserves(h, usable, View(), Rewrap(to, id));
      if status.Disabled? || status.Quarantined? {
        return Some(Unavailable);
      }
      if request == Some(id) && key == to && status.Active? {
        return None;
      }
      if !Supported(View()) {
        return Some(Unsupported);
      }
      var data := AuthenticatedData(context);
      var dek := Unwrap(usable, wrapped, key, data);
      var again := if dek.None? then None else Wrap(usable, dek.value, to, data);
      if again.None? {
        Isolate();
        return Some(RotationFailed);
      }
      wrapped := again.value;
      key := to;
      request := Some(id);
      generation := generation + 1;
      status := Active;
      return None;
    }

    method ReplaceKey(usable: Usable, id: nat, newKey: nat, newNonce: nat) returns (error: Option<Error>)
      modifies this
      ensures Outcome(View(), error) == Apply(h, usable, old(View()), ReplaceDataKey(id, newKey, newNonce))
      ensures Preserves(h, old(View()), View())
    {
      CallPreserves(h, usable, View(), ReplaceDataKey(id, newKey, newNonce));
      if status.Disabled? || status.Quarantined? {
        return Some(Unavailable);
      }
      if request == Some(id) && status.Active? {
        return None;
      }
      var plaintext := Decrypt(h, usable, View());
      if plaintext.Err? {
        return Some(plaintext.error);
      }
      var replacement := Encrypt(h, usable, plaintext.value, context, key, newKey, newNonce);
      if replacement.Err? {
        return Some(replacement.error);
      }
      cipher := replacement.value.cipher;
      nonce := replacement.value.nonce;
      wrapped := replacement.value.wrapped;
      checksum := replacement.value.checksum;
      request := Some(id);
      generation := generation + 1;
      return None;
    }

    method Disable(usable: Usable, incident: string) returns (error: Option<Error>)
      modifies this
      ensures Outcome(View(), error) == Apply(h, usable, old(View()), EmergencyDisable(incident))
      ensures Preserves(h, old(View()), View())
    {
      CallPreserves(h, usable, View(), EmergencyDisable(incident));
      if h.blank(incident) {
        return Some(IncidentRequired);
      }
      if status.Disabled? || status.Quarantined? {
        return Some(Unavailable);
      }
      status := Disabled;
      generation := generation + 1;
      return None;
    }

    method VerifyShadow(usable: Usable, plaintext: string, ciphertext: string) returns (error: Option<Error>)
      modifies this
      ensures Outcome(View(), error) == Apply(h, usable, old(View()), VerifyLegacyShadow(plaintext, ciphertext))
      ensures Preserves(h, old(View()), View())
    {
      CallPreserves(h, usable, View(), VerifyLegacyShadow(plaintext, ciphertext));
      if status.Disabled? || status.Quarantined? {
        return Some(Unavailable);
      }
      var own := Decrypt(h, usable, View());
      if own.Err? {
        return Some(own.error);
      }
      if own.value != plaintext {
        Isolate();
        return Some(ShadowMismatch);
      }
      legacyChecksum := Some(h.bytes(ciphertext));
      shadowVerified := true;
      generation := generation + 1;
      return None;
    }

    method Isolate()
      modifies this`status, this`generation
      ensures View() == Quarantine(old(View()))
    {
      status := Quarantined;
      generation := generation + 1;
    }
  }
}
