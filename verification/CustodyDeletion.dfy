/** When a completed deletion leaves nothing of its document, now and over later runs. */
module CustodyDeletion {
  import opened Wrappers
  import opened Custody
  import opened CustodyInvariant

  // ----- What a deletion leaves -----

  /** Nothing of the document is left: no recorded key is in the store, every version and
      derivative is marked deleted, every chunk is blank. */
  ghost predicate Erasure(s: State, document: Id) {
    && document in s.documents && !s.documents[document].active
    && (forall v :: OfDocument(s, v, document) ==>
          && s.versions[v].status.Removed?
          && ObjectKey(v, s.versions[v].hash) !in s.objects && QuarantineKey(v, s.versions[v].hash) !in s.objects)
    && (forall d :: ChunkOf(s, d, document) ==> s.derivatives[d].deleted)
    && (forall c :: c in s.chunks && ChunkOf(s, c.0, document) ==> s.chunks[c].deleted && s.chunks[c].text == "")
  }

  predicate IsVerified(s: State, v: Id) {
    v in s.versions && s.versions[v].status.Verified?
  }

  predicate IsRemoved(s: State, v: Id) {
    v in s.versions && s.versions[v].status.Removed?
  }

  /** A quarantined object lies under the version's recorded key. */
  predicate CopyLeft(s: State, v: Id) {
    v in s.versions && QuarantineKey(v, s.versions[v].hash) in s.objects
  }

  predicate Inactive(s: State, document: Id) {
    document in s.documents && !s.documents[document].active
  }

  ghost predicate NoCopies(s: State, document: Id) {
    forall v :: OfDocument(s, v, document) ==> !CopyLeft(s, v)
  }

  /** In a reachable state all that can be left of an inactive document is such copies. */
  lemma ErasedIffNoCopy(env: Environment, s: State, document: Id)
    requires Inv(env, s)
    ensures Erasure(s, document) <==> Inactive(s, document) && NoCopies(s, document)
  {
    if Inactive(s, document) {
      forall v | OfDocument(s, v, document)
        ensures s.versions[v].status.Removed? && ObjectKey(v, s.versions[v].hash) !in s.objects
      {
        assert VersionOk(s, v);
      }
      forall d | ChunkOf(s, d, document) ensures s.derivatives[d].deleted {
        assert DerivativeOk(s, d);
      }
      forall c | c in s.chunks && ChunkOf(s, c.0, document) ensures s.chunks[c].deleted && s.chunks[c].text == "" {
        assert ChunkOk(s, c);
      }
      assert forall v :: OfDocument(s, v, document) && CopyLeft(s, v) ==>
          QuarantineKey(v, s.versions[v].hash) in s.objects;
    }
  }

  /** The call gets as far as deleting the document's objects. */
  predicate Processes(s: State, op: Op, document: Id) {
    && op.ProcessDeletion? && op.deletion in s.deletions && s.deletions[op.deletion].document == document
    && document in s.documents
    && (s.deletions[op.deletion].status.Requested? || s.deletions[op.deletion].status.Failed?)
    && DispositionAt(op.now, s.documents[document].legalHold, s.documents[document].retainUntil).Eligible?
  }

  /** It deletes them all. */
  predicate Completes(s: State, op: Op, document: Id) {
    Processes(s, op, document) && !Fails(op.fault, DeletionKeys(s, document))
  }

  /** A verified version of the document still has its quarantined object. */
  ghost predicate Lingers(s: State, document: Id) {
    exists v :: OfDocument(s, v, document) && s.versions[v].status.Verified? && CopyLeft(s, v)
  }

  /** The call gets as far as putting its object. */
  predicate Stores(s: State, op: Op) {
    && op.Ingest? && op.document in s.documents && s.documents[op.document].active
    && Rank(op.classification) >= Rank(s.documents[op.document].classification)
  }

  /** Ingesting the content of a settled version again under its identity: the object is
      put before the row is refused. */
  predicate PutsBack(env: Environment, s: State, op: Op, v: Id) {
    && Stores(s, op) && op.version == v && (IsVerified(s, v) || IsRemoved(s, v))
    && s.versions[v].hash == env.sha(op.content)
  }

  predicate Revives(env: Environment, s: State, op: Op, document: Id) {
    op.Ingest? && OfDocument(s, op.version, document) && PutsBack(env, s, op, op.version)
  }

  /** What a deletion must reach for nothing to be left: every quarantined copy, and if the
      store fails midway, then of a document that was already inactive. */
  ghost predicate Clears(s: State, op: Op, document: Id)
    requires Processes(s, op, document)
  {
    var keys := DeletionKeys(s, document);
    && (Fails(op.fault, keys) ==> !s.documents[document].active)
    && forall v :: OfDocument(s, v, document) && CopyLeft(s, v) ==>
         QuarantineKey(v, s.versions[v].hash) in Gone(op.fault, keys)
  }

  /** Exactly when nothing of a document is left after a call: a deletion of it that was
      processed reached every copy, or nothing was left before and nothing is put back. */
  lemma ErasureStep(env: Environment, s: State, op: Op, document: Id)
    requires Inv(env, s)
    ensures Erasure(Apply(env, s, op).state, document) <==>
            if Processes(s, op, document) then Clears(s, op, document)
            else Erasure(s, document) && !Revives(env, s, op, document)
  {
    var t := Apply(env, s, op).state;
    ApplyKeeps(env, s, op);
    ErasedIffNoCopy(env, s, document);
    ErasedIffNoCopy(env, t, document);
    if Processes(s, op, document) {
      ProcessedCopies(env, s, op, document);
    } else if op.ProcessDeletion? {
      OtherDeletionCopies(env, s, op, document);
    } else if op.Ingest? {
      IngestCopies(env, s, op, document);
    } else if op.Verify? {
      VerifyCopies(env, s, op, document);
    } else {
      OtherCallsFrame(env, s, op);
      OtherCallsStanding(env, s, op, document);
    }
  }

  lemma OtherCallsStanding(env: Environment, s: State, op: Op, document: Id)
    requires !op.ProcessDeletion? && !op.Ingest? && !op.Verify?
    ensures Inactive(Apply(env, s, op).state, document) <==> Inactive(s, document)
  {
  }

  lemma ProcessedCopies(env: Environment, s: State, op: Op, document: Id)
    requires Inv(env, s) && Processes(s, op, document)
    ensures var t := Apply(env, s, op).state;
            Inactive(t, document) && NoCopies(t, document) <==> Clears(s, op, document)
  {
    var t := Apply(env, s, op).state;
    var keys := DeletionKeys(s, document);
    assert t.objects == Without(s.objects, Gone(op.fault, keys));
    forall v ensures OfDocument(t, v, document) <==> OfDocument(s, v, document) {}
    forall v | OfDocument(s, v, document)
      ensures CopyLeft(t, v) <==> CopyLeft(s, v) && QuarantineKey(v, s.versions[v].hash) !in Gone(op.fault, keys)
    {
      assert t.versions[v].hash == s.versions[v].hash;
    }
  }

  /** A deletion of another document removes none of this version's objects. */
  lemma DeletedElsewhere(s: State, id: Id, gone: seq<Key>, v: Id)
    requires id in s.deletions && s.deletions[id].document in s.documents
    requires v in s.versions && s.versions[v].document != s.deletions[id].document
    requires forall k :: k in gone ==> OfDocument(s, k.version, s.deletions[id].document)
    ensures CopyLeft(FailDeletion(s, id, gone), v) <==> CopyLeft(s, v)
    ensures CopyLeft(CompleteDeletion(s, id, gone), v) <==> CopyLeft(s, v)
  {
    assert CompleteDeletion(s, id, gone).versions[v] == s.versions[v];
  }

  /** A deletion changes neither hash nor document of a version. */
  lemma SameVersions(s: State, op: Op)
    requires op.ProcessDeletion?
    ensures var t := DoProcessDeletion(s, op).state;
            && t.versions.Keys == s.versions.Keys
            && forall v :: v in s.versions ==>
                 t.versions[v].document == s.versions[v].document && t.versions[v].hash == s.versions[v].hash
  {
    if op.deletion in s.deletions {
      assert MarkedVersions(s, s.deletions[op.deletion].document).Keys == s.versions.Keys;
    }
  }

  lemma NoDeletionStanding(s: State, op: Op, document: Id)
    requires op.ProcessDeletion? && !Processes(s, op, document)
    ensures Inactive(DoProcessDeletion(s, op).state, document) <==> Inactive(s, document)
  {
  }

  lemma NoDeletionCopy(env: Environment, s: State, op: Op, v: Id)
    requires Inv(env, s) && op.ProcessDeletion? && v in s.versions && !Processes(s, op, s.versions[v].document)
    ensures CopyLeft(DoProcessDeletion(s, op).state, v) <==> CopyLeft(s, v)
  {
    if op.deletion in s.deletions && Processes(s, op, s.deletions[op.deletion].document) {
      var other := s.deletions[op.deletion].document;
      KeysListed(s, other);
      DeletedElsewhere(s, op.deletion, Gone(op.fault, DeletionKeys(s, other)), v);
    }
  }

  lemma OtherDeletionCopies(env: Environment, s: State, op: Op, document: Id)
    requires Inv(env, s) && op.ProcessDeletion? && !Processes(s, op, document)
    ensures var t := DoProcessDeletion(s, op).state;
            && (Inactive(t, document) <==> Inactive(s, document))
            && (NoCopies(t, document) <==> NoCopies(s, document))
  {
    NoDeletionStanding(s, op, document);
    SameVersions(s, op);
    forall v | OfDocument(s, v, document) ensures CopyLeft(DoProcessDeletion(s, op).state, v) <==> CopyLeft(s, v) {
      NoDeletionCopy(env, s, op, v);
    }
  }

  lemma IngestCopy(env: Environment, s: State, op: Op, v: Id)
    requires op.Ingest? && v in s.versions
    ensures var t := DoIngest(env, s, op).state;
            && v in t.versions && t.versions[v] == s.versions[v]
            && (CopyLeft(t, v) <==>
                CopyLeft(s, v) || (Stores(s, op) && op.version == v && s.versions[v].hash == env.sha(op.content)))
  {
  }

  lemma NoIngestInto(env: Environment, s: State, op: Op, document: Id)
    requires op.Ingest?
    ensures var t := DoIngest(env, s, op).state;
            && (Inactive(t, document) <==> Inactive(s, document))
            && (Inactive(s, document) ==> forall v :: OfDocument(t, v, document) ==> OfDocument(s, v, document))
  {
  }

  lemma IngestCopies(env: Environment, s: State, op: Op, document: Id)
    requires Inv(env, s) && op.Ingest?
    ensures var t := DoIngest(env, s, op).state;
            && (Inactive(t, document) <==> Inactive(s, document))
            && (Inactive(s, document) ==>
                  (NoCopies(t, document) <==> NoCopies(s, document) && !Revives(env, s, op, document)))
  {
    var t := DoIngest(env, s, op).state;
    NoIngestInto(env, s, op, document);
    if Inactive(s, document) {
      forall v | OfDocument(s, v, document)
        ensures OfDocument(t, v, document) && (CopyLeft(t, v) <==> CopyLeft(s, v) || PutsBack(env, s, op, v))
      {
        assert VersionOk(s, v);
        IngestCopy(env, s, op, v);
      }
    }
  }

  /** Verification leaves every version but its own, and every settled one, alone. */
  lemma VerifyCopy(env: Environment, s: State, op: Op, v: Id)
    requires op.Verify? && v in s.versions
    ensures var t := DoVerify(env, s, op).state;
            && v in t.versions && t.versions[v].document == s.versions[v].document
            && (IsVerified(s, v) || IsRemoved(s, v) ==>
                t.versions[v] == s.versions[v] && (CopyLeft(t, v) <==> CopyLeft(s, v)))
            && (IsRemoved(t, v) ==> IsRemoved(s, v))
            && (!IsVerified(s, v) && IsVerified(t, v) ==> (CopyLeft(t, v) <==> env.promoteCopies))
  {
    if op.version != v {
      VerifyOtherCopy(env, s, op, v);
    }
  }

  lemma VerifyOtherCopy(env: Environment, s: State, op: Op, v: Id)
    requires op.Verify? && v in s.versions && op.version != v
    ensures var t := DoVerify(env, s, op).state;
            v in t.versions && t.versions[v] == s.versions[v] && (CopyLeft(t, v) <==> CopyLeft(s, v))
  {
  }

  lemma VerifyCopies(env: Environment, s: State, op: Op, document: Id)
    requires Inv(env, s) && op.Verify?
    ensures var t := DoVerify(env, s, op).state;
            && (Inactive(t, document) <==> Inactive(s, document))
            && (Inactive(s, document) ==> (NoCopies(t, document) <==> NoCopies(s, document)))
  {
    VerifyStands(env, s, op, document);
    if Inactive(s, document) {
      forall v | OfDocument(s, v, document) ensures CopyLeft(DoVerify(env, s, op).state, v) <==> CopyLeft(s, v) {
        assert VersionOk(s, v);
        VerifyCopy(env, s, op, v);
      }
    }
  }

  lemma VerifyStands(env: Environment, s: State, op: Op, document: Id)
    requires op.Verify?
    ensures var t := DoVerify(env, s, op).state;
            && (Inactive(t, document) <==> Inactive(s, document))
            && forall v :: OfDocument(t, v, document) <==> OfDocument(s, v, document)
  {
  }

  /** A deletion that completes leaves nothing exactly when no verified version of its
      document had kept a quarantined copy. */
  lemma CompletionErasesIff(env: Environment, s: State, op: Op, document: Id)
    requires Inv(env, s) && Completes(s, op, document)
    ensures Erasure(Apply(env, s, op).state, document) <==> !Lingers(s, document)
  {
    ErasureStep(env, s, op, document);
    KeysListed(s, document);
    forall v | OfDocument(s, v, document)
      ensures QuarantineKey(v, s.versions[v].hash) in DeletionKeys(s, document) <==> !s.versions[v].status.Verified?
    {
      assert HeldKey(v, s.versions[v]) in DeletionKeys(s, document);
    }
  }

  // ----- Over runs -----

  /** Nothing of the document is left, now and after every call of the run. */
  ghost predicate StaysErased(env: Environment, s: State, ops: seq<Op>, document: Id)
    decreases |ops|
  {
    Erasure(s, document) && (ops != [] ==> StaysErased(env, Apply(env, s, ops[0]).state, ops[1..], document))
  }

  predicate NeverRevived(env: Environment, s: State, ops: seq<Op>, document: Id)
    decreases |ops|
  {
    ops != [] ==>
      !Revives(env, s, ops[0], document) && NeverRevived(env, Apply(env, s, ops[0]).state, ops[1..], document)
  }

  lemma {:induction false} StaysErasedIffNeverRevived(env: Environment, s: State, ops: seq<Op>, document: Id)
    requires Inv(env, s) && Erasure(s, document)
    ensures StaysErased(env, s, ops, document) <==> NeverRevived(env, s, ops, document)
    decreases |ops|
  {
    if ops != [] {
      var t := Apply(env, s, ops[0]).state;
      ErasureStep(env, s, ops[0], document);
      if Processes(s, ops[0], document) {
        assert Clears(s, ops[0], document);
      }
      ApplyKeeps(env, s, ops[0]);
      if Erasure(t, document) {
        StaysErasedIffNeverRevived(env, t, ops[1..], document);
      }
    }
  }

  /** Some call of the run puts the version's content back while the version is settled. */
  predicate PutBack(env: Environment, s: State, ops: seq<Op>, v: Id)
    decreases |ops|
  {
    ops != [] && (PutsBack(env, s, ops[0], v) || PutBack(env, Apply(env, s, ops[0]).state, ops[1..], v))
  }

  /** Where a verified version's quarantined copy comes from. */
  ghost predicate CopyOrigin(env: Environment, s: State, op: Op, t: State, v: Id) {
    && (IsVerified(s, v) ==> IsVerified(t, v) || IsRemoved(t, v))
    && (IsRemoved(s, v) ==> IsRemoved(t, v))
    && (IsVerified(s, v) && IsVerified(t, v) ==> (CopyLeft(t, v) <==> CopyLeft(s, v) || PutsBack(env, s, op, v)))
    && (!IsVerified(s, v) && IsVerified(t, v) ==> (CopyLeft(t, v) <==> env.promoteCopies))
  }

  lemma CopyStep(env: Environment, s: State, op: Op, v: Id)
    requires Inv(env, s)
    ensures CopyOrigin(env, s, op, Apply(env, s, op).state, v)
  {
    if op.ProcessDeletion? {
      DeletionCopyStep(env, s, op, v);
    } else if op.Ingest? {
      IngestCopyStep(env, s, op, v);
    } else if op.Verify? {
      VerifyCopyStep(env, s, op, v);
    } else {
      OtherCallsFrame(env, s, op);
    }
  }

  lemma IngestCopyStep(env: Environment, s: State, op: Op, v: Id)
    requires op.Ingest?
    ensures CopyOrigin(env, s, op, DoIngest(env, s, op).state, v)
  {
    if v in s.versions {
      IngestCopy(env, s, op, v);
    }
  }

  lemma VerifyCopyStep(env: Environment, s: State, op: Op, v: Id)
    requires op.Verify?
    ensures CopyOrigin(env, s, op, DoVerify(env, s, op).state, v)
  {
    if v in s.versions {
      VerifyCopy(env, s, op, v);
    }
  }

  /** A deletion that fails midway only removes objects under the keys held. */
  lemma FailedCopy(s: State, id: Id, gone: seq<Key>, v: Id)
    requires id in s.deletions && s.deletions[id].document in s.documents && IsVerified(s, v)
    requires forall k :: k in gone ==> k.version in s.versions && k == HeldKey(k.version, s.versions[k.version])
    ensures CopyLeft(FailDeletion(s, id, gone), v) <==> CopyLeft(s, v)
  {
  }

  lemma DeletionCopyStep(env: Environment, s: State, op: Op, v: Id)
    requires Inv(env, s) && op.ProcessDeletion?
    ensures CopyOrigin(env, s, op, DoProcessDeletion(s, op).state, v)
  {
    SameVersions(s, op);
    DeletionStatuses(s, op, v);
    if IsVerified(s, v) {
      var document := s.versions[v].document;
      if !Processes(s, op, document) {
        NoDeletionCopy(env, s, op, v);
      } else if !Completes(s, op, document) {
        KeysListed(s, document);
        FailedCopy(s, op.deletion, Gone(op.fault, DeletionKeys(s, document)), v);
      }
    }
  }

  lemma DeletionStatuses(s: State, op: Op, v: Id)
    requires op.ProcessDeletion?
    ensures var t := DoProcessDeletion(s, op).state;
            v in s.versions && v in t.versions ==>
              && (t.versions[v].status == s.versions[v].status || t.versions[v].status.Removed?)
              && (Completes(s, op, s.versions[v].document) ==> t.versions[v].status.Removed?)
  {
  }

  lemma {:induction false} RemovedStays(env: Environment, s: State, ops: seq<Op>, v: Id)
    requires Inv(env, s) && IsRemoved(s, v)
    ensures IsRemoved(Run(env, s, ops), v)
    decreases |ops|
  {
    if ops != [] {
      CopyStep(env, s, ops[0], v);
      ApplyKeeps(env, s, ops[0]);
      RemovedStays(env, Apply(env, s, ops[0]).state, ops[1..], v);
    }
  }

  /** A verified version keeps a quarantined copy exactly when the store promotes by copying
      or its content was put back. */
  lemma {:induction false} CopyLeftIff(env: Environment, s: State, ops: seq<Op>, v: Id)
    requires Inv(env, s) && IsVerified(Run(env, s, ops), v)
    ensures CopyLeft(Run(env, s, ops), v) <==>
            (if IsVerified(s, v) then CopyLeft(s, v) else env.promoteCopies) || PutBack(env, s, ops, v)
    decreases |ops|
  {
    if ops != [] {
      var t := Apply(env, s, ops[0]).state;
      CopyStep(env, s, ops[0], v);
      ApplyKeeps(env, s, ops[0]);
      if IsRemoved(t, v) {
        RemovedStays(env, t, ops[1..], v);
      }
      CopyLeftIff(env, t, ops[1..], v);
    }
  }

  /** Whatever failed and was retried before: a deletion that completes leaves nothing of
      its document exactly when each version verified by then was promoted by moving and
      never ingested again. And then nothing comes back, whatever is called and whatever
      fails later, exactly until the content of one of its versions is ingested again
      under that version's identity. */
  lemma CompletedDeletionIsFinal(env: Environment, before: seq<Op>, op: Op, after: seq<Op>, document: Id)
    requires Completes(Run(env, EMPTY, before), op, document)
    ensures var s := Run(env, EMPTY, before);
            var t := Apply(env, s, op).state;
            && (Erasure(t, document) <==>
                forall v :: OfDocument(s, v, document) && s.versions[v].status.Verified? ==>
                  !env.promoteCopies && !PutBack(env, EMPTY, before, v))
            && (StaysErased(env, t, after, document) <==>
                Erasure(t, document) && NeverRevived(env, t, after, document))
  {
    var s := Run(env, EMPTY, before);
    var t := Apply(env, s, op).state;
    InitialInv(env);
    ReachableInv(env, EMPTY, before);
    CompletionErasesIff(env, s, op, document);
    forall v | OfDocument(s, v, document) && s.versions[v].status.Verified?
      ensures CopyLeft(s, v) <==> env.promoteCopies || PutBack(env, EMPTY, before, v)
    {
      CopyLeftIff(env, EMPTY, before, v);
    }
    ApplyKeeps(env, s, op);
    if Erasure(t, document) {
      StaysErasedIffNeverRevived(env, t, after, document);
    }
  }

  /** A completed deletion stays completed. */
  lemma {:induction false} CompletedStays(env: Environment, s: State, ops: seq<Op>, id: Id)
    requires id in s.deletions && s.deletions[id].status.Completed?
    ensures var t := Run(env, s, ops); id in t.deletions && t.deletions[id] == s.deletions[id]
    decreases |ops|
  {
    if ops != [] {
      CompletedStep(env, s, ops[0], id);
      CompletedStays(env, Apply(env, s, ops[0]).state, ops[1..], id);
    }
  }

  lemma CompletedStep(env: Environment, s: State, op: Op, id: Id)
    requires id in s.deletions && s.deletions[id].status.Completed?
    ensures var t := Apply(env, s, op).state; id in t.deletions && t.deletions[id] == s.deletions[id]
  {
    if op.Ingest? {
      IngestStandings(env, s, op);
    } else if op.Verify? {
      VerifyStandings(env, s, op);
    }
  }

  // ----- A failed deletion and its retry -----

  const NO_FAULT := StorageFault(None, false)

  function Try(s: State, id: Id, now: int, fault: StorageFault): State {
    DoProcessDeletion(s, Op.ProcessDeletion(id, now, fault)).state
  }

  /** Only the deletion's own row, the document's version counter and the store differ. */
  ghost predicate OnlyBookkeeping(s: State, t: State, id: Id, document: Id)
    requires id in s.deletions && document in s.documents
  {
    && t.versions == s.versions && t.derivatives == s.derivatives && t.chunks == s.chunks
    && t.deletions == s.deletions[id := s.deletions[id].(status := Failed)]
    && t.documents == s.documents[document := OneMoreVersion(s.documents[document])]
  }

  function OneMoreVersion(d: Document): Document { d.(stateVersion := d.stateVersion + 1) }

  /** The same rows and objects, but for one more version of the document. */
  ghost predicate EndsAlike(first: State, retried: State, id: Id, document: Id) {
    && document in first.documents && id in retried.deletions && retried.deletions[id].status.Completed?
    && retried == first.(documents := retried.documents, harmed := retried.harmed)
    && retried.documents == first.documents[document := OneMoreVersion(first.documents[document])]
  }

  /** A deletion that fails midway changes no row but the deletion's own and the document's
      version counter; retrying it later without a fault ends as a first try would have. */
  lemma RetryEndsAsFirstTry(s: State, id: Id, now: int, fault: StorageFault, later: int)
    requires id in s.deletions && now <= later
    requires var op := Op.ProcessDeletion(id, now, fault);
             Processes(s, op, s.deletions[id].document) && !Completes(s, op, s.deletions[id].document)
    ensures OnlyBookkeeping(s, Try(s, id, now, fault), id, s.deletions[id].document)
    ensures EndsAlike(Try(s, id, now, NO_FAULT), Try(Try(s, id, now, fault), id, later, NO_FAULT), id,
                      s.deletions[id].document)
  {
    var document := s.deletions[id].document;
    var keys := DeletionKeys(s, document);
    var failed := FailDeletion(s, id, Gone(fault, keys));
    SameListing(s, failed, s.order, document);
    FailThenComplete(s, id, Gone(fault, keys), keys);
  }

  lemma FailThenComplete(s: State, id: Id, gone: seq<Key>, keys: seq<Key>)
    requires id in s.deletions && s.deletions[id].document in s.documents && forall k :: k in gone ==> k in keys
    ensures EndsAlike(CompleteDeletion(s, id, keys), CompleteDeletion(FailDeletion(s, id, gone), id, keys), id,
                      s.deletions[id].document)
  {
    var document := s.deletions[id].document;
    var failed := FailDeletion(s, id, gone);
    var s' := BeforeErasing(s, id, keys);
    var f' := BeforeErasing(failed, id, keys);
    assert f'.objects == s'.objects;
    assert f'.deletions == s'.deletions;
    SameMarks(s', f', document);
    SameVersionMarks(s', f', document);
  }

  lemma {:induction false} SameListing(s: State, t: State, order: seq<Id>, document: Id)
    requires s.versions == t.versions
    ensures VersionsOf(t, order, document) == VersionsOf(s, order, document)
  {
    if order != [] {
      SameListing(s, t, order[..|order| - 1], document);
    }
  }

  // ----- Where a deletion is not final -----

  /** One document with one version, as verification and then deletion leave it. */
  function Stage(env: Environment, status: CustodyStatus, active: bool, version: nat, objects: map<Key, Content>,
                 deletions: map<Id, Deletion>): State {
    State(map[1 := Document(active, Public, false, None, version)],
          map[7 := Version(1, env.sha("bytes"), status, if status.Quarantined? then Pending else Clean,
                           !status.Quarantined?, Public)],
          [7], map[], map[], deletions, objects, {})
  }

  function Remaining(env: Environment): map<Key, Content> {
    if env.promoteCopies then map[QuarantineKey(7, env.sha("bytes")) := "bytes"] else map[]
  }

  lemma StageIngested(env: Environment)
    ensures Apply(env, Apply(env, EMPTY, Create(1, Public, false, None)).state, Ingest(1, 7, "bytes", Public)).state
            == Stage(env, Quarantined, true, 2, map[QuarantineKey(7, env.sha("bytes")) := "bytes"], map[])
  {
  }

  lemma StageVerified(env: Environment)
    ensures Apply(env, Stage(env, Quarantined, true, 2, map[QuarantineKey(7, env.sha("bytes")) := "bytes"], map[]),
                  Verify(7, Evidence(env.sha("bytes"), Clean, true))).state
            == Stage(env, Verified, true, 3, Remaining(env)[ObjectKey(7, env.sha("bytes")) := "bytes"], map[])
  {
  }

  lemma StageRequested(env: Environment)
    ensures var objects := Remaining(env)[ObjectKey(7, env.sha("bytes")) := "bytes"];
            Apply(env, Stage(env, Verified, true, 3, objects, map[]), RequestDeletion(5, 1, 0)).state
            == Stage(env, Verified, true, 4, objects, map[5 := Deletion(1, Requested, Eligible)])
  {
  }

  /** The document with its deletion requested. */
  function Queued(env: Environment): State {
    Stage(env, Verified, true, 4, Remaining(env)[ObjectKey(7, env.sha("bytes")) := "bytes"],
          map[5 := Deletion(1, Requested, Eligible)])
  }

  lemma StageKeys(env: Environment, s: State)
    requires s == Queued(env)
    ensures DeletionKeys(s, 1) == [ObjectKey(7, env.sha("bytes"))]
            && Without(s.objects, DeletionKeys(s, 1)) == Remaining(env)
  {
    assert [7][..0] == [];
    assert VersionsOf(s, [7], 1) == [7];
  }

  lemma StageDeleted(env: Environment, s: State)
    requires s == Queued(env)
    ensures CompleteDeletion(s, 5, DeletionKeys(s, 1))
            == Stage(env, Removed, false, 5, Remaining(env), map[5 := Deletion(1, Completed, Eligible)])
  {
    StageKeys(env, s);
    var t := BeforeErasing(s, 5, DeletionKeys(s, 1));
    assert t == Stage(env, Verified, true, 4, Remaining(env), map[5 := Deletion(1, Completed, Eligible)]);
    assert Erased(t, 1).versions == map[7 := Version(1, env.sha("bytes"), Removed, Clean, true, Public)];
  }

  /** Ingest one version, verify it, delete the document. */
  function DeletionRun(env: Environment): seq<Op> {
    [Create(1, Public, false, None), Ingest(1, 7, "bytes", Public), Verify(7, Evidence(env.sha("bytes"), Clean, true)),
     RequestDeletion(5, 1, 0), Op.ProcessDeletion(5, 0, StorageFault(None, false))]
  }

  lemma RunStep(env: Environment, s: State, op: Op, t: State, rest: seq<Op>)
    requires Apply(env, s, op).state == t
    ensures Run(env, s, [op] + rest) == Run(env, t, rest)
  {
    assert ([op] + rest)[1..] == rest;
  }

  lemma StageProcessed(env: Environment, s: State, op: Op)
    requires s == Queued(env)
    requires op == Op.ProcessDeletion(5, 0, StorageFault(None, false))
    ensures Apply(env, s, op).state
            == Stage(env, Removed, false, 5, Remaining(env), map[5 := Deletion(1, Completed, Eligible)])
  {
    StageDeleted(env, s);
    assert DoProcessDeletion(s, op).state == CompleteDeletion(s, 5, DeletionKeys(s, 1));
  }

  lemma DeletionRunEnds(env: Environment)
    ensures Run(env, EMPTY, DeletionRun(env))
            == Stage(env, Removed, false, 5, Remaining(env), map[5 := Deletion(1, Completed, Eligible)])
  {
    var ops := DeletionRun(env);
    var objects := Remaining(env)[ObjectKey(7, env.sha("bytes")) := "bytes"];
    var created := Apply(env, EMPTY, ops[0]).state;
    var ingested := Stage(env, Quarantined, true, 2, map[QuarantineKey(7, env.sha("bytes")) := "bytes"], map[]);
    var verified := Stage(env, Verified, true, 3, objects, map[]);
    var requested := Stage(env, Verified, true, 4, objects, map[5 := Deletion(1, Requested, Eligible)]);
    var done := Stage(env, Removed, false, 5, Remaining(env), map[5 := Deletion(1, Completed, Eligible)]);
    StageIngested(env);
    StageVerified(env);
    StageRequested(env);
    StageProcessed(env, requested, ops[4]);
    RunStep(env, EMPTY, ops[0], created, [ops[1], ops[2], ops[3], ops[4]]);
    RunStep(env, created, ops[1], ingested, [ops[2], ops[3], ops[4]]);
    RunStep(env, ingested, ops[2], verified, [ops[3], ops[4]]);
    RunStep(env, verified, ops[3], requested, [ops[4]]);
    RunStep(env, requested, ops[4], done, []);
    assert ops == [ops[0]] + [ops[1], ops[2], ops[3], ops[4]];
  }

  /** Two ways content outlives its completed deletion: a store that promotes by copying
      keeps the quarantined copy; and ingesting the same content into another document
      under the deleted version's identity puts it back although the call is refused. */
  lemma DeletionNotAlwaysFinal(env: Environment)
    ensures var s, key := Run(env, EMPTY, DeletionRun(env)), QuarantineKey(7, env.sha("bytes"));
            var other := Apply(env, s, Create(2, Public, false, None)).state;
            var again := Apply(env, other, Ingest(2, 7, "bytes", Public));
            && 5 in s.deletions && s.deletions[5].status.Completed?
            && (key in s.objects <==> env.promoteCopies)
            && again.error == Some(Exists) && key in again.state.objects
  {
    DeletionRunEnds(env);
  }
}
