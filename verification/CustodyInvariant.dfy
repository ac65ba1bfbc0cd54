/** What every reachable custody state keeps. */
module CustodyInvariant {
  import opened Wrappers
  import opened Custody

  /** A version is at least as classified as its document, removed exactly with it, clean
      when verified, and held by the store unless a deletion failed midway. */
  ghost predicate VersionOk(s: State, id: Id) {
    id in s.versions ==>
      var v := s.versions[id];
      && v.document in s.documents
      && Rank(s.documents[v.document].classification) <= Rank(v.classification)
      && (v.status.Removed? <==> !s.documents[v.document].active)
      && (v.status.Verified? ==> v.verdict.Clean? && v.mediaVerified)
      && (!v.status.Removed? && v.document !in s.harmed ==> HeldKey(id, v) in s.objects)
      && (!v.status.Verified? ==> ObjectKey(id, v.hash) !in s.objects)
  }

  /** Every object holds content with the digest in its key; promoted objects belong to a
      recorded version. */
  ghost predicate ObjectOk(env: Environment, s: State, key: Key) {
    key in s.objects ==>
      && env.sha(s.objects[key]) == key.digest
      && (key.ObjectKey? ==> key.version in s.versions && s.versions[key.version].hash == key.digest)
  }

  /** A derivative comes from a version that was verified and is deleted exactly with it. */
  ghost predicate DerivativeOk(s: State, id: Id) {
    id in s.derivatives ==>
      var d := s.derivatives[id];
      && d.version in s.versions
      && (s.versions[d.version].status.Verified? || s.versions[d.version].status.Removed?)
      && (d.deleted <==> s.versions[d.version].status.Removed?)
      && Rank(s.versions[d.version].classification) <= Rank(d.classification)
  }

  ghost predicate OnePerInput(s: State, id: Id, other: Id) {
    && id in s.derivatives && other in s.derivatives && id != other
    && s.derivatives[id].version == s.derivatives[other].version
    ==> s.derivatives[id].input != s.derivatives[other].input
  }

  /** A chunk is blank exactly when its derivative is deleted. */
  ghost predicate ChunkOk(s: State, c: (Id, nat)) {
    c in s.chunks ==>
      && c.0 in s.derivatives
      && (s.chunks[c].deleted <==> s.derivatives[c.0].deleted)
      && (s.chunks[c].deleted <==> s.chunks[c].text == "")
      && Rank(s.derivatives[c.0].classification) <= Rank(s.chunks[c].classification)
  }

  ghost predicate DeletionOk(s: State, id: Id) {
    id in s.deletions ==>
      && s.deletions[id].document in s.documents
      && (s.deletions[id].status.Completed? ==> !s.documents[s.deletions[id].document].active)
  }

  ghost predicate Holdings(env: Environment, s: State) {
    && (forall v :: VersionOk(s, v))
    && (forall v :: v in s.order <==> v in s.versions)
    && (forall k :: ObjectOk(env, s, k))
  }

  ghost predicate Derived(s: State) {
    && (forall d :: DerivativeOk(s, d))
    && (forall d, e :: OnePerInput(s, d, e))
    && (forall c :: ChunkOk(s, c))
  }

  ghost predicate Deletions(s: State) {
    forall d :: DeletionOk(s, d)
  }

  ghost predicate Inv(env: Environment, s: State) {
    Holdings(env, s) && Derived(s) && Deletions(s)
  }

  lemma InitialInv(env: Environment)
    ensures Inv(env, EMPTY)
  {
  }

  // ----- What a call that does not touch a table leaves as it is -----

  ghost predicate SameCustody(s: State, t: State) {
    && t.versions == s.versions && t.order == s.order && t.objects == s.objects && t.harmed == s.harmed
    && forall d :: d in s.documents ==> d in t.documents && SameStanding(s.documents[d], t.documents[d])
  }

  ghost predicate SameStanding(d: Document, e: Document) {
    d.active == e.active && d.classification == e.classification
  }

  lemma HoldingsFrame(env: Environment, s: State, t: State)
    requires Holdings(env, s) && SameCustody(s, t)
    ensures Holdings(env, t)
  {
    forall v ensures VersionOk(t, v) { assert VersionOk(s, v); }
    forall k ensures ObjectOk(env, t, k) { assert ObjectOk(env, s, k); }
  }

  ghost predicate SettledVersionsStay(s: State, t: State) {
    forall v :: v in s.versions && !s.versions[v].status.Quarantined? ==>
        v in t.versions && t.versions[v] == s.versions[v]
  }

  lemma DerivedFrame(s: State, t: State)
    requires Derived(s) && t.derivatives == s.derivatives && t.chunks == s.chunks && SettledVersionsStay(s, t)
    ensures Derived(t)
  {
    forall d ensures DerivativeOk(t, d) { assert DerivativeOk(s, d); }
    forall d, e ensures OnePerInput(t, d, e) { assert OnePerInput(s, d, e); }
    forall c ensures ChunkOk(t, c) { assert ChunkOk(s, c); }
  }

  // ----- Each call keeps the invariant -----

  lemma PutHoldings(env: Environment, s: State, version: Id, content: Content)
    requires Holdings(env, s)
    ensures Holdings(env, Put(env, s, version, content))
  {
    var t := Put(env, s, version, content);
    forall v ensures VersionOk(t, v) { assert VersionOk(s, v); }
    forall k ensures ObjectOk(env, t, k) { assert ObjectOk(env, s, k); }
  }

  lemma AddVersionHoldings(env: Environment, s: State, id: Id, v: Version)
    requires Holdings(env, s) && id !in s.versions && v.document in s.documents && s.documents[v.document].active
    requires v.status.Quarantined? && QuarantineKey(id, v.hash) in s.objects
    requires Rank(s.documents[v.document].classification) <= Rank(v.classification)
    ensures Holdings(env, AddVersion(s, id, v))
  {
    var t := AddVersion(s, id, v);
    assert ObjectOk(env, s, ObjectKey(id, v.hash));
    forall w ensures VersionOk(t, w) { assert VersionOk(s, w); }
    forall k ensures ObjectOk(env, t, k) { assert ObjectOk(env, s, k); }
  }

  lemma IngestHoldings(env: Environment, s: State, op: Op)
    requires Holdings(env, s) && op.Ingest?
    ensures Holdings(env, DoIngest(env, s, op).state)
  {
    PutHoldings(env, s, op.version, op.content);
    if DoIngest(env, s, op).error == None {
      AddVersionHoldings(env, Put(env, s, op.version, op.content), op.version,
                         Version(op.document, env.sha(op.content), Quarantined, Pending, false, op.classification));
    }
  }

  lemma SettleHoldings(env: Environment, s: State, id: Id, v: Version)
    requires Holdings(env, s) && id in s.versions && s.versions[id].status.Quarantined?
    requires var w := s.versions[id];
             v.hash == w.hash && v.document == w.document && v.classification == w.classification
    requires v.status.Rejected? || (v.status.Verified? && v.verdict.Clean? && v.mediaVerified)
    requires v.document in s.documents && QuarantineKey(id, v.hash) in s.objects
    ensures Holdings(env, Settle(env, s, id, v))
  {
    var t := Settle(env, s, id, v);
    assert VersionOk(s, id);
    assert ObjectOk(env, s, QuarantineKey(id, v.hash));
    forall w ensures VersionOk(t, w) { assert VersionOk(s, w); }
    forall k ensures ObjectOk(env, t, k) { assert ObjectOk(env, s, k); }
  }

  lemma VerifyHoldings(env: Environment, s: State, op: Op)
    requires Holdings(env, s) && op.Verify?
    ensures Holdings(env, DoVerify(env, s, op).state)
  {
    if DoVerify(env, s, op).error == None {
      var v := s.versions[op.version];
      SettleHoldings(env, s, op.version, Judge(env, v, s.objects[QuarantineKey(op.version, v.hash)], op.evidence));
    }
  }

  lemma AddDerivativeDerived(env: Environment, s: State, id: Id, d: Derivative, texts: seq<string>, document: Id)
    requires Derived(s) && document in s.documents && id !in s.derivatives && d.version in s.versions
    requires s.versions[d.version].status.Verified? && !d.deleted
    requires Rank(s.versions[d.version].classification) <= Rank(d.classification)
    requires forall e :: e in s.derivatives && s.derivatives[e].version == d.version ==>
             s.derivatives[e].input != d.input
    ensures Derived(AddDerivative(s, id, d, Chunks(env, texts), document))
  {
    var t := AddDerivative(s, id, d, Chunks(env, texts), document);
    ChunksAdded(env, s.chunks, id, d.classification, texts);
    forall e ensures DerivativeOk(t, e) { assert DerivativeOk(s, e); }
    forall e, f ensures OnePerInput(t, e, f) { assert OnePerInput(s, e, f); }
    forall c ensures ChunkOk(t, c) { assert ChunkOk(s, c); }
  }

  lemma ExtractDerived(env: Environment, s: State, op: Op)
    requires Derived(s) && op.Extract?
    ensures Derived(DoExtract(env, s, op).state)
  {
    var step := DoExtract(env, s, op);
    if step.error == None && step.state != s {
      var v := s.versions[op.version];
      AddDerivativeDerived(env, s, op.derivative,
                           Derivative(op.version, env.inputDigest(v.hash, op.processor), false, op.classification),
                           op.texts, v.document);
    }
  }

  /** Adding chunks touches only the new derivative's, and none of those is blank. */
  lemma {:induction false} ChunksAdded(env: Environment, chunks: map<(Id, nat), Chunk>, d: Id, k: Classification,
                                       texts: seq<string>)
    ensures var after := AddChunks(chunks, d, k, Chunks(env, texts));
            forall c :: (c in after && (c !in chunks || after[c] != chunks[c]) ==>
                           c.0 == d && after[c].text != "" && after[c].classification == k && !after[c].deleted)
                        && (c in chunks ==> c in after)
  {
    if texts != [] {
      var i := |texts| - 1;
      ChunksAdded(env, chunks, d, k, texts[..i]);
      var found := Chunks(env, texts);
      if env.strip(texts[i]) != "" {
        assert found[..|found| - 1] == Chunks(env, texts[..i]);
      } else {
        assert found == Chunks(env, texts[..i]);
      }
    }
  }

  // ----- Deletion -----

  /** The keys a deletion goes through are those holding the document's versions. */
  lemma {:induction false} VersionsListed(s: State, order: seq<Id>, document: Id)
    ensures forall v :: v in VersionsOf(s, order, document) <==> v in order && OfDocument(s, v, document)
  {
    if order != [] {
      assert order == order[..|order| - 1] + [order[|order| - 1]];
      VersionsListed(s, order[..|order| - 1], document);
    }
  }

  lemma KeysListed(s: State, document: Id)
    requires forall v :: v in s.order <==> v in s.versions
    ensures var keys := DeletionKeys(s, document);
            && (forall v :: OfDocument(s, v, document) ==> HeldKey(v, s.versions[v]) in keys)
            && (forall k :: k in keys ==>
                OfDocument(s, k.version, document) && k == HeldKey(k.version, s.versions[k.version]))
  {
    var listed := VersionsOf(s, s.order, document);
    var keys := KeysOf(s, listed);
    VersionsListed(s, s.order, document);
    forall v | OfDocument(s, v, document) ensures HeldKey(v, s.versions[v]) in keys {
      var i :| 0 <= i < |listed| && listed[i] == v;
      assert keys[i] == HeldKey(v, s.versions[v]);
    }
    forall k | k in keys ensures OfDocument(s, k.version, document) && k == HeldKey(k.version, s.versions[k.version]) {
      var i :| 0 <= i < |keys| && keys[i] == k;
      assert listed[i] in listed;
    }
  }

  /** A deletion that fails midway removes only objects of its own document. */
  lemma FailedHoldings(env: Environment, s: State, id: Id, fault: StorageFault)
    requires Holdings(env, s) && id in s.deletions && s.deletions[id].document in s.documents
    ensures Holdings(env, FailDeletion(s, id, Gone(fault, DeletionKeys(s, s.deletions[id].document))))
  {
    var t := FailDeletion(s, id, Gone(fault, DeletionKeys(s, s.deletions[id].document)));
    KeysListed(s, s.deletions[id].document);
    forall v ensures VersionOk(t, v) { assert VersionOk(s, v); }
    forall k ensures ObjectOk(env, t, k) { assert ObjectOk(env, s, k); }
  }

  lemma CompletedHoldings(env: Environment, s: State, id: Id)
    requires Holdings(env, s) && id in s.deletions && s.deletions[id].document in s.documents
    ensures Holdings(env, CompleteDeletion(s, id, DeletionKeys(s, s.deletions[id].document)))
  {
    var document := s.deletions[id].document;
    var t := CompleteDeletion(s, id, DeletionKeys(s, document));
    KeysListed(s, document);
    forall v ensures VersionOk(t, v) { assert VersionOk(s, v); }
    forall k ensures ObjectOk(env, t, k) { assert ObjectOk(env, s, k); }
  }

  lemma CompletedDerived(s: State, id: Id, gone: seq<Key>)
    requires Derived(s) && id in s.deletions && s.deletions[id].document in s.documents
    ensures Derived(CompleteDeletion(s, id, gone))
  {
    var t := CompleteDeletion(s, id, gone);
    forall d ensures DerivativeOk(t, d) { assert DerivativeOk(s, d); }
    forall d, e ensures OnePerInput(t, d, e) { assert OnePerInput(s, d, e); }
    forall c ensures ChunkOk(t, c) { assert ChunkOk(s, c); }
  }

  lemma UnfinishedFrame(s: State, id: Id, why: Disposition, gone: seq<Key>)
    requires id in s.deletions && s.deletions[id].document in s.documents
    ensures SameCustody(s, BlockDeletion(s, id, why))
    ensures Derived(s) ==> Derived(BlockDeletion(s, id, why)) && Derived(FailDeletion(s, id, gone))
  {
    if Derived(s) {
      DerivedFrame(s, BlockDeletion(s, id, why));
      DerivedFrame(s, FailDeletion(s, id, gone));
    }
  }

  lemma BlockedHoldings(env: Environment, s: State, id: Id, why: Disposition)
    requires Holdings(env, s) && id in s.deletions && s.deletions[id].document in s.documents
    ensures Holdings(env, BlockDeletion(s, id, why))
  {
    UnfinishedFrame(s, id, why, []);
    HoldingsFrame(env, s, BlockDeletion(s, id, why));
  }

  lemma ProcessDeletionHoldings(env: Environment, s: State, op: Op)
    requires Holdings(env, s) && op.ProcessDeletion?
    ensures Holdings(env, DoProcessDeletion(s, op).state)
  {
    if op.deletion in s.deletions && s.deletions[op.deletion].document in s.documents {
      var d := s.documents[s.deletions[op.deletion].document];
      BlockedHoldings(env, s, op.deletion, DispositionAt(op.now, d.legalHold, d.retainUntil));
      FailedHoldings(env, s, op.deletion, op.fault);
      CompletedHoldings(env, s, op.deletion);
    }
  }

  lemma ProcessDeletionDerived(s: State, op: Op)
    requires Derived(s) && op.ProcessDeletion?
    ensures Derived(DoProcessDeletion(s, op).state)
  {
    if op.deletion in s.deletions && s.deletions[op.deletion].document in s.documents {
      var d := s.documents[s.deletions[op.deletion].document];
      var keys := DeletionKeys(s, s.deletions[op.deletion].document);
      CompletedDerived(s, op.deletion, keys);
      UnfinishedFrame(s, op.deletion, DispositionAt(op.now, d.legalHold, d.retainUntil), Gone(op.fault, keys));
    }
  }

  /** What an erasure marks depends on neither objects nor deletions, nor on other tables
      than those it follows from chunk to derivative to version. */
  lemma SameMarks(s: State, t: State, document: Id)
    requires t.versions == s.versions && t.derivatives == s.derivatives
    ensures MarkedDerivatives(t, document) == MarkedDerivatives(s, document)
    ensures t.chunks == s.chunks ==> BlankedChunks(t, document) == BlankedChunks(s, document)
  {
    assert forall d :: ChunkOf(t, d, document) <==> ChunkOf(s, d, document);
  }

  lemma SameVersionMarks(s: State, t: State, document: Id)
    requires t.versions == s.versions
    ensures MarkedVersions(t, document) == MarkedVersions(s, document)
  {
    assert forall v :: OfDocument(t, v, document) <==> OfDocument(s, v, document);
  }

  // ----- All calls -----

  lemma CreateFrame(s: State, op: Op)
    requires op.Create?
    ensures var t := DoCreate(s, op).state; SameCustody(s, t) && SameDerived(s, t)
  {
  }

  lemma ExtractFrame(env: Environment, s: State, op: Op)
    requires op.Extract?
    ensures SameCustody(s, DoExtract(env, s, op).state)
  {
  }

  lemma RequestFrame(s: State, op: Op)
    requires op.RequestDeletion?
    ensures var t := DoRequestDeletion(s, op).state; SameCustody(s, t) && SameDerived(s, t)
  {
  }

  lemma GovernanceFrame(s: State, op: Op)
    requires op.SetGovernance?
    ensures var t := DoSetGovernance(s, op).state; SameCustody(s, t) && SameDerived(s, t)
  {
  }

  ghost predicate SameDerived(s: State, t: State) {
    t.derivatives == s.derivatives && t.chunks == s.chunks && SettledVersionsStay(s, t)
  }

  lemma OtherCallsFrame(env: Environment, s: State, op: Op)
    requires op.Create? || op.Extract? || op.RequestDeletion? || op.SetGovernance?
    ensures SameCustody(s, Apply(env, s, op).state)
    ensures !op.Extract? ==> SameDerived(s, Apply(env, s, op).state)
  {
    if op.Create? {
      CreateFrame(s, op);
    } else if op.Extract? {
      ExtractFrame(env, s, op);
    } else if op.RequestDeletion? {
      RequestFrame(s, op);
    } else {
      GovernanceFrame(s, op);
    }
  }

  lemma IngestTouchesNoDerived(env: Environment, s: State, op: Op)
    requires op.Ingest?
    ensures SameDerived(s, DoIngest(env, s, op).state)
  {
  }

  lemma VerifyTouchesNoDerived(env: Environment, s: State, op: Op)
    requires op.Verify?
    ensures SameDerived(s, DoVerify(env, s, op).state)
  {
  }

  lemma ApplyHoldings(env: Environment, s: State, op: Op)
    requires Holdings(env, s)
    ensures Holdings(env, Apply(env, s, op).state)
  {
    if op.Ingest? {
      IngestHoldings(env, s, op);
    } else if op.Verify? {
      VerifyHoldings(env, s, op);
    } else if op.ProcessDeletion? {
      ProcessDeletionHoldings(env, s, op);
    } else {
      OtherCallsFrame(env, s, op);
      HoldingsFrame(env, s, Apply(env, s, op).state);
    }
  }

  lemma ApplyDerived(env: Environment, s: State, op: Op)
    requires Holdings(env, s) && Derived(s)
    ensures Derived(Apply(env, s, op).state)
  {
    if op.Extract? {
      ExtractDerived(env, s, op);
    } else if op.ProcessDeletion? {
      ProcessDeletionDerived(s, op);
    } else {
      if op.Verify? {
        VerifyTouchesNoDerived(env, s, op);
      } else if op.Ingest? {
        IngestTouchesNoDerived(env, s, op);
      } else {
        OtherCallsFrame(env, s, op);
      }
      DerivedFrame(s, Apply(env, s, op).state);
    }
  }

  lemma CompletedDeletions(s: State, id: Id, gone: seq<Key>)
    requires Deletions(s) && id in s.deletions && s.deletions[id].document in s.documents
    ensures Deletions(CompleteDeletion(s, id, gone))
  {
    var t := CompleteDeletion(s, id, gone);
    forall d ensures DeletionOk(t, d) { assert DeletionOk(s, d); }
  }

  lemma UnfinishedDeletions(s: State, id: Id, gone: seq<Key>, why: Disposition)
    requires Deletions(s) && id in s.deletions && s.deletions[id].document in s.documents
    ensures Deletions(BlockDeletion(s, id, why)) && Deletions(FailDeletion(s, id, gone))
  {
    var t, u := BlockDeletion(s, id, why), FailDeletion(s, id, gone);
    forall d ensures DeletionOk(t, d) && DeletionOk(u, d) { assert DeletionOk(s, d); }
  }

  lemma ProcessDeletionDeletions(s: State, op: Op)
    requires Deletions(s) && op.ProcessDeletion?
    ensures Deletions(DoProcessDeletion(s, op).state)
  {
    if op.deletion in s.deletions && s.deletions[op.deletion].document in s.documents {
      var d := s.documents[s.deletions[op.deletion].document];
      var keys := DeletionKeys(s, s.deletions[op.deletion].document);
      CompletedDeletions(s, op.deletion, keys);
      UnfinishedDeletions(s, op.deletion, Gone(op.fault, keys), DispositionAt(op.now, d.legalHold, d.retainUntil));
    }
  }

  lemma IngestStandings(env: Environment, s: State, op: Op)
    requires op.Ingest?
    ensures var t := DoIngest(env, s, op).state;
            && t.deletions == s.deletions
            && forall d :: d in s.documents ==> d in t.documents && SameStanding(s.documents[d], t.documents[d])
  {
  }

  lemma VerifyStandings(env: Environment, s: State, op: Op)
    requires op.Verify?
    ensures var t := DoVerify(env, s, op).state;
            && t.deletions == s.deletions
            && forall d :: d in s.documents ==> d in t.documents && SameStanding(s.documents[d], t.documents[d])
  {
  }

  lemma ApplyDeletions(env: Environment, s: State, op: Op)
    requires Deletions(s)
    ensures Deletions(Apply(env, s, op).state)
  {
    var t := Apply(env, s, op).state;
    if op.ProcessDeletion? {
      ProcessDeletionDeletions(s, op);
    } else {
      if op.Ingest? {
        IngestStandings(env, s, op);
      } else if op.Verify? {
        VerifyStandings(env, s, op);
      } else {
        OtherCallsFrame(env, s, op);
      }
      forall d ensures DeletionOk(t, d) { assert DeletionOk(s, d); }
    }
  }

  lemma ApplyKeeps(env: Environment, s: State, op: Op)
    requires Inv(env, s)
    ensures Inv(env, Apply(env, s, op).state)
  {
    ApplyHoldings(env, s, op);
    ApplyDerived(env, s, op);
    ApplyDeletions(env, s, op);
  }

  /** Every state any sequence of calls can reach. */
  lemma {:induction false} ReachableInv(env: Environment, s: State, ops: seq<Op>)
    requires Inv(env, s)
    ensures Inv(env, Run(env, s, ops))
    decreases |ops|
  {
    if ops != [] {
      ApplyKeeps(env, s, ops[0]);
      ReachableInv(env, Apply(env, s, ops[0]).state, ops[1..]);
    }
  }
}
